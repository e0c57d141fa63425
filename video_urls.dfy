/** Video ids from video links (get_video_id in backend/register_yt_cosme.py and the same
    block in process_urls of backend/batch_processor.py). Splitting the link into its host,
    path and query (section 3 of RFC 3986) and decoding the query are library work: the
    parsed parts are the input here. */
module VideoUrls {
  import opened Wrappers

  /** A parsed link: the host name (lower-cased, None when the link has none), the path,
      and the query as decoded name/value pairs in order. */
  datatype ParsedUrl = ParsedUrl(hostname: Option<string>, path: string, query: seq<(string, string)>)

  predicate ShortHost(host: Option<string>) { host == Some("youtu.be") || host == Some("www.youtu.be") }
  predicate LongHost(host: Option<string>) { host == Some("youtube.com") || host == Some("www.youtube.com") }

  /** parse_qs(query).get(name, [None])[0]: blank values are dropped by the decoding, so this
      is the first non-empty value given for the name. */
  function FirstParam(query: seq<(string, string)>, name: string): (r: Option<string>)
    ensures r.Some? ==> r.value != ""
  {
    if query == [] then None
    else if query[0].0 == name && query[0].1 != "" then Some(query[0].1)
    else FirstParam(query[1..], name)
  }

  /** The value found is the first non-empty one given for the name, and None means there
      is none. */
  lemma {:induction false} FirstParamIsFirst(query: seq<(string, string)>, name: string)
    ensures FirstParam(query, name).Some? ==>
      exists k :: 0 <= k < |query| && query[k] == (name, FirstParam(query, name).value)
        && forall j :: 0 <= j < k ==> query[j].0 != name || query[j].1 == ""
    ensures FirstParam(query, name).None? ==>
      forall j :: 0 <= j < |query| ==> query[j].0 != name || query[j].1 == ""
  {
    if query != [] {
      FirstParamIsFirst(query[1..], name);
      if !(query[0].0 == name && query[0].1 != "") && FirstParam(query, name).Some? {
        var k :| 0 <= k < |query[1..]| && query[1..][k] == (name, FirstParam(query, name).value)
          && forall j :: 0 <= j < k ==> query[1..][j].0 != name || query[1..][j].1 == "";
        assert query[k + 1] == query[1..][k];
        assert forall j :: 1 <= j < k + 1 ==> query[j] == query[1..][j - 1];
      }
    }
  }

  /** get_video_id: the path without its first character on the short host, the first `v`
      value on the long host, None on any other host. */
  function VideoId(u: ParsedUrl): Option<string> {
    if ShortHost(u.hostname) then Some(if u.path == "" then "" else u.path[1..])
    else if LongHost(u.hostname) then FirstParam(u.query, "v")
    else None
  }

  /** The id process_urls goes on with: the same rule, where an empty id is skipped too. */
  function UsableVideoId(u: ParsedUrl): (r: Option<string>)
    ensures r.Some? <==> VideoId(u).Some? && VideoId(u).value != ""
    ensures r.Some? ==> r == VideoId(u)
  {
    match VideoId(u)
    case None => None
    case Some(id) => if id == "" then None else Some(id)
  }

  /** The short link https://youtu.be/<id>, parsed. */
  function ShortLink(id: string, www: bool): ParsedUrl {
    ParsedUrl(Some(if www then "www.youtu.be" else "youtu.be"), "/" + id, [])
  }

  /** The watch link https://www.youtube.com/watch?<before>&v=<id>..., parsed. */
  function WatchLink(id: string, before: seq<(string, string)>, after: seq<(string, string)>, www: bool): ParsedUrl {
    ParsedUrl(Some(if www then "www.youtube.com" else "youtube.com"), "/watch", before + [("v", id)] + after)
  }

  /** Both link forms give back the id they were made from, on either host spelling, when no
      earlier parameter gives a non-empty `v`. */
  lemma {:induction false} VideoIdOfLinks(id: string, before: seq<(string, string)>, after: seq<(string, string)>, www: bool)
    requires id != ""
    requires forall j :: 0 <= j < |before| ==> before[j].0 != "v" || before[j].1 == ""
    ensures VideoId(ShortLink(id, www)) == Some(id) && UsableVideoId(ShortLink(id, www)) == Some(id)
    ensures VideoId(WatchLink(id, before, after, www)) == Some(id)
  {
    assert ("/" + id)[1..] == id;
    FirstParamAfter(before, id, after);
  }

  lemma {:induction false} FirstParamAfter(before: seq<(string, string)>, id: string, after: seq<(string, string)>)
    requires id != ""
    requires forall j :: 0 <= j < |before| ==> before[j].0 != "v" || before[j].1 == ""
    ensures FirstParam(before + [("v", id)] + after, "v") == Some(id)
  {
    if before != [] {
      assert (before + [("v", id)] + after)[1..] == before[1..] + [("v", id)] + after;
      FirstParamAfter(before[1..], id, after);
    }
  }

  /** Any other host gives no id, whatever its path and query. */
  lemma OtherHostNoId(u: ParsedUrl)
    requires !ShortHost(u.hostname) && !LongHost(u.hostname)
    ensures VideoId(u) == None && UsableVideoId(u) == None
  {
  }
}
