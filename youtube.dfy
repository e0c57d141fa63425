/** The video-platform client (backend/services/youtube.py): turning a channel reference
    into a channel id, the fallback subtitle parser for WebVTT files (section 4.1 of the
    W3C WebVTT format, cue timings with hours only), and the paging through a channel's
    upload list. URL parsing, the API requests and the download are parameters. */
module YouTube {
  import opened Wrappers
  import opened Text
  import opened Models
  import opened Collections

  // ---------------------------------------------------------------- resolve_channel_id

  /** A character of the regex class [\w-] (ASCII letters, digits, `_` and `-`). */
  predicate WordChar(c: char) {
    ('a' <= c <= 'z') || ('A' <= c <= 'Z') || IsDigit(c) || c == '_' || c == '-'
  }

  /** The longest prefix made of [\w-] characters. */
  function WordRun(s: string): (r: string)
    ensures r <= s
    ensures forall k :: 0 <= k < |r| ==> WordChar(r[k])
    ensures |r| < |s| ==> !WordChar(s[|r|])
  {
    if s == [] || !WordChar(s[0]) then [] else [s[0]] + WordRun(s[1..])
  }

  /** What `.+` captures: the text up to the first line break. */
  function FirstLine(s: string): string { BeforeFirst(s, "\n") }

  /** An input that already is a channel id: "UC" and 24 characters. */
  predicate DirectId(input: string) { "UC" <= input && |input| == 24 }

  /** The path matches `@(.+)`. */
  predicate HandlePath(path: string) { |path| >= 1 && path[0] == '@' && FirstLine(path[1..]) != "" }

  /** The path matches `channel/(UC[\w-]+)`. */
  predicate ChannelPath(path: string) { "channel/UC" <= path && WordRun(path[10..]) != "" }

  /** The path matches `c/(.+)`. */
  predicate CustomPath(path: string) { "c/" <= path && FirstLine(path[2..]) != "" }

  /** An id from a lookup that did not raise and found a channel. */
  function Found(answer: Result<Option<string>, string>): Option<string> {
    if answer.Ok? then answer.value else None
  }

  /** resolve_channel_id: a direct id is returned as given; otherwise the URL path, with its
      slashes stripped, is tried as a handle, then as /channel/<id>, then as /c/<name>.
      A handle is looked up by name; only when that request raises is the channel search
      asked with the "@" form, and a handle never falls through to the later forms. The
      /c/ form asks the channel search. Anything else gives None. */
  function ResolveChannelId(input: string, urlPath: string,
                            forHandle: string -> Result<Option<string>, string>,
                            search: string -> Result<Option<string>, string>): (r: Option<string>)
    ensures DirectId(input) ==> r == Some(input)
  {
    if DirectId(input) then Some(input)
    else
      var path := StripChar(urlPath, '/');
      if HandlePath(path) then
        var name := FirstLine(path[1..]);
        match forHandle(name)
        case Ok(found) => found
        case Err(_) => Found(search("@" + name))
      else if ChannelPath(path) then Some("UC" + WordRun(path[10..]))
      else if CustomPath(path) then Found(search(FirstLine(path[2..])))
      else None
  }

  /** A handle path is answered by the handle lookup, or, when that raises, by the search
      for the handle: whatever else the path holds, no later form is tried. */
  lemma HandleNeverFallsThrough(input: string, urlPath: string,
                                forHandle: string -> Result<Option<string>, string>,
                                search: string -> Result<Option<string>, string>,
                                search2: string -> Result<Option<string>, string>)
    requires !DirectId(input) && HandlePath(StripChar(urlPath, '/'))
    ensures var name := FirstLine(StripChar(urlPath, '/')[1..]);
      var r := ResolveChannelId(input, urlPath, forHandle, search);
      && (r.Some? ==> forHandle(name) == Ok(r) || (forHandle(name).Err? && search("@" + name) == Ok(r)))
      && (forHandle(name).Ok? || search("@" + name) == search2("@" + name) ==>
            r == ResolveChannelId(input, urlPath, forHandle, search2))
  {
  }

  /** /channel/UC<run><rest>, where the run is the longest stretch of [\w-] characters,
      gives the id UC<run> with no request made. */
  lemma ChannelPathGivesId(input: string, urlPath: string, run: string, rest: string,
                           forHandle: string -> Result<Option<string>, string>,
                           search: string -> Result<Option<string>, string>)
    requires !DirectId(input)
    requires StripChar(urlPath, '/') == "channel/UC" + run + rest
    requires run != [] && (forall k :: 0 <= k < |run| ==> WordChar(run[k]))
    requires rest == [] || !WordChar(rest[0])
    ensures ResolveChannelId(input, urlPath, forHandle, search) == Some("UC" + run)
  {
    ChannelPathShape(StripChar(urlPath, '/'), run, rest);
  }

  /** The path channel/UC<run><rest> is no handle, and is a channel path whose id is UC<run>. */
  lemma ChannelPathShape(path: string, run: string, rest: string)
    requires path == "channel/UC" + run + rest
    requires run != [] && (forall k :: 0 <= k < |run| ==> WordChar(run[k]))
    requires rest == [] || !WordChar(rest[0])
    ensures !HandlePath(path) && ChannelPath(path) && WordRun(path[10..]) == run
  {
    assert path[0] == 'c';
    assert path[..10] == "channel/UC";
    assert path[10..] == run + rest;
    WordRunOf(run, rest);
  }

  lemma {:induction false} WordRunOf(run: string, rest: string)
    requires forall k :: 0 <= k < |run| ==> WordChar(run[k])
    requires rest == [] || !WordChar(rest[0])
    ensures WordRun(run + rest) == run
  {
    if run != [] {
      assert (run + rest)[1..] == run[1..] + rest;
      WordRunOf(run[1..], rest);
    }
  }

  /** A path that fits none of the forms gives None, whatever the lookups would say. */
  lemma NoFormNoId(input: string, urlPath: string,
                   forHandle: string -> Result<Option<string>, string>,
                   search: string -> Result<Option<string>, string>)
    requires !DirectId(input)
    requires var path := StripChar(urlPath, '/'); !HandlePath(path) && !ChannelPath(path) && !CustomPath(path)
    ensures ResolveChannelId(input, urlPath, forHandle, search) == None
  {
  }

  // ---------------------------------------------------------------- cue timings

  /** The shape of a cue time hh:mm:ss.ttt (two digits each for hours, minutes and
      seconds, then three for milliseconds), where `0` stands for any decimal digit. */
  const ClockShape: string := "00:00:00.000"

  /** A character fits a shape character: a digit for `0`, itself otherwise. */
  predicate Fits(c: char, shape: char) {
    if shape == '0' then IsDigit(c) else c == shape
  }

  /** The characters of s from p + k on fit the shape from k on. */
  predicate FitsFrom(s: string, p: nat, shape: string, k: nat)
    requires p + |shape| <= |s| && k <= |shape|
    decreases |shape| - k
  {
    k == |shape| || (Fits(s[p + k], shape[k]) && FitsFrom(s, p, shape, k + 1))
  }

  lemma {:induction false} FitsFromAll(s: string, p: nat, shape: string, k: nat)
    requires p + |shape| <= |s| && k <= |shape|
    ensures FitsFrom(s, p, shape, k) <==> forall i :: k <= i < |shape| ==> Fits(s[p + i], shape[i])
    decreases |shape| - k
  {
    if k < |shape| {
      FitsFromAll(s, p, shape, k + 1);
    }
  }

  /** A cue time starts at position p. */
  predicate ClockAt(s: string, p: nat) {
    p + 12 <= |s| && FitsFrom(s, p, ClockShape, 0)
  }

  /** The digit positions of a cue time hold digits. */
  lemma ClockDigits(s: string, p: nat)
    requires ClockAt(s, p)
    ensures IsDigit(s[p]) && IsDigit(s[p + 1]) && IsDigit(s[p + 3]) && IsDigit(s[p + 4])
    ensures IsDigit(s[p + 6]) && IsDigit(s[p + 7]) && IsDigit(s[p + 9]) && IsDigit(s[p + 10]) && IsDigit(s[p + 11])
  {
    FitsFromAll(s, p, ClockShape, 0);
    assert Fits(s[p], ClockShape[0]) && Fits(s[p + 1], ClockShape[1]);
    assert Fits(s[p + 3], ClockShape[3]) && Fits(s[p + 4], ClockShape[4]);
    assert Fits(s[p + 6], ClockShape[6]) && Fits(s[p + 7], ClockShape[7]);
    assert Fits(s[p + 9], ClockShape[9]) && Fits(s[p + 10], ClockShape[10]) && Fits(s[p + 11], ClockShape[11]);
  }

  /** parse_time, in milliseconds: hours * 3600 + minutes * 60 + seconds. */
  function ClockValue(s: string, p: nat): (ms: nat)
    requires ClockAt(s, p)
  {
    ClockDigits(s, p);
    var h := DigitValue(s[p]) * 10 + DigitValue(s[p + 1]);
    var m := DigitValue(s[p + 3]) * 10 + DigitValue(s[p + 4]);
    var sec := DigitValue(s[p + 6]) * 10 + DigitValue(s[p + 7]);
    ((h * 60 + m) * 60 + sec) * 1000 + DigitValue(s[p + 9]) * 100 + DigitValue(s[p + 10]) * 10 + DigitValue(s[p + 11])
  }

  /** Two strings that agree on the twelve characters of a cue time agree on it. */
  lemma {:induction false} ClockAtSame(s: string, p: nat, t: string, q: nat, k: nat)
    requires p + 12 <= |s| && q + 12 <= |t| && k <= 12
    requires s[p..p + 12] == t[q..q + 12]
    ensures FitsFrom(s, p, ClockShape, k) == FitsFrom(t, q, ClockShape, k)
    decreases 12 - k
  {
    if k < 12 {
      assert s[p + k] == s[p..p + 12][k] == t[q..q + 12][k] == t[q + k];
      ClockAtSame(s, p, t, q, k + 1);
    }
  }

  /** The timing pattern `hh:mm:ss.ttt --> hh:mm:ss.ttt` starts at position p. */
  predicate TimingAt(s: string, p: nat) {
    && p + 29 <= |s| && ClockAt(s, p)
    && s[p + 12] == ' ' && s[p + 13] == '-' && s[p + 14] == '-' && s[p + 15] == '>' && s[p + 16] == ' '
    && ClockAt(s, p + 17)
  }

  /** The leftmost position from p on where the timing pattern starts. */
  function FindTiming(s: string, p: nat): (r: Option<nat>)
    ensures r.Some? ==> p <= r.value && TimingAt(s, r.value)
    decreases |s| - p
  {
    if p + 29 > |s| then None
    else if TimingAt(s, p) then Some(p)
    else FindTiming(s, p + 1)
  }

  /** The search finds the leftmost match, and finds none exactly when there is none. */
  lemma {:induction false} FindTimingLeftmost(s: string, p: nat)
    ensures FindTiming(s, p).Some? ==> forall q :: p <= q < FindTiming(s, p).value ==> !TimingAt(s, q)
    ensures FindTiming(s, p).None? <==> forall q :: p <= q ==> !TimingAt(s, q)
    decreases |s| - p
  {
    if p + 29 <= |s| && !TimingAt(s, p) {
      FindTimingLeftmost(s, p + 1);
    }
  }

  /** time_pattern.search: the start and end of the first cue timing in the line, in
      milliseconds. */
  function Timing(line: string): Option<(nat, nat)> {
    match FindTiming(line, 0)
    case None => None
    case Some(p) => Some((ClockValue(line, p), ClockValue(line, p + 17)))
  }

  // ---------------------------------------------------------------- cue text

  /** The index of the first `>`. */
  function FirstClose(s: string): (r: Option<nat>)
    ensures r.Some? ==> r.value < |s|
  {
    if s == [] then None
    else if s[0] == '>' then Some(0)
    else match FirstClose(s[1..])
      case None => None
      case Some(k) => Some(k + 1)
  }

  /** The search finds the first `>`, and none exactly when there is none. */
  lemma {:induction false} FirstCloseIsFirst(s: string)
    ensures FirstClose(s).Some? ==> s[FirstClose(s).value] == '>' && forall j :: 0 <= j < FirstClose(s).value ==> s[j] != '>'
    ensures FirstClose(s).None? <==> '>' !in s
  {
    if s != [] && s[0] != '>' {
      FirstCloseIsFirst(s[1..]);
      assert s == [s[0]] + s[1..];
    }
  }

  /** The pattern `<[^>]+>` matches at position i: a `<`, at least one character, and the
      first `>` after it. */
  predicate TagAt(s: string, i: nat)
    requires i < |s|
  {
    s[i] == '<' && FirstClose(s[i + 1..]).Some? && FirstClose(s[i + 1..]).value >= 1
  }

  /** re.sub(r'<[^>]+>', '', s): each tag, scanning from the left, removed. */
  function RemoveTags(s: string): (r: string)
    ensures |r| <= |s|
    decreases |s|
  {
    if s == [] then []
    else if TagAt(s, 0) then RemoveTags(s[FirstClose(s[1..]).value + 2..])
    else [s[0]] + RemoveTags(s[1..])
  }

  /** Removal keeps only characters of the input. */
  lemma {:induction false} RemoveTagsChars(s: string)
    ensures forall c :: c in RemoveTags(s) ==> c in s
    decreases |s|
  {
    if s != [] {
      if TagAt(s, 0) {
        RemoveTagsChars(s[FirstClose(s[1..]).value + 2..]);
      } else {
        RemoveTagsChars(s[1..]);
      }
    }
  }

  /** No tag is left after the removal. */
  lemma {:induction false} RemoveTagsLeavesNone(s: string)
    ensures forall i :: 0 <= i < |RemoveTags(s)| ==> !TagAt(RemoveTags(s), i)
    decreases |s|
  {
    if s != [] {
      if TagAt(s, 0) {
        RemoveTagsLeavesNone(s[FirstClose(s[1..]).value + 2..]);
      } else {
        var rest := RemoveTags(s[1..]);
        var r := [s[0]] + rest;
        RemoveTagsLeavesNone(s[1..]);
        forall i | 1 <= i < |r|
          ensures !TagAt(r, i)
        {
          assert r[i + 1..] == rest[i..];
          assert !TagAt(rest, i - 1);
        }
        if s[0] == '<' {
          if FirstClose(s[1..]).None? {
            RemoveTagsChars(s[1..]);
            FirstCloseIsFirst(s[1..]);
            FirstCloseIsFirst(r[1..]);
            assert '>' !in rest;
            assert FirstClose(r[1..]).None?;
          } else {
            assert s[1] == '>';
            assert rest == [s[1]] + RemoveTags(s[2..]) by {
              assert s[1..][1..] == s[2..];
            }
            assert FirstClose(r[1..]) == Some(0);
          }
        }
      }
    }
  }

  /** A text without `<` loses nothing. */
  lemma {:induction false} RemoveTagsWithoutLt(s: string)
    requires '<' !in s
    ensures RemoveTags(s) == s
  {
    if s != [] {
      RemoveTagsWithoutLt(s[1..]);
    }
  }

  /** What the parser reads off one line: the cue timing the line holds, whether the line,
      once stripped, ends a cue's text (it is blank or holds a timing), and the stripped
      line cleared of tags. */
  datatype LineView = LineView(timing: Option<(nat, nat)>, endsText: bool, text: string)

  function View(line: string): LineView {
    var next := Strip(line);
    LineView(Timing(line), next == "" || Timing(next).Some?, RemoveTags(next))
  }

  /** The views of the file's lines, in order. */
  function Views(lines: seq<string>): (vs: seq<LineView>)
    ensures |vs| == |lines|
  {
    if lines == [] then [] else [View(lines[0])] + Views(lines[1..])
  }

  /** The view at k is the view of line k. */
  lemma {:induction false} ViewsAt(lines: seq<string>, k: nat)
    requires k < |lines|
    ensures Views(lines)[k] == View(lines[k])
  {
    if k > 0 {
      ViewsAt(lines[1..], k - 1);
    }
  }

  /** The view at k, field by field. */
  lemma ViewFields(lines: seq<string>, k: nat)
    requires k < |lines|
    ensures var next := Strip(lines[k]);
      Views(lines)[k] == LineView(Timing(lines[k]), next == "" || Timing(next).Some?, RemoveTags(next))
  {
    ViewsAt(lines, k);
  }

  /** The timing of the view at k is that of line k. */
  lemma ViewTiming(lines: seq<string>, k: nat)
    requires k < |lines|
    ensures Views(lines)[k].timing == Timing(lines[k])
  {
    ViewsAt(lines, k);
  }

  /** The text lines of a cue from line j on: up to the first line that ends the text,
      lines left empty once cleared dropped. */
  function TextParts(vs: seq<LineView>, j: nat): seq<string>
    decreases |vs| - j
  {
    if j >= |vs| || vs[j].endsText then []
    else (if vs[j].text != "" then [vs[j].text] else []) + TextParts(vs, j + 1)
  }

  /** Every text part holds text. */
  lemma {:induction false} TextPartsNonEmpty(vs: seq<LineView>, j: nat)
    ensures forall k :: 0 <= k < |TextParts(vs, j)| ==> TextParts(vs, j)[k] != ""
    decreases |vs| - j
  {
    if j < |vs| {
      TextPartsNonEmpty(vs, j + 1);
    }
  }

  /** The cue a line starts, if any: a timing line followed by some text. */
  function CueAt(vs: seq<LineView>, i: nat): seq<Cue>
    requires i < |vs|
  {
    match vs[i].timing
    case None => []
    case Some(t) =>
      var parts := TextParts(vs, i + 1);
      if parts == [] then [] else [Cue(Join(" ", parts), t.0, t.1 - t.0)]
  }

  /** The cues of the lines before n, in file order. */
  function CuesBefore(vs: seq<LineView>, n: nat): seq<Cue>
    requires n <= |vs|
  {
    if n == 0 then [] else CuesBefore(vs, n - 1) + CueAt(vs, n - 1)
  }

  /** The cues of all the lines. */
  function Cues(vs: seq<LineView>): seq<Cue> {
    CuesBefore(vs, |vs|)
  }

  /** The subtitle file's cues. */
  function Transcript(lines: seq<string>): seq<Cue> {
    Cues(Views(lines))
  }

  /** The text lines read so far, followed by those still to read, are the cue's text. */
  ghost predicate PartsSoFar(vs: seq<LineView>, from: nat, parts: seq<string>, j: nat) {
    parts + TextParts(vs, j) == TextParts(vs, from)
  }

  lemma PartsStep(vs: seq<LineView>, from: nat, parts: seq<string>, j: nat)
    requires j < |vs| && PartsSoFar(vs, from, parts, j) && !vs[j].endsText
    ensures vs[j].text != "" ==> PartsSoFar(vs, from, parts + [vs[j].text], j + 1)
    ensures vs[j].text == "" ==> PartsSoFar(vs, from, parts, j + 1)
  {
    if vs[j].text != "" {
      AppendAssoc(parts, [vs[j].text], TextParts(vs, j + 1));
    }
  }

  /** The text lines of a cue, read from line `from` on. */
  method ReadCueText(lines: seq<string>, from: nat) returns (parts: seq<string>)
    ensures parts == TextParts(Views(lines), from)
  {
    ghost var vs := Views(lines);
    parts := [];
    var j := from;
    while j < |lines|
      invariant from <= j
      invariant PartsSoFar(vs, from, parts, j)
      decreases |lines| - j
    {
      var next := Strip(lines[j]);
      ViewFields(lines, j);
      if next == "" || Timing(next).Some? {
        break;
      }
      PartsStep(vs, from, parts, j);
      var clean := RemoveTags(next);
      if clean != "" {
        parts := parts + [clean];
      }
      j := j + 1;
    }
  }

  /** What the line at i adds to the cues: nothing, unless it holds a timing and text
      follows it. */
  lemma CueStep(vs: seq<LineView>, i: nat)
    requires i < |vs|
    ensures vs[i].timing.None? || TextParts(vs, i + 1) == [] ==> CuesBefore(vs, i + 1) == CuesBefore(vs, i)
    ensures vs[i].timing.Some? && TextParts(vs, i + 1) != [] ==>
      var t := vs[i].timing.value;
      CuesBefore(vs, i + 1) == CuesBefore(vs, i) + [Cue(Join(" ", TextParts(vs, i + 1)), t.0, t.1 - t.0)]
  {
  }

  /** CueStep in the terms of the line itself. */
  lemma CueLine(lines: seq<string>, i: nat)
    requires i < |lines|
    ensures Timing(lines[i]).None? ==> CuesBefore(Views(lines), i + 1) == CuesBefore(Views(lines), i)
    ensures Timing(lines[i]).Some? && TextParts(Views(lines), i + 1) == [] ==>
      CuesBefore(Views(lines), i + 1) == CuesBefore(Views(lines), i)
    ensures Timing(lines[i]).Some? && TextParts(Views(lines), i + 1) != [] ==>
      var t := Timing(lines[i]).value;
      CuesBefore(Views(lines), i + 1)
        == CuesBefore(Views(lines), i) + [Cue(Join(" ", TextParts(Views(lines), i + 1)), t.0, t.1 - t.0)]
  {
    var vs := Views(lines);
    ViewTiming(lines, i);
    assert vs[i].timing == Timing(lines[i]);
    CueStep(vs, i);
  }

  /** The cue, if any, that the line at i starts. */
  method CueOfLine(lines: seq<string>, i: nat) returns (added: seq<Cue>)
    requires i < |lines|
    ensures added == CueAt(Views(lines), i)
    ensures CuesBefore(Views(lines), i + 1) == CuesBefore(Views(lines), i) + added
  {
    ghost var vs := Views(lines);
    added := [];
    var timing := Timing(lines[i]);
    ViewTiming(lines, i);
    assert vs[i].timing == timing;
    if timing.Some? {
      var start: int := timing.value.0;
      var duration: int := timing.value.1 - start;
      var parts := ReadCueText(lines, i + 1);
      if parts != [] {
        added := [Cue(Join(" ", parts), start, duration)];
      }
    }
  }

  /** The manual subtitle parser over the file's lines: each timing line starts a cue whose
      text is read from the lines after it, and cues without text are dropped. */
  method ParseVtt(lines: seq<string>) returns (cues: seq<Cue>)
    ensures cues == Transcript(lines)
  {
    cues := [];
    for i := 0 to |lines|
      invariant cues == CuesBefore(Views(lines), i)
    {
      var added := CueOfLine(lines, i);
      cues := cues + added;
    }
  }

  /** Every cue parsed has text. */
  lemma {:induction false} CuesHaveText(vs: seq<LineView>, n: nat)
    requires n <= |vs|
    ensures forall k :: 0 <= k < |CuesBefore(vs, n)| ==> CuesBefore(vs, n)[k].text != ""
  {
    if n > 0 {
      CuesHaveText(vs, n - 1);
      var parts := TextParts(vs, n);
      TextPartsNonEmpty(vs, n);
      if vs[n - 1].timing.Some? && parts != [] {
        JoinStartsWithFirst(parts);
      }
    }
  }

  lemma {:induction false} JoinStartsWithFirst(parts: seq<string>)
    requires parts != [] && parts[0] != ""
    ensures Join(" ", parts) != "" && Join(" ", parts)[0] == parts[0][0]
  {
  }

  // ---------------------------------------------------------------- the round trip

  /** Cue times below 100 hours fit the two hour digits. */
  const ClockLimit: nat := 360000000

  function Digit(d: nat): (c: char)
    requires d < 10
    ensures IsDigit(c) && DigitValue(c) == d
  {
    ('0' as int + d) as char
  }

  /** The last `width` decimal digits of n, zero padded. */
  function Digits(n: nat, width: nat): (r: string)
    ensures |r| == width && forall k :: 0 <= k < width ==> IsDigit(r[k])
  {
    if width == 0 then [] else Digits(n / 10, width - 1) + [Digit(n % 10)]
  }

  lemma TwoDigitsValue(n: nat)
    requires n < 100
    ensures DigitValue(Digits(n, 2)[0]) * 10 + DigitValue(Digits(n, 2)[1]) == n
  {
    assert Digits(n, 2) == [Digit(n / 10 % 10), Digit(n % 10)];
  }

  lemma ThreeDigitsValue(n: nat)
    requires n < 1000
    ensures DigitValue(Digits(n, 3)[0]) * 100 + DigitValue(Digits(n, 3)[1]) * 10 + DigitValue(Digits(n, 3)[2]) == n
  {
    assert Digits(n / 10, 2) == [Digit(n / 10 / 10 % 10), Digit(n / 10 % 10)];
    assert Digits(n, 3) == [Digit(n / 10 / 10 % 10), Digit(n / 10 % 10), Digit(n % 10)];
  }

  /** A time in milliseconds written as hh:mm:ss.ttt. */
  function ClockString(ms: nat): (c: string)
    requires ms < ClockLimit
    ensures |c| == 12
  {
    var secs := ms / 1000;
    var mins := secs / 60;
    Digits(mins / 60, 2) + ":" + Digits(mins % 60, 2) + ":" + Digits(secs % 60, 2) + "." + Digits(ms % 1000, 3)
  }

  /** A written time is a cue time, and reading it gives it back. */
  lemma ClockRoundTrip(ms: nat)
    requires ms < ClockLimit
    ensures ClockAt(ClockString(ms), 0) && ClockValue(ClockString(ms), 0) == ms
  {
    var c := ClockString(ms);
    var secs := ms / 1000;
    var mins := secs / 60;
    var h, m, sc, t := Digits(mins / 60, 2), Digits(mins % 60, 2), Digits(secs % 60, 2), Digits(ms % 1000, 3);
    assert c == h + ":" + m + ":" + sc + "." + t;
    assert c[0] == h[0] && c[1] == h[1] && c[3] == m[0] && c[4] == m[1] && c[6] == sc[0] && c[7] == sc[1];
    assert c[9] == t[0] && c[10] == t[1] && c[11] == t[2];
    assert c[2] == ':' && c[5] == ':' && c[8] == '.';
    FitsFromAll(c, 0, ClockShape, 0);
    TwoDigitsValue(mins / 60);
    TwoDigitsValue(mins % 60);
    TwoDigitsValue(secs % 60);
    ThreeDigitsValue(ms % 1000);
  }

  /** Both times of the cue fit a written time. */
  predicate TimesWritable(c: Cue) {
    0 <= c.startMs < ClockLimit && 0 <= c.startMs + c.durationMs < ClockLimit
  }

  /** A text the file can carry as one text line: non-empty, no surrounding whitespace,
      no `<` and no cue timing. */
  predicate TextWritable(text: string) {
    text != "" && !IsSpace(text[0]) && !IsSpace(text[|text| - 1]) && '<' !in text && Timing(text).None?
  }

  /** The block of a cue: its timing line, its text and a blank line. */
  function Block(c: Cue): seq<string>
    requires TimesWritable(c)
  {
    [TimingLine(c.startMs, c.startMs + c.durationMs), c.text, ""]
  }

  /** The blocks of the cues, one after the other. */
  function Render(cues: seq<Cue>): seq<string>
    requires forall k :: 0 <= k < |cues| ==> TimesWritable(cues[k])
  {
    if cues == [] then [] else Block(cues[0]) + Render(cues[1..])
  }

  /** Two written times joined by the arrow read as a cue timing. */
  lemma TimingOfLine(a: string, b: string)
    requires |a| == 12 && ClockAt(a, 0) && |b| == 12 && ClockAt(b, 0)
    ensures Timing(a + " --> " + b) == Some((ClockValue(a, 0), ClockValue(b, 0)))
  {
    var line := a + " --> " + b;
    assert line[0..12] == a[0..12] && line[17..29] == b[0..12];
    ClockAtSame(line, 0, a, 0, 0);
    ClockAtSame(line, 17, b, 0, 0);
    assert TimingAt(line, 0);
  }

  /** The timing line of a cue from start to end. */
  function TimingLine(start: nat, end: nat): string
    requires start < ClockLimit && end < ClockLimit
  {
    ClockString(start) + " --> " + ClockString(end)
  }

  /** A written timing line reads back as its two times. */
  lemma TimingLineReads(start: nat, end: nat)
    requires start < ClockLimit && end < ClockLimit
    ensures Timing(TimingLine(start, end)) == Some((start, end))
  {
    ClockRoundTrip(start);
    ClockRoundTrip(end);
    TimingOfLine(ClockString(start), ClockString(end));
  }

  /** A line that is a written timing line is viewed with its two times. */
  lemma TimingLineView(line: string, start: nat, end: nat)
    requires start < ClockLimit && end < ClockLimit && line == TimingLine(start, end)
    ensures View(line).timing == Some((start, end))
  {
    TimingLineReads(start, end);
  }

  /** A writable text line is read as itself, and does not end the text. */
  lemma TextLineView(text: string)
    requires TextWritable(text)
    ensures View(text) == LineView(None, false, text)
  {
    assert Strip(text) == text;
    RemoveTagsWithoutLt(text);
  }

  /** Three views, a timing, a text and a blank line, give one cue. */
  lemma ThreeViewCue(vs: seq<LineView>, c: Cue)
    requires |vs| == 3 && vs[0].timing == Some((c.startMs, c.startMs + c.durationMs)) && c.text != ""
    requires vs[1] == LineView(None, false, c.text) && vs[2] == LineView(None, true, "")
    ensures CuesBefore(vs, 3) == [c]
  {
    assert TextParts(vs, 1) == [c.text];
    assert Join(" ", [c.text]) == c.text;
    assert CuesBefore(vs, 1) == [c];
    assert CuesBefore(vs, 2) == [c];
  }

  /** Three lines, a timing line, a writable text and a blank line, give one cue. */
  lemma ThreeLineCue(b: seq<string>, c: Cue)
    requires |b| == 3 && View(b[0]).timing == Some((c.startMs, c.startMs + c.durationMs))
    requires TextWritable(c.text) && b[1] == c.text && b[2] == ""
    ensures Transcript(b) == [c]
  {
    var vs := Views(b);
    ViewsAt(b, 0);
    ViewsAt(b, 1);
    ViewsAt(b, 2);
    TextLineView(c.text);
    ThreeViewCue(vs, c);
  }

  /** A block parses back to its cue. */
  lemma BlockRoundTrip(c: Cue)
    requires TimesWritable(c) && TextWritable(c.text)
    ensures Transcript(Block(c)) == [c]
  {
    var b := Block(c);
    TimingLineView(b[0], c.startMs, c.startMs + c.durationMs);
    ThreeLineCue(b, c);
  }

  /** A file's views are those of its parts. */
  lemma {:induction false} ViewsAppend(x: seq<string>, y: seq<string>)
    ensures Views(x + y) == Views(x) + Views(y)
  {
    if x == [] {
      assert x + y == y;
    } else {
      assert (x + y)[0] == x[0];
      assert (x + y)[1..] == x[1..] + y;
      ViewsAppend(x[1..], y);
      AppendAssoc([View(x[0])], Views(x[1..]), Views(y));
    }
  }

  /** The last line of the first part ends any text and starts no cue. */
  predicate ClosesBlock(x: seq<LineView>) {
    x != [] && x[|x| - 1].endsText && x[|x| - 1].timing.None?
  }

  /** Text gathering stops at the line that closes the first part. */
  lemma {:induction false} TextPartsLeft(x: seq<LineView>, y: seq<LineView>, j: nat)
    requires j < |x| && ClosesBlock(x)
    ensures TextParts(x + y, j) == TextParts(x, j)
    decreases |x| - j
  {
    assert (x + y)[j] == x[j];
    if j + 1 < |x| {
      TextPartsLeft(x, y, j + 1);
    }
  }

  lemma {:induction false} TextPartsRight(x: seq<LineView>, y: seq<LineView>, j: nat)
    requires j <= |y|
    ensures TextParts(x + y, |x| + j) == TextParts(y, j)
    decreases |y| - j
  {
    if j < |y| {
      assert (x + y)[|x| + j] == y[j];
      TextPartsRight(x, y, j + 1);
    }
  }

  lemma {:induction false} CuesBeforeLeft(x: seq<LineView>, y: seq<LineView>, n: nat)
    requires n <= |x| && ClosesBlock(x)
    ensures CuesBefore(x + y, n) == CuesBefore(x, n)
  {
    if n > 0 {
      CuesBeforeLeft(x, y, n - 1);
      CueAtLeft(x, y, n - 1);
      assert CuesBefore(x + y, n) == CuesBefore(x + y, n - 1) + CueAt(x + y, n - 1);
      assert CuesBefore(x, n) == CuesBefore(x, n - 1) + CueAt(x, n - 1);
    }
  }

  /** A line of the first part starts the same cue in the joined file. */
  lemma CueAtLeft(x: seq<LineView>, y: seq<LineView>, i: nat)
    requires i < |x| && ClosesBlock(x)
    ensures CueAt(x + y, i) == CueAt(x, i)
  {
    assert (x + y)[i] == x[i];
    if i + 1 < |x| {
      TextPartsLeft(x, y, i + 1);
    }
  }

  /** A line of the second part starts the same cue in the joined file. */
  lemma CueAtRight(x: seq<LineView>, y: seq<LineView>, i: nat)
    requires i < |y|
    ensures CueAt(x + y, |x| + i) == CueAt(y, i)
  {
    assert (x + y)[|x| + i] == y[i];
    TextPartsRight(x, y, i + 1);
    assert TextParts(x + y, |x| + i + 1) == TextParts(y, i + 1);
  }

  /** One more line of the second part adds the same cues in the joined file. */
  lemma CuesBeforeRightStep(x: seq<LineView>, y: seq<LineView>, k: nat)
    requires 0 < k <= |y|
    requires CuesBefore(x + y, |x| + k - 1) == CuesBefore(x, |x|) + CuesBefore(y, k - 1)
    ensures CuesBefore(x + y, |x| + k) == CuesBefore(x, |x|) + CuesBefore(y, k)
  {
    var a, b, c := CuesBefore(x, |x|), CuesBefore(y, k - 1), CueAt(y, k - 1);
    var n := |x| + k - 1;
    assert CuesBefore(x + y, n + 1) == CuesBefore(x + y, n) + CueAt(x + y, n);
    CueAtRight(x, y, k - 1);
    assert CuesBefore(y, k) == b + c;
    AppendAssoc(a, b, c);
    assert CuesBefore(x + y, n + 1) == a + (b + c);
  }

  lemma {:induction false} CuesBeforeRight(x: seq<LineView>, y: seq<LineView>, k: nat)
    requires k <= |y| && ClosesBlock(x)
    ensures CuesBefore(x + y, |x| + k) == CuesBefore(x, |x|) + CuesBefore(y, k)
  {
    if k == 0 {
      CuesBeforeLeft(x, y, |x|);
      assert CuesBefore(y, 0) == [];
      assert CuesBefore(x, |x|) + [] == CuesBefore(x, |x|);
    } else {
      CuesBeforeRight(x, y, k - 1);
      CuesBeforeRightStep(x, y, k);
    }
  }

  /** Views split after a line that closes a block give the cues of each part in turn. */
  lemma CuesAppend(vx: seq<LineView>, vy: seq<LineView>)
    requires ClosesBlock(vx)
    ensures Cues(vx + vy) == Cues(vx) + Cues(vy)
  {
    CuesBeforeRight(vx, vy, |vy|);
  }

  /** Two files, the first ending in a blank line, parse to the cues of each in turn. */
  lemma TranscriptAppend(x: seq<string>, y: seq<string>)
    requires x != [] && x[|x| - 1] == ""
    ensures Transcript(x + y) == Transcript(x) + Transcript(y)
  {
    ViewsAppend(x, y);
    ViewsAt(x, |x| - 1);
    CuesAppend(Views(x), Views(y));
  }

  /** Writing cues as blocks and parsing the file gives the cues back. */
  lemma {:induction false} RenderRoundTrip(cues: seq<Cue>)
    requires forall k :: 0 <= k < |cues| ==> TimesWritable(cues[k]) && TextWritable(cues[k].text)
    ensures Transcript(Render(cues)) == cues
  {
    if cues != [] {
      var c, rest := cues[0], cues[1..];
      assert forall k :: 0 <= k < |rest| ==> rest[k] == cues[k + 1];
      RenderRoundTrip(rest);
      BlockRoundTrip(c);
      assert Render(cues) == Block(c) + Render(rest);
      TranscriptAppend(Block(c), Render(rest));
      assert cues == [c] + rest;
    }
  }

  // ---------------------------------------------------------------- get_channel_videos

  /** A request for one page of the uploads playlist. */
  datatype PageRequest = PageRequest(playlistId: string, pageToken: Option<string>, maxResults: nat)

  /** A page: its videos and the token of the next page, if any. */
  datatype Page = Page(items: seq<VideoInfo>, nextPageToken: Option<string>)

  function Min(a: int, b: int): int { if a < b then a else b }

  /** The service never answers with an empty page that still points to a next one; a
      service that did would keep the loop asking forever. */
  ghost predicate Advancing(fetch: PageRequest -> Result<Page, string>) {
    forall r :: fetch(r).Ok? && Truthy(fetch(r).value.nextPageToken) ==> |fetch(r).value.items| > 0
  }

  /** The paging from a token on, with `got` collected so far: pages of
      min(50, still wanted) are asked for and appended while fewer than maxResults are
      held and a next page exists; a failed request fails the whole listing. */
  function Listing(fetch: PageRequest -> Result<Page, string>, playlist: string, token: Option<string>,
                   got: seq<VideoInfo>, maxResults: int): Result<seq<VideoInfo>, string>
    requires Advancing(fetch)
    decreases maxResults - |got|
  {
    if |got| >= maxResults then Ok(got)
    else
      match fetch(PageRequest(playlist, token, Min(50, maxResults - |got|)))
      case Err(e) => Err(e)
      case Ok(page) =>
        if !Truthy(page.nextPageToken) then Ok(got + page.items)
        else Listing(fetch, playlist, page.nextPageToken, got + page.items, maxResults)
  }

  /** get_channel_videos: no videos when the channel lookup fails or finds nothing, or when
      a page request fails. */
  function ChannelVideos(uploads: Result<Option<string>, string>, fetch: PageRequest -> Result<Page, string>,
                         maxResults: int): seq<VideoInfo>
    requires Advancing(fetch)
  {
    match uploads
    case Err(_) => []
    case Ok(None) => []
    case Ok(Some(playlist)) =>
      match Listing(fetch, playlist, None, [], maxResults)
      case Ok(videos) => videos
      case Err(_) => []
  }

  /** The paging loop of get_channel_videos. */
  method GetChannelVideos(uploads: Result<Option<string>, string>, fetch: PageRequest -> Result<Page, string>,
                          maxResults: int)
    returns (videos: seq<VideoInfo>)
    requires Advancing(fetch)
    ensures videos == ChannelVideos(uploads, fetch, maxResults)
  {
    if uploads.Err? || uploads.value.None? {
      return [];
    }
    var playlist := uploads.value.value;
    videos := [];
    var nextPageToken: Option<string> := None;
    while |videos| < maxResults
      invariant Listing(fetch, playlist, nextPageToken, videos, maxResults)
        == Listing(fetch, playlist, None, [], maxResults)
      decreases maxResults - |videos|
    {
      var response := fetch(PageRequest(playlist, nextPageToken, Min(50, maxResults - |videos|)));
      if response.Err? {
        return [];
      }
      videos := videos + response.value.items;
      nextPageToken := response.value.nextPageToken;
      if !Truthy(nextPageToken) {
        break;
      }
    }
  }

  /** The listing extends what was collected, and, when every page holds at most what was
      asked for, it never holds more than maxResults videos. */
  lemma {:induction false} ListingBounded(fetch: PageRequest -> Result<Page, string>, playlist: string,
                                          token: Option<string>, got: seq<VideoInfo>, maxResults: int)
    requires Advancing(fetch)
    requires forall r :: fetch(r).Ok? ==> |fetch(r).value.items| <= r.maxResults
    ensures var l := Listing(fetch, playlist, token, got, maxResults);
      l.Ok? ==> got <= l.value && (|got| <= maxResults ==> |l.value| <= maxResults)
    decreases maxResults - |got|
  {
    if |got| < maxResults {
      var r := PageRequest(playlist, token, Min(50, maxResults - |got|));
      if fetch(r).Ok? && Truthy(fetch(r).value.nextPageToken) {
        ListingBounded(fetch, playlist, fetch(r).value.nextPageToken, got + fetch(r).value.items, maxResults);
      }
    }
  }

  /** Against a playlist that always has more, and pages that hold exactly what was asked
      for whenever something is asked for, the listing stops at exactly maxResults videos:
      the request sizes min(50, still wanted) add up to the target. */
  lemma {:induction false} ListingReachesTarget(fetch: PageRequest -> Result<Page, string>, playlist: string,
                                                token: Option<string>, got: seq<VideoInfo>, maxResults: int)
    requires Advancing(fetch)
    requires forall r: PageRequest :: r.maxResults > 0 ==>
      fetch(r).Ok? && |fetch(r).value.items| == r.maxResults && Truthy(fetch(r).value.nextPageToken)
    requires |got| <= maxResults
    ensures Listing(fetch, playlist, token, got, maxResults).Ok?
    ensures |Listing(fetch, playlist, token, got, maxResults).value| == maxResults
    decreases maxResults - |got|
  {
    if |got| < maxResults {
      var r := PageRequest(playlist, token, Min(50, maxResults - |got|));
      ListingReachesTarget(fetch, playlist, fetch(r).value.nextPageToken, got + fetch(r).value.items, maxResults);
    }
  }

  /** A service whose playlist always has more: every non-empty request gets a full page and a
      next token, and only a request for nothing gets an empty last page. */
  function FullPage(v: VideoInfo, r: PageRequest): Result<Page, string> {
    if r.maxResults == 0 then Ok(Page([], None))
    else Ok(Page(seq(r.maxResults, _ => v), Some("next")))
  }

  function FullPages(v: VideoInfo): PageRequest -> Result<Page, string> {
    r => FullPage(v, r)
  }

  /** Such a service advances and meets the premises of ListingReachesTarget, so
      get_channel_videos collects exactly max_results videos from it. */
  lemma FullPagesReachTarget(v: VideoInfo, playlist: string, maxResults: nat)
    ensures Advancing(FullPages(v))
    ensures |ChannelVideos(Ok(Some(playlist)), FullPages(v), maxResults)| == maxResults
  {
    var fetch := FullPages(v);
    forall r | fetch(r).Ok? && Truthy(fetch(r).value.nextPageToken)
      ensures |fetch(r).value.items| > 0
    {
      assert fetch(r) == FullPage(v, r);
    }
    forall r: PageRequest | r.maxResults > 0
      ensures fetch(r).Ok? && |fetch(r).value.items| == r.maxResults && Truthy(fetch(r).value.nextPageToken)
    {
      assert fetch(r) == FullPage(v, r);
    }
    ListingReachesTarget(fetch, playlist, None, [], maxResults);
  }
}
