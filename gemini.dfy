/** The language-model client of the ingestion (backend/services/gemini.py): the key pool
    read from the environment, the key rotation state shared by every client object, the
    request loop that rotates keys on rate limits, and the clean-up of the reply before it
    is decoded. The model's replies and JSON decoding are parameters. */
module Gemini {
  import opened Wrappers
  import opened Text
  import opened Models
  import opened Collections
  import Enrichment
  import VideoIngest

  // ---------------------------------------------------------------- _load_api_keys

  /** The key pool: the set variables GEMINI_API_KEY_1 .. GEMINI_API_KEY_10 in order, or,
      when none of them is set, the single GEMINI_API_KEY when that is set. */
  function PoolKeys(getenv: string -> Option<string>): seq<string> {
    var numbered := Enrichment.NumberedKeys(getenv, 1, 11);
    if numbered != [] then numbered
    else if Truthy(getenv("GEMINI_API_KEY")) then [getenv("GEMINI_API_KEY").value]
    else []
  }

  /** The numbered keys before i, read so far, followed by those still to read, are all of
      them. */
  ghost predicate ReadUpTo(getenv: string -> Option<string>, keys: seq<string>, i: nat) {
    keys + Enrichment.NumberedKeys(getenv, i, 11) == Enrichment.NumberedKeys(getenv, 1, 11)
  }

  /** What reading GEMINI_API_KEY_i adds to the list. */
  function ReadKey(getenv: string -> Option<string>, i: nat): seq<string> {
    if Truthy(getenv(Enrichment.KeyName(i))) then [getenv(Enrichment.KeyName(i)).value] else []
  }

  lemma ReadStep(getenv: string -> Option<string>, keys: seq<string>, i: nat)
    requires i < 11 && ReadUpTo(getenv, keys, i)
    ensures ReadUpTo(getenv, keys + ReadKey(getenv, i), i + 1)
  {
    var rest := Enrichment.NumberedKeys(getenv, i + 1, 11);
    assert Enrichment.NumberedKeys(getenv, i, 11) == ReadKey(getenv, i) + rest;
    AppendAssoc(keys, ReadKey(getenv, i), rest);
  }

  /** _load_api_keys: the numbered variables read one by one, then the fallback. */
  method LoadApiKeys(getenv: string -> Option<string>) returns (keys: seq<string>)
    ensures keys == PoolKeys(getenv)
  {
    keys := [];
    for i := 1 to 11
      invariant ReadUpTo(getenv, keys, i)
    {
      ReadStep(getenv, keys, i);
      ghost var before := keys;
      var key := getenv(Enrichment.KeyName(i));
      if Truthy(key) {
        keys := keys + [key.value];
      }
      assert keys == before + ReadKey(getenv, i);
    }
    assert keys == Enrichment.NumberedKeys(getenv, 1, 11) by {
      assert ReadUpTo(getenv, keys, 11);
      assert Enrichment.NumberedKeys(getenv, 11, 11) == [];
    }
    if keys == [] {
      var single := getenv("GEMINI_API_KEY");
      if Truthy(single) {
        keys := keys + [single.value];
      }
    }
  }

  /** The pool holds non-empty values only, at most ten of them; a value is in it exactly
      when a numbered variable holds it, or when no numbered variable is set and the single
      variable holds it; the pool is empty exactly when no variable at all is set. */
  lemma PoolKeysShape(getenv: string -> Option<string>)
    ensures var keys := PoolKeys(getenv);
      && |keys| <= 10
      && (forall k :: 0 <= k < |keys| ==> keys[k] != "")
      && (forall v :: v in keys <==>
            (exists i :: 1 <= i < 11 && getenv(Enrichment.KeyName(i)) == Some(v) && v != "")
            || ((forall i :: 1 <= i < 11 ==> !Truthy(getenv(Enrichment.KeyName(i))))
                && getenv("GEMINI_API_KEY") == Some(v) && v != ""))
      && (keys == [] <==>
            !Truthy(getenv("GEMINI_API_KEY")) && forall i :: 1 <= i < 11 ==> !Truthy(getenv(Enrichment.KeyName(i))))
  {
    Enrichment.NumberedKeysMembers(getenv, 1, 11);
  }

  /** The enrichment script reads the same variables the other way round: it puts the
      single key in front of the numbered ones. The two lists differ only when the single
      key and at least one numbered key are both set. */
  lemma PoolKeysVsScriptKeys(getenv: string -> Option<string>)
    ensures !Truthy(getenv("GEMINI_API_KEY")) ==> Enrichment.ApiKeys(getenv) == PoolKeys(getenv)
    ensures Enrichment.NumberedKeys(getenv, 1, 11) == [] ==> Enrichment.ApiKeys(getenv) == PoolKeys(getenv)
    ensures Truthy(getenv("GEMINI_API_KEY")) && PoolKeys(getenv) != [] ==>
      Enrichment.ApiKeys(getenv) == [getenv("GEMINI_API_KEY").value] + Enrichment.NumberedKeys(getenv, 1, 11)
  {
  }

  // ---------------------------------------------------------------- the cyclic key search

  /** The index the scan of _next_key looks at for offset j. */
  function Slot(n: nat, cur: nat, j: nat): (r: nat)
    requires n > 0
    ensures r < n
  {
    (cur + 1 + j) % n
  }

  /** The first index scanning Slot(n, cur, i), Slot(n, cur, i + 1), ... up to offset
      n - 1 that is not in the exhausted set. */
  function NextFree(n: nat, cur: nat, ex: set<nat>, i: nat): (r: Option<nat>)
    ensures r.Some? ==> r.value < n && r.value !in ex
    decreases n - i
  {
    if i >= n then None
    else if Slot(n, cur, i) !in ex then Some(Slot(n, cur, i))
    else NextFree(n, cur, ex, i + 1)
  }

  /** The search finds the first free offset from i, and finds nothing exactly when every
      offset from i on is exhausted. */
  lemma {:induction false} NextFreeIsFirst(n: nat, cur: nat, ex: set<nat>, i: nat)
    ensures NextFree(n, cur, ex, i).None? <==> forall j :: i <= j < n ==> Slot(n, cur, j) in ex
    ensures NextFree(n, cur, ex, i).Some? ==>
      exists d :: i <= d < n && NextFree(n, cur, ex, i).value == Slot(n, cur, d)
        && forall j :: i <= j < d ==> Slot(n, cur, j) in ex
    decreases n - i
  {
    if i < n && Slot(n, cur, i) in ex {
      NextFreeIsFirst(n, cur, ex, i + 1);
      if NextFree(n, cur, ex, i).Some? {
        var d :| i + 1 <= d < n && NextFree(n, cur, ex, i).value == Slot(n, cur, d)
          && forall j :: i + 1 <= j < d ==> Slot(n, cur, j) in ex;
        assert forall j :: i <= j < d ==> Slot(n, cur, j) in ex;
      }
    }
  }

  lemma {:induction false} MulAtLeast(d: nat, n: nat)
    requires d >= 1
    ensures d * n >= n
  {
    if d > 1 {
      MulAtLeast(d - 1, n);
      assert d * n == (d - 1) * n + n;
    }
  }

  /** Euclidean division leaves one remainder only. */
  lemma ModUnique(a: int, n: int, q: int, r: int)
    requires n > 0 && 0 <= r < n && a == q * n + r
    ensures a % n == r
  {
    var q', r' := a / n, a % n;
    assert a == q' * n + r';
    assert (q - q') * n == r' - r;
    if q - q' >= 1 {
      MulAtLeast(q - q', n);
    }
    if q' - q >= 1 {
      MulAtLeast(q' - q, n);
    }
  }

  /** The offsets 0 .. n - 1 from any start reach every index below n. */
  lemma ScanCoversAll(n: nat, cur: nat, k: nat)
    requires k < n
    ensures exists j :: 0 <= j < n && Slot(n, cur, j) == k
  {
    var c := (cur + 1) % n;
    var q := (cur + 1) / n;
    assert cur + 1 == q * n + c;
    if k >= c {
      ModUnique(cur + 1 + (k - c), n, q, k);
      assert Slot(n, cur, k - c) == k;
    } else {
      assert cur + 1 + (k + n - c) == (q + 1) * n + k;
      ModUnique(cur + 1 + (k + n - c), n, q + 1, k);
      assert Slot(n, cur, k + n - c) == k;
    }
  }

  /** The search over all n offsets fails exactly when every index below n is exhausted. */
  lemma NextFreeNoneIffAll(n: nat, cur: nat, ex: set<nat>)
    ensures NextFree(n, cur, ex, 0).None? <==> forall k :: 0 <= k < n ==> k in ex
  {
    NextFreeIsFirst(n, cur, ex, 0);
    if NextFree(n, cur, ex, 0).None? {
      forall k | 0 <= k < n
        ensures k in ex
      {
        ScanCoversAll(n, cur, k);
      }
    }
  }

  // ---------------------------------------------------------------- the shared key state

  /** GeminiService's class variables, shared by every client object: the index of the key
      in use and the indices found rate-limited. */
  class KeyPool {
    var current: nat
    var exhausted: set<nat>

    /** The values at module load. */
    constructor ()
      ensures current == 0 && exhausted == {}
    {
      current := 0;
      exhausted := {};
    }
  }

  /** The rotation state as the request loop sees it: the shared index and exhausted set,
      and the key the client's model object was configured with (None: no model). */
  datatype KeyState = KeyState(current: nat, exhausted: set<nat>, model: Option<string>)

  /** A model request: the configured key and the number of rate-limited replies seen so
      far in this call of the loop. */
  datatype Request = Request(key: Option<string>, attempt: nat)

  /** A model reply: its text, or the message of the error raised. */
  datatype Response = Text(text: string) | Error(message: string)

  /** How the request loop fails: an error re-raised, or giving up after max attempts. */
  datatype Failure = Raised(message: string) | GaveUp(maxAttempts: nat)

  predicate RateLimited(message: string) { Contains(message, "429") }

  /** The state after a rate-limited reply: the current index is marked exhausted and the
      search moves to the next free index; when there is none, the exhausted set is
      cleared and the first key is taken again. */
  function Rotate(keys: seq<string>, s: KeyState): KeyState
    requires keys != []
  {
    var ex := s.exhausted + {s.current};
    match NextFree(|keys|, s.current, ex, 0)
    case Some(k) => KeyState(k, ex, Some(keys[k]))
    case None => KeyState(0, {}, Some(keys[0]))
  }

  /** After a rotation the key in use is a pool key at its index, and it is free; the
      reset happens exactly when every index was exhausted, the current one included. */
  lemma RotateLands(keys: seq<string>, s: KeyState)
    requires keys != []
    ensures var r := Rotate(keys, s);
      && r.current < |keys| && r.model == Some(keys[r.current]) && r.current !in r.exhausted
      && ((forall k :: 0 <= k < |keys| ==> k in s.exhausted + {s.current}) <==> r.exhausted == {} && r.current == 0)
      && (r.exhausted != {} ==> r.exhausted == s.exhausted + {s.current})
  {
    NextFreeNoneIffAll(|keys|, s.current, s.exhausted + {s.current});
  }

  /** What the request loop ends with: the result, the rotation state and the number of
      rate-limited replies it saw. */
  datatype Outcome = Outcome(result: Result<string, Failure>, state: KeyState, rateLimited: nat)

  /** _generate_with_retry from `attempts` rate-limited replies on: at most twice as many
      of them as there are keys; a reply's stripped text ends the loop and frees the current
      key; any other error is raised at once. */
  function Retry(keys: seq<string>, s: KeyState, respond: Request -> Response, attempts: nat): Outcome
    decreases 2 * |keys| - attempts
  {
    if attempts >= 2 * |keys| then Outcome(Err(GaveUp(2 * |keys|)), s, attempts)
    else match respond(Request(s.model, attempts))
      case Text(t) => Outcome(Ok(Strip(t)), s.(exhausted := s.exhausted - {s.current}), attempts)
      case Error(m) =>
        if RateLimited(m) then Retry(keys, Rotate(keys, s), respond, attempts + 1)
        else Outcome(Err(Raised(m)), s, attempts)
  }

  /** The loop sees at most 2n rate-limited replies, and gives up exactly when it has seen
      that many. A text ends the loop with that reply, stripped, and the key that gave it is
      no longer exhausted; an error that is not a rate limit is the one raised, from the
      first reply that is not rate-limited. */
  lemma {:induction false} RetryBounded(keys: seq<string>, s: KeyState, respond: Request -> Response, attempts: nat)
    requires attempts <= 2 * |keys|
    ensures var o := Retry(keys, s, respond, attempts);
      && attempts <= o.rateLimited <= 2 * |keys|
      && (o.result == Err(GaveUp(2 * |keys|)) <==> o.rateLimited == 2 * |keys|)
      && (o.result.Ok? ==>
            && respond(Request(o.state.model, o.rateLimited)).Text?
            && o.result.value == Strip(respond(Request(o.state.model, o.rateLimited)).text)
            && o.state.current !in o.state.exhausted)
      && (o.result.Err? && o.result.error.Raised? ==>
            && respond(Request(o.state.model, o.rateLimited)) == Error(o.result.error.message)
            && !RateLimited(o.result.error.message))
    decreases 2 * |keys| - attempts
  {
    if attempts < 2 * |keys| {
      var r := respond(Request(s.model, attempts));
      if r.Error? && RateLimited(r.message) {
        RetryBounded(keys, Rotate(keys, s), respond, attempts + 1);
      }
    }
  }

  /** Without a rate-limited reply the key in use stays as it was; once a key rotation
      happened, the key in use is the pool key at the shared index. */
  lemma {:induction false} RetryKeepsKeys(keys: seq<string>, s: KeyState, respond: Request -> Response, attempts: nat)
    requires attempts <= 2 * |keys|
    ensures var o := Retry(keys, s, respond, attempts);
      && (o.rateLimited == attempts ==> o.state.current == s.current && o.state.model == s.model)
      && (o.rateLimited > attempts ==> o.state.current < |keys| && o.state.model == Some(keys[o.state.current]))
    decreases 2 * |keys| - attempts
  {
    if attempts < 2 * |keys| {
      var r := respond(Request(s.model, attempts));
      if r.Error? && RateLimited(r.message) {
        var next := Rotate(keys, s);
        RotateLands(keys, s);
        RetryKeepsKeys(keys, next, respond, attempts + 1);
        RetryBounded(keys, next, respond, attempts + 1);
        assert Retry(keys, s, respond, attempts) == Retry(keys, next, respond, attempts + 1);
      }
    }
  }

  // ---------------------------------------------------------------- reply clean-up

  predicate EndsWith(s: string, p: string) { |p| <= |s| && s[|s| - |p|..] == p }

  /** analyze_video's clean-up: a leading ```json, then a leading ```, then a trailing ```
      are cut off, each at most once, and the rest is stripped. */
  function StripFence(text: string): string {
    var a := if "```json" <= text then text[7..] else text;
    var b := if "```" <= a then a[3..] else a;
    var c := if EndsWith(b, "```") then b[..|b| - 3] else b;
    Strip(c)
  }

  /** A reply fenced as a JSON block gives back its body, stripped, unless the body itself
      starts with a fence. */
  lemma JsonFenceUnwraps(body: string)
    requires !("```" <= body)
    ensures StripFence("```json" + body + "```") == Strip(body)
  {
    var t := "```json" + body + "```";
    assert t[..7] == "```json";
    var a := t[7..];
    assert a == body + "```";
    if "```" <= a {
      // only a body of fewer than three backquotes lets the second cut happen
      assert |body| < 3;
      forall i | 0 <= i < |body|
        ensures a[3..][i] == body[i]
      {
        assert body[i] == a[i] == '`';
        assert a[3 + i] == '`';
      }
      assert a[3..] == body;
    } else {
      assert a[..|body|] == body;
    }
  }

  /** A reply fenced as a plain block gives back its body, stripped, unless the body starts
      with `json`. */
  lemma PlainFenceUnwraps(body: string)
    requires !("json" <= body)
    ensures StripFence("```" + body + "```") == Strip(body)
  {
    var f := "```" + body + "```";
    NotJsonFenced(body);
    var b := f[3..];
    assert b == body + "```";
    assert EndsWith(b, "```");
    assert b[..|b| - 3] == body;
  }

  lemma NotJsonFenced(body: string)
    requires !("json" <= body)
    ensures !("```json" <= "```" + body + "```")
  {
    var f := "```" + body + "```";
    if |body| >= 4 {
      assert f[..7][3..] == body[..4] != "json";
    } else {
      assert f[3 + |body|] == '`';
    }
  }

  /** A reply without fences is only stripped. */
  lemma UnfencedStripped(body: string)
    requires !("```" <= body) && !EndsWith(body, "```")
    ensures StripFence(body) == Strip(body)
  {
  }

  /** The findings of a decoded reply; any failure on the way gives none. */
  function Findings(result: Result<string, Failure>, parse: string -> Result<seq<VideoIngest.Finding>, string>)
    : seq<VideoIngest.Finding>
  {
    match result
    case Err(_) => []
    case Ok(text) => match parse(StripFence(text)) { case Ok(v) => v case Err(_) => [] }
  }

  // ---------------------------------------------------------------- the client object

  /** A GeminiService object: its key list, the shared rotation state and the key its
      model object was configured with. */
  class GeminiService {
    const apiKeys: seq<string>
    const pool: KeyPool
    var modelKey: Option<string>

    /** A model object exists exactly when there are keys. */
    predicate Ready()
      reads this
    {
      apiKeys == [] <==> modelKey.None?
    }

    function State(): KeyState
      reads this, pool
    {
      KeyState(pool.current, pool.exhausted, modelKey)
    }

    /** __init__: the given keys, or the pool when none are given; with no keys there is no
      model, otherwise the shared index, taken modulo the key count, is switched to. */
    constructor (keys: seq<string>, loaded: seq<string>, pool: KeyPool)
      modifies pool
      ensures this.pool == pool && apiKeys == (if keys != [] then keys else loaded)
      ensures Ready()
      ensures apiKeys == [] ==> pool.current == old(pool.current)
      ensures apiKeys != [] ==>
        pool.current == old(pool.current) % |apiKeys| && modelKey == Some(apiKeys[pool.current])
      ensures pool.exhausted == old(pool.exhausted)
    {
      apiKeys := if keys != [] then keys else loaded;
      this.pool := pool;
      modelKey := None;
      new;
      if apiKeys != [] {
        SwitchToKey(pool.current % |apiKeys|);
      }
    }

    /** _switch_to_key: the model is configured with the key at the index, and the shared
      index becomes that index. */
    method SwitchToKey(index: nat)
      requires index < |apiKeys|
      modifies this, pool
      ensures modelKey == Some(apiKeys[index]) && pool.current == index
      ensures pool.exhausted == old(pool.exhausted)
    {
      modelKey := Some(apiKeys[index]);
      pool.current := index;
    }

    /** _next_key: the current index is marked exhausted, then the first free index in
      cyclic order after it is switched to; false, with nothing switched, when none is
      free. */
    method NextKey() returns (switched: bool)
      modifies this, pool
      ensures pool.exhausted == old(pool.exhausted) + {old(pool.current)}
      ensures var next := NextFree(|apiKeys|, old(pool.current), pool.exhausted, 0);
        && switched == next.Some?
        && (switched ==> pool.current == next.value && modelKey == Some(apiKeys[next.value]))
        && (!switched ==> pool.current == old(pool.current) && modelKey == old(modelKey))
    {
      pool.exhausted := pool.exhausted + {pool.current};
      var n := |apiKeys|;
      for i := 0 to n
        invariant pool.exhausted == old(pool.exhausted) + {old(pool.current)}
        invariant pool.current == old(pool.current) && modelKey == old(modelKey)
        invariant NextFree(n, pool.current, pool.exhausted, i) == NextFree(n, pool.current, pool.exhausted, 0)
      {
        var nextIdx := Slot(n, pool.current, i);
        if nextIdx !in pool.exhausted {
          SwitchToKey(nextIdx);
          return true;
        }
      }
      return false;
    }

    /** _generate_with_retry, against the replies `respond` gives: the outcome Retry
      describes, from the state before the call. */
    method GenerateWithRetry(respond: Request -> Response) returns (r: Result<string, Failure>)
      requires Ready()
      modifies this, pool
      ensures Ready()
      ensures var o := Retry(apiKeys, old(State()), respond, 0);
        r == o.result && State() == o.state
    {
      ghost var start := Retry(apiKeys, State(), respond, 0);
      var attempts := 0;
      var maxAttempts := |apiKeys| * 2;
      while attempts < maxAttempts
        invariant Ready() && attempts <= maxAttempts
        invariant Retry(apiKeys, State(), respond, attempts) == start
        decreases maxAttempts - attempts
      {
        var reply := respond(Request(modelKey, attempts));
        if reply.Text? {
          pool.exhausted := pool.exhausted - {pool.current};
          return Ok(Strip(reply.text));
        }
        if RateLimited(reply.message) {
          ghost var before := State();
          attempts := attempts + 1;
          var hasNext := NextKey();
          if !hasNext {
            pool.exhausted := {};
            SwitchToKey(0);
          }
          assert State() == Rotate(apiKeys, before);
          continue;
        } else {
          return Err(Raised(reply.message));
        }
      }
      return Err(GaveUp(maxAttempts));
    }

    /** analyze_video: nothing to analyse gives no findings and no request; otherwise the
      request loop runs and its text, cleaned up, is decoded; any failure gives none. */
    method AnalyzeVideo(transcript: seq<Cue>, description: string, respond: Request -> Response,
                        parse: string -> Result<seq<VideoIngest.Finding>, string>)
      returns (findings: seq<VideoIngest.Finding>)
      requires Ready()
      modifies this, pool
      ensures Ready()
      ensures transcript == [] && description == "" ==>
        findings == [] && State() == old(State())
      ensures !(transcript == [] && description == "") ==>
        var o := Retry(apiKeys, old(State()), respond, 0);
        findings == Findings(o.result, parse) && State() == o.state
    {
      if transcript == [] && description == "" {
        return [];
      }
      var text := GenerateWithRetry(respond);
      if text.Err? {
        return [];
      }
      var data := parse(StripFence(text.value));
      if data.Err? {
        return [];
      }
      return data.value;
    }
  }
}
