/**
 * The two pure helpers of src/services/ai.ts the captioning calls use: the
 * OpenAI-compatible endpoint normaliser and the split of a base64 data URL
 * into its MIME type and payload.
 */
module Ai {
  import opened Wrappers
  import opened Strings

  const COMPLETIONS: string := "/chat/completions"

  /** `s.replace(/\/+$/, '')`: every trailing '/' removed. */
  function StripTrailingSlashes(s: string): (r: string)
    ensures |r| <= |s| && r == s[..|r|]
    ensures r == [] || r[|r| - 1] != '/'
    ensures forall i :: |r| <= i < |s| ==> s[i] == '/'
  {
    if s != [] && s[|s| - 1] == '/' then StripTrailingSlashes(s[..|s| - 1]) else s
  }

  /** `baseUrl.trim().replace(/\/+$/, '')` */
  function Core(baseUrl: string): string
  {
    StripTrailingSlashes(Trim(baseUrl))
  }

  /** resolveOpenAIEndpoint (src/services/ai.ts:41-50) */
  function ResolveOpenAIEndpoint(baseUrl: string): (endpoint: string)
    ensures EndsWith(endpoint, COMPLETIONS)
  {
    var e := Core(baseUrl);
    if EndsWith(e, COMPLETIONS) then e
    else
      var withApi := if !Contains(e, "/v1") && Contains(e, "openrouter.ai") && !Contains(e, "/api/v1") then e + "/api/v1" else e;
      EndsWithAppend(withApi, COMPLETIONS);
      withApi + COMPLETIONS
  }

  /** An endpoint that already names the completions route is kept as it is, apart from the trimming. */
  lemma EndpointKept(baseUrl: string)
    requires EndsWith(Core(baseUrl), COMPLETIONS)
    ensures ResolveOpenAIEndpoint(baseUrl) == Core(baseUrl)
  {
  }

  /** An OpenRouter address without a version segment gets `/api/v1` in front of the route. */
  lemma OpenRouterGetsApiPrefix(baseUrl: string)
    requires !EndsWith(Core(baseUrl), COMPLETIONS)
    requires Contains(Core(baseUrl), "openrouter.ai") && !Contains(Core(baseUrl), "/v1")
    ensures ResolveOpenAIEndpoint(baseUrl) == Core(baseUrl) + "/api/v1" + COMPLETIONS
  {
    assert !Contains(Core(baseUrl), "/api/v1") by {
      if Contains(Core(baseUrl), "/api/v1") {
        ContainsInfix(Core(baseUrl), "/api/v1", 4, "/v1");
      }
    }
  }

  /** Any other address gets only the route appended. */
  lemma OtherGetsRoute(baseUrl: string)
    requires !EndsWith(Core(baseUrl), COMPLETIONS)
    requires !Contains(Core(baseUrl), "openrouter.ai") || Contains(Core(baseUrl), "/v1")
    ensures ResolveOpenAIEndpoint(baseUrl) == Core(baseUrl) + COMPLETIONS
  {
  }

  /** Resolving twice gives what resolving once gives. */
  lemma ResolveIdempotent(baseUrl: string)
    ensures ResolveOpenAIEndpoint(ResolveOpenAIEndpoint(baseUrl)) == ResolveOpenAIEndpoint(baseUrl)
  {
    var e := ResolveOpenAIEndpoint(baseUrl);
    var cs := COMPLETIONS;
    assert e != [] && e[|e| - 1] == 's' by {
      assert e[|e| - |cs|..] == cs;
      assert e[|e| - 1] == e[|e| - |cs|..][|cs| - 1];
    }
    assert e[0] != ' ' by {
      if e == Core(baseUrl) {
        assert Trim(baseUrl) != [];
        assert e[0] == Trim(baseUrl)[0];
      } else {
        ResolveStartsWithCore(baseUrl);
      }
    }
    TrimNoSpace(e);
    assert Core(e) == e;
  }

  lemma ResolveStartsWithCore(baseUrl: string)
    requires ResolveOpenAIEndpoint(baseUrl) != Core(baseUrl)
    ensures var e := ResolveOpenAIEndpoint(baseUrl);
      e[0] != ' ' && !IsSpace(e[0])
  {
    var c := Core(baseUrl);
    var e := ResolveOpenAIEndpoint(baseUrl);
    if c == [] {
      assert e == COMPLETIONS || e == "/api/v1" + COMPLETIONS;
    } else {
      assert Trim(baseUrl) != [] && c[0] == Trim(baseUrl)[0];
      assert e[0] == c[0];
    }
  }

  /** If `p` occurs in `s`, so does every infix of `p`. */
  lemma ContainsInfix(s: string, p: string, k: nat, q: string)
    requires Contains(s, p) && k + |q| <= |p| && p[k..k + |q|] == q
    ensures Contains(s, q)
  {
    var i := ContainsWitness(s, p);
    assert s[i + k..][..|q|] == q by {
      forall t | 0 <= t < |q| ensures s[i + k..][..|q|][t] == q[t] {
        assert s[i + k + t] == s[i..i + |p|][k + t] == p[k + t] == q[t];
      }
    }
    ContainsAt(s, q, i + k);
  }

  // ---------------------------------------------------------------- getImageData

  /** The characters `.` does not match in a JavaScript regular expression. */
  predicate LineTerminator(c: char) { c == '\n' || c == '\r' || c == '\U{2028}' || c == '\U{2029}' }

  predicate SingleLine(s: string) { forall i :: 0 <= i < |s| ==> !LineTerminator(s[i]) }

  const MARKER: string := ";base64,"

  predicate MarkerAt(s: string, k: nat) { k + |MARKER| <= |s| && s[k..k + |MARKER|] == MARKER }

  /** The largest `k <= bound` with `5 < k`, a marker at `k` and something after it: greedy `(.+)` for the MIME type. */
  function LastMarker(s: string, bound: nat): (r: Option<nat>)
    ensures r.Some? ==> 5 < r.value <= bound && MarkerAt(s, r.value) && r.value + |MARKER| < |s|
    ensures forall k :: r.None? && 5 < k <= bound ==> !(MarkerAt(s, k) && k + |MARKER| < |s|)
    ensures forall k :: r.Some? && r.value < k <= bound ==> !(MarkerAt(s, k) && k + |MARKER| < |s|)
    decreases bound
  {
    if bound <= 5 then None
    else if MarkerAt(s, bound) && bound + |MARKER| < |s| then Some(bound)
    else LastMarker(s, bound - 1)
  }

  /** getImageData (src/services/ai.ts:35-39): `/^data:(.+);base64,(.+)$/` splits out the MIME type and the payload. */
  function GetImageData(dataUrl: string): (r: Option<(string, string)>)
    ensures r.Some? ==>
      StartsWith(dataUrl, "data:") && SingleLine(dataUrl) &&
      r.value.0 != [] && r.value.1 != [] && dataUrl == "data:" + r.value.0 + MARKER + r.value.1
    ensures !StartsWith(dataUrl, "data:") || !SingleLine(dataUrl) ==> r.None?
  {
    if !StartsWith(dataUrl, "data:") || !SingleLine(dataUrl) then None
    else
      var k := LastMarker(dataUrl, |dataUrl|);
      if k.None? then None
      else
        var m, d := dataUrl[5..k.value], dataUrl[k.value + |MARKER|..];
        assert dataUrl == dataUrl[..5] + m + dataUrl[k.value..k.value + |MARKER|] + d;
        Some((m, d))
  }

  /** A data URL built from a MIME type and a payload without ';' splits back into them. */
  lemma GetImageDataRoundTrip(mime: string, data: string)
    requires mime != [] && data != [] && SingleLine(mime) && SingleLine(data)
    requires forall i :: 0 <= i < |data| ==> data[i] != ';'
    ensures GetImageData("data:" + mime + MARKER + data) == Some((mime, data))
  {
    var s := "data:" + mime + MARKER + data;
    var k := 5 + |mime|;
    assert s[..5] == "data:";
    assert SingleLine(s) by {
      forall i | 0 <= i < |s| ensures !LineTerminator(s[i]) {
        if i < 5 { assert s[i] == "data:"[i]; }
        else if i < k { assert s[i] == mime[i - 5]; }
        else if i < k + |MARKER| { assert s[i] == MARKER[i - k]; }
        else { assert s[i] == data[i - k - |MARKER|]; }
      }
    }
    assert MarkerAt(s, k) by { assert s[k..k + |MARKER|] == MARKER; }
    forall j | k < j <= |s| ensures !(MarkerAt(s, j) && j + |MARKER| < |s|) {
      if j < |s| {
        if j < k + |MARKER| {
          assert s[j] == MARKER[j - k];
        } else {
          assert s[j] == data[j - k - |MARKER|];
        }
        assert s[j] != ';';
        assert j + |MARKER| <= |s| ==> s[j..j + |MARKER|][0] == s[j];
      }
    }
    var r := LastMarker(s, |s|);
    assert r == Some(k);
    assert s[5..k] == mime;
    assert s[k + |MARKER|..] == data;
  }
}
