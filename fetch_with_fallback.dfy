/**
 * The Google Maps search fallback: a simple search, and on a transient upstream failure only,
 * one advanced search with a fixed zoom whose result is tagged as a fallback hit.
 *
 * Whether a failure is transient is decided from the error message alone, by the two regular
 * expressions of `isTransientUpstreamError`; they are restated here as string predicates, once
 * as a left-to-right search (what the regular-expression engine does) and once as the set of
 * strings the expressions match, and the two are proved to agree.
 */
module FetchWithFallback {
  import opened Wrappers
  import opened Text
  import opened Entries
  import opened JsValue
  import opened ScrappaClient

  const SimpleSearch: string := "/maps/simple-search"
  const AdvancedSearch: string := "/maps/advanced-search"
  const DefaultFallbackZoom: int := 13

  /** The literal start of the client's normalised error messages. */
  const ApiErrorTag: string := "Scrappa API error ("

  // ----- The classifier -----

  /** `408|429|5\d\d`. */
  predicate IsTransientStatusCode(code: string)
  {
    code == "408" || code == "429" || (|code| == 3 && code[0] == '5' && IsDigit(code[1]) && IsDigit(code[2]))
  }

  /** `Scrappa API error \((408|429|5\d\d)\)` matches at index `i` (case-sensitive). */
  predicate StatusMarkerAt(m: string, i: nat)
  {
    var c := i + |ApiErrorTag|;
    && c + 4 <= |m|
    && m[i..c] == ApiErrorTag
    && IsTransientStatusCode(m[c..c + 3])
    && m[c + 3] == ')'
  }

  /** The end of the run of whitespace (`\s*`, greedy) that starts at `j`. */
  function SkipWhitespace(m: string, j: nat): (k: nat)
    requires j <= |m|
    ensures j <= k <= |m|
    ensures forall t | j <= t < k :: IsJsWhitespace(m[t])
    ensures k == |m| || !IsJsWhitespace(m[k])
    decreases |m| - j
  {
    if j < |m| && IsJsWhitespace(m[j]) then SkipWhitespace(m, j + 1) else j
  }

  /**
   * `timed?\s*out` matches at index `i`, ignoring case. The engine takes the `d` when there is
   * one and the longest whitespace run; giving either back cannot produce a match, since
   * neither `d` nor whitespace is an `o`.
   */
  predicate TimedOutAt(m: string, i: nat)
  {
    && IgnoreCaseAt(m, i, "time")
    && var j := if IgnoreCaseAt(m, i + 4, "d") then i + 5 else i + 4;
       IgnoreCaseAt(m, SkipWhitespace(m, j), "out")
  }

  /** `timed?\s*out|timeout|temporarily unavailable|cloudflare` matches at index `i`, ignoring case. */
  predicate OutageWordAt(m: string, i: nat)
  {
    || TimedOutAt(m, i)
    || IgnoreCaseAt(m, i, "timeout")
    || IgnoreCaseAt(m, i, "temporarily unavailable")
    || IgnoreCaseAt(m, i, "cloudflare")
  }

  /** The two regular expressions of the classifier. */
  datatype Pattern = StatusPattern | OutagePattern

  predicate MatchesAt(p: Pattern, m: string, i: nat)
  {
    match p
    case StatusPattern => StatusMarkerAt(m, i)
    case OutagePattern => OutageWordAt(m, i)
  }

  /** `RegExp.prototype.test` from index `i`: try each start position in turn. */
  predicate SearchFrom(p: Pattern, m: string, i: nat)
    requires i <= |m|
    decreases |m| - i
  {
    MatchesAt(p, m, i) || (i < |m| && SearchFrom(p, m, i + 1))
  }

  /** `isTransientUpstreamError`: the status test first, then the outage-word test. */
  predicate IsTransientUpstreamError(message: string)
  {
    SearchFrom(StatusPattern, message, 0) || SearchFrom(OutagePattern, message, 0)
  }

  // ----- What the regular expressions match, stated directly -----

  /** `m[i..k+3]` is `time`, an optional `d`, whitespace from `j` to `k`, then `out` (any case). */
  ghost predicate TimedOutSpan(m: string, i: nat, j: nat, k: nat)
  {
    && i + 4 <= j <= k
    && IgnoreCaseAt(m, i, "time")
    && (j == i + 4 || (j == i + 5 && IgnoreCaseAt(m, i + 4, "d")))
    && (forall t | j <= t < k :: t < |m| && IsJsWhitespace(m[t]))
    && IgnoreCaseAt(m, k, "out")
  }

  ghost predicate ContainsIgnoreCase(m: string, word: string)
  {
    exists i: nat :: IgnoreCaseAt(m, i, word)
  }

  /** The status expression matches somewhere in `m`. */
  ghost predicate HasTransientStatus(m: string)
  {
    exists i: nat :: StatusMarkerAt(m, i)
  }

  /** The outage expression matches somewhere in `m`. */
  ghost predicate HasOutageWord(m: string)
  {
    || (exists i: nat, j: nat, k: nat :: TimedOutSpan(m, i, j, k))
    || ContainsIgnoreCase(m, "timeout")
    || ContainsIgnoreCase(m, "temporarily unavailable")
    || ContainsIgnoreCase(m, "cloudflare")
  }

  lemma {:induction false} SearchFromFinds(p: Pattern, m: string, i: nat)
    requires i <= |m|
    ensures SearchFrom(p, m, i) <==> exists t: nat | i <= t <= |m| :: MatchesAt(p, m, t)
    decreases |m| - i
  {
    if i < |m| {
      SearchFromFinds(p, m, i + 1);
      if SearchFrom(p, m, i) && !MatchesAt(p, m, i) {
        var t: nat :| i + 1 <= t <= |m| && MatchesAt(p, m, t);
        assert i <= t;
      }
      if exists t: nat | i <= t <= |m| :: MatchesAt(p, m, t) {
        var t: nat :| i <= t <= |m| && MatchesAt(p, m, t);
        if t != i {
          assert SearchFrom(p, m, i + 1);
        }
      }
    } else {
      if exists t: nat | i <= t <= |m| :: MatchesAt(p, m, t) {
        var t: nat :| i <= t <= |m| && MatchesAt(p, m, t);
        assert t == i;
      }
    }
  }

  /** The greedy whitespace run ends exactly where a non-whitespace character follows the run. */
  lemma {:induction false} SkipWhitespaceStopsAt(m: string, j: nat, k: nat)
    requires j <= k < |m|
    requires forall t | j <= t < k :: IsJsWhitespace(m[t])
    requires !IsJsWhitespace(m[k])
    ensures SkipWhitespace(m, j) == k
    decreases k - j
  {
    if j < k {
      SkipWhitespaceStopsAt(m, j + 1, k);
    }
  }

  /** The greedy test at `i` succeeds exactly when some way of matching `timed?\s*out` at `i` exists. */
  lemma TimedOutAtIff(m: string, i: nat)
    ensures TimedOutAt(m, i) <==> exists j: nat, k: nat :: TimedOutSpan(m, i, j, k)
  {
    if TimedOutAt(m, i) {
      var j := if IgnoreCaseAt(m, i + 4, "d") then i + 5 else i + 4;
      assert TimedOutSpan(m, i, j, SkipWhitespace(m, j));
    }
    if exists j: nat, k: nat :: TimedOutSpan(m, i, j, k) {
      var j: nat, k: nat :| TimedOutSpan(m, i, j, k);
      IgnoreCaseAtChar(m, k, "out", 0);
      assert !IsJsWhitespace(m[k]);
      if IgnoreCaseAt(m, i + 4, "d") {
        // Had the match skipped this `d`, the whitespace run or `out` would start on it.
        IgnoreCaseAtChar(m, i + 4, "d", 0);
        assert !IsJsWhitespace(m[i + 4]) && LowerAscii(m[i + 4]) != 'o';
        assert j == i + 5;
      }
      SkipWhitespaceStopsAt(m, j, k);
    }
  }

  /** The classifier is exactly "one of the two regular expressions matches somewhere". */
  lemma ClassifierMatchesRegex(m: string)
    ensures IsTransientUpstreamError(m) <==> HasTransientStatus(m) || HasOutageWord(m)
  {
    SearchFromFinds(StatusPattern, m, 0);
    SearchFromFinds(OutagePattern, m, 0);
    if HasTransientStatus(m) {
      var i: nat :| StatusMarkerAt(m, i);
      assert MatchesAt(StatusPattern, m, i);
    }
    if exists i: nat, j: nat, k: nat :: TimedOutSpan(m, i, j, k) {
      var i: nat, j: nat, k: nat :| TimedOutSpan(m, i, j, k);
      TimedOutAtIff(m, i);
      assert MatchesAt(OutagePattern, m, i);
    }
    forall word | word in {"timeout", "temporarily unavailable", "cloudflare"} && ContainsIgnoreCase(m, word)
      ensures exists t: nat | 0 <= t <= |m| :: MatchesAt(OutagePattern, m, t)
    {
      var i: nat :| IgnoreCaseAt(m, i, word);
      assert MatchesAt(OutagePattern, m, i);
    }
    if exists t: nat | 0 <= t <= |m| :: MatchesAt(OutagePattern, m, t) {
      var t: nat :| t <= |m| && MatchesAt(OutagePattern, m, t);
      if TimedOutAt(m, t) {
        TimedOutAtIff(m, t);
      }
    }
  }

  /**
   * The client's error for a 408, a 429 or any 5xx status is classified transient, whatever
   * its detail: the message format the classifier relies on is the one the client produces.
   */
  lemma TransientStatusMessageIsTransient(status: int, detail: string)
    requires status == 408 || status == 429 || 500 <= status <= 599
    ensures IsTransientUpstreamError(ApiErrorPrefix(status) + detail)
  {
    var m := ApiErrorPrefix(status) + detail;
    var code := NatToString(status);
    ThreeDigits(status);
    if status == 408 { assert code == "408"; }
    if status == 429 { assert code == "429"; }
    assert m == ApiErrorTag + code + "): " + detail;
    assert m[..|ApiErrorTag|] == ApiErrorTag;
    assert m[|ApiErrorTag|..|ApiErrorTag| + 3] == code;
    assert StatusMarkerAt(m, 0);
  }

  /** A failed response with a transient status always reaches the fallback. */
  lemma TransientResponseIsTransient(response: Response)
    requires response.status == 408 || response.status == 429 || 500 <= response.status <= 599
    ensures HandleResponse(response).Err?
    ensures IsTransientUpstreamError(HandleResponse(response).error)
  {
    var r := HandleResponse(response);
    var prefix := ApiErrorPrefix(response.status);
    assert r.error == prefix + r.error[|prefix|..];
    TransientStatusMessageIsTransient(response.status, r.error[|prefix|..]);
  }

  // ----- The fallback -----

  /** One logged `get` call. */
  datatype Call = Call(endpoint: string, params: Params)

  /** A client as the fallback sees it: each `get` is logged, and answered by `respond`. */
  class RecordingClient {
    const respond: (string, Params) -> Result<Json, string>
    var calls: seq<Call>

    constructor(respond: (string, Params) -> Result<Json, string>)
      ensures this.respond == respond && calls == []
    {
      this.respond := respond;
      calls := [];
    }

    method Get(endpoint: string, params: Params) returns (r: Result<Json, string>)
      modifies this
      ensures calls == old(calls) + [Call(endpoint, params)]
      ensures r == respond(endpoint, params)
    {
      calls := calls + [Call(endpoint, params)];
      r := respond(endpoint, params);
    }
  }

  /** `{...baseParams, zoom: fallbackZoom}`: `zoom` is set, everything else is as it was. */
  function FallbackParams(baseParams: Params, zoom: int): (r: Params)
    ensures Lookup(r, "zoom") == Some(Defined(JNum(zoom)))
    ensures forall k | k != "zoom" :: Lookup(r, k) == Lookup(baseParams, k)
    ensures Keys(r) == Keys(baseParams) + {"zoom"}
    ensures DistinctKeys(baseParams) ==> DistinctKeys(r)
  {
    OverrideLookup(baseParams, "zoom", Defined(JNum(zoom)));
    if DistinctKeys(baseParams) then
      OverrideDistinct(baseParams, "zoom", Defined(JNum(zoom)));
      Override(baseParams, "zoom", Defined(JNum(zoom)))
    else Override(baseParams, "zoom", Defined(JNum(zoom)))
  }

  /**
   * `{...advancedResponse, fallback_used: 'advanced-search'}`: an object whose `fallback_used`
   * is the marker and whose every other property is the response's own.
   */
  function MarkFallback(response: Json): (r: Json)
    ensures r.JObj?
    ensures Field(r, "fallback_used") == Some(JStr("advanced-search"))
    ensures forall k | k != "fallback_used" :: Field(r, k) == Lookup(EntriesOf(response), k)
    ensures response.JObj? ==> forall k | k != "fallback_used" :: Field(r, k) == Field(response, k)
  {
    OverrideLookup(EntriesOf(response), "fallback_used", JStr("advanced-search"));
    JObj(Override(EntriesOf(response), "fallback_used", JStr("advanced-search")))
  }

  /**
   * `fetchWithFallback`: the simple search with the caller's parameters; on success its
   * response; on a failure that is not transient the same error; on a transient failure one
   * advanced search with `zoom` overridden, whose response is marked and whose failure
   * propagates. At most two calls are made.
   */
  method FetchWithFallback(client: RecordingClient, baseParams: Params, fallbackZoom: int := DefaultFallbackZoom)
    returns (r: Result<Json, string>)
    modifies client
    ensures
      var primary := client.respond(SimpleSearch, baseParams);
      if primary.Ok? || !IsTransientUpstreamError(primary.error) then
        && client.calls == old(client.calls) + [Call(SimpleSearch, baseParams)]
        && r == primary
      else
        var advancedParams := FallbackParams(baseParams, fallbackZoom);
        && client.calls == old(client.calls) + [Call(SimpleSearch, baseParams), Call(AdvancedSearch, advancedParams)]
        && r == match client.respond(AdvancedSearch, advancedParams)
                case Ok(response) => Ok(MarkFallback(response))
                case Err(e) => Err(e)
  {
    var primary := client.Get(SimpleSearch, baseParams);
    if primary.Ok? {
      return primary;
    }
    if !IsTransientUpstreamError(primary.error) {
      return primary;
    }
    var advancedParams := FallbackParams(baseParams, fallbackZoom);
    var advanced := client.Get(AdvancedSearch, advancedParams);
    match advanced
    case Err(e) => r := Err(e);
    case Ok(response) => r := Ok(MarkFallback(response));
  }

  // ----- The two recorded scenarios -----

  const GatewayTimeout: string := "Scrappa API error (504): Gateway Time-out"
  const ValidationFailed: string := "Scrappa API error (422): Validation failed"

  lemma GatewayTimeoutIsTransient()
    ensures IsTransientUpstreamError(GatewayTimeout)
  {
    GatewayTimeoutMarker(GatewayTimeout);
  }

  /** The 504 message starts with a status marker for a 5xx code. */
  lemma GatewayTimeoutMarker(m: string)
    requires m == "Scrappa API error (504): Gateway Time-out"
    ensures StatusMarkerAt(m, 0)
  {
    assert |ApiErrorTag| == 19;
    assert m[..19] == ApiErrorTag;
    var code := m[19..22];
    assert code[0] == m[19] == '5' && code[1] == m[20] == '0' && code[2] == m[21] == '4';
    assert m[22] == ')';
  }

  /** Every status match starts with an upper-case `S`. */
  lemma StatusMarkerShape(m: string, i: nat)
    ensures StatusMarkerAt(m, i) ==> i < |m| && m[i] == 'S'
  {
    if StatusMarkerAt(m, i) {
      assert m[i..i + |ApiErrorTag|][0] == m[i];
    }
  }

  /** The first and third letters every outage word starts with: `t?m` or `c?o`. */
  predicate OutageLead(m: string, i: nat)
  {
    && i + 2 < |m|
    && var c := LowerAscii(m[i]);
       (c == 't' && LowerAscii(m[i + 2]) == 'm') || (c == 'c' && LowerAscii(m[i + 2]) == 'o')
  }

  lemma OutageWordShape(m: string, i: nat)
    ensures OutageWordAt(m, i) ==> OutageLead(m, i)
  {
    if TimedOutAt(m, i) {
      IgnoreCaseAtChar(m, i, "time", 0);
      IgnoreCaseAtChar(m, i, "time", 2);
    } else if IgnoreCaseAt(m, i, "timeout") {
      IgnoreCaseAtChar(m, i, "timeout", 0);
      IgnoreCaseAtChar(m, i, "timeout", 2);
    } else if IgnoreCaseAt(m, i, "temporarily unavailable") {
      IgnoreCaseAtChar(m, i, "temporarily unavailable", 0);
      IgnoreCaseAtChar(m, i, "temporarily unavailable", 2);
    } else if IgnoreCaseAt(m, i, "cloudflare") {
      IgnoreCaseAtChar(m, i, "cloudflare", 0);
      IgnoreCaseAtChar(m, i, "cloudflare", 2);
    }
  }

  /** Where the 422 message could start a match: nowhere but at its head, with a code of 422. */
  lemma ValidationFailedLetters(m: string)
    requires m == "Scrappa API error (422): Validation failed"
    ensures forall t: nat | 0 < t < |m| :: m[t] != 'S'
    ensures m[|ApiErrorTag|..|ApiErrorTag| + 3] == "422"
  {
    assert |ApiErrorTag| == 19;
    assert m[19] == '4' && m[20] == '2' && m[21] == '2';
  }
  lemma ValidationFailedLeads(m: string)
    requires m == "Scrappa API error (422): Validation failed"
    ensures forall t: nat | t < |m| :: !OutageLead(m, t)
  {
  }

  lemma ValidationFailedIsNotTransient()
    ensures !IsTransientUpstreamError(ValidationFailed)
  {
    var m := ValidationFailed;
    ValidationFailedLetters(m);
    ValidationFailedLeads(m);
    SearchFromFinds(StatusPattern, m, 0);
    SearchFromFinds(OutagePattern, m, 0);
    forall t: nat | t <= |m|
      ensures !MatchesAt(StatusPattern, m, t) && !MatchesAt(OutagePattern, m, t)
    {
      StatusMarkerShape(m, t);
      OutageWordShape(m, t);
    }
  }

  /**
   * A simple search that fails with a 504 gateway time-out: the advanced search is called
   * second, with zoom 13 and the other parameters unchanged, and its items come back marked.
   */
  method GatewayTimeoutFallsBack() returns (calls: seq<Call>, r: Result<Json, string>)
    ensures |calls| == 2
    ensures calls[0].endpoint == SimpleSearch && calls[1].endpoint == AdvancedSearch
    ensures Lookup(calls[1].params, "zoom") == Some(Defined(JNum(13)))
    ensures Lookup(calls[1].params, "query") == Some(Defined(JStr("joe's pizza manhattan")))
    ensures r.Ok? && Field(r.value, "items") == Some(JArr([JObj([("name", JStr("Joe's Pizza"))])]))
    ensures r.Ok? && Field(r.value, "fallback_used") == Some(JStr("advanced-search"))
  {
    var items := JArr([JObj([("name", JStr("Joe's Pizza"))])]);
    var client := new RecordingClient((endpoint: string, params: Params) =>
      if endpoint == SimpleSearch then Err(GatewayTimeout) else Ok(JObj([("items", items)])));
    var baseParams: Params := [
      ("query", Defined(JStr("joe's pizza manhattan"))),
      ("hl", Defined(JStr("en"))),
      ("gl", Defined(JStr("us")))];
    GatewayTimeoutIsTransient();
    r := FetchWithFallback(client, baseParams, 13);
    calls := client.calls;
  }

  /** A simple search that fails with a 422: one call only, and the same error. */
  method ValidationErrorPropagates() returns (calls: seq<Call>, r: Result<Json, string>)
    ensures |calls| == 1 && calls[0].endpoint == SimpleSearch
    ensures r == Err(ValidationFailed)
  {
    var client := new RecordingClient((endpoint: string, params: Params) => Err(ValidationFailed));
    var baseParams: Params := [("query", Defined(JStr("pizza"))), ("hl", Defined(JStr("en")))];
    ValidationFailedIsNotTransient();
    r := FetchWithFallback(client, baseParams, 13);
    calls := client.calls;
  }
}
