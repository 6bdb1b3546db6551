/**
 * `isFallbackWorthy`: whether an OpenAI failure should be answered by
 * falling back to Ollama rather than reported to the caller.
 */
module Classifier {
  import opened Wrappers
  import Text
  import opened Providers

  /** The status codes that make a failure fallback-worthy (auth, quota, server-side). */
  const FallbackStatuses: seq<int> := [401, 429, 500, 502, 503, 504]

  /** The transport-failure patterns, matched as substrings ignoring ASCII case. */
  const TransportPatterns: seq<string> := ["ECONNREFUSED", "ETIMEDOUT", "ENOTFOUND", "fetch failed"]

  /**
   * `err?.status || err?.response?.status`: the error's own status unless it
   * is absent or falsy (0 is the only falsy number), else its response's.
   */
  function EffectiveStatus(e: ProviderError): (s: Option<int>)
    ensures e.status.Some? && e.status.value != 0 ==> s == e.status
    ensures (e.status.None? || e.status.value == 0) ==> s == e.responseStatus
  {
    if e.status.Some? && e.status.value != 0 then e.status else e.responseStatus
  }

  /** Does the error's status (as taken above) fall in the fixed list? */
  predicate HasFallbackStatus(e: ProviderError)
    ensures HasFallbackStatus(e) <==>
      EffectiveStatus(e) in {Some(401), Some(429), Some(500), Some(502), Some(503), Some(504)}
  {
    var s := EffectiveStatus(e);
    s.Some? && s.value in FallbackStatuses
  }

  /** Does the error's text contain one of the transport patterns, ignoring case? */
  predicate HasTransportText(e: ProviderError)
    ensures HasTransportText(e) <==>
      exists k :: 0 <= k < |TransportPatterns| && Text.ContainsIgnoringCase(ErrorText(e), TransportPatterns[k])
  {
    var t := ErrorText(e);
    || Text.ContainsIgnoringCase(t, TransportPatterns[0])
    || Text.ContainsIgnoringCase(t, TransportPatterns[1])
    || Text.ContainsIgnoringCase(t, TransportPatterns[2])
    || Text.ContainsIgnoringCase(t, TransportPatterns[3])
  }

  /** `isFallbackWorthy(err)`. */
  predicate IsFallbackWorthy(e: ProviderError)
    ensures EffectiveStatus(e) in {Some(401), Some(429), Some(500), Some(502), Some(503), Some(504)}
            ==> IsFallbackWorthy(e)
    ensures (exists k :: 0 <= k < |TransportPatterns| && Text.ContainsIgnoringCase(ErrorText(e), TransportPatterns[k]))
            ==> IsFallbackWorthy(e)
    ensures IsFallbackWorthy(e) ==>
      || EffectiveStatus(e) in {Some(401), Some(429), Some(500), Some(502), Some(503), Some(504)}
      || exists k :: 0 <= k < |TransportPatterns| && Text.ContainsIgnoringCase(ErrorText(e), TransportPatterns[k])
  {
    HasFallbackStatus(e) || HasTransportText(e)
  }

  /** Reference definition of the text test: some pattern occurs at some position. */
  ghost predicate TransportPatternOccurs(e: ProviderError) {
    exists k, i :: 0 <= k < |TransportPatterns| && Text.MatchesAt(ErrorText(e), TransportPatterns[k], i)
  }

  /** Every status in the list makes the failure worthy, whatever the text. */
  lemma FallbackStatusIsWorthy(e: ProviderError)
    requires EffectiveStatus(e) in {Some(401), Some(429), Some(500), Some(502), Some(503), Some(504)}
    ensures IsFallbackWorthy(e)
  {
  }

  /**
   * The status is looked for on the error first: a non-zero `status` wins
   * over the response's; without one, the response's status decides.
   */
  lemma StatusComesFromErrorThenResponse(e: ProviderError)
    ensures e.status.Some? && e.status.value != 0 ==> (HasFallbackStatus(e) <==> e.status.value in FallbackStatuses)
    ensures (e.status.None? || e.status.value == 0)
            ==> (HasFallbackStatus(e) <==> e.responseStatus.Some? && e.responseStatus.value in FallbackStatuses)
  {
  }

  /** The four pattern tests together are exactly "some pattern occurs somewhere". */
  lemma {:induction false} TransportTextIff(e: ProviderError)
    ensures HasTransportText(e) <==> TransportPatternOccurs(e)
  {
    var t := ErrorText(e);
    forall k | 0 <= k < |TransportPatterns|
      ensures Text.ContainsIgnoringCase(t, TransportPatterns[k]) <==> exists i :: Text.MatchesAt(t, TransportPatterns[k], i)
    {
      Text.ContainsIgnoringCaseIff(t, TransportPatterns[k]);
    }
    if TransportPatternOccurs(e) {
      var k, i :| 0 <= k < |TransportPatterns| && Text.MatchesAt(t, TransportPatterns[k], i);
      assert Text.ContainsIgnoringCase(t, TransportPatterns[k]);
    }
    if HasTransportText(e) {
      var k :| 0 <= k < 4 && Text.ContainsIgnoringCase(t, TransportPatterns[k]);
      var i :| Text.MatchesAt(t, TransportPatterns[k], i);
      assert Text.MatchesAt(t, TransportPatterns[k], i);
    }
  }

  /**
   * The whole policy: worthy exactly when the status is in the list or the
   * text contains a pattern, ignoring case, at some position.
   */
  lemma {:induction false} FallbackWorthyIff(e: ProviderError)
    ensures IsFallbackWorthy(e) <==>
      || (EffectiveStatus(e).Some? && EffectiveStatus(e).value in {401, 429, 500, 502, 503, 504})
      || TransportPatternOccurs(e)
  {
    TransportTextIff(e);
  }

  /** A pattern occurring in the text, in any case, makes the failure worthy, whatever the status. */
  lemma TransportTextIsWorthy(e: ProviderError, k: nat, i: nat)
    requires k < |TransportPatterns|
    requires Text.MatchesAt(ErrorText(e), TransportPatterns[k], i)
    ensures IsFallbackWorthy(e)
  {
    TransportTextIff(e);
  }

  /**
   * Any other status (400, 403, …, or none) with text that contains no
   * pattern is not worthy: the failure is reported, not masked.
   */
  lemma OtherFailureIsNotWorthy(e: ProviderError)
    requires EffectiveStatus(e).None? || EffectiveStatus(e).value !in {401, 429, 500, 502, 503, 504}
    requires forall k, i :: 0 <= k < |TransportPatterns| ==> !Text.MatchesAt(ErrorText(e), TransportPatterns[k], i)
    ensures !IsFallbackWorthy(e)
  {
    FallbackWorthyIff(e);
  }

  /** A Node.js connection-refused error in lower case, with no status, is worthy. */
  lemma ConnectionRefusedExample()
    ensures IsFallbackWorthy(ThrownError("connect econnrefused 127.0.0.1:443"))
  {
    var pre, word, post := "connect ", "econnrefused", " 127.0.0.1:443";
    var m := pre + word + post;
    assert m == "connect econnrefused 127.0.0.1:443";
    var e := ThrownError(m);
    assert ErrorText(e) == m;
    forall j | 0 <= j < |word| ensures Text.SameIgnoringCase(m[8 + j], TransportPatterns[0][j]) {
      assert m[8 + j] == word[j];
    }
    TransportTextIsWorthy(e, 0, 8);
  }

  /** A 429 from the SDK, or a 503 on the error's response, falls back. */
  lemma WorthyStatusExamples()
    ensures IsFallbackWorthy(ProviderError(Some(429), None, "Rate limit reached", "Error: Rate limit reached"))
    ensures IsFallbackWorthy(ProviderError(None, Some(503), "", "Error"))
  {
    FallbackStatusIsWorthy(ProviderError(Some(429), None, "Rate limit reached", "Error: Rate limit reached"));
    FallbackStatusIsWorthy(ProviderError(None, Some(503), "", "Error"));
  }

  /** A 403 "Forbidden" does not fall back. */
  lemma ForbiddenExample()
    ensures !IsFallbackWorthy(ProviderError(Some(403), None, "Forbidden", "Error: Forbidden"))
  {
    var e := ProviderError(Some(403), None, "Forbidden", "Error: Forbidden");
    assert ErrorText(e) == "Forbidden";
    forall k, i | 0 <= k < |TransportPatterns| ensures !Text.MatchesAt(ErrorText(e), TransportPatterns[k], i) {
      // only the two 9-letter patterns fit, at position 0, and "F" is not "E"
      if i == 0 && (k == 1 || k == 2) {
        assert !Text.SameIgnoringCase(ErrorText(e)[0], TransportPatterns[k][0]);
      }
    }
    OtherFailureIsNotWorthy(e);
  }
}
