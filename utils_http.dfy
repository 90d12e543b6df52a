/**
 * The HTTP helpers that do not touch the network: redaction of secrets in
 * logged URLs, bodies and headers, the classification of retryable statuses
 * and errors, and the user-facing wrapping of network errors.
 */
module UtilsHttp {
  import opened Wrappers
  import opened GoStrings
  import opened CliErrors

  const Redacted := "[REDACTED]"

  // ---------------------------------------------------------------- index helpers

  /** Index reports an occurrence that is at `k` and at no earlier byte. */
  lemma IndexIsTheFirst(s: string, p: string, k: nat)
    requires OccursAt(s, p, k)
    requires forall j :: 0 <= j < k ==> !OccursAt(s, p, j)
    ensures Index(s, p) == k
  {
  }

  /** Index only looks as far as the first occurrence: text that agrees up to its end finds it at the same byte. */
  lemma IndexOfSamePrefix(a: string, b: string, p: string, n: nat)
    requires Index(a, p) != -1 && Index(a, p) + |p| <= n <= |a| && n <= |b| && a[..n] == b[..n]
    ensures Index(b, p) == Index(a, p)
  {
    var k := Index(a, p);
    assert forall t :: 0 <= t < n ==> a[t] == b[t] by {
      forall t | 0 <= t < n
        ensures a[t] == b[t]
      {
        assert a[t] == a[..n][t];
        assert b[t] == b[..n][t];
      }
    }
    assert a[k..k + |p|] == b[k..k + |p|];
    forall j | 0 <= j < k
      ensures !OccursAt(b, p, j)
    {
      assert !OccursAt(a, p, j);
      assert a[j..j + |p|] == b[j..j + |p|];
    }
    IndexIsTheFirst(b, p, k);
  }

  lemma OccursAtOfOneByte(s: string, c: char, j: int)
    ensures OccursAt(s, [c], j) <==> 0 <= j < |s| && s[j] == c
  {
    if 0 <= j < |s| {
      assert s[j..j + 1] == [s[j]];
    }
  }

  /** Searching for one byte: the first position holding it, or -1. */
  lemma IndexOfOneByte(s: string, c: char)
    ensures Index(s, [c]) == IndexByte(s, c)
  {
    var k := IndexByte(s, c);
    forall j | 0 <= j <= |s|
      ensures OccursAt(s, [c], j) <==> j < |s| && s[j] == c
    {
      OccursAtOfOneByte(s, c, j);
    }
    if k != -1 {
      forall j | 0 <= j < k
        ensures !OccursAt(s, [c], j)
      {
        assert s[j] in s[..k];
      }
      IndexIsTheFirst(s, [c], k);
    } else {
      assert forall j :: 0 <= j <= |s| ==> !OccursAt(s, [c], j);
    }
  }

  // ---------------------------------------------------------------- sanitizeURL

  const SensitiveParams := ["token", "key", "secret", "password", "access_token", "api_key"]

  /** Where the value of a parameter found at `idx` ends: the next `&`, or the end of the URL. */
  function ParamEnd(url: string, idx: nat): (end: nat)
    requires idx <= |url|
    ensures idx <= end <= |url|
    ensures '&' !in url[idx..end]
    ensures end < |url| ==> url[end] == '&'
  {
    var e := IndexByte(url[idx..], '&');
    if e == -1 then |url|
    else
      assert url[idx..][..e] == url[idx..idx + e];
      idx + e
  }

  /** What replaces a sensitive parameter and its value. */
  function RedactedParam(param: string): string {
    param + "=" + Redacted
  }

  /**
   * One step of sanitizeURL: the first `param=` found case-insensitively has
   * everything from it up to the next `&` (or the end) replaced by
   * `param=[REDACTED]`.
   */
  function RedactParam(url: string, param: string): (r: string)
    ensures Index(ToLower(url), param + "=") == -1 ==> r == url
    ensures var idx := Index(ToLower(url), param + "=");
            idx != -1 ==> r == url[..idx] + RedactedParam(param) + url[ParamEnd(url, idx)..]
  {
    var idx := Index(ToLower(url), param + "=");
    if idx == -1 then url else url[..idx] + RedactedParam(param) + url[ParamEnd(url, idx)..]
  }

  /** The URL after the parameters of `params` have been redacted in turn. */
  function RedactParams(url: string, params: seq<string>): string
    decreases |params|
  {
    if |params| == 0 then url
    else RedactParam(RedactParams(url, params[..|params| - 1]), params[|params| - 1])
  }

  /** sanitizeURL: every sensitive parameter in turn. */
  method SanitizeUrl(url: string) returns (result: string)
    ensures result == RedactParams(url, SensitiveParams)
  {
    result := url;
    for i := 0 to |SensitiveParams|
      invariant result == RedactParams(url, SensitiveParams[..i])
    {
      assert SensitiveParams[..i + 1][..i] == SensitiveParams[..i];
      result := RedactParamInPlace(result, SensitiveParams[i]);
    }
    assert SensitiveParams[..|SensitiveParams|] == SensitiveParams;
  }

  lemma RedactedParamSplices(a: string, param: string, t: string)
    ensures a + RedactedParam(param) + t == a + param + "=" + Redacted + t
    ensures t == [] ==> a + RedactedParam(param) + t == a + param + "=" + Redacted
  {
  }

  /** RedactParam at a match, written the way sanitizeURL builds it. */
  lemma RedactParamAt(url: string, param: string, idx: int)
    requires idx == Index(ToLower(url), param + "=") && idx != -1
    ensures ParamEnd(url, idx) == |url| ==> RedactParam(url, param) == url[..idx] + param + "=" + Redacted
    ensures RedactParam(url, param) == url[..idx] + param + "=" + Redacted + url[ParamEnd(url, idx)..]
  {
    var end := ParamEnd(url, idx);
    var r := RedactParam(url, param);
    assert r == url[..idx] + RedactedParam(param) + url[end..];
    RedactedParamSplices(url[..idx], param, url[end..]);
    if end == |url| {
      assert url[end..] == [];
    }
  }

  /** The body of the loop of sanitizeURL for one parameter. */
  method RedactParamInPlace(url: string, param: string) returns (result: string)
    ensures result == RedactParam(url, param)
  {
    var pattern := param + "=";
    var idx := Index(ToLower(url), pattern);
    if idx == -1 {
      return url;
    }
    var endIdx := Index(url[idx..], "&");
    IndexOfOneByte(url[idx..], '&');
    RedactParamAt(url, param, idx);
    if endIdx == -1 {
      assert ParamEnd(url, idx) == |url|;
      result := url[..idx] + param + "=" + Redacted;
    } else {
      assert ParamEnd(url, idx) == idx + endIdx;
      result := url[..idx] + param + "=" + Redacted + url[idx + endIdx..];
    }
  }

  /** A URL in which no `name=` occurs, case-insensitively, is returned unchanged. */
  lemma {:induction false} RedactParamsOfCleanUrl(url: string, params: seq<string>)
    requires forall i :: 0 <= i < |params| ==> Index(ToLower(url), params[i] + "=") == -1
    ensures RedactParams(url, params) == url
    decreases |params|
  {
    if |params| > 0 {
      RedactParamsOfCleanUrl(url, params[..|params| - 1]);
    }
  }

  /** Lower-casing keeps a common prefix common. */
  lemma LowerOfSamePrefix(a: string, b: string, n: nat)
    requires n <= |a| && n <= |b| && a[..n] == b[..n]
    ensures ToLower(a)[..n] == ToLower(b)[..n]
  {
    forall j | 0 <= j < n
      ensures ToLower(a)[j] == ToLower(b)[j]
    {
      assert a[j] == a[..n][j] == b[..n][j] == b[j];
    }
  }

  /** Replacing the text after a lower-case match by the match itself keeps the match where it was. */
  lemma MatchStaysPut(s: string, pattern: string, t: string)
    requires NoUpper(pattern) && Index(ToLower(s), pattern) != -1
    requires var idx := Index(ToLower(s), pattern);
             |t| >= idx + |pattern| && t[..idx + |pattern|] == s[..idx] + pattern
    ensures Index(ToLower(t), pattern) == Index(ToLower(s), pattern)
  {
    var idx := Index(ToLower(s), pattern);
    var n := idx + |pattern|;
    assert ToLower(t)[..n] == ToLower(s)[..n] by {
      forall j | 0 <= j < n
        ensures ToLower(t)[j] == ToLower(s)[j]
      {
        if j >= idx {
          assert t[j] == t[..n][j] == pattern[j - idx];
          assert ToLower(s)[idx..n] == pattern;
          assert ToLower(s)[j] == ToLower(s)[idx..n][j - idx];
        } else {
          assert t[j] == t[..n][j] == s[..idx][j] == s[j];
        }
      }
    }
    IndexOfSamePrefix(ToLower(s), ToLower(t), pattern, n);
  }

  /** A value without `&` followed by nothing or by `&` ends right after itself. */
  lemma ParamEndAfterValue(r: string, idx: nat, value: string, rest: string)
    requires idx + |value| + |rest| == |r| && r[idx..] == value + rest
    requires '&' !in value && (rest == [] || rest[0] == '&')
    ensures ParamEnd(r, idx) == idx + |value|
  {
    var tail := r[idx..];
    assert tail[..|value|] == value;
    if rest != [] {
      assert tail[|value|] == '&';
      IndexByteIsFirst(tail, '&', |value|);
    } else {
      assert tail == value;
    }
  }

  /** Redacting a parameter a second time changes nothing. */
  lemma RedactParamIdempotent(url: string, param: string)
    requires NoUpper(param) && '&' !in param
    ensures RedactParam(RedactParam(url, param), param) == RedactParam(url, param)
  {
    var idx := Index(ToLower(url), param + "=");
    if idx != -1 {
      var r := RedactParam(url, param);
      var rest := url[ParamEnd(url, idx)..];
      ShapeOfRedacted(url, param);
      MatchStaysPut(url, param + "=", r);
      ParamEndAfterValue(r, idx, RedactedParam(param), rest);
      RedactAgainChangesNothing(r, param, idx, rest);
    }
  }

  /** The redacted URL is the text before the match, the redacted pair, and the rest from the `&` on. */
  lemma ShapeOfRedacted(url: string, param: string)
    requires '&' !in param && Index(ToLower(url), param + "=") != -1
    ensures var idx := Index(ToLower(url), param + "=");
            var r := RedactParam(url, param);
            var rest := url[ParamEnd(url, idx)..];
            && idx + |RedactedParam(param)| + |rest| == |r|
            && r[idx..] == RedactedParam(param) + rest
            && r[..idx + |param + "="|] == url[..idx] + (param + "=")
            && '&' !in RedactedParam(param)
            && (rest == [] || rest[0] == '&')
  {
    var idx := Index(ToLower(url), param + "=");
    var value := RedactedParam(param);
    assert value[..|param + "="|] == param + "=";
    Splice(url, idx, ParamEnd(url, idx), value, |param + "="|);
    assert '&' !in Redacted;
  }

  /** Replacing `url[idx..end]` by `value`: the pieces of the result. */
  lemma Splice(url: string, idx: nat, end: nat, value: string, k: nat)
    requires idx <= end <= |url| && k <= |value|
    ensures var r := url[..idx] + value + url[end..];
            && |r| == idx + |value| + |url[end..]|
            && r[idx..] == value + url[end..]
            && r[..idx + k] == url[..idx] + value[..k]
  {
  }

  /** Text whose first match already carries the redacted value is left as it is. */
  lemma RedactAgainChangesNothing(r: string, param: string, idx: nat, rest: string)
    requires Index(ToLower(r), param + "=") == idx
    requires idx + |RedactedParam(param)| + |rest| == |r| && r[idx..] == RedactedParam(param) + rest
    requires ParamEnd(r, idx) == idx + |RedactedParam(param)|
    ensures RedactParam(r, param) == r
  {
    var value := RedactedParam(param);
    SpliceBack(r, idx, value, rest);
    assert RedactParam(r, param) == r[..idx] + value + r[ParamEnd(r, idx)..];
  }

  /** Text that continues with `value` at `idx` is its prefix, `value` and what follows. */
  lemma SpliceBack(r: string, idx: nat, value: string, rest: string)
    requires idx + |value| <= |r| && r[idx..] == value + rest
    ensures r[..idx] + value + r[idx + |value|..] == r
  {
    assert r[idx + |value|..] == r[idx..][|value|..];
    assert r == r[..idx] + r[idx..];
  }

  // ---------------------------------------------------------------- sanitizeBody

  const SensitiveFields := ["\"token\":", "\"access_token\":", "\"password\":", "\"secret\":", "\"api_key\":"]

  predicate IsValueLead(c: char) { c == ' ' || c == '"' }

  predicate IsValueEnd(c: char) { c == '"' || c == ',' || c == '}' }

  /** Where the value starts: past the spaces and quotes from `i` on. */
  function ValueStart(s: string, i: nat): (start: nat)
    requires i <= |s|
    ensures i <= start <= |s|
    ensures forall k :: i <= k < start ==> IsValueLead(s[k])
    ensures start < |s| ==> !IsValueLead(s[start])
    decreases |s| - i
  {
    if i < |s| && IsValueLead(s[i]) then ValueStart(s, i + 1) else i
  }

  /** Where the value ends: the next quote, comma or closing brace from `i` on, or the end. */
  function ValueEnd(s: string, i: nat): (end: nat)
    requires i <= |s|
    ensures i <= end <= |s|
    ensures forall k :: i <= k < end ==> !IsValueEnd(s[k])
    ensures end < |s| ==> IsValueEnd(s[end])
    decreases |s| - i
  {
    if i < |s| && !IsValueEnd(s[i]) then ValueEnd(s, i + 1) else i
  }

  /** A start and end with the properties above are the ones ValueStart and ValueEnd find. */
  lemma {:induction false} ValueStartIsUnique(s: string, i: nat, start: nat)
    requires i <= start <= |s|
    requires forall k :: i <= k < start ==> IsValueLead(s[k])
    requires start < |s| ==> !IsValueLead(s[start])
    ensures ValueStart(s, i) == start
    decreases start - i
  {
    if i < start {
      ValueStartIsUnique(s, i + 1, start);
    }
  }

  lemma {:induction false} ValueEndIsUnique(s: string, i: nat, end: nat)
    requires i <= end <= |s|
    requires forall k :: i <= k < end ==> !IsValueEnd(s[k])
    requires end < |s| ==> IsValueEnd(s[end])
    ensures ValueEnd(s, i) == end
    decreases end - i
  {
    if i < end {
      ValueEndIsUnique(s, i + 1, end);
    }
  }

  /** The first case-insensitive match of `pattern`, and the value after it. */
  function ValueSpan(body: string, pattern: string): (span: Option<(nat, nat)>)
    ensures span.None? <==> Index(ToLower(body), ToLower(pattern)) == -1
    ensures span.Some? ==>
              var idx := Index(ToLower(body), ToLower(pattern));
              idx + |pattern| <= span.value.0 <= span.value.1 <= |body|
              && span.value.0 == ValueStart(body, idx + |pattern|)
              && span.value.1 == ValueEnd(body, span.value.0)
  {
    var idx := Index(ToLower(body), ToLower(pattern));
    if idx == -1 then None
    else
      var start := ValueStart(body, idx + |pattern|);
      Some((start, ValueEnd(body, start)))
  }

  /**
   * One step of sanitizeBody: the value after the first match of `pattern`
   * (past spaces and quotes, up to a quote, comma or brace) becomes
   * `[REDACTED]`; an empty value changes nothing.
   */
  function RedactField(body: string, pattern: string): (r: string)
    ensures ValueSpan(body, pattern).None? ==> r == body
    ensures ValueSpan(body, pattern).Some? ==>
              var (start, end) := ValueSpan(body, pattern).value;
              r == if start < end then body[..start] + Redacted + body[end..] else body
  {
    match ValueSpan(body, pattern)
    case None => body
    case Some((start, end)) => if start < end then body[..start] + Redacted + body[end..] else body
  }

  /** The body after the fields of `patterns` have been redacted in turn. */
  function RedactFields(body: string, patterns: seq<string>): string
    decreases |patterns|
  {
    if |patterns| == 0 then body
    else RedactField(RedactFields(body, patterns[..|patterns| - 1]), patterns[|patterns| - 1])
  }

  /** sanitizeBody: every sensitive field in turn, with the two scanning loops. */
  method SanitizeBody(body: string) returns (result: string)
    ensures result == RedactFields(body, SensitiveFields)
  {
    result := body;
    for i := 0 to |SensitiveFields|
      invariant result == RedactFields(body, SensitiveFields[..i])
    {
      assert SensitiveFields[..i + 1][..i] == SensitiveFields[..i];
      result := RedactFieldInPlace(result, SensitiveFields[i]);
    }
    assert SensitiveFields[..|SensitiveFields|] == SensitiveFields;
  }

  /** The first loop of sanitizeBody: skip the spaces and quotes before the value. */
  method SkipValueLead(s: string, from: nat) returns (start: nat)
    requires from <= |s|
    ensures start == ValueStart(s, from)
  {
    start := from;
    while start < |s| && (s[start] == ' ' || s[start] == '"')
      invariant from <= start <= |s|
      invariant ValueStart(s, from) == ValueStart(s, start)
      decreases |s| - start
    {
      start := start + 1;
    }
  }

  /** The second loop of sanitizeBody: find the quote, comma or brace that ends the value. */
  method FindValueEnd(s: string, start: nat) returns (end: nat)
    requires start <= |s|
    ensures end == ValueEnd(s, start)
  {
    end := start;
    while end < |s| && s[end] != '"' && s[end] != ',' && s[end] != '}'
      invariant start <= end <= |s|
      invariant ValueEnd(s, start) == ValueEnd(s, end)
      decreases |s| - end
    {
      end := end + 1;
    }
  }

  /** RedactField in terms of the match and the value span the loops of sanitizeBody find. */
  lemma RedactFieldAt(body: string, pattern: string, idx: int, start: nat, end: nat)
    requires idx == Index(ToLower(body), ToLower(pattern))
    requires idx != -1 ==> idx + |pattern| <= start <= |body|
    requires idx != -1 ==> start == ValueStart(body, idx + |pattern|) && end == ValueEnd(body, start)
    ensures idx == -1 ==> RedactField(body, pattern) == body
    ensures idx != -1 && start >= end ==> RedactField(body, pattern) == body
    ensures idx != -1 && start < end ==> RedactField(body, pattern) == body[..start] + Redacted + body[end..]
  {
    var span := ValueSpan(body, pattern);
    if idx == -1 {
      assert span.None?;
    } else {
      assert span == Some((start, end));
    }
  }

  /** The body of the loop of sanitizeBody for one pattern. */
  method RedactFieldInPlace(body: string, pattern: string) returns (result: string)
    ensures result == RedactField(body, pattern)
  {
    result := body;
    var idx := Index(ToLower(result), ToLower(pattern));
    if idx == -1 {
      RedactFieldAt(body, pattern, idx, 0, 0);
    } else {
      var start := SkipValueLead(result, idx + |pattern|);
      var end := FindValueEnd(result, start);
      RedactFieldAt(body, pattern, idx, start, end);
      if start < end {
        result := result[..start] + Redacted + result[end..];
      }
    }
  }

  /** Redacting a field a second time changes nothing. */
  lemma RedactFieldIdempotent(body: string, pattern: string)
    ensures RedactField(RedactField(body, pattern), pattern) == RedactField(body, pattern)
  {
    var span := ValueSpan(body, pattern);
    if span.Some? && span.value.0 < span.value.1 {
      var start, end := span.value.0, span.value.1;
      var idx := Index(ToLower(body), ToLower(pattern));
      RedactFieldAt(body, pattern, idx, start, end);
      RedactedFieldStays(body, pattern, idx, start, end);
    }
  }

  /** The text with a field redacted is a fixed point of redacting that field. */
  lemma RedactedFieldStays(body: string, pattern: string, idx: int, start: nat, end: nat)
    requires idx == Index(ToLower(body), ToLower(pattern)) && idx != -1
    requires idx + |pattern| <= start < end <= |body|
    requires start == ValueStart(body, idx + |pattern|) && end == ValueEnd(body, start)
    ensures var r := body[..start] + Redacted + body[end..]; RedactField(r, pattern) == r
  {
    var r := body[..start] + Redacted + body[end..];
    RedactedFieldIsFound(body, pattern, idx, start, end, r);
    RedactFieldAt(r, pattern, idx, start, start + |Redacted|);
    assert r[start..] == Redacted + body[end..];
    SpliceBack(r, start, Redacted, body[end..]);
  }

  /** After redaction the match and the value's start are where they were, and the value is `[REDACTED]`. */
  lemma RedactedFieldIsFound(body: string, pattern: string, idx: int, start: nat, end: nat, r: string)
    requires idx == Index(ToLower(body), ToLower(pattern)) && idx != -1
    requires idx + |pattern| <= start < end <= |body|
    requires start == ValueStart(body, idx + |pattern|) && end == ValueEnd(body, start)
    requires r == body[..start] + Redacted + body[end..]
    ensures Index(ToLower(r), ToLower(pattern)) == idx
    ensures start + |Redacted| <= |r|
    ensures ValueStart(r, idx + |pattern|) == start && ValueEnd(r, start) == start + |Redacted|
  {
    assert r[..start] == body[..start];
    LowerOfSamePrefix(body, r, start);
    IndexOfSamePrefix(ToLower(body), ToLower(r), ToLower(pattern), start);
    RedactedValueIsFound(body, r, idx + |pattern|, start, end);
  }

  /** In the redacted text the value starts at the same byte and is exactly `[REDACTED]`. */
  lemma RedactedValueIsFound(body: string, r: string, from: nat, start: nat, end: nat)
    requires from <= start < end <= |body|
    requires start == ValueStart(body, from) && end == ValueEnd(body, start)
    requires r == body[..start] + Redacted + body[end..]
    ensures ValueStart(r, from) == start
    ensures ValueEnd(r, start) == start + |Redacted|
  {
    assert forall k :: from <= k < start ==> r[k] == body[k];
    assert r[start] == '[';
    ValueStartIsUnique(r, from, start);
    assert r[start..start + |Redacted|] == Redacted;
    assert forall k :: start <= k < start + |Redacted| ==> r[k] == Redacted[k - start];
    assert start + |Redacted| < |r| ==> r[start + |Redacted|] == body[end];
    ValueEndIsUnique(r, start, start + |Redacted|);
  }

  /** A body without any sensitive field, case-insensitively, is returned unchanged. */
  lemma {:induction false} RedactFieldsOfCleanBody(body: string, patterns: seq<string>)
    requires forall i :: 0 <= i < |patterns| ==> Index(ToLower(body), ToLower(patterns[i])) == -1
    ensures RedactFields(body, patterns) == body
    decreases |patterns|
  {
    if |patterns| > 0 {
      RedactFieldsOfCleanBody(body, patterns[..|patterns| - 1]);
    }
  }

  // ---------------------------------------------------------------- headers and statuses

  const SensitiveHeaders := ["authorization", "cookie", "set-cookie", "x-api-key", "x-auth-token"]

  /** isSensitiveHeader: an exact match, ignoring case, against the sensitive names. */
  method IsSensitiveHeader(name: string) returns (r: bool)
    ensures r <==> ToLower(name) in SensitiveHeaders
  {
    var lower := ToLower(name);
    for i := 0 to |SensitiveHeaders|
      invariant lower !in SensitiveHeaders[..i]
    {
      if lower == SensitiveHeaders[i] {
        return true;
      }
      assert SensitiveHeaders[..i + 1] == SensitiveHeaders[..i] + [SensitiveHeaders[i]];
    }
    assert SensitiveHeaders[..|SensitiveHeaders|] == SensitiveHeaders;
    return false;
  }

  /** Header names that differ only in case are treated alike. */
  lemma SensitiveHeaderIgnoresCase(a: string, b: string)
    requires EqualFold(a, b)
    ensures ToLower(a) in SensitiveHeaders <==> ToLower(b) in SensitiveHeaders
  {
  }

  /** isRetryableStatus: too many requests, bad gateway, unavailable and gateway timeout. */
  function IsRetryableStatus(status: int): (r: bool)
    ensures r <==> status in {429, 502, 503, 504}
  {
    match status
    case 429 => true
    case 503 => true
    case 504 => true
    case 502 => true
    case _ => false
  }

  // ---------------------------------------------------------------- errors

  const RetryablePatterns := ["connection reset", "connection refused", "connection timed out",
                              "no such host", "EOF", "broken pipe"]

  /** asNetError: what the first `net.Error` on the chain reports, as (timeout, temporary). */
  function FirstNetError(err: Error): Option<(bool, bool)>
    decreases err
  {
    match err
    case NetError(_, timeout, temporary) => Some((timeout, temporary))
    case _ => if Unwrap(err).Some? then FirstNetError(Unwrap(err).value) else None
  }

  /** The message of `err`, lower-cased, contains one of `patterns`. */
  predicate MentionsAny(err: Error, patterns: seq<string>) {
    exists i :: 0 <= i < |patterns| && Contains(ToLower(Message(err)), patterns[i])
  }

  /**
   * isRetryableError: never for nil; a `net.Error` on the chain decides by
   * its timeout and temporary flags; otherwise the lower-cased message must
   * contain one of the retryable patterns.
   */
  method IsRetryableError(err: Option<Error>) returns (r: bool)
    ensures err.None? ==> !r
    ensures err.Some? && FirstNetError(err.value).Some? ==>
              (r <==> FirstNetError(err.value).value.0 || FirstNetError(err.value).value.1)
    ensures err.Some? && FirstNetError(err.value).None? ==> (r <==> MentionsAny(err.value, RetryablePatterns))
  {
    if err.None? {
      return false;
    }
    var net := FirstNetError(err.value);
    if net.Some? {
      return net.value.0 || net.value.1;
    }
    var errStr := Message(err.value);
    for i := 0 to |RetryablePatterns|
      invariant forall k :: 0 <= k < i ==> !Contains(ToLower(errStr), RetryablePatterns[k])
    {
      if Contains(ToLower(errStr), RetryablePatterns[i]) {
        return true;
      }
    }
    return false;
  }

  /** The upper-case "EOF" pattern never matches a lower-cased message, so only the other five count. */
  lemma EofPatternNeverMatches(err: Error)
    ensures MentionsAny(err, RetryablePatterns) <==>
            MentionsAny(err, ["connection reset", "connection refused", "connection timed out",
                              "no such host", "broken pipe"])
  {
    LowerHasNoUpper(Message(err));
    NoUpperNeverContains(ToLower(Message(err)), "EOF", 0);
    var others := ["connection reset", "connection refused", "connection timed out", "no such host", "broken pipe"];
    if MentionsAny(err, RetryablePatterns) {
      var i :| 0 <= i < |RetryablePatterns| && Contains(ToLower(Message(err)), RetryablePatterns[i]);
      assert i != 4;
      assert RetryablePatterns[i] == others[if i < 4 then i else i - 1];
    }
    if MentionsAny(err, others) {
      var i :| 0 <= i < |others| && Contains(ToLower(Message(err)), others[i]);
      assert others[i] == RetryablePatterns[if i < 4 then i else i + 1];
    }
  }

  /** The hints of wrapNetworkError, by what the message mentions. */
  const HostHint := "unable to resolve host - please check your internet connection"
  const RefusedHint := "connection refused - the server may be down or unreachable"
  const TimeoutHint := "connection timed out - please check your internet connection"
  const TlsHint := "TLS/SSL error - please ensure HTTPS is properly configured"
  const GenericHint := "network error"

  /** The hint for a message, first match winning, compared case-sensitively. */
  function NetworkHint(message: string): (hint: string)
    ensures Contains(message, "no such host") ==> hint == HostHint
    ensures !Contains(message, "no such host") && Contains(message, "connection refused") ==> hint == RefusedHint
    ensures hint == GenericHint <==>
              !Contains(message, "no such host") && !Contains(message, "connection refused")
              && !Contains(message, "connection timed out") && !Contains(message, "i/o timeout")
              && !Contains(message, "TLS") && !Contains(message, "certificate")
  {
    if Contains(message, "no such host") then HostHint
    else if Contains(message, "connection refused") then RefusedHint
    else if Contains(message, "connection timed out") || Contains(message, "i/o timeout") then TimeoutHint
    else if Contains(message, "TLS") || Contains(message, "certificate") then TlsHint
    else GenericHint
  }

  /** wrapNetworkError: the hint, then the original error, which stays next on the chain. */
  function WrapNetworkError(err: Error): (r: Error)
    ensures Message(r) == NetworkHint(Message(err)) + ": " + Message(err)
    ensures Unwrap(r) == Some(err) && Is(r, err)
    ensures FirstNetError(r) == FirstNetError(err)
  {
    Wrapped(NetworkHint(Message(err)), err)
  }

  /** A wrapped network error is retried exactly when the original is, if the original is a `net.Error`. */
  lemma WrappedNetErrorRetriesAlike(err: Error)
    requires FirstNetError(err).Some?
    ensures FirstNetError(WrapNetworkError(err)) == FirstNetError(err)
  {
  }
}
