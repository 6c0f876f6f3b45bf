/** The token locator of the telemetry filter plugin
    (`LogTelemetryMessageExtractor#match_telemetry_token`). */
module TelemetryToken {
  import opened Wrappers
  import opened Strings

  /** The name of the key that marks a telemetry message. */
  const TokenName: string := "telemetry-source"

  /** `QUOTED_TOKEN`: the key as it appears in plain JSON. */
  const QuotedToken: string := [Quote] + TokenName + [Quote]

  /** `ESCAPED_QUOTED_TOKEN`: the key as it appears in JSON that is itself
      the value of a JSON string, each quote preceded by a backslash. */
  const EscapedQuotedToken: string := [Backslash, Quote] + TokenName + [Backslash, Quote]

  /** Where the token was found, and in which dialect. */
  datatype TokenMatch = TokenMatch(index: nat, escaped: bool)

  /** Ruby's `String#index(pat)`: the first index at which `pat` occurs. */
  function IndexOf(s: string, pat: string): (r: Option<nat>)
    ensures r.Some? ==> OccursAt(s, pat, r.value)
    ensures r.Some? ==> forall j :: 0 <= j < r.value ==> !OccursAt(s, pat, j)
    ensures r.None? ==> forall j :: 0 <= j ==> !OccursAt(s, pat, j)
    decreases |s|
  {
    if |s| < |pat| then
      None
    else if s[..|pat|] == pat then
      Some(0)
    else
      var rest := IndexOf(s[1..], pat);
      ShiftOccurrence(s, pat);
      assert !OccursAt(s, pat, 0);
      if rest.None? then None else Some(rest.value + 1)
  }

  /** An occurrence in `s[1..]` is an occurrence in `s` one place further on. */
  lemma ShiftOccurrence(s: string, pat: string)
    requires |s| >= 1
    ensures forall j: nat :: 1 <= j ==> (OccursAt(s, pat, j) <==> OccursAt(s[1..], pat, j - 1))
  {
    forall j: nat | 1 <= j
      ensures OccursAt(s, pat, j) <==> OccursAt(s[1..], pat, j - 1)
    {
      if j + |pat| <= |s| {
        assert s[1..][j - 1..j - 1 + |pat|] == s[j..j + |pat|];
      }
    }
  }

  /** `match_telemetry_token`: the first plain token if there is one anywhere,
      otherwise the first escaped token (its index is that of the leading
      backslash), otherwise no match. */
  function MatchTelemetryToken(line: string): (m: Option<TokenMatch>)
    ensures m.Some? ==> m.value.index < |line|
  {
    var plain := IndexOf(line, QuotedToken);
    if plain.Some? then
      Some(TokenMatch(plain.value, false))
    else
      var escaped := IndexOf(line, EscapedQuotedToken);
      if escaped.Some? then Some(TokenMatch(escaped.value, true)) else None
  }

  /** The match is the first occurrence of the plain token when there is
      one, of the escaped token otherwise, and none when neither occurs. */
  lemma MatchIsFirstToken(line: string)
    ensures var m := MatchTelemetryToken(line);
      && (m.Some? && !m.value.escaped <==> exists j :: OccursAt(line, QuotedToken, j))
      && (m.Some? && !m.value.escaped ==> OccursAt(line, QuotedToken, m.value.index))
      && (m.Some? && !m.value.escaped ==>
            forall j :: 0 <= j < m.value.index ==> !OccursAt(line, QuotedToken, j))
      && (m.Some? && m.value.escaped ==> OccursAt(line, EscapedQuotedToken, m.value.index))
      && (m.Some? && m.value.escaped ==>
            forall j :: 0 <= j < m.value.index ==> !OccursAt(line, EscapedQuotedToken, j))
      && (m.None? <==>
            (forall j :: !OccursAt(line, QuotedToken, j)) && (forall j :: !OccursAt(line, EscapedQuotedToken, j)))
  {
  }

  /** A plain token at `k`, and none before it, is the match. */
  lemma FirstPlainTokenMatches(line: string, k: nat)
    requires OccursAt(line, QuotedToken, k)
    requires forall j :: 0 <= j < k ==> !OccursAt(line, QuotedToken, j)
    ensures MatchTelemetryToken(line) == Some(TokenMatch(k, false))
  {
    MatchIsFirstToken(line);
    var m := MatchTelemetryToken(line);
    assert !(m.value.index < k);
  }
}
