/** `LogTelemetryMessageExtractor#extract_message`: find the telemetry
    token, scan backwards to the `{` that opens the object around it and
    forwards past the `}` that closes it, and decode that slice. */
module TelemetryExtractor {
  import opened Wrappers
  import opened Strings
  import opened Json
  import opened TelemetryToken
  import opened BorderScanner

  /** The slice `[start, end)` of the line that holds the candidate object,
      and the dialect the token was found in. */
  datatype Span = Span(start: nat, end: nat, escaped: bool)

  /** What `extract_message` does with a line: returns `nil` (`NotFound`),
      raises a `StandardError` naming the candidate text and the line
      (`Malformed`), or returns the decoded value (`Found`). */
  datatype Extraction = NotFound | Malformed(candidate: string, line: string) | Found(message: Json)

  /** The token, then the backward scan, then the forward scan, both from
      the token's index. `rule` is the backslash rule of the scans; the
      plugin's is `BufferOrder`. */
  function LocateMessage(line: string, rule: BackslashRule): (r: Option<Span>)
    ensures MatchTelemetryToken(line).None? ==> r.None?
    ensures r.Some? ==> MatchTelemetryToken(line).Some?
    ensures r.Some? ==>
      var m := MatchTelemetryToken(line).value;
      && r.value.escaped == m.escaped
      && r.value.start < m.index < r.value.end <= |line|
      && line[r.value.start] == '{' && line[r.value.end - 1] == '}'
  {
    match MatchTelemetryToken(line)
    case None => None
    case Some(m) =>
      var objectStart := ObjectBorder(line, m.index, false, m.escaped, rule);
      var objectEnd := ObjectBorder(line, m.index, true, m.escaped, rule);
      if objectStart.None? || objectEnd.None? then None
      else
        assert line[objectStart.value] == '{' && line[objectEnd.value - 1] == '}';
        Some(Span(objectStart.value, objectEnd.value, m.escaped))
  }

  /** `JSON.parse(text)`, with a failure reported against the line. */
  function Decode(text: string, line: string, decoder: Decoder): (r: Extraction)
    ensures r.Found? <==> decoder.parse(text).Some?
    ensures r.Found? ==> r.message == decoder.parse(text).value
    ensures r.Malformed? ==> r == Malformed(text, line)
  {
    match decoder.parse(text)
    case None => Malformed(text, line)
    case Some(v) => Found(v)
  }

  /** Decoding the slice a span covers. In the escaped dialect the slice
      is first decoded as the body of a JSON string literal; when that fails
      the error names the slice, when the second decoding fails it names the
      decoded text. */
  function DecodeSpan(line: string, span: Span, decoder: Decoder): (r: Extraction)
    requires span.start <= span.end <= |line|
    ensures r != NotFound
    ensures r.Malformed? ==> r.line == line
    ensures !span.escaped ==> r == Decode(line[span.start..span.end], line, decoder)
    ensures span.escaped && decoder.parseStringLiteral([Quote] + line[span.start..span.end] + [Quote]).None? ==>
      r == Malformed(line[span.start..span.end], line)
    ensures span.escaped && decoder.parseStringLiteral([Quote] + line[span.start..span.end] + [Quote]).Some? ==>
      r == Decode(decoder.parseStringLiteral([Quote] + line[span.start..span.end] + [Quote]).value, line, decoder)
  {
    var candidate := line[span.start..span.end];
    if !span.escaped then Decode(candidate, line, decoder)
    else match decoder.parseStringLiteral([Quote] + candidate + [Quote])
      case None => Malformed(candidate, line)
      case Some(text) => Decode(text, line, decoder)
  }

  /** `extract_message` with the given backslash rule. */
  function Extract(line: string, decoder: Decoder, rule: BackslashRule): (r: Extraction)
    ensures r.NotFound? <==> LocateMessage(line, rule).None?
    ensures r.Malformed? ==> r.line == line
  {
    match LocateMessage(line, rule)
    case None => NotFound
    case Some(span) => DecodeSpan(line, span, decoder)
  }

  /** The located span, from the match and the two borders. */
  lemma LocateFromBorders(line: string, rule: BackslashRule, m: TokenMatch, objectStart: Option<nat>, objectEnd: Option<nat>)
    requires MatchTelemetryToken(line) == Some(m)
    requires objectStart == ObjectBorder(line, m.index, false, m.escaped, rule)
    requires objectEnd == ObjectBorder(line, m.index, true, m.escaped, rule)
    ensures objectStart.None? || objectEnd.None? ==> LocateMessage(line, rule).None?
    ensures objectStart.Some? && objectEnd.Some? ==>
      LocateMessage(line, rule) == Some(Span(objectStart.value, objectEnd.value, m.escaped))
  {
  }

  /** `extract_message` as the plugin runs it: two `JSONObjectBorderScanner`
      objects, each run once. */
  method ExtractMessage(line: string, decoder: Decoder) returns (r: Extraction)
    ensures r == Extract(line, decoder, BufferOrder)
  {
    var m := MatchTelemetryToken(line);
    if m.None? {
      return NotFound;
    }
    var index, escaped := m.value.index, m.value.escaped;
    ghost var located := LocateMessage(line, BufferOrder);
    var backward := new JsonObjectBorderScanner(line, index, false);
    var objectStart := backward.FindEndOfJsonObj(escaped);
    assert objectStart == ObjectBorder(line, index, false, escaped, BufferOrder);
    if objectStart.None? {
      LocateFromBorders(line, BufferOrder, m.value, objectStart, ObjectBorder(line, index, true, escaped, BufferOrder));
      return NotFound;
    }
    var forward := new JsonObjectBorderScanner(line, index, true);
    var objectEnd := forward.FindEndOfJsonObj(escaped);
    assert objectEnd == ObjectBorder(line, index, true, escaped, BufferOrder);
    LocateFromBorders(line, BufferOrder, m.value, objectStart, objectEnd);
    if objectEnd.None? {
      return NotFound;
    }
    assert located == Some(Span(objectStart.value, objectEnd.value, escaped));
    r := DecodeSpan(line, Span(objectStart.value, objectEnd.value, escaped), decoder);
  }
}
