/** `FilterTelemetry#filter`: take the record's `log` line, extract the
    telemetry message from it, merge the agent version in, and keep the
    result only when its `telemetry-time` is an RFC 3339 date-time. Every
    failure along the way turns the record into `nil`. */
module TelemetryFilter {
  import opened Wrappers
  import opened Json
  import opened BorderScanner
  import opened TelemetryExtractor

  function LogKey(): string { "log" }
  function AgentVersionKey(): string { "agent-version" }
  function TelemetryAgentVersionKey(): string { "telemetry-agent-version" }
  function TelemetryTimeKey(): string { "telemetry-time" }

  /** The record's `log` value when it is text. A missing, `nil` or `false`
      value skips the record; any other value that is not a string makes the
      extractor raise. Both end in `nil`. */
  function LogLine(record: Object): (r: Option<string>)
    ensures r.Some? <==> LogKey() in record && record[LogKey()].JString?
    ensures r.Some? ==> r.value == record[LogKey()].s
  {
    if LogKey() in record && record[LogKey()].JString? then Some(record[LogKey()].s) else None
  }

  /** The hash merged into every message: `telemetry-agent-version` set to
      the record's `agent-version` when that is present and truthy, and
      nothing otherwise. */
  function VersionInfo(record: Object): (r: Object)
    ensures r.Keys <= {TelemetryAgentVersionKey()}
    ensures TelemetryAgentVersionKey() in r
        <==> AgentVersionKey() in record && Truthy(record[AgentVersionKey()])
    ensures TelemetryAgentVersionKey() in r ==> r[TelemetryAgentVersionKey()] == record[AgentVersionKey()]
  {
    if AgentVersionKey() in record && Truthy(record[AgentVersionKey()])
    then map[TelemetryAgentVersionKey() := record[AgentVersionKey()]]
    else map[]
  }

  /** What `extract_message` gives that can be merged: a decoded hash. A
      `nil` result, a raised error, or a decoded value that is not a hash
      (which has no `merge`) all end in `nil`. */
  function Message(line: string, decoder: Decoder, rule: BackslashRule): (r: Option<Object>)
    ensures r.Some? <==> Extract(line, decoder, rule).Found? && Extract(line, decoder, rule).message.JObject?
    ensures r.Some? ==> Extract(line, decoder, rule) == Found(JObject(r.value))
  {
    match Extract(line, decoder, rule)
    case Found(JObject(fields)) => Some(fields)
    case _ => None
  }

  /** `validate_telemetry_time`: `DateTime.rfc3339` accepts the value only
      when it is a string in RFC 3339 date-time form; a missing value (`nil`)
      or any other value raises. */
  predicate ValidTelemetryTime(msg: Object, isRfc3339: string -> bool) {
    TelemetryTimeKey() in msg && msg[TelemetryTimeKey()].JString? && isRfc3339(msg[TelemetryTimeKey()].s)
  }

  /** The filter with the given backslash rule for its scans. The result
      keeps every field of the decoded message except that the version
      info, when present, overrides `telemetry-agent-version`; it is kept
      only with a valid `telemetry-time`. */
  function Filtered(record: Object, decoder: Decoder, isRfc3339: string -> bool, rule: BackslashRule): (r: Option<Object>)
    ensures LogLine(record).None? ==> r.None?
    ensures r.Some? ==>
      && LogLine(record).Some?
      && var msg := Message(LogLine(record).value, decoder, rule);
      && msg.Some?
      && r.value.Keys == msg.value.Keys + VersionInfo(record).Keys
      && (forall k :: k in msg.value && k !in VersionInfo(record) ==> r.value[k] == msg.value[k])
      && ValidTelemetryTime(r.value, isRfc3339)
      && r.value[TelemetryTimeKey()] == msg.value[TelemetryTimeKey()]
      && (TelemetryAgentVersionKey() in VersionInfo(record) ==>
            r.value[TelemetryAgentVersionKey()] == VersionInfo(record)[TelemetryAgentVersionKey()])
    ensures LogLine(record).Some? && Message(LogLine(record).value, decoder, rule).Some? && r.None? ==>
      !ValidTelemetryTime(Message(LogLine(record).value, decoder, rule).value, isRfc3339)
  {
    match LogLine(record)
    case None => None
    case Some(line) =>
      match Message(line, decoder, rule)
      case None => None
      case Some(fields) =>
        var msg := fields + VersionInfo(record);
        assert TelemetryTimeKey() !in VersionInfo(record);
        if ValidTelemetryTime(msg, isRfc3339) then Some(msg) else None
  }

  /** `filter` as the plugin runs it: the extractor's scans with the
      plugin's backslash rule. */
  method Filter(record: Object, decoder: Decoder, isRfc3339: string -> bool) returns (r: Option<Object>)
    ensures r == Filtered(record, decoder, isRfc3339, BufferOrder)
  {
    var line := LogLine(record);
    if line.None? {
      return None;
    }
    var extraction := ExtractMessage(line.value, decoder);
    if !(extraction.Found? && extraction.message.JObject?) {
      return None;
    }
    var msg := extraction.message.fields + VersionInfo(record);
    assert TelemetryTimeKey() !in VersionInfo(record);
    if ValidTelemetryTime(msg, isRfc3339) {
      r := Some(msg);
    } else {
      r := None;
    }
  }
}
