/** What the filter keeps of a record whose `log` line holds a rendered
    telemetry object, and what it does with the line that shows the
    backward-scan finding. */
module FilterProofs {
  import opened Wrappers
  import opened Json
  import opened JsonText
  import opened BorderScanner
  import opened BorderProofs
  import opened TelemetryExtractor
  import opened ExtractionProofs
  import opened EscapeFinding
  import opened TelemetryFilter

  /** A message that decodes to a hash with a valid `telemetry-time` is
      kept, with the version info merged in. */
  lemma KeepDecodedMessage(record: Object, decoder: Decoder, isRfc3339: string -> bool, rule: BackslashRule, text: string, fields: Object)
    requires LogLine(record).Some?
    requires Extract(LogLine(record).value, decoder, rule) == Decode(text, LogLine(record).value, decoder)
    requires decoder.parse(text) == Some(JObject(fields))
    requires ValidTelemetryTime(fields, isRfc3339)
    ensures Filtered(record, decoder, isRfc3339, rule) == Some(fields + VersionInfo(record))
  {
    assert TelemetryTimeKey() !in VersionInfo(record);
    assert ValidTelemetryTime(fields + VersionInfo(record), isRfc3339);
  }

  /** A message that decodes to a hash without a valid `telemetry-time` is
      dropped, whatever the version info. */
  lemma DropUntimedMessage(record: Object, decoder: Decoder, isRfc3339: string -> bool, rule: BackslashRule, text: string, fields: Object)
    requires LogLine(record).Some?
    requires Extract(LogLine(record).value, decoder, rule) == Decode(text, LogLine(record).value, decoder)
    requires decoder.parse(text) == Some(JObject(fields))
    requires !ValidTelemetryTime(fields, isRfc3339)
    ensures Filtered(record, decoder, isRfc3339, rule) == None
  {
    assert TelemetryTimeKey() !in VersionInfo(record);
  }

  /** The round trip through the filter: a record whose `log` line holds a
      rendered object with the key `"telemetry-source"` as the first token
      gives back the decoded object merged with the version info, when it
      has a valid `telemetry-time`, and `nil` otherwise. */
  lemma FilterKeyedObject(record: Object, p: string, pre: seq<Item>, key: Item, post: seq<Item>, s: string,
                          decoder: Decoder, isRfc3339: string -> bool, rule: BackslashRule, fields: Object)
    requires WfItems(pre) && WfItems(post) && IsTokenKey(key) && KeyComesFirst(p, pre, key, post, s)
    requires rule == LineOrder || EscapeFreeItems(pre)
    requires LogLine(record) == Some(ObjectLine(p, pre, key, post, s))
    requires decoder.parse(RenderItem(Obj(pre + [key] + post))) == Some(JObject(fields))
    ensures ValidTelemetryTime(fields, isRfc3339) ==>
      Filtered(record, decoder, isRfc3339, rule) == Some(fields + VersionInfo(record))
    ensures !ValidTelemetryTime(fields, isRfc3339) ==> Filtered(record, decoder, isRfc3339, rule) == None
  {
    var text := RenderItem(Obj(pre + [key] + post));
    ExtractKeyedObject(p, pre, key, post, s, decoder, rule);
    if ValidTelemetryTime(fields, isRfc3339) {
      KeepDecodedMessage(record, decoder, isRfc3339, rule, text, fields);
    } else {
      DropUntimedMessage(record, decoder, isRfc3339, rule, text, fields);
    }
  }

  /** The finding at the filter: as written, a record whose `log` line is
      `EscapeLine()` is dropped whatever the decoder makes of it. */
  lemma EscapeRecordDroppedAsWritten(record: Object, decoder: Decoder, isRfc3339: string -> bool)
    requires LogLine(record) == Some(EscapeLine())
    ensures Filtered(record, decoder, isRfc3339, BufferOrder) == None
  {
    EscapeLineLostAsWritten(decoder);
  }

  /** Corrected, the same record is kept when the line decodes to a hash
      with a valid `telemetry-time`. */
  lemma EscapeRecordKeptCorrected(record: Object, decoder: Decoder, isRfc3339: string -> bool, fields: Object)
    requires LogLine(record) == Some(EscapeLine())
    requires decoder.parse(EscapeLine()) == Some(JObject(fields))
    requires ValidTelemetryTime(fields, isRfc3339)
    ensures Filtered(record, decoder, isRfc3339, LineOrder) == Some(fields + VersionInfo(record))
  {
    EscapeLineFoundCorrected(decoder);
    KeepDecodedMessage(record, decoder, isRfc3339, LineOrder, EscapeLine(), fields);
  }
}
