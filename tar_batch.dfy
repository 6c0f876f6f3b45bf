/** `readTarBatch` of the audit-mode receiver: one message per regular
    archive entry whose name ends in `metadata`, in archive order, built
    from the entry's decoded metadata and the entry's directory. */
module TarBatch {
  import opened Wrappers
  import opened Json
  import opened GoStrings

  /** The two fields the receiver decodes from a metadata entry; a field
      missing from the entry's JSON decodes as `""`. */
  datatype Metadata = Metadata(collectedAt: string, foundationId: string)

  /** An archive entry as `tar.Reader.Next` yields it: its name, whether it
      is a regular file, and what decoding its contents as metadata gives
      (`None` when that fails). `Unreadable` is a header that cannot be
      read. */
  datatype Entry =
    | Entry(name: string, regular: bool, metadata: Option<Metadata>)
    | Unreadable

  /** Why a batch is refused: a header that cannot be read, or the name of
      a metadata entry whose contents do not decode. */
  datatype BatchError = BadHeader | BadContents(name: string)

  function MetadataSuffix(): string { "metadata" }

  /** The entries the receiver reads: regular files named `...metadata`. */
  predicate Selected(e: Entry) {
    e.Entry? && e.regular && HasSuffix(e.name, MetadataSuffix())
  }

  /** The message for a metadata entry. */
  function Record(name: string, m: Metadata): (r: Object)
    ensures r.Keys == {"FoundationId", "CollectedAt", "Dataset"}
    ensures r["FoundationId"] == JString(m.foundationId) && r["CollectedAt"] == JString(m.collectedAt)
    ensures r["Dataset"] == JString(Dir(name))
  {
    map["FoundationId" := JString(m.foundationId), "CollectedAt" := JString(m.collectedAt), "Dataset" := JString(Dir(name))]
  }

  /** The batch an archive gives, entry by entry. */
  function Batch(entries: seq<Entry>): (r: Result<seq<Object>, BatchError>)
    decreases |entries|
  {
    if entries == [] then Success([])
    else
      var e := entries[0];
      if e.Unreadable? then Failure(BadHeader)
      else if !Selected(e) then Batch(entries[1..])
      else match e.metadata
        case None => Failure(BadContents(e.name))
        case Some(m) =>
          match Batch(entries[1..])
          case Failure(err) => Failure(err)
          case Success(rest) => Success([Record(e.name, m)] + rest)
  }

  /** The selected entries, in archive order. */
  function SelectedEntries(entries: seq<Entry>): (r: seq<Entry>)
    ensures forall i :: 0 <= i < |r| ==> Selected(r[i]) && r[i] in entries
    ensures forall i :: 0 <= i < |entries| && Selected(entries[i]) ==> entries[i] in r
    decreases |entries|
  {
    if entries == [] then []
    else
      var rest := SelectedEntries(entries[1..]);
      assert forall i :: 1 <= i < |entries| ==> entries[i] == entries[1..][i - 1];
      if Selected(entries[0]) then [entries[0]] + rest else rest
  }

  /** A batch that is read: no header was unreadable, every selected entry
      decoded, and there is one message per selected entry, in order, whose
      `Dataset` is that entry's directory. */
  lemma {:induction false} BatchIsSelected(entries: seq<Entry>)
    requires Batch(entries).Success?
    ensures forall i :: 0 <= i < |entries| ==> entries[i].Entry?
    ensures var sel, msgs := SelectedEntries(entries), Batch(entries).value;
      && |msgs| == |sel|
      && forall i :: 0 <= i < |sel| ==>
           sel[i].metadata.Some? && msgs[i] == Record(sel[i].name, sel[i].metadata.value)
    decreases |entries|
  {
    BatchReadable(entries);
    BatchMessages(entries);
  }

  /** Every entry of a batch that is read has a readable header. */
  lemma {:induction false} BatchReadable(entries: seq<Entry>)
    requires Batch(entries).Success?
    ensures forall i :: 0 <= i < |entries| ==> entries[i].Entry?
    decreases |entries|
  {
    if entries != [] {
      BatchStep(entries);
      BatchReadable(entries[1..]);
      forall i | 1 <= i < |entries|
        ensures entries[i].Entry?
      {
        assert entries[i] == entries[1..][i - 1];
      }
    }
  }

  /** One message per selected entry of a batch that is read, in order. */
  lemma {:induction false} BatchMessages(entries: seq<Entry>)
    requires Batch(entries).Success?
    ensures MessagesOfEntries(SelectedEntries(entries), Batch(entries).value)
    decreases |entries|
  {
    if entries != [] {
      var e, rest := entries[0], entries[1..];
      BatchStep(entries);
      BatchMessages(rest);
      if Selected(e) {
        MessagesCons(e, SelectedEntries(rest), Batch(rest).value);
      }
    }
  }

  /** Each message is the record of the entry at the same place. */
  predicate MessagesOfEntries(sel: seq<Entry>, msgs: seq<Object>) {
    && |msgs| == |sel|
    && forall i :: 0 <= i < |sel| ==>
         sel[i].Entry? && sel[i].metadata.Some? && msgs[i] == Record(sel[i].name, sel[i].metadata.value)
  }

  lemma MessagesCons(e: Entry, sel: seq<Entry>, msgs: seq<Object>)
    requires e.Entry? && e.metadata.Some? && MessagesOfEntries(sel, msgs)
    ensures MessagesOfEntries([e] + sel, [Record(e.name, e.metadata.value)] + msgs)
  {
    var sel', msgs' := [e] + sel, [Record(e.name, e.metadata.value)] + msgs;
    forall i | 1 <= i < |sel'|
      ensures sel'[i] == sel[i - 1] && msgs'[i] == msgs[i - 1]
    {
    }
  }

  /** The first entry of a batch that is read: it was readable, and it
      either gave the first message or was passed over. */
  lemma BatchStep(entries: seq<Entry>)
    requires entries != [] && Batch(entries).Success?
    ensures var e, rest := entries[0], entries[1..];
      && e.Entry? && Batch(rest).Success?
      && (Selected(e) ==>
            && e.metadata.Some?
            && SelectedEntries(entries) == [e] + SelectedEntries(rest)
            && Batch(entries).value == [Record(e.name, e.metadata.value)] + Batch(rest).value)
      && (!Selected(e) ==> SelectedEntries(entries) == SelectedEntries(rest) && Batch(entries) == Batch(rest))
  {
  }

  /** A batch that is refused names the first entry that stopped it. */
  lemma {:induction false} BatchFailure(entries: seq<Entry>)
    requires Batch(entries).Failure?
    ensures exists i :: 0 <= i < |entries| && FailsAt(entries, i, Batch(entries).error)
    decreases |entries|
  {
    var e := entries[0];
    if e.Unreadable? || (Selected(e) && e.metadata.None?) {
      assert FailsAt(entries, 0, Batch(entries).error);
    } else {
      BatchFailure(entries[1..]);
      var i :| 0 <= i < |entries[1..]| && FailsAt(entries[1..], i, Batch(entries).error);
      assert entries[1..][..i] == entries[1..i + 1];
      assert FailsAt(entries, i + 1, Batch(entries).error);
    }
  }

  /** Entry `i` stops the batch with `err`, and every entry before it was
      read. */
  predicate FailsAt(entries: seq<Entry>, i: nat, err: BatchError)
    requires i < |entries|
  {
    && (forall j :: 0 <= j < i ==> entries[j].Entry? && (Selected(entries[j]) ==> entries[j].metadata.Some?))
    && match entries[i]
       case Unreadable => err == BadHeader
       case Entry(name, _, metadata) => Selected(entries[i]) && metadata.None? && err == BadContents(name)
  }

  /** `readTarBatch`, once the body is unpacked into entries: loop over
      them, appending a message for each selected one. */
  method ReadTarBatch(entries: seq<Entry>) returns (r: Result<seq<Object>, BatchError>)
    ensures r == Batch(entries)
  {
    var messagesInTar: seq<Object> := [];
    var i := 0;
    assert entries[i..] == entries;
    assert Combine([], Batch(entries)) == Batch(entries) by {
      if Batch(entries).Success? {
        assert [] + Batch(entries).value == Batch(entries).value;
      }
    }
    while i < |entries|
      invariant 0 <= i <= |entries|
      invariant Batch(entries) == Combine(messagesInTar, Batch(entries[i..]))
    {
      var e := entries[i];
      assert entries[i..][1..] == entries[i + 1..];
      if e.Unreadable? {
        return Failure(BadHeader);
      }
      if e.regular && HasSuffix(e.name, MetadataSuffix()) {
        if e.metadata.None? {
          return Failure(BadContents(e.name));
        }
        CombineAppend(messagesInTar, Record(e.name, e.metadata.value), Batch(entries[i + 1..]));
        messagesInTar := messagesInTar + [Record(e.name, e.metadata.value)];
      }
      i := i + 1;
    }
    assert entries[i..] == [];
    assert messagesInTar + [] == messagesInTar;
    return Success(messagesInTar);
  }

  /** Messages already read, ahead of what the rest of the archive gives. */
  function Combine(done: seq<Object>, rest: Result<seq<Object>, BatchError>): Result<seq<Object>, BatchError> {
    match rest
    case Failure(err) => Failure(err)
    case Success(more) => Success(done + more)
  }

  lemma CombineAppend(done: seq<Object>, m: Object, rest: Result<seq<Object>, BatchError>)
    ensures Combine(done, Combine([m], rest)) == Combine(done + [m], rest)
  {
    if rest.Success? {
      assert done + ([m] + rest.value) == done + [m] + rest.value;
    }
  }

  /** The archive the receiver's tests send: one regular entry
      `opsmanager/metadata`. It gives one message, for dataset
      `opsmanager`. */
  lemma OpsManagerBatch(m: Metadata)
    ensures var name := "opsmanager" + "/" + MetadataSuffix();
      && Batch([Entry(name, true, Some(m))]) == Success([Record(name, m)])
      && Record(name, m)["Dataset"] == JString("opsmanager")
  {
    var name := "opsmanager" + "/" + MetadataSuffix();
    DirOfJoin("opsmanager", MetadataSuffix());
    assert name[|name| - |MetadataSuffix()|..] == MetadataSuffix();
    var e := Entry(name, true, Some(m));
    assert [e][1..] == [];
    assert [Record(name, m)] + [] == [Record(name, m)];
  }
}
