// packages/bam-store/src/postgres.ts, makeTxn: the tables and the transactional operations
// that change them. An operation that throws rolls back, so it is a partial function on tables.
module Store {
  import opened Wrappers
  import opened Bytes
  import opened Text
  import opened Sequences
  import opened NonceCodec

  datatype MessageStatus = Pending | Submitted | Confirmed | Reorged
  datatype BatchStatus = PendingTx | BatchConfirmed | BatchReorged

  /** Primary key of `messages`: lower-cased sender and padded nonce text. */
  datatype MessageKey = MessageKey(sender: string, nonce: string)

  datatype MessageRow = MessageRow(
    messageId: Option<string>,
    contentTag: string,
    contents: bytes,
    signature: bytes,
    messageHash: string,
    status: MessageStatus,
    batchRef: Option<string>,
    chainId: Option<nat>,
    ingestedAt: Option<nat>,
    ingestSeq: Option<nat>,
    blockNumber: Option<nat>,
    txIndex: Option<nat>,
    messageIndexWithinBatch: Option<nat>)

  datatype PendingRow = PendingRow(
    contentTag: string, sender: string, nonce: int, contents: bytes, signature: bytes,
    messageHash: string, chainId: nat, ingestedAt: nat, ingestSeq: nat)

  /** Primary key of `batches`. */
  datatype BatchKey = BatchKey(chainId: nat, txHash: string, contentTag: string)

  datatype SnapshotEntry = SnapshotEntry(
    sender: string, nonce: string, messageId: string, messageHash: string, position: nat)

  datatype BatchRow = BatchRow(
    blobVersionedHash: string,
    batchContentHash: string,
    blockNumber: Option<nat>,
    txIndex: Option<nat>,
    status: BatchStatus,
    replacedByTxHash: Option<string>,
    submittedAt: Option<nat>,
    invalidatedAt: Option<nat>,
    submitter: Option<string>,
    l1IncludedAtUnixSec: Option<nat>,
    messageSnapshot: seq<SnapshotEntry>)

  datatype Tracker = Tracker(lastNonce: Nonce, lastMessageHash: string)

  datatype Tables = Tables(
    messages: map<MessageKey, MessageRow>,
    batches: map<BatchKey, BatchRow>,
    nonces: map<string, Tracker>)

  datatype StoreError = DuplicateMessage | BadNonce(cause: NonceError) | WrongRowCount | HashConflict | NoBatch

  datatype StatusPatch = StatusPatch(
    blockNumber: Option<Option<nat>>,
    txIndex: Option<Option<nat>>,
    replacedByTxHash: Option<Option<string>>,
    invalidatedAt: Option<Option<nat>>)

  // ----- keys -----

  function KeyOf(sender: string, nonce: Nonce): MessageKey {
    MessageKey(ToLower(sender), NonceText(nonce))
  }

  predicate CanonicalKey(key: MessageKey) {
    ToLower(key.sender) == key.sender && DecodeNonce(key.nonce).Ok?
  }

  function NonceOf(key: MessageKey): Nonce
    requires CanonicalKey(key)
  {
    DecodeNonce(key.nonce).value
  }

  /** Every stored key was written through the codec; every tracker under a lower-cased sender. */
  ghost predicate Canonical(t: Tables) {
    && (forall key :: key in t.messages ==> CanonicalKey(key))
    && (forall s :: s in t.nonces ==> ToLower(s) == s)
  }

  // ----- operations -----

  function PendingMessage(row: PendingRow): MessageRow {
    MessageRow(None, row.contentTag, row.contents, row.signature, row.messageHash, Pending, None,
               Some(row.chainId), Some(row.ingestedAt), Some(row.ingestSeq), None, None, None)
  }

  function InsertPending(t: Tables, row: PendingRow): Result<Tables, StoreError> {
    match EncodeNonce(row.nonce)
    case Err(e) => Err(BadNonce(e))
    case Ok(nonce) =>
      var key := MessageKey(ToLower(row.sender), nonce);
      if key in t.messages && t.messages[key].status != Reorged then Err(DuplicateMessage)
      else Ok(t.(messages := t.messages[key := PendingMessage(row)]))
  }

  /** One UPDATE of `markSubmitted`: every row of `keys` that is still pending. */
  function SubmitRows(t: Tables, keys: set<MessageKey>, batchRef: string): Tables {
    t.(messages := map key | key in t.messages ::
      if key in keys && t.messages[key].status == Pending
      then t.messages[key].(status := Submitted, batchRef := Some(batchRef))
      else t.messages[key])
  }

  function UpsertObserved(t: Tables, sender: string, nonce: int, row: MessageRow): Result<Tables, StoreError> {
    match EncodeNonce(nonce)
    case Err(e) => Err(BadNonce(e))
    case Ok(text) =>
      var key := MessageKey(ToLower(sender), text);
      if key in t.messages && t.messages[key].messageHash != row.messageHash then Err(HashConflict)
      else if key in t.messages && t.messages[key].status == Confirmed then Ok(t)
      else Ok(t.(messages := t.messages[key := row]))
  }

  predicate InTx(key: BatchKey, chainId: nat, txHash: string) {
    key.chainId == chainId && key.txHash == txHash
  }

  /** The rows the cascade of `markReorged` updates. */
  predicate AttachedTo(row: MessageRow, chainId: nat, txHash: string) {
    row.batchRef == Some(txHash) && row.chainId == Some(chainId)
  }

  function MarkReorged(t: Tables, chainId: nat, txHash: string, invalidatedAt: nat): Result<Tables, StoreError> {
    if !(exists key :: key in t.batches && InTx(key, chainId, txHash)) then Err(NoBatch)
    else Ok(t.(
      batches := map key | key in t.batches ::
        if InTx(key, chainId, txHash)
        then t.batches[key].(status := BatchReorged, invalidatedAt := Some(invalidatedAt))
        else t.batches[key],
      messages := map key | key in t.messages ::
        if AttachedTo(t.messages[key], chainId, txHash) && t.messages[key].status == Confirmed
        then t.messages[key].(status := Reorged)
        else t.messages[key]))
  }

  function Coalesce<T>(incoming: Option<T>, stored: Option<T>): Option<T> {
    if incoming.Some? then incoming else stored
  }

  function MergeBatch(stored: BatchRow, row: BatchRow): BatchRow {
    row.(
      replacedByTxHash := Coalesce(row.replacedByTxHash, stored.replacedByTxHash),
      submittedAt := Coalesce(row.submittedAt, stored.submittedAt),
      submitter := Coalesce(row.submitter, stored.submitter),
      l1IncludedAtUnixSec := Coalesce(row.l1IncludedAtUnixSec, stored.l1IncludedAtUnixSec),
      messageSnapshot := if row.messageSnapshot == [] then stored.messageSnapshot else row.messageSnapshot)
  }

  /** The submitter lower-cased; an empty string counts as none. */
  function NormalSubmitter(s: Option<string>): Option<string> {
    if s.Some? && s.value != "" then Some(ToLower(s.value)) else None
  }

  function UpsertBatch(t: Tables, key: BatchKey, row: BatchRow): Tables {
    var incoming := row.(submitter := NormalSubmitter(row.submitter));
    t.(batches := t.batches[key := if key in t.batches then MergeBatch(t.batches[key], incoming) else incoming])
  }

  function Patched<T>(patch: Option<T>, stored: T): T {
    if patch.Some? then patch.value else stored
  }

  function UpdateBatchStatus(t: Tables, key: BatchKey, status: BatchStatus, patch: StatusPatch): Result<Tables, StoreError> {
    if key !in t.batches then Err(NoBatch)
    else
      var b := t.batches[key];
      Ok(t.(batches := t.batches[key := b.(
        status := status,
        blockNumber := Patched(patch.blockNumber, b.blockNumber),
        txIndex := Patched(patch.txIndex, b.txIndex),
        replacedByTxHash := Patched(patch.replacedByTxHash, b.replacedByTxHash),
        invalidatedAt := Patched(patch.invalidatedAt, b.invalidatedAt))]))
  }

  function SetNonce(t: Tables, sender: string, nonce: int, messageHash: string): Result<Tables, StoreError> {
    match EncodeNonce(nonce)
    case Err(e) => Err(BadNonce(e))
    case Ok(_) => Ok(t.(nonces := t.nonces[ToLower(sender) := Tracker(nonce, messageHash)]))
  }

  function DeleteMessages(t: Tables, chainId: nat): Tables {
    t.(messages := map key | key in t.messages && t.messages[key].chainId != Some(chainId) :: t.messages[key])
  }

  function DeleteBatches(t: Tables, chainId: nat): Tables {
    t.(batches := map key | key in t.batches && key.chainId != chainId :: t.batches[key])
  }

  // ----- the adapter -----

  class BamStore {
    var messages: map<MessageKey, MessageRow>
    var batches: map<BatchKey, BatchRow>
    var nonces: map<string, Tracker>

    ghost function Now(): Tables
      reads this
    {
      Tables(messages, batches, nonces)
    }

    ghost predicate Valid()
      reads this
    {
      Canonical(Now())
    }

    constructor ()
      ensures Valid() && Now() == Tables(map[], map[], map[])
    {
      messages, batches, nonces := map[], map[], map[];
    }

    method Insert(row: PendingRow) returns (r: Result<(), StoreError>)
      requires Valid()
      modifies this
      ensures Valid()
      ensures match InsertPending(old(Now()), row)
              case Ok(t) => r == Ok(()) && Now() == t
              case Err(e) => r == Err(e) && Now() == old(Now())
    {
      var encoded := EncodeNonce(row.nonce);
      if encoded.Err? {
        return Err(BadNonce(encoded.error));
      }
      NonceRoundTrip(row.nonce, encoded.value);
      ToLowerIdempotent(row.sender);
      var key := MessageKey(ToLower(row.sender), encoded.value);
      if key in messages {
        if messages[key].status != Reorged {
          return Err(DuplicateMessage);
        }
        messages := messages - {key};
      }
      messages := messages[key := PendingMessage(row)];
      assert messages == old(messages)[key := PendingMessage(row)];
      return Ok(());
    }

    /** The UPDATE of one chunk; returns its row count. */
    method SubmitSlice(slice: seq<MessageKey>, batchRef: string) returns (rowCount: nat)
      requires Valid()
      modifies this`messages
      ensures Valid()
      ensures Now() == SubmitRows(old(Now()), Elements(slice), batchRef)
      ensures rowCount == |PendingAmong(old(Now()), Elements(slice))|
    {
      var hit := set key | key in slice && key in messages && messages[key].status == Pending;
      assert hit == PendingAmong(Now(), Elements(slice));
      rowCount := |hit|;
      messages := map key | key in messages ::
        if key in hit then messages[key].(status := Submitted, batchRef := Some(batchRef)) else messages[key];
    }

    /** Updates in chunks of 500; a chunk that updates fewer rows than it names throws. */
    method Submit(keys: seq<MessageKey>, batchRef: string) returns (r: Result<(), StoreError>)
      requires Valid()
      modifies this`messages
      ensures Valid()
      ensures r.Ok? <==> Submittable(old(Now()), keys)
      ensures r.Ok? ==> Now() == SubmitRows(old(Now()), Elements(keys), batchRef)
      ensures r.Err? ==> r == Err(WrongRowCount) && Now() == old(Now())
    {
      hide SubmitRows, Submittable, PendingAmong;
      ghost var before := Now();
      var rollback := messages;
      var i := 0;
      SubmitNothing(before, batchRef);
      SubmittablePrefix(before, [], keys);
      while i < |keys|
        invariant 0 <= i <= |keys|
        invariant Valid() && rollback == before.messages
        invariant Submittable(before, keys[..i])
        invariant Now() == SubmitRows(before, Elements(keys[..i]), batchRef)
      {
        var j := if i + 500 < |keys| then i + 500 else |keys|;
        SubmitChunk(before, keys[..i], keys[i..j], batchRef);
        assert keys == keys[..i] + keys[i..j] + keys[j..];
        SubmittablePrefix(before, keys[..i] + keys[i..j], keys[j..]);
        var rowCount := SubmitSlice(keys[i..j], batchRef);
        assert keys[..j] == keys[..i] + keys[i..j];
        if rowCount != j - i {
          messages := rollback;
          return Err(WrongRowCount);
        }
        i := j;
      }
      assert keys[..i] == keys;
      return Ok(());
    }

    method Observe(sender: string, nonce: int, row: MessageRow) returns (r: Result<(), StoreError>)
      requires Valid()
      modifies this
      ensures Valid()
      ensures match UpsertObserved(old(Now()), sender, nonce, row)
              case Ok(t) => r == Ok(()) && Now() == t
              case Err(e) => r == Err(e) && Now() == old(Now())
    {
      var encoded := EncodeNonce(nonce);
      if encoded.Err? {
        return Err(BadNonce(encoded.error));
      }
      NonceRoundTrip(nonce, encoded.value);
      ToLowerIdempotent(sender);
      var key := MessageKey(ToLower(sender), encoded.value);
      if key in messages {
        if messages[key].messageHash != row.messageHash {
          return Err(HashConflict);
        }
        if messages[key].status == Confirmed {
          return Ok(());
        }
      }
      messages := messages[key := row];
      return Ok(());
    }

    method Reorg(chainId: nat, txHash: string, invalidatedAt: nat) returns (r: Result<(), StoreError>)
      requires Valid()
      modifies this`messages, this`batches
      ensures Valid()
      ensures match MarkReorged(old(Now()), chainId, txHash, invalidatedAt)
              case Ok(t) => r == Ok(()) && Now() == t
              case Err(e) => r == Err(e) && Now() == old(Now())
    {
      var hit := set key | key in batches && InTx(key, chainId, txHash);
      assert forall key :: key in batches && InTx(key, chainId, txHash) <==> key in hit;
      if hit == {} {
        return Err(NoBatch);
      }
      batches := map key | key in batches ::
        if key in hit then batches[key].(status := BatchReorged, invalidatedAt := Some(invalidatedAt)) else batches[key];
      messages := map key | key in messages ::
        if AttachedTo(messages[key], chainId, txHash) && messages[key].status == Confirmed
        then messages[key].(status := Reorged) else messages[key];
      return Ok(());
    }

    method WriteBatch(key: BatchKey, row: BatchRow)
      requires Valid()
      modifies this
      ensures Valid() && Now() == UpsertBatch(old(Now()), key, row)
    {
      var incoming := row.(submitter := NormalSubmitter(row.submitter));
      batches := batches[key := if key in batches then MergeBatch(batches[key], incoming) else incoming];
    }

    method WriteNonce(sender: string, nonce: int, messageHash: string) returns (r: Result<(), StoreError>)
      requires Valid()
      modifies this
      ensures Valid()
      ensures match SetNonce(old(Now()), sender, nonce, messageHash)
              case Ok(t) => r == Ok(()) && Now() == t
              case Err(e) => r == Err(e) && Now() == old(Now())
    {
      var encoded := EncodeNonce(nonce);
      if encoded.Err? {
        return Err(BadNonce(encoded.error));
      }
      ToLowerIdempotent(sender);
      nonces := nonces[ToLower(sender) := Tracker(nonce, messageHash)];
      return Ok(());
    }
  }

  // ----- markSubmitted -----

  ghost predicate AllPending(t: Tables, keys: set<MessageKey>) {
    forall key :: key in keys ==> key in t.messages && t.messages[key].status == Pending
  }

  /** Each key names a pending row, and no key is named twice. */
  ghost predicate Submittable(t: Tables, keys: seq<MessageKey>) {
    Distinct(keys) && AllPending(t, Elements(keys))
  }

  lemma {:induction false} SubmittablePrefix(t: Tables, a: seq<MessageKey>, b: seq<MessageKey>)
    ensures Submittable(t, []) && (Submittable(t, a + b) ==> Submittable(t, a))
  {
    DistinctAppend(a, b);
    assert Elements(a) <= Elements(a + b);
  }

  function PendingAmong(t: Tables, keys: set<MessageKey>): set<MessageKey> {
    set key | key in keys && key in t.messages && t.messages[key].status == Pending
  }

  lemma {:induction false} SubmitNothing(t: Tables, batchRef: string)
    ensures SubmitRows(t, Elements<MessageKey>([]), batchRef) == t
  {
    assert SubmitRows(t, {}, batchRef).messages == t.messages;
  }

  lemma {:induction false} SubmitTwice(t: Tables, a: set<MessageKey>, b: set<MessageKey>, batchRef: string)
    ensures SubmitRows(SubmitRows(t, a, batchRef), b, batchRef) == SubmitRows(t, a + b, batchRef)
    ensures AllPending(t, a) ==> PendingAmong(SubmitRows(t, a, batchRef), b) == PendingAmong(t, b) - a
  {
    assert SubmitRows(SubmitRows(t, a, batchRef), b, batchRef).messages == SubmitRows(t, a + b, batchRef).messages;
  }

  /** A chunk updates as many rows as it names exactly when it extends the keys updated so far. */
  lemma {:induction false} SubmitChunk(before: Tables, done: seq<MessageKey>, slice: seq<MessageKey>, batchRef: string)
    requires Submittable(before, done)
    ensures SubmitRows(SubmitRows(before, Elements(done), batchRef), Elements(slice), batchRef)
            == SubmitRows(before, Elements(done + slice), batchRef)
    ensures |PendingAmong(SubmitRows(before, Elements(done), batchRef), Elements(slice))| == |slice|
            <==> Submittable(before, done + slice)
  {
    SubmitTwice(before, Elements(done), Elements(slice), batchRef);
    assert Elements(done + slice) == Elements(done) + Elements(slice);
    ChunkCount(before, done, slice);
  }

  lemma {:induction false} ChunkCount(before: Tables, done: seq<MessageKey>, slice: seq<MessageKey>)
    requires Submittable(before, done)
    ensures |PendingAmong(before, Elements(slice)) - Elements(done)| == |slice|
            <==> Distinct(done + slice) && AllPending(before, Elements(done) + Elements(slice))
  {
    var hit := PendingAmong(before, Elements(slice)) - Elements(done);
    DistinctAppend(done, slice);
    ElementsSize(slice);
    SubsetSize(hit, Elements(slice));
    if |hit| == |slice| {
      SubsetOfSameSize(hit, Elements(slice));
    }
    if Distinct(done + slice) && AllPending(before, Elements(done) + Elements(slice)) {
      assert hit == Elements(slice);
    }
  }
}
