// What each operation does to one row, one batch and one tracker, and what a row or a batch of a run therefore holds.
module StoreContents {
  import opened Wrappers
  import opened Text
  import opened NonceCodec
  import opened Store
  import opened StoreLifecycle

  ghost function RowAt(t: Tables, key: MessageKey): Option<MessageRow> {
    if key in t.messages then Some(t.messages[key]) else None
  }

  ghost function BatchAt(t: Tables, key: BatchKey): Option<BatchRow> {
    if key in t.batches then Some(t.batches[key]) else None
  }

  ghost function TrackerAt(t: Tables, sender: string): Option<Tracker> {
    if sender in t.nonces then Some(t.nonces[sender]) else None
  }

  /** The key is that of the sender, however cased, and the nonce. */
  predicate IsSlot(key: MessageKey, sender: string, nonce: int) {
    key.sender == ToLower(sender) && DecodeNonce(key.nonce).Ok? && DecodeNonce(key.nonce).value == nonce
  }

  /** The operation throws. */
  ghost predicate Throws(t: Tables, op: Op) {
    match op
    case InsertOp(p) =>
      || p.nonce < 0 || p.nonce > 0xffff_ffff_ffff_ffff
      || exists key :: IsSlot(key, p.sender, p.nonce) && key in t.messages && t.messages[key].status != Reorged
    case SubmitOp(keys, _) =>
      || (exists i, j :: 0 <= i < j < |keys| && keys[i] == keys[j])
      || exists key :: key in keys && (key !in t.messages || t.messages[key].status != Pending)
    case ObserveOp(sender, nonce, row) =>
      || nonce < 0 || nonce > 0xffff_ffff_ffff_ffff
      || exists key :: IsSlot(key, sender, nonce) && key in t.messages && t.messages[key].messageHash != row.messageHash
    case ReorgOp(chainId, txHash, _) => forall key :: key in t.batches ==> !(key.chainId == chainId && key.txHash == txHash)
    case UpdateBatchOp(key, _, _) => key !in t.batches
    case SetNonceOp(_, nonce, _) => nonce < 0 || nonce > 0xffff_ffff_ffff_ffff
    case _ => false
  }

  lemma {:induction false} OneSlot(key: MessageKey, sender: string, nonce: int)
    ensures 0 <= nonce <= MAX_NONCE ==> (IsSlot(key, sender, nonce) <==> key == KeyOf(sender, nonce))
    ensures !(0 <= nonce <= MAX_NONCE) ==> !IsSlot(key, sender, nonce)
  {
    NonceRoundTrip(nonce, key.nonce);
  }

  lemma {:induction false} ThrowsIff(t: Tables, op: Op)
    ensures Attempt(t, op).Err? <==> Throws(t, op)
  {
    match op {
      case InsertOp(p) =>
        forall key ensures 0 <= p.nonce <= MAX_NONCE ==> (IsSlot(key, p.sender, p.nonce) <==> key == KeyOf(p.sender, p.nonce)) {
          OneSlot(key, p.sender, p.nonce);
        }
      case ObserveOp(sender, nonce, _) =>
        forall key ensures 0 <= nonce <= MAX_NONCE ==> (IsSlot(key, sender, nonce) <==> key == KeyOf(sender, nonce)) {
          OneSlot(key, sender, nonce);
        }
      case _ =>
    }
  }

  /** What an operation that does not throw leaves in one message row. */
  lemma {:induction false} MessageRowStep(t: Tables, op: Op, key: MessageKey)
    requires !Throws(t, op)
    ensures RowAt(Step(t, op), key) ==
      match op
      case InsertOp(p) =>
        if IsSlot(key, p.sender, p.nonce) then
          Some(MessageRow(None, p.contentTag, p.contents, p.signature, p.messageHash, Pending, None, Some(p.chainId),
                          Some(p.ingestedAt), Some(p.ingestSeq), None, None, None))
        else RowAt(t, key)
      case SubmitOp(keys, ref) =>
        if key in keys then Some(t.messages[key].(status := Submitted, batchRef := Some(ref))) else RowAt(t, key)
      case ObserveOp(sender, nonce, row) =>
        if IsSlot(key, sender, nonce) && !(key in t.messages && t.messages[key].status == Confirmed) then Some(row)
        else RowAt(t, key)
      case ReorgOp(chainId, txHash, _) =>
        if key in t.messages && t.messages[key].status == Confirmed && t.messages[key].batchRef == Some(txHash)
           && t.messages[key].chainId == Some(chainId)
        then Some(t.messages[key].(status := Reorged)) else RowAt(t, key)
      case DeleteMessagesOp(chainId) =>
        if key in t.messages && t.messages[key].chainId == Some(chainId) then None else RowAt(t, key)
      case _ => RowAt(t, key)
  {
    ThrowsIff(t, op);
    match op {
      case InsertOp(p) => OneSlot(key, p.sender, p.nonce);
      case ObserveOp(sender, nonce, _) => OneSlot(key, sender, nonce);
      case _ =>
    }
    hide Throws, IsSlot;
  }

  /** An upsert over a stored row: what the incoming row says wins, and where it says nothing the five sticky fields stay. */
  ghost predicate IsMerged(stored: BatchRow, incoming: BatchRow, merged: BatchRow) {
    && merged.status == incoming.status
    && merged.blobVersionedHash == incoming.blobVersionedHash
    && merged.batchContentHash == incoming.batchContentHash
    && merged.blockNumber == incoming.blockNumber
    && merged.txIndex == incoming.txIndex
    && merged.invalidatedAt == incoming.invalidatedAt
    && (merged.replacedByTxHash ==
          match incoming.replacedByTxHash case Some(h) => Some(h) case None => stored.replacedByTxHash)
    && (merged.submittedAt == match incoming.submittedAt case Some(at) => Some(at) case None => stored.submittedAt)
    && (merged.l1IncludedAtUnixSec ==
          match incoming.l1IncludedAtUnixSec case Some(at) => Some(at) case None => stored.l1IncludedAtUnixSec)
    && (merged.submitter ==
          match incoming.submitter case Some(s) => (if s == "" then stored.submitter else Some(ToLower(s)))
                                   case None => stored.submitter)
    && merged.messageSnapshot == (if incoming.messageSnapshot == [] then stored.messageSnapshot else incoming.messageSnapshot)
  }

  /** What an operation that does not throw leaves in one batch row. */
  lemma {:induction false} BatchRowStep(t: Tables, op: Op, key: BatchKey)
    requires !Throws(t, op)
    ensures match op
      case UpsertBatchOp(batch, row) =>
        if key != batch then BatchAt(Step(t, op), key) == BatchAt(t, key)
        else
          && key in Step(t, op).batches
          && IsMerged(if key in t.batches then t.batches[key] else row.(submitter := None), row, Step(t, op).batches[key])
      case UpdateBatchOp(batch, status, patch) =>
        if key != batch then BatchAt(Step(t, op), key) == BatchAt(t, key)
        else
          && key in Step(t, op).batches
          && var stored, b := t.batches[key], Step(t, op).batches[key];
          && b == stored.(status := status, blockNumber := b.blockNumber, txIndex := b.txIndex,
                          replacedByTxHash := b.replacedByTxHash, invalidatedAt := b.invalidatedAt)
          && b.blockNumber == (match patch.blockNumber case Some(x) => x case None => stored.blockNumber)
          && b.txIndex == (match patch.txIndex case Some(x) => x case None => stored.txIndex)
          && b.replacedByTxHash == (match patch.replacedByTxHash case Some(x) => x case None => stored.replacedByTxHash)
          && b.invalidatedAt == (match patch.invalidatedAt case Some(x) => x case None => stored.invalidatedAt)
      case ReorgOp(chainId, txHash, at) =>
        BatchAt(Step(t, op), key) ==
          if key in t.batches && key.chainId == chainId && key.txHash == txHash
          then Some(t.batches[key].(status := BatchReorged, invalidatedAt := Some(at))) else BatchAt(t, key)
      case DeleteBatchesOp(chainId) => BatchAt(Step(t, op), key) == if key.chainId == chainId then None else BatchAt(t, key)
      case _ => BatchAt(Step(t, op), key) == BatchAt(t, key)
  {
    ThrowsIff(t, op);
    hide Throws;
  }

  /** Only `setNonce` moves a tracker, that of its sender in lower case. */
  lemma {:induction false} TrackerStep(t: Tables, op: Op, sender: string)
    requires !Throws(t, op)
    ensures TrackerAt(Step(t, op), sender) ==
      match op
      case SetNonceOp(of, nonce, hash) => if sender == ToLower(of) then Some(Tracker(nonce, hash)) else TrackerAt(t, sender)
      case _ => TrackerAt(t, sender)
  {
    ThrowsIff(t, op);
    hide Throws;
  }

  // ----- over runs -----

  /** The rows differ at most in status and batch. */
  ghost predicate SamePayload(a: MessageRow, b: MessageRow) {
    b == a.(status := b.status, batchRef := b.batchRef)
  }

  /** The operation wrote the slot, and all of the row but its status and batch is what it wrote. */
  ghost predicate Wrote(op: Op, key: MessageKey, row: MessageRow) {
    match op
    case InsertOp(p) =>
      && IsSlot(key, p.sender, p.nonce)
      && row == MessageRow(None, p.contentTag, p.contents, p.signature, p.messageHash, row.status, row.batchRef,
                           Some(p.chainId), Some(p.ingestedAt), Some(p.ingestSeq), None, None, None)
    case ObserveOp(sender, nonce, observed) => IsSlot(key, sender, nonce) && SamePayload(observed, row)
    case _ => false
  }

  lemma {:induction false} PayloadStep(t: Tables, op: Op, key: MessageKey)
    requires key in Step(t, op).messages
    ensures var row := Step(t, op).messages[key];
      (key in t.messages && SamePayload(t.messages[key], row)) || Wrote(op, key, row)
  {
    ThrowsIff(t, op);
    if !Throws(t, op) {
      MessageRowStep(t, op, key);
    }
    hide Throws, Attempt, IsSlot;
  }

  /** A row of a run keeps the payload it started with, or has that of an operation that wrote its slot. */
  lemma {:induction false} PayloadFrom(t: Tables, ops: seq<Op>, key: MessageKey) returns (i: nat)
    requires key in Run(t, ops).messages
    ensures var row := Run(t, ops).messages[key];
      if i < |ops| then Wrote(ops[i], key, row) else key in t.messages && SamePayload(t.messages[key], row)
    decreases |ops|
  {
    if ops == [] {
      i := 0;
    } else {
      var j := PayloadFrom(Step(t, ops[0]), ops[1..], key);
      if j < |ops| - 1 {
        i := j + 1;
      } else {
        PayloadStep(t, ops[0], key);
        i := if Wrote(ops[0], key, Run(t, ops).messages[key]) then 0 else |ops|;
      }
    }
  }

  /** Every row of every run carries the payload of an insert or an observation of its own sender and nonce. */
  lemma {:induction false} RowIsItsWrite(ops: seq<Op>, key: MessageKey) returns (i: nat)
    requires key in Run(EMPTY, ops).messages
    ensures i < |ops| && Wrote(ops[i], key, Run(EMPTY, ops).messages[key])
  {
    i := PayloadFrom(EMPTY, ops, key);
  }

  /** The operations that write a batch row. */
  predicate WritesBatch(op: Op, key: BatchKey) {
    match op
    case UpsertBatchOp(batch, _) => batch == key
    case UpdateBatchOp(batch, _, _) => batch == key
    case ReorgOp(chainId, txHash, _) => chainId == key.chainId && txHash == key.txHash
    case DeleteBatchesOp(chainId) => chainId == key.chainId
    case _ => false
  }

  lemma {:induction false} BatchUntouched(t: Tables, ops: seq<Op>, key: BatchKey)
    requires forall op :: op in ops ==> !WritesBatch(op, key)
    ensures BatchAt(Run(t, ops), key) == BatchAt(t, key)
    decreases |ops|
  {
    if ops != [] {
      ThrowsIff(t, ops[0]);
      if !Throws(t, ops[0]) {
        BatchRowStep(t, ops[0], key);
      }
      assert ops[0] in ops;
      hide Throws, Attempt;
      BatchUntouched(Step(t, ops[0]), ops[1..], key);
    }
  }

  /** Until the next operation on it, an upserted batch holds the incoming status, block, position, hashes and time of its
      reorg, and in the sticky fields what came in or else what stood there. */
  lemma {:induction false} UpsertedBatchHolds(t: Tables, key: BatchKey, row: BatchRow, ops: seq<Op>)
    requires forall op :: op in ops ==> !WritesBatch(op, key)
    ensures var last := Run(Step(t, UpsertBatchOp(key, row)), ops);
      && key in last.batches
      && IsMerged(if key in t.batches then t.batches[key] else row.(submitter := None), row, last.batches[key])
  {
    var next := Step(t, UpsertBatchOp(key, row));
    BatchRowStep(t, UpsertBatchOp(key, row), key);
    BatchUntouched(next, ops, key);
    hide IsMerged, Run, Step;
    assert BatchAt(next, key).Some?;
  }
}
