// What every run of store operations keeps, whatever their order and whichever of them throw.
module StoreLifecycle {
  import opened Wrappers
  import opened Text
  import opened NonceCodec
  import opened Sequences
  import opened Store

  datatype Op =
    | InsertOp(pending: PendingRow)
    | SubmitOp(keys: seq<MessageKey>, batchRef: string)
    | ObserveOp(sender: string, nonce: int, observed: MessageRow)
    | ReorgOp(chainId: nat, txHash: string, invalidatedAt: nat)
    | UpsertBatchOp(batch: BatchKey, row: BatchRow)
    | UpdateBatchOp(batch: BatchKey, status: BatchStatus, patch: StatusPatch)
    | SetNonceOp(sender: string, nonce: int, messageHash: string)
    | DeleteMessagesOp(chainId: nat)
    | DeleteBatchesOp(chainId: nat)

  ghost function Attempt(t: Tables, op: Op): Result<Tables, StoreError> {
    match op
    case InsertOp(row) => InsertPending(t, row)
    case SubmitOp(keys, ref) =>
      if Submittable(t, keys) then Ok(SubmitRows(t, Elements(keys), ref))
      else Err(WrongRowCount)
    case ObserveOp(sender, nonce, row) => UpsertObserved(t, sender, nonce, row)
    case ReorgOp(chainId, txHash, at) => MarkReorged(t, chainId, txHash, at)
    case UpsertBatchOp(key, row) => Ok(UpsertBatch(t, key, row))
    case UpdateBatchOp(key, status, patch) => UpdateBatchStatus(t, key, status, patch)
    case SetNonceOp(sender, nonce, hash) => SetNonce(t, sender, nonce, hash)
    case DeleteMessagesOp(chainId) => Ok(DeleteMessages(t, chainId))
    case DeleteBatchesOp(chainId) => Ok(DeleteBatches(t, chainId))
  }

  /** One transaction: a throw rolls back. */
  ghost function Step(t: Tables, op: Op): Tables {
    match Attempt(t, op)
    case Ok(next) => next
    case Err(_) => t
  }

  ghost function Run(t: Tables, ops: seq<Op>): Tables
    decreases |ops|
  {
    if ops == [] then t else Run(Step(t, ops[0]), ops[1..])
  }

  const EMPTY := Tables(map[], map[], map[])

  // ----- keys -----

  lemma {:induction false} StepKeepsCanonical(t: Tables, op: Op)
    requires Canonical(t)
    ensures Canonical(Step(t, op))
  {
    match op {
      case InsertOp(row) =>
        ToLowerIdempotent(row.sender);
        NonceRoundTrip(row.nonce, "");
      case ObserveOp(sender, nonce, _) =>
        ToLowerIdempotent(sender);
        NonceRoundTrip(nonce, "");
      case SetNonceOp(sender, _, _) =>
        ToLowerIdempotent(sender);
      case _ =>
    }
  }

  lemma {:induction false} RunKeepsCanonical(t: Tables, ops: seq<Op>)
    requires Canonical(t)
    ensures Canonical(Run(t, ops))
    decreases |ops|
  {
    if ops != [] {
      StepKeepsCanonical(t, ops[0]);
      RunKeepsCanonical(Step(t, ops[0]), ops[1..]);
    }
  }

  /** However senders are cased and nonces written, a (sender, nonce) pair has one row. */
  lemma {:induction false} OneRowPerSenderNonce(ops: seq<Op>, a: MessageKey, b: MessageKey)
    requires a in Run(EMPTY, ops).messages && b in Run(EMPTY, ops).messages
    ensures CanonicalKey(a) && CanonicalKey(b)
    ensures ToLower(a.sender) == ToLower(b.sender) && NonceOf(a) == NonceOf(b) ==> a == b
  {
    RunKeepsCanonical(EMPTY, ops);
    TextOrderIsNumeric(a.nonce, b.nonce);
  }

  // ----- message rows -----

  /** The only two operations that may touch a confirmed row: its reorg, or an operator delete. */
  predicate Releases(op: Op, row: MessageRow) {
    match op
    case ReorgOp(chainId, txHash, _) => AttachedTo(row, chainId, txHash)
    case DeleteMessagesOp(chainId) => row.chainId == Some(chainId)
    case _ => false
  }

  /** A confirmed row is changed by exactly the operations that release it and do not throw. */
  lemma {:induction false} ConfirmedRowStep(t: Tables, op: Op, key: MessageKey)
    requires key in t.messages && t.messages[key].status == Confirmed
    ensures (key !in Step(t, op).messages || Step(t, op).messages[key] != t.messages[key])
            <==> Releases(op, t.messages[key]) && Attempt(t, op).Ok?
  {
  }

  /** Payload, hash and coordinates of a confirmed row are frozen until it is released. */
  lemma {:induction false} ConfirmedRowFrozen(t: Tables, ops: seq<Op>, key: MessageKey)
    requires key in t.messages && t.messages[key].status == Confirmed
    requires forall op :: op in ops ==> !Releases(op, t.messages[key])
    ensures key in Run(t, ops).messages && Run(t, ops).messages[key] == t.messages[key]
    decreases |ops|
  {
    if ops != [] {
      ConfirmedRowStep(t, ops[0], key);
      ConfirmedRowFrozen(Step(t, ops[0]), ops[1..], key);
    }
  }

  /** A slot takes a different message in one step only by `insertPending` over a reorged row. */
  lemma {:induction false} HashChangeStep(t: Tables, op: Op, key: MessageKey)
    requires key in t.messages && key in Step(t, op).messages
    requires Step(t, op).messages[key].messageHash != t.messages[key].messageHash
    ensures op.InsertOp? && t.messages[key].status == Reorged
    ensures Step(t, op).messages[key] == PendingMessage(op.pending)
  {
  }

  ghost predicate Vacant(t: Tables, key: MessageKey) {
    key !in t.messages || t.messages[key].status == Reorged
  }

  /** Over a whole run, a slot holds another message only after a moment when it was vacant. */
  lemma {:induction false} SlotReclaimedOnlyWhenVacant(t: Tables, ops: seq<Op>, key: MessageKey) returns (i: nat)
    requires key in t.messages
    requires key !in Run(t, ops).messages || Run(t, ops).messages[key].messageHash != t.messages[key].messageHash
    ensures i <= |ops| && Vacant(Run(t, ops[..i]), key)
    decreases |ops|
  {
    assert ops != [];
    var next := Step(t, ops[0]);
    if Vacant(t, key) {
      i := 0;
    } else if key !in next.messages {
      i := 1;
      RunSplit(t, ops, 1);
    } else {
      if next.messages[key].messageHash != t.messages[key].messageHash {
        HashChangeStep(t, ops[0], key);
      }
      var j := SlotReclaimedOnlyWhenVacant(next, ops[1..], key);
      i := j + 1;
      assert ops[..i][1..] == ops[1..][..j];
    }
  }

  lemma {:induction false} RunSplit(t: Tables, ops: seq<Op>, i: nat)
    requires 1 == i <= |ops|
    ensures Run(t, ops[..i]) == Step(t, ops[0])
  {
    assert ops[..1][1..] == [];
    assert Run(Step(t, ops[0]), []) == Step(t, ops[0]);
  }

  // ----- batch rows -----

  /** Everything the stored row had, the later row still has. */
  predicate KeepsFilled(before: BatchRow, after: BatchRow) {
    && (before.messageSnapshot != [] ==> after.messageSnapshot != [])
    && (before.submittedAt.Some? ==> after.submittedAt.Some?)
    && (before.submitter.Some? ==> after.submitter.Some?)
    && (before.l1IncludedAtUnixSec.Some? ==> after.l1IncludedAtUnixSec.Some?)
  }

  predicate ClearsReplacement(op: Op, key: BatchKey) {
    op.UpdateBatchOp? && op.batch == key && op.patch.replacedByTxHash == Some(None)
  }

  lemma {:induction false} BatchFieldsStep(t: Tables, op: Op, key: BatchKey)
    requires key in t.batches && op != DeleteBatchesOp(key.chainId)
    ensures key in Step(t, op).batches && KeepsFilled(t.batches[key], Step(t, op).batches[key])
    ensures t.batches[key].replacedByTxHash.Some? && !ClearsReplacement(op, key)
            ==> Step(t, op).batches[key].replacedByTxHash.Some?
  {
  }

  /** No run without an operator delete empties a snapshot or nulls a coalesced field. */
  lemma {:induction false} BatchFieldsSticky(t: Tables, ops: seq<Op>, key: BatchKey)
    requires key in t.batches
    requires DeleteBatchesOp(key.chainId) !in ops
    ensures key in Run(t, ops).batches && KeepsFilled(t.batches[key], Run(t, ops).batches[key])
    decreases |ops|
  {
    if ops != [] {
      BatchFieldsStep(t, ops[0], key);
      BatchFieldsSticky(Step(t, ops[0]), ops[1..], key);
    }
  }

  /** `replacedByTxHash` goes back to null only by an explicit status update. */
  lemma {:induction false} ReplacementSticky(t: Tables, ops: seq<Op>, key: BatchKey)
    requires key in t.batches && t.batches[key].replacedByTxHash.Some?
    requires DeleteBatchesOp(key.chainId) !in ops
    requires forall op :: op in ops ==> !ClearsReplacement(op, key)
    ensures key in Run(t, ops).batches && Run(t, ops).batches[key].replacedByTxHash.Some?
    decreases |ops|
  {
    if ops != [] {
      BatchFieldsStep(t, ops[0], key);
      ReplacementSticky(Step(t, ops[0]), ops[1..], key);
    }
  }
}
