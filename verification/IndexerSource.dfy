// The source steps of the indexer's machine are what the store's own operations do to its tables.
module IndexerSource {
  import opened Wrappers
  import opened Store
  import Life = StoreLifecycle
  import opened Indexer

  /** markReorged is a reorg of the source; with a timestamp later than all before on the tag, the machine's own. */
  lemma {:induction false} MarkReorgedIsSourceReorg(h: Handler, src: Tables, txHash: string, at: nat)
    requires SourceOk(h, src) && BatchKey(h.chainId, txHash, h.contentTag) in src.batches
    ensures MarkReorged(src, h.chainId, txHash, at).Ok?
    ensures ReorgsAnytime(h, src, MarkReorged(src, h.chainId, txHash, at).value, txHash, at)
    ensures (forall tx :: GoneAt(h, src, tx).Some? ==> GoneAt(h, src, tx).value < at) ==>
              Reorgs(h, src, MarkReorged(src, h.chainId, txHash, at).value, txHash, at)
  {
    assert InTx(BatchKey(h.chainId, txHash, h.contentTag), h.chainId, txHash);
    var next := MarkReorged(src, h.chainId, txHash, at).value;
    forall key ensures IsLive(h, next, key) <==> IsLive(h, src, key) && src.messages[key].batchRef != Some(txHash) {
    }
    forall tx ensures GoneAt(h, next, tx) == if tx == txHash then Some(at) else GoneAt(h, src, tx) {
    }
    LiveRowsKept(h, src, txHash, at);
    StillOk(h, src, next, txHash, at);
    hide IsLive, CoordOf, MarkReorged, GoneAt, SourceOk;
  }

  lemma {:induction false} StillOk(h: Handler, src: Tables, next: Tables, txHash: string, at: nat)
    requires SourceOk(h, src) && next.batches.Keys == src.batches.Keys
    requires forall tx :: GoneAt(h, next, tx) == if tx == txHash then Some(at) else GoneAt(h, src, tx)
    requires forall key :: IsLive(h, next, key) <==> IsLive(h, src, key) && src.messages[key].batchRef != Some(txHash)
    requires forall key :: IsLive(h, next, key) ==> next.messages[key] == src.messages[key]
    ensures SourceOk(h, next)
  {
    hide GoneAt, CoordOf;
  }

  lemma {:induction false} LiveRowsKept(h: Handler, src: Tables, txHash: string, at: nat)
    requires MarkReorged(src, h.chainId, txHash, at).Ok?
    ensures forall key :: IsLive(h, MarkReorged(src, h.chainId, txHash, at).value, key) ==>
              key in src.messages && MarkReorged(src, h.chainId, txHash, at).value.messages[key] == src.messages[key]
  {
  }

  /**
   * Every other transaction that neither deletes rows nor touches which batches are reorged is growth of the source, as
   * long as the source stays well-formed; and growth above the high-water mark when a row it makes live lands there.
   */
  lemma {:induction false} StoreStepIsSourceGrowth(h: Handler, s: Sys, op: Life.Op)
    requires !op.ReorgOp? && !op.DeleteMessagesOp? && !op.DeleteBatchesOp?
    requires SourceOk(h, s.source) && SourceOk(h, Life.Step(s.source, op))
    requires forall tx :: GoneAt(h, Life.Step(s.source, op), tx) == GoneAt(h, s.source, tx)
    ensures GrowsAnywhere(h, s.source, Life.Step(s.source, op))
    ensures (op.ObserveOp? ==> AboveHighWater(s, CoordOf(op.observed)) || !FillsSlot(h, s.source, op)) ==>
              Grows(h, s, Life.Step(s.source, op))
  {
  }

  /** The observation writes a live row of the handler into a slot that held none. */
  ghost predicate FillsSlot(h: Handler, src: Tables, op: Life.Op)
    requires op.ObserveOp?
  {
    exists key :: IsLive(h, Life.Step(src, op), key) && !IsLive(h, src, key)
  }
}
