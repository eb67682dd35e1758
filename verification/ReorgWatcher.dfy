// packages/bam-reader/src/reorg-watcher.ts: one tick against a fixed view of the chain.
module ReorgWatcher {
  import opened Wrappers
  import opened Sequences
  import opened Store

  const MIN_REORG_WINDOW := 4
  const MAX_REORG_WINDOW := 128
  const DEFAULT_REORG_WINDOW := 32

  /** A JavaScript number: NaN and the infinities are not finite. */
  datatype Number = Finite(value: real) | NotFinite

  function ClampReorgWindow(n: Number): (w: int)
    ensures 4 <= w <= 128
    ensures n.Finite? && 4.0 <= n.value <= 128.0 ==> w as real <= n.value < w as real + 1.0
    ensures n.Finite? && n.value < 4.0 ==> w == 4
    ensures n.Finite? && n.value > 128.0 ==> w == 128
    ensures n.NotFinite? ==> w == 32
  {
    match n
    case NotFinite => DEFAULT_REORG_WINDOW
    case Finite(x) =>
      var f := x.Floor;
      var raised := if f < MIN_REORG_WINDOW then MIN_REORG_WINDOW else f;
      if raised > MAX_REORG_WINDOW then MAX_REORG_WINDOW else raised
  }

  /** The rows `listBatches({chainId, sinceBlock})` returns that the filter keeps. */
  predicate Candidate(t: Tables, chainId: nat, sinceBlock: int, key: BatchKey) {
    && key in t.batches
    && key.chainId == chainId
    && t.batches[key].status == BatchConfirmed
    && t.batches[key].blockNumber.Some?
    && t.batches[key].blockNumber.value >= sinceBlock
  }

  method ListCandidates(store: BamStore, chainId: nat, sinceBlock: int) returns (keys: seq<BatchKey>)
    ensures Distinct(keys)
    ensures forall key :: key in keys <==> Candidate(store.Now(), chainId, sinceBlock, key)
  {
    ghost var t := store.Now();
    var left := set key | key in store.batches && key.chainId == chainId
      && store.batches[key].status == BatchConfirmed
      && store.batches[key].blockNumber.Some? && store.batches[key].blockNumber.value >= sinceBlock;
    ghost var all := left;
    assert forall key :: key in all <==> Candidate(t, chainId, sinceBlock, key);
    keys := [];
    while left != {}
      invariant Distinct(keys) && left <= all
      invariant forall key :: key in keys <==> key in all && key !in left
      decreases |left|
    {
      var key :| key in left;
      left := left - {key};
      keys := keys + [key];
    }
  }

  /** The rows of the off-chain transactions `off`, and only those, are reorged. */
  ghost predicate BatchesReorged(before: Tables, after: Tables, chainId: nat, off: set<string>) {
    && after.batches.Keys == before.batches.Keys
    && forall key :: key in before.batches ==>
          if key.chainId == chainId && key.txHash in off
          then && after.batches[key].invalidatedAt.Some?
               && after.batches[key] ==
                    before.batches[key].(status := BatchReorged, invalidatedAt := after.batches[key].invalidatedAt)
          else after.batches[key] == before.batches[key]
  }

  predicate Attached(row: MessageRow, chainId: nat, txs: set<string>) {
    row.status == Confirmed && row.chainId == Some(chainId) && row.batchRef.Some? && row.batchRef.value in txs
  }

  ghost predicate MessagesReorged(before: Tables, after: Tables, chainId: nat, off: set<string>) {
    && after.messages.Keys == before.messages.Keys
    && forall key :: key in before.messages ==>
          after.messages[key] ==
            if Attached(before.messages[key], chainId, off)
            then before.messages[key].(status := Reorged) else before.messages[key]
  }

  lemma {:induction false} NothingReorged(t: Tables, chainId: nat, view: string -> Option<nat>)
    ensures BatchesReorged(t, t, chainId, OffChain([], view)) && MessagesReorged(t, t, chainId, OffChain([], view))
    ensures OnChain([], view) == {}
  {
  }

  /** A batch row of the transaction exists, so the mark cannot throw, however often it is repeated. */
  lemma {:induction false} MarkSucceeds(before: Tables, now: Tables, off: set<string>, batch: BatchKey, at: nat)
    requires BatchesReorged(before, now, batch.chainId, off) && batch in before.batches
    ensures MarkReorged(now, batch.chainId, batch.txHash, at).Ok?
  {
    assert InTx(batch, batch.chainId, batch.txHash);
  }

  lemma {:induction false} ReorgOneMore(before: Tables, now: Tables, chainId: nat, off: set<string>, txHash: string, at: nat)
    requires BatchesReorged(before, now, chainId, off) && MessagesReorged(before, now, chainId, off)
    requires MarkReorged(now, chainId, txHash, at).Ok?
    ensures BatchesReorged(before, MarkReorged(now, chainId, txHash, at).value, chainId, off + {txHash})
    ensures MessagesReorged(before, MarkReorged(now, chainId, txHash, at).value, chainId, off + {txHash})
  {
    ReorgOneMoreMessages(before, now, chainId, off, txHash, at);
    hide MessagesReorged;
  }

  lemma {:induction false} ReorgOneMoreMessages(before: Tables, now: Tables, chainId: nat, off: set<string>, txHash: string,
                                                at: nat)
    requires MessagesReorged(before, now, chainId, off) && MarkReorged(now, chainId, txHash, at).Ok?
    ensures MessagesReorged(before, MarkReorged(now, chainId, txHash, at).value, chainId, off + {txHash})
  {
    var next := MarkReorged(now, chainId, txHash, at).value;
    forall key | key in before.messages
      ensures next.messages[key] ==
        if Attached(before.messages[key], chainId, off + {txHash})
        then before.messages[key].(status := Reorged) else before.messages[key]
    {
      assert AttachedTo(now.messages[key], chainId, txHash) == AttachedTo(before.messages[key], chainId, txHash);
    }
  }

  function OffChain(keys: seq<BatchKey>, view: string -> Option<nat>): set<string> {
    set key | key in keys && view(key.txHash) == None :: key.txHash
  }

  function OnChain(keys: seq<BatchKey>, view: string -> Option<nat>): set<BatchKey> {
    set key | key in keys && view(key.txHash).Some?
  }

  lemma {:induction false} OnChainAppend(keys: seq<BatchKey>, key: BatchKey, view: string -> Option<nat>)
    requires Distinct(keys + [key])
    ensures |OnChain(keys + [key], view)| == |OnChain(keys, view)| + if view(key.txHash).Some? then 1 else 0
  {
    DistinctAppend(keys, [key]);
    assert key in Elements([key]);
    assert Elements(keys) !! {key};
    assert OnChain(keys + [key], view) == OnChain(keys, view) + if view(key.txHash).Some? then {key} else {};
  }

  lemma {:induction false} OffChainAppend(keys: seq<BatchKey>, key: BatchKey, view: string -> Option<nat>)
    ensures OffChain(keys + [key], view) == OffChain(keys, view) + if view(key.txHash) == None then {key.txHash} else {}
  {
    forall tx | tx in OffChain(keys, view) ensures tx in OffChain(keys + [key], view) {
      var k :| k in keys && view(k.txHash) == None && k.txHash == tx;
      assert k in keys + [key];
    }
    if view(key.txHash) == None {
      assert key in keys + [key];
    }
  }

  /** One tick. `view(tx)` is the block now holding `tx`, or none; `now(i)` is the clock at the i-th mark. */
  method Tick(store: BamStore, chainId: nat, head: int, window: Number,
              view: string -> Option<nat>, now: nat -> nat)
    returns (reorgedCount: nat, keptCount: nat, threw: bool, candidates: seq<BatchKey>)
    requires store.Valid()
    modifies store`messages, store`batches
    ensures store.Valid()
    ensures !threw
    ensures Distinct(candidates)
    ensures forall key :: key in candidates <==> Candidate(old(store.Now()), chainId, head - ClampReorgWindow(window), key)
    ensures reorgedCount + keptCount == |candidates|
    ensures keptCount == |OnChain(candidates, view)|
    ensures BatchesReorged(old(store.Now()), store.Now(), chainId, OffChain(candidates, view))
    ensures MessagesReorged(old(store.Now()), store.Now(), chainId, OffChain(candidates, view))
  {
    hide BatchesReorged, MessagesReorged, MarkReorged, OnChain, OffChain, Distinct, Elements, Canonical;
    candidates := ListCandidates(store, chainId, head - ClampReorgWindow(window));
    reorgedCount, keptCount, threw := 0, 0, false;
    ghost var before := store.Now();
    NothingReorged(before, chainId, view);
    var i := 0;
    while i < |candidates|
      invariant 0 <= i <= |candidates|
      invariant store.Valid() && !threw
      invariant reorgedCount + keptCount == i
      invariant keptCount == |OnChain(candidates[..i], view)|
      invariant BatchesReorged(before, store.Now(), chainId, OffChain(candidates[..i], view))
      invariant MessagesReorged(before, store.Now(), chainId, OffChain(candidates[..i], view))
    {
      var batch := candidates[i];
      assert candidates[..i + 1] == candidates[..i] + [batch];
      assert batch in candidates && candidates == candidates[..i + 1] + candidates[i + 1..];
      DistinctAppend(candidates[..i + 1], candidates[i + 1..]);
      OffChainAppend(candidates[..i], batch, view);
      OnChainAppend(candidates[..i], batch, view);
      var current := view(batch.txHash);
      if current.Some? {
        keptCount := keptCount + 1;
        assert OffChain(candidates[..i + 1], view) == OffChain(candidates[..i], view);
      } else {
        reorgedCount := reorgedCount + 1;
        MarkSucceeds(before, store.Now(), OffChain(candidates[..i], view), batch, now(reorgedCount));
        ReorgOneMore(before, store.Now(), chainId, OffChain(candidates[..i], view), batch.txHash, now(reorgedCount));
        var marked := store.Reorg(chainId, batch.txHash, now(reorgedCount));
        threw := threw || marked.Err?;
      }
      i := i + 1;
    }
    assert candidates[..i] == candidates;
  }

  /** What one tick guarantees: the window holds no confirmed batch whose transaction left the chain,
      no confirmed message of the chain is attached to one, and other chains are untouched. */
  lemma {:induction false} TickCleansWindow(before: Tables, after: Tables, chainId: nat, sinceBlock: int,
                         view: string -> Option<nat>, candidates: seq<BatchKey>)
    requires forall key :: key in candidates <==> Candidate(before, chainId, sinceBlock, key)
    requires BatchesReorged(before, after, chainId, OffChain(candidates, view))
    requires MessagesReorged(before, after, chainId, OffChain(candidates, view))
    ensures forall key :: Candidate(after, chainId, sinceBlock, key) ==> view(key.txHash).Some?
    ensures forall batch, key :: batch in candidates && view(batch.txHash) == None && key in after.messages ==>
              !(AttachedTo(after.messages[key], chainId, batch.txHash) && after.messages[key].status == Confirmed)
    ensures forall key :: key in before.batches && key.chainId != chainId ==> after.batches[key] == before.batches[key]
    ensures forall key :: key in before.messages && before.messages[key].chainId != Some(chainId) ==>
              after.messages[key] == before.messages[key]
  {
    forall key | Candidate(after, chainId, sinceBlock, key) ensures view(key.txHash).Some? {
      if key.txHash !in OffChain(candidates, view) {
        assert after.batches[key] == before.batches[key];
        assert key in candidates;
      }
    }
    forall batch, key | batch in candidates && view(batch.txHash) == None && key in after.messages
      ensures !(AttachedTo(after.messages[key], chainId, batch.txHash) && after.messages[key].status == Confirmed)
    {
      assert batch.txHash in OffChain(candidates, view);
    }
  }
}
