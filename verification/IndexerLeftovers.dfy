// What the index holds when reorgs can share a timestamp: posts of batches the reorg pass skipped.
module IndexerLeftovers {
  import opened Wrappers
  import opened Store
  import opened Indexer
  import opened IndexerInvariant
  import opened IndexerTheorems
  import opened IndexerTies

  /** A run whose rows land above the high-water mark, and whose reorgs are stamped by a clock that never goes back. */
  ghost predicate OrderedStep(h: Handler, s: Sys, a: Action, t: Sys) {
    UntimedStep(h, s, a, t) && TieStep(h, s, a, t)
  }

  ghost predicate IsOrderedRun(h: Handler, states: seq<Sys>, actions: seq<Action>) {
    && |states| == |actions| + 1
    && forall i :: 0 <= i < |actions| ==> OrderedStep(h, states[i], actions[i], states[i + 1])
  }

  /** The batch is reorged, the reorg cursor has reached its time, and it was not cascaded. */
  ghost predicate Skips(h: Handler, s: Sys, c: Cursor, tx: string) {
    Gone(h, s, tx) && GoneAt(h, s.source, tx).value <= c.reorgAt && !IsCascaded(h, s, c, tx)
  }

  // ----- a reorged batch with a post left has not been cascaded -----

  ghost predicate NotCascaded(h: Handler, s: Sys, tx: string) {
    Gone(h, s, tx) ==> forall c :: IsCurrent(s.db.cursors, c) ==> !IsCascaded(h, s, c, tx)
  }

  ghost predicate LeftoversNotCascaded(h: Handler, s: Sys) {
    && (forall k :: k in s.db.posts ==> NotCascaded(h, s, s.db.posts[k].batchRef))
    && (s.pc.Projecting? ==> forall x | x in s.pc.rows && x.row.batchRef.Some? :: NotCascaded(h, s, x.row.batchRef.value))
  }

  /** Nothing was cascaded at a later time than its batch carries. */
  ghost predicate CascadesPast(h: Handler, s: Sys) {
    && (forall d :: d in s.history && d.Cascaded? ==>
          Gone(h, s, d.entry.txHash) && GoneAt(h, s.source, d.entry.txHash).value >= d.entry.invalidatedAt)
    && (s.pc.Cascading? ==> forall e :: e in s.pc.entries ==>
          Gone(h, s, e.txHash) && GoneAt(h, s.source, e.txHash).value >= e.invalidatedAt)
  }

  ghost predicate LeftoverInv(h: Handler, s: Sys) {
    Lite(h, s) && LeftoversNotCascaded(h, s) && CascadesPast(h, s)
  }

  lemma {:induction false} CascadePast(h: Handler, s: Sys, t: Sys)
    requires Lite(h, s) && CascadesPast(h, s) && Step(h, s, CascadeEntry, t)
    ensures CascadesPast(h, t)
  {
    var e, f, g := CascadeCommit(h, s, t);
    assert e in s.pc.entries;
    hide Step, Lite, GoneAt;
  }

  lemma {:induction false} ReorgPast(h: Handler, s: Sys, a: Action, t: Sys)
    requires CascadesPast(h, s) && a.SourceReorgs? && TieStep(h, s, a, t)
    ensures CascadesPast(h, t)
  {
    hide GoneAt;
  }

  lemma {:induction false} FetchPast(h: Handler, s: Sys, a: Action, t: Sys)
    requires CascadesPast(h, s) && a.BeginCascade? && Step(h, s, a, t)
    ensures CascadesPast(h, t)
  {
    hide GoneAt, EntryBefore;
  }

  lemma {:induction false} QuietPast(h: Handler, s: Sys, a: Action, t: Sys)
    requires Lite(h, s) && CascadesPast(h, s) && Step(h, s, a, t) && Quiet(a)
    ensures CascadesPast(h, t)
  {
    QuietShape(h, s, a, t);
    QuietHistory(h, s, a, t);
    hide Step, Lite, GoneAt;
  }

  lemma {:induction false} PastStep(h: Handler, s: Sys, a: Action, t: Sys)
    requires Lite(h, s) && CascadesPast(h, s) && OrderedStep(h, s, a, t)
    ensures CascadesPast(h, t)
  {
    hide Lite, CascadesPast, Step, ReorgsAnytime, TieStep;
    if a.CascadeEntry? {
      CascadePast(h, s, t);
    } else if a.SourceReorgs? {
      ReorgPast(h, s, a, t);
    } else if a.BeginCascade? {
      FetchPast(h, s, a, t);
    } else {
      QuietPast(h, s, a, t);
    }
  }

  lemma {:induction false} QuietHistory(h: Handler, s: Sys, a: Action, t: Sys)
    requires Lite(h, s) && Step(h, s, a, t) && Quiet(a)
    ensures forall d :: d in t.history && d.Cascaded? ==> d in s.history
  {
    if a.ProjectRow? {
      var x, f, g := ProjectRowShape(h, s, t);
      hide Step, Lite;
    }
  }

  lemma {:induction false} QuietNotCascaded(h: Handler, s: Sys, a: Action, t: Sys, tx: string)
    requires Lite(h, s) && Step(h, s, a, t) && Quiet(a) && NotCascaded(h, s, tx)
    ensures NotCascaded(h, t, tx)
  {
    QuietShape(h, s, a, t);
    QuietHistory(h, s, a, t);
    if a.Start? && t.db != s.db {
      FreshCursors(h, s, a, t);
      assert UnusedId(s, a.freshId);
      hide Step, Lite, GoneAt;
    } else {
      QuietCurrent(h, s, a, t);
      hide Step, Lite, GoneAt;
    }
  }

  /** But for a new generation the current one stays, if any does. */
  lemma {:induction false} QuietCurrent(h: Handler, s: Sys, a: Action, t: Sys)
    requires Lite(h, s) && Step(h, s, a, t) && Quiet(a) && (a.Start? ==> t.db == s.db)
    ensures forall c :: IsCurrent(t.db.cursors, c) ==> exists b :: IsCurrent(s.db.cursors, b) && b.versionId == c.versionId
  {
    if a.ProjectRow? {
      var x, f, g := ProjectRowShape(h, s, t);
      hide Step, Lite;
    } else {
      hide Lite;
      assert forall c :: IsCurrent(t.db.cursors, c) ==> IsCurrent(s.db.cursors, c);
    }
  }

  lemma {:induction false} QuietLeftoverStep(h: Handler, s: Sys, a: Action, t: Sys)
    requires LeftoverInv(h, s) && Step(h, s, a, t) && Quiet(a)
    ensures LeftoversNotCascaded(h, t)
  {
    QuietPosts(h, s, a, t);
    forall tx | NotCascaded(h, s, tx) ensures NotCascaded(h, t, tx) {
      QuietNotCascaded(h, s, a, t, tx);
    }
    if t.pc.Projecting? {
      QuietRows(h, s, a, t);
    }
    NotGone(h, s);
    hide Step, Lite, CascadesPast, Gone, NotCascaded;
    forall k | k in t.db.posts ensures NotCascaded(h, t, t.db.posts[k].batchRef) {
      assert WasThere(s, t, k);
    }
  }

  lemma {:induction false} NotGone(h: Handler, s: Sys)
    ensures forall tx :: !Gone(h, s, tx) ==> NotCascaded(h, s, tx)
  {
  }

  lemma {:induction false} CascadeLeftoverStep(h: Handler, s: Sys, t: Sys)
    requires LeftoverInv(h, s) && Step(h, s, CascadeEntry, t)
    ensures LeftoversNotCascaded(h, t)
  {
    var e, f, g := CascadeCommit(h, s, t);
    hide Step, Lite, CascadesPast, GoneAt;
    forall k | k in t.db.posts ensures NotCascaded(h, t, t.db.posts[k].batchRef) {
      assert NotCascaded(h, s, s.db.posts[k].batchRef) && s.db.posts[k].batchRef != e.txHash;
    }
  }

  /** A batch reorged again carries a time at which nothing of it was cascaded, or the time it carried before. */
  lemma {:induction false} ReorgNotCascaded(h: Handler, s: Sys, a: Action, t: Sys, tx: string)
    requires CascadesPast(h, s) && a.SourceReorgs? && TieStep(h, s, a, t) && NotCascaded(h, s, tx)
    ensures NotCascaded(h, t, tx)
  {
    hide GoneAt, SourceOk;
  }

  lemma {:induction false} LeftoverStep(h: Handler, s: Sys, a: Action, t: Sys)
    requires LeftoverInv(h, s) && OrderedStep(h, s, a, t)
    ensures LeftoverInv(h, t)
  {
    StepKeepsLite(h, s, a, t);
    PastStep(h, s, a, t);
    if a.SourceReorgs? {
      forall tx | NotCascaded(h, s, tx) ensures NotCascaded(h, t, tx) {
        ReorgNotCascaded(h, s, a, t, tx);
      }
      hide Lite, CascadesPast, NotCascaded, ReorgsAnytime, ReorgsInOrder;
    } else if a.BeginCascade? {
      hide Lite, CascadesPast, GoneAt, IsReorgListing;
    } else if a.CascadeEntry? {
      CascadeLeftoverStep(h, s, t);
      hide Lite, CascadesPast, OrderedStep, LeftoversNotCascaded;
    } else {
      QuietLeftoverStep(h, s, a, t);
      hide Lite, CascadesPast, OrderedStep, LeftoversNotCascaded;
    }
  }

  lemma {:induction false} OrderedRunKeeps(h: Handler, states: seq<Sys>, actions: seq<Action>, i: nat)
    requires IsOrderedRun(h, states, actions) && Initial(h, states[0]) && i < |states|
    ensures LeftoverInv(h, states[i])
  {
    hide OrderedStep;
    if i == 0 {
      InitialInv(h, states[0]);
    } else {
      OrderedRunKeeps(h, states, actions, i - 1);
      hide LeftoverInv;
      LeftoverStep(h, states[i - 1], actions[i - 1], states[i]);
    }
  }

  // ----- what the index holds -----

  /** The generation holds a post of a skipped batch for the id. */
  ghost predicate Leftover(h: Handler, s: Sys, c: Cursor, id: string) {
    var k := PostKey(c.versionId, id);
    k in s.db.posts && Skips(h, s, c, s.db.posts[k].batchRef)
  }

  /** When both cursors have caught up, the index agrees with a recomputation on an id exactly when no skipped batch has a
      post left for it. */
  lemma {:induction false} TieIndexAgreesIff(h: Handler, states: seq<Sys>, actions: seq<Action>, i: nat, c: Cursor, id: string)
    requires IsOrderedRun(h, states, actions) && Initial(h, states[0]) && i < |states| && Drained(h, states[i], c)
    ensures var s := states[i];
      Lookup(s.db.posts, PostKey(c.versionId, id)) == Recomputed(h, s.source, s.code, id) <==> !Leftover(h, s, c, id)
  {
    hide OrderedStep;
    OrderedRunKeeps(h, states, actions, i);
    hide Initial, CascadesPast, HistoryOk, InFlight, GoneAt;
    var s, key, k := states[i], h.owner(id), PostKey(c.versionId, id);
    if Recomputed(h, s.source, s.code, id).Some? {
      assert Stored(h, s, c, Listed(key, s.source.messages[key]));
    } else if k in s.db.posts {
      assert BackedByLive(h, s, k) || Gone(h, s, s.db.posts[k].batchRef);
      assert NotCascaded(h, s, s.db.posts[k].batchRef);
    }
  }

  /** In particular the whole index agrees when no step of the run left a tie behind. */
  lemma {:induction false} UntiedIndexAgrees(h: Handler, states: seq<Sys>, actions: seq<Action>, i: nat, c: Cursor, id: string)
    requires IsOrderedRun(h, states, actions) && Initial(h, states[0]) && i < |states| && Drained(h, states[i], c)
    requires Settled(states[i]) && forall j :: 0 <= j < i ==> !LeavesTie(h, states[j], actions[j])
    ensures Lookup(states[i].db.posts, PostKey(c.versionId, id)) == Recomputed(h, states[i].source, states[i].code, id)
  {
    TieIndexAgreesIff(h, states, actions, i, c, id);
    assert IsTieRun(h, states, actions) by {
      forall j | 0 <= j < |actions| ensures TieStep(h, states[j], actions[j], states[j + 1]) {
        assert OrderedStep(h, states[j], actions[j], states[j + 1]);
        hide TieStep;
      }
    }
    hide OrderedStep, TieStep, Initial, LeavesTie, Recomputed, Lookup, GoneAt;
    UntiedRunIsComplete(h, states, actions, i);
  }
}
