// What becomes of the index when confirmed rows land anywhere, at or below the cursor too.
//
// A row a generation has let go by is invisible to it: no query will list it again. So a run over such a source is a
// run of the machine over the source without those rows.
module IndexerLanding {
  import opened Wrappers
  import opened Store
  import opened Indexer
  import opened IndexerInvariant
  import opened IndexerTheorems

  /** A step of the system whose source may grow anywhere. */
  ghost predicate LooseStep(h: Handler, s: Sys, a: Action, t: Sys) {
    if a.SourceGrows? then GrowsAnywhere(h, s.source, a.source) && t == s.(source := a.source) else Step(h, s, a, t)
  }

  ghost predicate IsLooseRun(h: Handler, states: seq<Sys>, actions: seq<Action>) {
    && |states| == |actions| + 1
    && forall i :: 0 <= i < |actions| ==> LooseStep(h, states[i], actions[i], states[i + 1])
  }

  /** Neither committed by the current generation nor fetched. */
  ghost predicate Pending(h: Handler, s: Sys, x: Listed) {
    && (forall c :: IsCurrent(s.db.cursors, c) ==> Outcome(h, c, x) !in s.history)
    && (s.pc.Projecting? ==> x !in s.pc.rows)
  }

  /** A live row that the current generation has let go by, or will if it commits all it has fetched. */
  ghost predicate Overlooked(h: Handler, s: Sys, key: MessageKey) {
    && IsLive(h, s.source, key)
    && !AboveHighWater(s, CoordOf(s.source.messages[key]))
    && Pending(h, s, Listed(key, s.source.messages[key]))
  }

  ghost function OverlookedRows(h: Handler, s: Sys): set<MessageKey> {
    set key | key in s.source.messages && Overlooked(h, s, key)
  }

  function Without(src: Tables, keys: set<MessageKey>): Tables {
    src.(messages := src.messages - keys)
  }

  function Hiding(s: Sys, keys: set<MessageKey>): Sys {
    s.(source := Without(s.source, keys))
  }

  /** The system as its current generation sees it. */
  ghost function Visible(h: Handler, s: Sys): Sys {
    Hiding(s, OverlookedRows(h, s))
  }

  ghost predicate AllTraced(h: Handler, s: Sys) {
    && (forall d :: d in s.history && Forward(d) ==> Traced(h, s.source, d.listed))
    && (s.pc.Projecting? ==> forall x :: x in s.pc.rows ==> Traced(h, s.source, x))
  }

  ghost predicate LooseInv(h: Handler, s: Sys) {
    SourceOk(h, s.source) && AllTraced(h, s) && Inv(h, Visible(h, s))
  }

  // ----- hiding rows -----

  lemma {:induction false} HiddenRows(h: Handler, src: Tables, keys: set<MessageKey>)
    ensures var next := Without(src, keys);
      && (forall key :: IsLive(h, next, key) <==> IsLive(h, src, key) && key !in keys)
      && (forall key :: IsLive(h, next, key) ==> next.messages[key] == src.messages[key])
      && (forall tx :: GoneAt(h, next, tx) == GoneAt(h, src, tx))
      && (SourceOk(h, src) ==> SourceOk(h, next))
  {
  }

  /** A row committed or fetched has no live double: what becomes live is pending. */
  lemma {:induction false} NewRowIsPending(h: Handler, s: Sys, next: Tables, key: MessageKey)
    requires AllTraced(h, s) && GrowsAnywhere(h, s.source, next)
    requires IsLive(h, next, key) && !IsLive(h, s.source, key)
    ensures Pending(h, s, Listed(key, next.messages[key]))
    ensures forall d :: d in s.history && Forward(d) ==> d.listed != Listed(key, next.messages[key])
  {
    var x := Listed(key, next.messages[key]);
    assert !Traced(h, s.source, x);
    forall c | IsCurrent(s.db.cursors, c) ensures Outcome(h, c, x) !in s.history {
      assert Outcome(h, c, x).listed == x;
    }
  }

  lemma {:induction false} TracedStep(h: Handler, s: Sys, a: Action, t: Sys)
    requires AllTraced(h, s) && LooseStep(h, s, a, t)
    ensures AllTraced(h, t)
  {
    hide SourceOk;
    forall x | Traced(h, s.source, x) ensures Traced(h, t.source, x) {
    }
    if a.ProjectRow? {
      assert s.pc.rows[0] in s.pc.rows;
    }
  }

  lemma {:induction false} SeenIsNotOverlooked(h: Handler, t: Sys, keys: set<MessageKey>, key: MessageKey)
    requires Inv(h, Hiding(t, keys)) && IsLive(h, t.source, key) && key !in keys
    ensures !Overlooked(h, t, key)
  {
    var hidden, at := Hiding(t, keys), CoordOf(t.source.messages[key]);
    HiddenRows(h, t.source, keys);
    hide SourceOk, CursorsOk, PostsOwned, ReorgsOk, Backed, HistoryOk, CascadesDone, InFlight, GoneAt;
    assert IsLive(h, hidden.source, key) && hidden.source.messages[key] == t.source.messages[key];
    if c :| IsCurrent(t.db.cursors, c) && !Before(c.at, at) {
      BeforeIsTotal(c.at, at);
      assert AtOrBefore(at, c.at);
      assert Outcome(h, c, Listed(key, t.source.messages[key])) in t.history;
    }
  }

  /** Rows hidden from the machine come back when the generation that let them go by is no longer the current one. */
  lemma {:induction false} Unhide(h: Handler, t: Sys, keys: set<MessageKey>)
    requires SourceOk(h, t.source) && Inv(h, Hiding(t, keys))
    requires forall key :: key in keys && IsLive(h, t.source, key) ==> Pending(h, t, Listed(key, t.source.messages[key]))
    ensures Inv(h, Visible(h, t))
  {
    var hidden, visible := Hiding(t, keys), Visible(h, t);
    HiddenRows(h, t.source, keys);
    HiddenRows(h, t.source, OverlookedRows(h, t));
    hide SourceOk, GoneAt, PostsOwned, ReorgsOk, Backed, HistoryOk, CascadesDone;
    forall key | IsLive(h, hidden.source, key) ensures !Overlooked(h, t, key) {
      SeenIsNotOverlooked(h, t, keys, key);
    }
    assert Grows(h, hidden, visible.source);
    assert Step(h, hidden, SourceGrows(visible.source), visible);
    StepKeepsInv(h, hidden, SourceGrows(visible.source), visible);
  }

  // ----- the steps as the current generation sees them -----

  function Unseen(a: Action, keys: set<MessageKey>): Action {
    if a.SourceReorgs? then a.(source := Without(a.source, keys)) else a
  }

  lemma {:induction false} VisibleStep(h: Handler, s: Sys, a: Action, t: Sys)
    requires LooseInv(h, s) && Step(h, s, a, t) && !a.SourceGrows?
    ensures var keys := OverlookedRows(h, s);
      Step(h, Visible(h, s), Unseen(a, keys), Hiding(t, keys))
  {
    var keys := OverlookedRows(h, s);
    HiddenRows(h, s.source, keys);
    if a.SourceReorgs? {
      VisibleReorg(h, s.source, a.source, a.txHash, a.invalidatedAt, keys);
      hide LooseInv, OverlookedRows, Reorgs;
    } else if a.BeginTick? {
      VisibleListing(h, s, a.cursor, a.rowLimit, a.rows);
      hide SourceOk, LooseInv, IsForwardListing, OverlookedRows;
    } else {
      hide SourceOk, LooseInv, OverlookedRows, IsForwardListing, Reorgs, ProjectTxn, CascadeTxn, Migrate, ResetVersion, GoneAt;
      VisibleRest(h, s, a, t, keys);
    }
  }

  /** The other steps read of the source no more than its reorgs. */
  lemma {:induction false} VisibleRest(h: Handler, s: Sys, a: Action, t: Sys, keys: set<MessageKey>)
    requires Step(h, s, a, t) && !a.SourceGrows? && !a.SourceReorgs? && !a.BeginTick?
    requires forall tx :: GoneAt(h, Without(s.source, keys), tx) == GoneAt(h, s.source, tx)
    ensures Step(h, Hiding(s, keys), a, Hiding(t, keys))
  {
    hide ProjectTxn, CascadeTxn, Migrate, ResetVersion, GoneAt;
  }

  lemma {:induction false} VisibleReorg(h: Handler, src: Tables, next: Tables, txHash: string, at: nat, keys: set<MessageKey>)
    requires SourceOk(h, src) && Reorgs(h, src, next, txHash, at)
    ensures Reorgs(h, Without(src, keys), Without(next, keys), txHash, at)
  {
    HiddenRows(h, src, keys);
    HiddenRows(h, next, keys);
    hide SourceOk, GoneAt, CoordOf;
  }

  /** What lies ahead of the cursor is visible, so a query lists the same rows. */
  lemma {:induction false} VisibleListing(h: Handler, s: Sys, c: Cursor, limit: nat, rows: seq<Listed>)
    requires LooseInv(h, s) && s.pc.Idle? && IsCurrent(s.db.cursors, c)
    requires IsForwardListing(h, s.source, c.at, limit, rows)
    ensures IsForwardListing(h, Visible(h, s).source, c.at, limit, rows)
  {
    var keys := OverlookedRows(h, s);
    HiddenRows(h, s.source, keys);
    hide SourceOk, GoneAt, Inv;
    forall x | x in rows ensures x.key !in keys {
      if x.key in keys {
        OverlookedIsBehind(h, s, c, x.key);
        BeforeIsAsymmetric(c.at, CoordOf(x.row));
      }
    }
  }

  lemma {:induction false} BeforeIsAsymmetric(a: Coord, b: Coord)
    requires Before(a, b)
    ensures !AtOrBefore(b, a)
  {
  }

  /** Between ticks the rows let go by are at or below the cursor. */
  lemma {:induction false} OverlookedIsBehind(h: Handler, s: Sys, c: Cursor, key: MessageKey)
    requires LooseInv(h, s) && s.pc.Idle? && IsCurrent(s.db.cursors, c) && Overlooked(h, s, key)
    ensures AtOrBefore(CoordOf(s.source.messages[key]), c.at)
  {
    hide SourceOk, PostsOwned, ReorgsOk, Backed, Covered, HistoryOk, CascadesDone;
    var d :| IsCurrent(s.db.cursors, d) && !Before(d.at, CoordOf(s.source.messages[key]));
    BeforeIsTotal(d.at, CoordOf(s.source.messages[key]));
    assert c == d;
  }

  lemma {:induction false} PendingFetch(h: Handler, s: Sys, a: Action, t: Sys, key: MessageKey)
    requires LooseInv(h, s) && a.BeginTick? && Step(h, s, a, t) && Overlooked(h, s, key)
    ensures Pending(h, t, Listed(key, s.source.messages[key]))
  {
    OverlookedIsBehind(h, s, a.cursor, key);
    var x := Listed(key, s.source.messages[key]);
    hide LooseInv, SourceOk, GoneAt;
    if x in a.rows {
      BeforeIsAsymmetric(a.cursor.at, CoordOf(x.row));
    }
  }

  lemma {:induction false} PendingCommit(h: Handler, s: Sys, t: Sys, x: Listed)
    requires LooseInv(h, s) && Step(h, s, ProjectRow, t) && Pending(h, s, x)
    ensures Pending(h, t, x)
  {
    var keys := OverlookedRows(h, s);
    VisibleStep(h, s, ProjectRow, t);
    var y, f, g := ProjectRowShape(h, Visible(h, s), Hiding(t, keys));
    hide LooseInv, Step;
    assert y in s.pc.rows;
  }

  lemma {:induction false} PendingRest(h: Handler, s: Sys, a: Action, t: Sys, x: Listed)
    requires CursorsOk(s) && Step(h, s, a, t) && Pending(h, s, x) && !a.BeginTick? && !a.ProjectRow?
    ensures Pending(h, t, x)
  {
    if a.Start? && t.db != s.db {
      FreshCursors(h, s, a, t);
      assert UnusedId(s, a.freshId);
      hide Step;
    } else if a.CascadeEntry? {
      var f, g := s.pc.forward, t.pc.forward;
      AdvanceCurrent(s, f, g, s.db.cursors[f.versionId := g]);
      hide ResetVersion, Migrate, Grows, Reorgs;
    } else {
      hide ProjectTxn, CascadeTxn, Grows, Reorgs;
      assert forall c :: IsCurrent(t.db.cursors, c) ==> IsCurrent(s.db.cursors, c);
    }
  }

  lemma {:induction false} PendingStep(h: Handler, s: Sys, a: Action, t: Sys, key: MessageKey)
    requires LooseInv(h, s) && Step(h, s, a, t) && !a.SourceGrows?
    requires Overlooked(h, s, key) && IsLive(h, t.source, key)
    ensures Pending(h, t, Listed(key, t.source.messages[key]))
  {
    var x := Listed(key, s.source.messages[key]);
    assert t.source.messages[key] == s.source.messages[key] by { StillThere(h, s, a, t, key); }
    if a.BeginTick? {
      PendingFetch(h, s, a, t, key);
    } else if a.ProjectRow? {
      PendingCommit(h, s, t, x);
    } else {
      hide Step, Pending;
      PendingRest(h, s, a, t, x);
    }
    hide Step, Pending, LooseInv;
  }

  lemma {:induction false} StillThere(h: Handler, s: Sys, a: Action, t: Sys, key: MessageKey)
    requires Step(h, s, a, t) && !a.SourceGrows? && IsLive(h, s.source, key) && IsLive(h, t.source, key)
    ensures t.source.messages[key] == s.source.messages[key]
  {
    hide GoneAt, SourceOk, CoordOf;
  }

  lemma {:induction false} StillOverlooked(h: Handler, s: Sys, next: Tables, key: MessageKey)
    requires GrowsAnywhere(h, s.source, next) && IsLive(h, s.source, key)
    ensures Overlooked(h, s.(source := next), key) <==> Overlooked(h, s, key)
  {
    hide SourceOk, GoneAt;
  }

  /** Growth shows the generation the rows above the high-water mark and no others. */
  lemma {:induction false} VisibleGrowth(h: Handler, s: Sys, next: Tables)
    requires LooseInv(h, s) && GrowsAnywhere(h, s.source, next)
    ensures Grows(h, Visible(h, s), Visible(h, s.(source := next)).source)
  {
    var t := s.(source := next);
    var before, after := Visible(h, s).source, Visible(h, t).source;
    HiddenRows(h, s.source, OverlookedRows(h, s));
    HiddenRows(h, next, OverlookedRows(h, t));
    hide SourceOk, GoneAt, CoordOf, Inv, Pending, AllTraced;
    forall key | IsLive(h, before, key) ensures IsLive(h, after, key) && after.messages[key] == before.messages[key] {
      StillOverlooked(h, s, next, key);
      assert IsLive(h, next, key);
    }
    forall key | IsLive(h, after, key) && !IsLive(h, before, key) ensures AboveHighWater(s, CoordOf(after.messages[key])) {
      if IsLive(h, s.source, key) {
        StillOverlooked(h, s, next, key);
      } else {
        NewRowIsPending(h, s, next, key);
        assert Pending(h, t, Listed(key, next.messages[key])) by { SamePending(h, s, t, Listed(key, next.messages[key])); }
      }
    }
  }

  lemma {:induction false} SamePending(h: Handler, s: Sys, t: Sys, x: Listed)
    requires t == s.(source := t.source)
    ensures Pending(h, s, x) <==> Pending(h, t, x)
  {
  }

  lemma {:induction false} SameButSource(h: Handler, s: Sys, t: Sys)
    requires t == s.(source := t.source)
    ensures Visible(h, t) == Visible(h, s).(source := Visible(h, t).source)
  {
  }

  lemma {:induction false} LooseGrowthKeeps(h: Handler, s: Sys, next: Tables)
    requires LooseInv(h, s) && GrowsAnywhere(h, s.source, next)
    ensures Inv(h, Visible(h, s.(source := next)))
  {
    var t := s.(source := next);
    VisibleGrowth(h, s, next);
    hide AllTraced, Visible, Grows, GrowsAnywhere, Inv;
    assert Step(h, Visible(h, s), SourceGrows(Visible(h, t).source), Visible(h, t)) by { SameButSource(h, s, t); }
    hide Step;
    StepKeepsInv(h, Visible(h, s), SourceGrows(Visible(h, t).source), Visible(h, t));
  }

  lemma {:induction false} LooseOtherKeeps(h: Handler, s: Sys, a: Action, t: Sys)
    requires LooseInv(h, s) && Step(h, s, a, t) && !a.SourceGrows? && SourceOk(h, t.source)
    ensures Inv(h, Visible(h, t))
  {
    var keys := OverlookedRows(h, s);
    VisibleStep(h, s, a, t);
    forall key | key in keys && IsLive(h, t.source, key) ensures Pending(h, t, Listed(key, t.source.messages[key])) {
      PendingStep(h, s, a, t, key);
    }
    hide Step, SourceOk, AllTraced, Inv, Overlooked, Pending;
    StepKeepsInv(h, Visible(h, s), Unseen(a, keys), Hiding(t, keys));
    Unhide(h, t, keys);
  }

  lemma {:induction false} LooseStepKeepsInv(h: Handler, s: Sys, a: Action, t: Sys)
    requires LooseInv(h, s) && LooseStep(h, s, a, t)
    ensures LooseInv(h, t)
  {
    TracedStep(h, s, a, t);
    assert SourceOk(h, t.source) by { hide IsLive, GoneAt, CoordOf, AllTraced, Inv; }
    if a.SourceGrows? {
      LooseGrowthKeeps(h, s, a.source);
    } else {
      LooseOtherKeeps(h, s, a, t);
    }
    hide Step, GrowsAnywhere, SourceOk, AllTraced, Inv, Visible;
  }

  lemma {:induction false} LooseRunKeepsInv(h: Handler, states: seq<Sys>, actions: seq<Action>, i: nat)
    requires IsLooseRun(h, states, actions) && Initial(h, states[0]) && i < |states|
    ensures LooseInv(h, states[i])
  {
    hide LooseStep, LooseInv;
    if i == 0 {
      InitialLoose(h, states[0]);
    } else {
      LooseRunKeepsInv(h, states, actions, i - 1);
      LooseStepKeepsInv(h, states[i - 1], actions[i - 1], states[i]);
    }
  }

  lemma {:induction false} InitialLoose(h: Handler, s: Sys)
    requires Initial(h, s)
    ensures LooseInv(h, s)
  {
    assert OverlookedRows(h, s) == {};
    assert s.source.messages - {} == s.source.messages;
    InitialInv(h, s);
    assert Visible(h, s) == s;
  }

  // ----- what is lost -----

  lemma {:induction false} RunIsLoose(h: Handler, states: seq<Sys>, actions: seq<Action>)
    requires IsRun(h, states, actions)
    ensures IsLooseRun(h, states, actions)
  {
    forall i | 0 <= i < |actions| ensures LooseStep(h, states[i], actions[i], states[i + 1]) {
      assert Step(h, states[i], actions[i], states[i + 1]);
      hide Step;
    }
  }

  /** Growth leaves the current generation's cursor with nothing skipped exactly when every new row lands above it. */
  lemma {:induction false} LandingUncoversIff(h: Handler, states: seq<Sys>, actions: seq<Action>, i: nat, next: Tables)
    requires IsRun(h, states, actions) && Initial(h, states[0]) && i < |states|
    requires GrowsAnywhere(h, states[i].source, next)
    ensures Covered(h, states[i].(source := next)) <==>
              forall c, key | && IsCurrent(states[i].db.cursors, c)
                              && IsLive(h, next, key) && !IsLive(h, states[i].source, key) ::
                Before(c.at, CoordOf(next.messages[key]))
  {
    hide Step, LooseStep;
    RunKeepsInv(h, states, actions, i);
    RunIsLoose(h, states, actions);
    LooseRunKeepsInv(h, states, actions, i);
    LandingStep(h, states[i], next);
  }

  lemma {:induction false} LandingStep(h: Handler, s: Sys, next: Tables)
    requires Inv(h, s) && AllTraced(h, s) && GrowsAnywhere(h, s.source, next)
    ensures Covered(h, s.(source := next)) <==>
              forall c, key | IsCurrent(s.db.cursors, c) && IsLive(h, next, key) && !IsLive(h, s.source, key) ::
                Before(c.at, CoordOf(next.messages[key]))
  {
    hide SourceOk, CursorsOk, PostsOwned, ReorgsOk, Backed, HistoryOk, CascadesDone, InFlight, AllTraced;
    var t := s.(source := next);
    forall c, key | IsCurrent(s.db.cursors, c) && IsLive(h, next, key) && !IsLive(h, s.source, key)
      ensures Outcome(h, c, Listed(key, next.messages[key])) !in t.history
      ensures Before(c.at, CoordOf(next.messages[key])) <==> !AtOrBefore(CoordOf(next.messages[key]), c.at)
    {
      NewRowIsPending(h, s, next, key);
      BeforeIsTotal(c.at, CoordOf(next.messages[key]));
    }
    forall c, key | IsCurrent(s.db.cursors, c) && IsLive(h, s.source, key) && AtOrBefore(CoordOf(next.messages[key]), c.at)
      ensures Outcome(h, c, Listed(key, next.messages[key])) in t.history
      ensures Stored(h, t, c, Listed(key, next.messages[key]))
    {
      assert Stored(h, s, c, Listed(key, s.source.messages[key]));
    }
  }

  lemma {:induction false} LooseCommitsClimb(h: Handler, s: Sys, a: Action, t: Sys, d: Done)
    requires LooseInv(h, s) && LooseStep(h, s, a, t)
    requires Forward(d) && d in t.history && d !in s.history && d.versionId in s.db.cursors
    ensures Before(s.db.cursors[d.versionId].at, DoneAt(d))
  {
    VisibleStep(h, s, a, t);
    CommitsClimbStep(h, Visible(h, s), Unseen(a, OverlookedRows(h, s)), Hiding(t, OverlookedRows(h, s)), d);
  }

  lemma {:induction false} LooseCursorStep(h: Handler, s: Sys, a: Action, t: Sys, v: VersionId)
    requires LooseInv(h, s) && LooseStep(h, s, a, t) && v in s.db.cursors && v in t.db.cursors
    ensures AtOrBefore(s.db.cursors[v].at, t.db.cursors[v].at)
  {
    if !a.SourceGrows? {
      VisibleStep(h, s, a, t);
      CursorStep(h, Visible(h, s), Unseen(a, OverlookedRows(h, s)), Hiding(t, OverlookedRows(h, s)), v);
    }
  }

  /** A row at or below the cursor of a generation that has not committed it is never committed by that generation. */
  lemma {:induction false} RowBelowCursorIsLost(h: Handler, states: seq<Sys>, actions: seq<Action>, i: nat, j: nat, d: Done)
    requires IsLooseRun(h, states, actions) && Initial(h, states[0]) && i <= j < |states|
    requires forall k :: i <= k <= j ==> d.versionId in states[k].db.cursors
    requires Forward(d) && AtOrBefore(DoneAt(d), states[i].db.cursors[d.versionId].at) && d !in states[i].history
    ensures d !in states[j].history && AtOrBefore(DoneAt(d), states[j].db.cursors[d.versionId].at)
  {
    hide LooseStep, LooseInv;
    if i < j {
      RowBelowCursorIsLost(h, states, actions, i, j - 1, d);
      LooseRunKeepsInv(h, states, actions, j - 1);
      LooseCursorStep(h, states[j - 1], actions[j - 1], states[j], d.versionId);
      if d in states[j].history {
        LooseCommitsClimb(h, states[j - 1], actions[j - 1], states[j], d);
        BeforeIsAsymmetric(states[j - 1].db.cursors[d.versionId].at, DoneAt(d));
      }
    }
  }

  /** Wherever rows have landed, an index that has caught up agrees with a recomputation on an id exactly when the
      recomputation has no post for it or the generation has committed its row; it never holds another post. */
  lemma {:induction false} LooseIndexAgreesIff(h: Handler, states: seq<Sys>, actions: seq<Action>, i: nat, c: Cursor, id: string)
    requires IsLooseRun(h, states, actions) && Initial(h, states[0]) && i < |states| && Drained(h, states[i], c)
    ensures var s, key := states[i], h.owner(id);
      var held, recomputed := Lookup(s.db.posts, PostKey(c.versionId, id)), Recomputed(h, s.source, s.code, id);
      && (held == recomputed <==> recomputed == None || Outcome(h, c, Listed(key, s.source.messages[key])) in s.history)
      && (held == recomputed || held == None)
  {
    hide LooseStep;
    LooseRunKeepsInv(h, states, actions, i);
    var s, key := states[i], h.owner(id);
    var visible := Visible(h, s);
    HiddenRows(h, s.source, OverlookedRows(h, s));
    assert Drained(h, visible, c);
    IndexAgreesWithRecompute(h, visible, c);
    if Recomputed(h, s.source, s.code, id).Some? {
      CaughtUpOverlooked(h, s, c, key);
    }
  }

  /** Once the forward pass has caught up, the rows let go by are those not committed. */
  lemma {:induction false} CaughtUpOverlooked(h: Handler, s: Sys, c: Cursor, key: MessageKey)
    requires LooseInv(h, s) && Drained(h, s, c) && IsLive(h, s.source, key)
    ensures key in OverlookedRows(h, s) <==> Outcome(h, c, Listed(key, s.source.messages[key])) !in s.history
  {
    var at := CoordOf(s.source.messages[key]);
    if Before(c.at, at) {
      BeforeIsAsymmetric(c.at, at);
    }
  }

  /** A row that lands at or below the cursor is lost to the generation: as long as the generation lasts and the row stays
      live, a caught-up index agrees with a recomputation about its id exactly when the row makes no post. */
  lemma {:induction false} LandedBelowIsLost(h: Handler, states: seq<Sys>, actions: seq<Action>, i: nat, j: nat, key: MessageKey,
                                             c: Cursor, e: Cursor, id: string)
    requires IsLooseRun(h, states, actions) && Initial(h, states[0]) && i < j < |states|
    requires IsLive(h, states[i + 1].source, key) && !IsLive(h, states[i].source, key)
    requires var row := states[i + 1].source.messages[key];
      && IsCurrent(states[i].db.cursors, c) && AtOrBefore(CoordOf(row), c.at)
      && (forall k :: i <= k <= j ==> c.versionId in states[k].db.cursors)
      && Drained(h, states[j], e) && e.versionId == c.versionId
      && IsLive(h, states[j].source, key) && states[j].source.messages[key] == row && row.messageId == Some(id)
    ensures var row := states[i + 1].source.messages[key];
      Lookup(states[j].db.posts, PostKey(c.versionId, id)) == Recomputed(h, states[j].source, states[j].code, id)
      <==> row.batchRef == None || h.decode(states[j].code, row.contents) == None
  {
    var d := Outcome(h, e, Listed(key, states[i + 1].source.messages[key]));
    LandedUncommitted(h, states, actions, i, key);
    LooseRunKeepsInv(h, states, actions, j);
    hide LooseStep, Step, Initial, Drained, AllTraced, Inv;
    assert SourceOk(h, states[j].source) && h.owner(id) == key;
    hide SourceOk, IsLive;
    RowBelowCursorIsLost(h, states, actions, i, j, d);
    LooseIndexAgreesIff(h, states, actions, j, e, id);
  }

  /** A row that becomes live has not been committed by any generation. */
  lemma {:induction false} LandedUncommitted(h: Handler, states: seq<Sys>, actions: seq<Action>, i: nat, key: MessageKey)
    requires IsLooseRun(h, states, actions) && Initial(h, states[0]) && i < |actions|
    requires IsLive(h, states[i + 1].source, key) && !IsLive(h, states[i].source, key)
    ensures forall d :: d in states[i].history && Forward(d) ==> d.listed != Listed(key, states[i + 1].source.messages[key])
  {
    LooseRunKeepsInv(h, states, actions, i);
    var s, a, t := states[i], actions[i], states[i + 1];
    assert LooseStep(h, s, a, t);
    hide Initial;
    assert a.SourceGrows? by { OnlyGrowthAdds(h, s, a, t, key); }
    hide Step, Inv;
    NewRowIsPending(h, s, t.source, key);
  }

  lemma {:induction false} OnlyGrowthAdds(h: Handler, s: Sys, a: Action, t: Sys, key: MessageKey)
    requires LooseStep(h, s, a, t) && IsLive(h, t.source, key) && !IsLive(h, s.source, key)
    ensures a.SourceGrows?
  {
    hide SourceOk, GoneAt, CoordOf, ProjectTxn, CascadeTxn;
  }

  /** The loss ends with the generation: a fresh one overlooks nothing. */
  lemma {:induction false} FreshGenerationOverlooksNothing(h: Handler, s: Sys, a: Action, t: Sys)
    requires LooseInv(h, s) && a.Start? && LooseStep(h, s, a, t) && t.db != s.db
    ensures OverlookedRows(h, t) == {}
  {
    FreshCursors(h, s, a, t);
    hide LooseInv, LooseStep, Pending, GoneAt;
  }
}
