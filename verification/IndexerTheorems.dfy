// What the indexer guarantees over whole runs, and exactly where a guarantee stops.
module IndexerTheorems {
  import opened Wrappers
  import Text
  import opened Store
  import opened Indexer
  import opened IndexerInvariant

  // ----- every reachable state -----

  lemma {:induction false} RunKeepsInv(h: Handler, states: seq<Sys>, actions: seq<Action>, i: nat)
    requires IsRun(h, states, actions) && Initial(h, states[0]) && i < |states|
    ensures Inv(h, states[i])
  {
    hide Step, Inv;
    if i == 0 {
      InitialInv(h, states[0]);
    } else {
      RunKeepsInv(h, states, actions, i - 1);
      StepKeepsInv(h, states[i - 1], actions[i - 1], states[i]);
    }
  }

  lemma {:induction false} AtMostOneCurrent(h: Handler, states: seq<Sys>, actions: seq<Action>, i: nat, c: Cursor, d: Cursor)
    requires IsRun(h, states, actions) && Initial(h, states[0]) && i < |states|
    requires IsCurrent(states[i].db.cursors, c) && IsCurrent(states[i].db.cursors, d)
    ensures c == d && c.handlerVersion == states[i].code
  {
    RunKeepsInv(h, states, actions, i);
  }

  lemma {:induction false} CursorStep(h: Handler, s: Sys, a: Action, t: Sys, v: VersionId)
    requires Inv(h, s) && Step(h, s, a, t) && v in s.db.cursors && v in t.db.cursors
    ensures AtOrBefore(s.db.cursors[v].at, t.db.cursors[v].at)
    ensures s.db.cursors[v].reorgAt <= t.db.cursors[v].reorgAt
  {
    if a.ProjectRow? {
      var x, f, g := ProjectRowShape(h, s, t);
    } else if a.CascadeEntry? {
      var e, f, g := CascadeShape(h, s, t);
    }
  }

  /** A generation's two cursors never move back while the generation exists. */
  lemma {:induction false} CursorsNeverMoveBack(h: Handler, states: seq<Sys>, actions: seq<Action>, i: nat, j: nat, v: VersionId)
    requires IsRun(h, states, actions) && Initial(h, states[0]) && i <= j < |states|
    requires forall k :: i <= k <= j ==> v in states[k].db.cursors
    ensures AtOrBefore(states[i].db.cursors[v].at, states[j].db.cursors[v].at)
    ensures states[i].db.cursors[v].reorgAt <= states[j].db.cursors[v].reorgAt
  {
    hide Step, Inv, Initial;
    if i < j {
      CursorsNeverMoveBack(h, states, actions, i, j - 1, v);
      RunKeepsInv(h, states, actions, j - 1);
      CursorStep(h, states[j - 1], actions[j - 1], states[j], v);
    }
  }

  /** No row is skipped and none is committed twice: a live row at or below the cursor has exactly
      one commit of its generation, a projection if it decodes and a drop if it does not. */
  lemma {:induction false} CommittedExactlyOnce(h: Handler, states: seq<Sys>, actions: seq<Action>, i: nat, c: Cursor, key: MessageKey)
    returns (n: nat)
    requires IsRun(h, states, actions) && Initial(h, states[0]) && i < |states|
    requires IsCurrent(states[i].db.cursors, c) && IsLive(h, states[i].source, key)
    requires AtOrBefore(CoordOf(states[i].source.messages[key]), c.at)
    ensures n < |states[i].history|
    ensures states[i].history[n] == Outcome(h, c, Listed(key, states[i].source.messages[key]))
    ensures forall m | 0 <= m < |states[i].history| && m != n ::
              var d := states[i].history[m];
              !(Forward(d) && d.versionId == c.versionId && DoneAt(d) == CoordOf(states[i].source.messages[key]))
  {
    RunKeepsInv(h, states, actions, i);
    var s := states[i];
    var d := Outcome(h, c, Listed(key, s.source.messages[key]));
    assert d in s.history;
    n :| 0 <= n < |s.history| && s.history[n] == d;
    forall m | 0 <= m < |s.history| && m != n
      ensures !(Forward(s.history[m]) && s.history[m].versionId == c.versionId && DoneAt(s.history[m]) == DoneAt(d))
    {
      if m < n && Forward(s.history[m]) && s.history[m].versionId == c.versionId {
        assert Before(DoneAt(s.history[m]), DoneAt(s.history[n]));
      } else if n < m && Forward(s.history[m]) && s.history[m].versionId == c.versionId {
        assert Before(DoneAt(s.history[n]), DoneAt(s.history[m]));
      }
    }
  }

  /** Every reorg the persisted reorg cursor has reached was cascaded, and left no post in any generation. */
  lemma {:induction false} ReorgPassComplete(h: Handler, states: seq<Sys>, actions: seq<Action>, i: nat, c: Cursor, tx: string)
    requires IsRun(h, states, actions) && Initial(h, states[0]) && i < |states|
    requires IsCurrent(states[i].db.cursors, c)
    requires GoneAt(h, states[i].source, tx).Some? && GoneAt(h, states[i].source, tx).value <= c.reorgAt
    ensures Cascaded(c.versionId, ReorgEntry(tx, GoneAt(h, states[i].source, tx).value)) in states[i].history
    ensures forall k :: k in states[i].db.posts ==> states[i].db.posts[k].batchRef != tx
  {
    RunKeepsInv(h, states, actions, i);
    var s := states[i];
    forall k | k in s.db.posts ensures s.db.posts[k].batchRef != tx {
      if BackedByLive(h, s, k) {
        assert GoneAt(h, s.source, s.db.posts[k].batchRef) == None;
      } else {
        assert AwaitsCascade(h, s, s.db.posts[k].batchRef);
      }
    }
  }

  /** The one-current index never rejects a write of a tick: a commit fails only on a row that decodes
      but lacks its id or batch, and the cascade never does. */
  lemma {:induction false} TickWritesAreAdmitted(h: Handler, s: Sys)
    requires Inv(h, s)
    ensures s.pc.Projecting? && s.pc.rows != [] ==>
              (ProjectTxn(h, s.code, s.db, s.pc.rows[0], s.pc.forward).Some? <==>
               h.decode(s.code, s.pc.rows[0].row.contents) == None || Projectable(s.pc.rows[0].row))
    ensures s.pc.Cascading? && s.pc.entries != [] ==> CascadeTxn(s.db, s.pc.entries[0], s.pc.forward).Some?
  {
    if s.pc.Projecting? && s.pc.rows != [] {
      var f, g := s.pc.forward, Advance(s.pc.forward, s.pc.rows[0].row);
      AdvanceCurrent(s, f, g, s.db.cursors[f.versionId := g]);
    } else if s.pc.Cascading? && s.pc.entries != [] {
      var f, g := s.pc.forward, AdvanceReorg(s.pc.forward, s.pc.entries[0]);
      AdvanceCurrent(s, f, g, s.db.cursors[f.versionId := g]);
    }
  }

  lemma {:induction false} CommitsClimbStep(h: Handler, s: Sys, a: Action, t: Sys, d: Done)
    requires Inv(h, s) && Step(h, s, a, t)
    requires Forward(d) && d in t.history && d !in s.history && d.versionId in s.db.cursors
    ensures Before(s.db.cursors[d.versionId].at, DoneAt(d))
  {
    if a.ProjectRow? {
      var x, f, g := ProjectRowShape(h, s, t);
      hide Step, Inv, CoordOf;
    } else if a.CascadeEntry? {
      var e, f, g := CascadeShape(h, s, t);
      hide Step, Inv, CoordOf;
    } else {
      hide Inv, CoordOf, ProjectTxn, CascadeTxn, Grows, Reorgs;
    }
  }

  // ----- the index agrees with recomputing from scratch -----

  /** What projecting the whole source at once would store for a message id. */
  ghost function Recomputed(h: Handler, src: Tables, code: nat, id: string): Option<Post> {
    var key := h.owner(id);
    if IsLive(h, src, key) && src.messages[key].messageId == Some(id) && src.messages[key].batchRef.Some? then
      match h.decode(code, src.messages[key].contents)
      case None => None
      case Some(event) => Some(PostOf(Listed(key, src.messages[key]), event))
    else None
  }

  ghost function Lookup(posts: Posts, k: PostKey): Option<Post> {
    if k in posts then Some(posts[k]) else None
  }

  /** The same for the rows at or below a coordinate only. */
  ghost function RecomputedUpTo(h: Handler, src: Tables, code: nat, id: string, at: Coord): Option<Post> {
    var key := h.owner(id);
    if IsLive(h, src, key) && AtOrBefore(CoordOf(src.messages[key]), at) then Recomputed(h, src, code, id) else None
  }

  /** The reorg pass has caught up with the source. */
  ghost predicate ReorgsDrained(h: Handler, s: Sys, c: Cursor) {
    && IsCurrent(s.db.cursors, c)
    && (forall tx :: GoneAt(h, s.source, tx).Some? ==> GoneAt(h, s.source, tx).value <= c.reorgAt)
  }

  /** Both passes have caught up with the source. */
  ghost predicate Drained(h: Handler, s: Sys, c: Cursor) {
    && ReorgsDrained(h, s, c)
    && (forall key :: IsLive(h, s.source, key) ==> AtOrBefore(CoordOf(s.source.messages[key]), c.at))
  }

  /** Up to its cursor the index is what projecting the source at once would give, and beyond it holds nothing. */
  lemma {:induction false} IndexAgreesUpToCursor(h: Handler, s: Sys, c: Cursor)
    requires Inv(h, s) && ReorgsDrained(h, s, c)
    ensures forall id :: Lookup(s.db.posts, PostKey(c.versionId, id)) == RecomputedUpTo(h, s.source, s.code, id, c.at)
    ensures forall k :: k in s.db.posts ==> BackedByLive(h, s, k)
    ensures forall k :: k in s.db.posts ==> GoneAt(h, s.source, s.db.posts[k].batchRef) == None
  {
    forall k | k in s.db.posts
      ensures BackedByLive(h, s, k) && GoneAt(h, s.source, s.db.posts[k].batchRef) == None
    {
      assert !AwaitsCascade(h, s, s.db.posts[k].batchRef);
    }
    forall id ensures Lookup(s.db.posts, PostKey(c.versionId, id)) == RecomputedUpTo(h, s.source, s.code, id, c.at) {
      var key, k := h.owner(id), PostKey(c.versionId, id);
      if RecomputedUpTo(h, s.source, s.code, id, c.at).Some? {
        assert Stored(h, s, c, Listed(key, s.source.messages[key]));
      } else if k in s.db.posts {
        assert BackedByLive(h, s, k) && AtOrBefore(s.db.posts[k].at, c.at);
      }
    }
  }

  lemma {:induction false} IndexAgreesWithRecompute(h: Handler, s: Sys, c: Cursor)
    requires Inv(h, s) && Drained(h, s, c)
    ensures forall id :: Lookup(s.db.posts, PostKey(c.versionId, id)) == Recomputed(h, s.source, s.code, id)
    ensures forall k :: k in s.db.posts ==> BackedByLive(h, s, k)
    ensures forall k :: k in s.db.posts ==> GoneAt(h, s.source, s.db.posts[k].batchRef) == None
  {
    IndexAgreesUpToCursor(h, s, c);
  }

  /** Two indexers over one source converge, whatever their limits, failures, crashes and resets were. */
  lemma {:induction false} IndexersConverge(h: Handler, s: Sys, t: Sys, c: Cursor, d: Cursor, id: string)
    requires Inv(h, s) && Inv(h, t) && s.source == t.source && s.code == t.code
    requires Drained(h, s, c) && Drained(h, t, d)
    ensures Lookup(s.db.posts, PostKey(c.versionId, id)) == Lookup(t.db.posts, PostKey(d.versionId, id))
  {
    IndexAgreesWithRecompute(h, s, c);
    IndexAgreesWithRecompute(h, t, d);
  }

  // ----- one clean tick drains -----

  /** Where a row that was fetched or committed is now: still live, or in a reorged batch. */
  ghost predicate Traced(h: Handler, src: Tables, x: Listed) {
    || (IsLive(h, src, x.key) && src.messages[x.key] == x.row)
    || (x.row.batchRef.Some? && GoneAt(h, src, x.row.batchRef.value).Some?)
  }

  /** A row that was live at an earlier moment of the source and is live still. */
  ghost predicate LiveSince(h: Handler, before: Tables, src: Tables, key: MessageKey) {
    IsLive(h, before, key) && IsLive(h, src, key) && src.messages[key] == before.messages[key]
  }

  /** A step of a tick in which nothing throws and no list is cut by its limit. Meanwhile rows may be confirmed at any
      moment, and batches reorged until the tick asks for them. */
  predicate CleanStep(s: Sys, a: Action) {
    || a.ProjectRow? || a.CascadeEntry? || a.EndTick? || a.SourceGrows?
    || (a.BeginCascade? && |a.entries| < a.entryLimit)
    || (a.SourceReorgs? && s.pc.Projecting?)
  }

  /** The fetched lists hold all that lay ahead of the in-memory cursor when they were fetched. */
  ghost predicate Draining(h: Handler, before: Tables, s: Sys) {
    && (forall key :: IsLive(h, before, key) ==> Traced(h, s.source, Listed(key, before.messages[key])))
    && match s.pc
       case Idle => exists c :: CaughtUp(h, before, s, c)
       case Projecting(rows, f) =>
         forall key | LiveSince(h, before, s.source, key) && Before(f.at, CoordOf(s.source.messages[key])) ::
           Listed(key, s.source.messages[key]) in rows
       case Cascading(entries, f) =>
         && (forall key | LiveSince(h, before, s.source, key) :: AtOrBefore(CoordOf(s.source.messages[key]), f.at))
         && (forall tx | GoneAt(h, s.source, tx).Some? && GoneAt(h, s.source, tx).value > f.reorgAt ::
               ReorgEntry(tx, GoneAt(h, s.source, tx).value) in entries)
  }

  /** The index has caught up with the reorgs, and with the rows live ever since `before`. */
  ghost predicate CaughtUp(h: Handler, before: Tables, s: Sys, c: Cursor) {
    && ReorgsDrained(h, s, c)
    && (forall key | LiveSince(h, before, s.source, key) :: AtOrBefore(CoordOf(s.source.messages[key]), c.at))
  }

  lemma {:induction false} CleanProjectDrains(h: Handler, before: Tables, s: Sys, t: Sys)
    requires Inv(h, s) && Draining(h, before, s) && Step(h, s, ProjectRow, t)
    ensures Draining(h, before, t)
  {
    hide SourceOk, CursorsOk, PostsOwned, ReorgsOk, Backed, Covered, HistoryOk, CascadesDone, InFlight, Step;
    var x, f, g := ProjectRowShape(h, s, t);
  }

  lemma {:induction false} CleanCascadeDrains(h: Handler, before: Tables, s: Sys, t: Sys)
    requires Inv(h, s) && Draining(h, before, s) && Step(h, s, CascadeEntry, t)
    ensures Draining(h, before, t)
  {
    hide SourceOk, CursorsOk, PostsOwned, ReorgsOk, Backed, Covered, HistoryOk, CascadesDone, InFlight, Step;
    var e, f, g := CascadeShape(h, s, t);
  }

  /** What was live and is not any more has not come back. */
  lemma {:induction false} SourceMoveDrains(h: Handler, before: Tables, s: Sys, a: Action, t: Sys)
    requires Draining(h, before, s) && Step(h, s, a, t) && CleanStep(s, a) && (a.SourceGrows? || a.SourceReorgs?)
    ensures Draining(h, before, t)
  {
    forall key | LiveSince(h, before, t.source, key) ensures LiveSince(h, before, s.source, key) {
      assert Traced(h, s.source, Listed(key, before.messages[key]));
    }
    if c :| s.pc.Idle? && CaughtUp(h, before, s, c) {
      assert CaughtUp(h, before, t, c);
    }
  }

  lemma {:induction false} BeforeIsTotal(a: Coord, b: Coord)
    ensures Before(a, b) || AtOrBefore(b, a)
  {
  }

  lemma {:induction false} CleanStepDrains(h: Handler, before: Tables, s: Sys, a: Action, t: Sys)
    requires Inv(h, s) && Draining(h, before, s) && Step(h, s, a, t) && CleanStep(s, a)
    ensures Draining(h, before, t)
  {
    match a {
      case ProjectRow => CleanProjectDrains(h, before, s, t);
      case CascadeEntry => CleanCascadeDrains(h, before, s, t);
      case BeginCascade(_, _) =>
        forall key | IsLive(h, s.source, key) && !Before(s.pc.forward.at, CoordOf(s.source.messages[key]))
          ensures AtOrBefore(CoordOf(s.source.messages[key]), s.pc.forward.at)
        {
          BeforeIsTotal(s.pc.forward.at, CoordOf(s.source.messages[key]));
        }
      case EndTick =>
        assert CaughtUp(h, before, t, s.pc.forward);
      case _ => SourceMoveDrains(h, before, s, a, t);
    }
  }

  lemma {:induction false} CleanRunDrains(h: Handler, before: Tables, states: seq<Sys>, actions: seq<Action>, i: nat)
    requires IsRun(h, states, actions) && Inv(h, states[0]) && Draining(h, before, states[0]) && i < |states|
    requires forall k :: 0 <= k < |actions| ==> CleanStep(states[k], actions[k])
    ensures Inv(h, states[i]) && Draining(h, before, states[i])
  {
    hide Step, Inv, Draining, CleanStep;
    if i > 0 {
      CleanRunDrains(h, before, states, actions, i - 1);
      StepKeepsInv(h, states[i - 1], actions[i - 1], states[i]);
      CleanStepDrains(h, before, states[i - 1], actions[i - 1], states[i]);
    }
  }

  /** Without growth whatever is live has been so all along. */
  lemma {:induction false} NothingNew(h: Handler, states: seq<Sys>, actions: seq<Action>, i: nat)
    requires IsRun(h, states, actions) && i < |states| && forall a :: a in actions ==> !a.SourceGrows?
    ensures forall key :: IsLive(h, states[i].source, key) ==> LiveSince(h, states[0].source, states[i].source, key)
  {
    if i > 0 {
      NothingNew(h, states, actions, i - 1);
      assert Step(h, states[i - 1], actions[i - 1], states[i]) && actions[i - 1] in actions;
    }
  }

  /** After any past whatsoever, one tick that meets no failure and no limit leaves the current generation equal to a
      recomputation up to its cursor, with every row live since the tick began at or below that cursor, and no post of a
      reorged batch in any generation. If no row was confirmed meanwhile, it equals the whole recomputation. */
  lemma {:induction false} CleanTickAgrees(h: Handler, s: Sys, begin: Action, states: seq<Sys>, actions: seq<Action>) returns (c: Cursor)
    requires Inv(h, s) && begin.BeginTick? && |begin.rows| < begin.rowLimit
    requires IsRun(h, states, actions) && Step(h, s, begin, states[0])
    requires forall k :: 0 <= k < |actions| ==> CleanStep(states[k], actions[k])
    requires states[|actions|].pc == Idle
    ensures var t := states[|actions|];
      && IsCurrent(t.db.cursors, c)
      && (forall id :: Lookup(t.db.posts, PostKey(c.versionId, id)) == RecomputedUpTo(h, t.source, t.code, id, c.at))
      && (forall key :: LiveSince(h, s.source, t.source, key) ==> AtOrBefore(CoordOf(t.source.messages[key]), c.at))
      && (forall k :: k in t.db.posts ==> BackedByLive(h, t, k))
      && ((forall a :: a in actions ==> !a.SourceGrows?) ==>
            forall id :: Lookup(t.db.posts, PostKey(c.versionId, id)) == Recomputed(h, t.source, t.code, id))
  {
    StepKeepsInv(h, s, begin, states[0]);
    CleanRunDrains(h, s.source, states, actions, |actions|);
    var t := states[|actions|];
    c :| CaughtUp(h, s.source, t, c);
    assert states[0].source == s.source;
    hide Step, Inv;
    IndexAgreesUpToCursor(h, t, c);
    if forall a :: a in actions ==> !a.SourceGrows? {
      NothingNew(h, states, actions, |actions|);
      IndexAgreesWithRecompute(h, t, c);
    }
  }

  // ----- where the guarantees stop -----

  /** A pass that stops after the first `n` entries, by its limit or by a failure, has skipped no reorg
      exactly when no reorg beyond them shares the last timestamp it reached. */
  lemma {:induction false} PartialPassCompleteIff(h: Handler, src: Tables, after: int, limit: nat, entries: seq<ReorgEntry>, n: nat)
    requires IsReorgListing(h, src, after, limit, entries) && 0 < n <= |entries|
    ensures (forall tx | && GoneAt(h, src, tx).Some?
                         && after < GoneAt(h, src, tx).value <= entries[n - 1].invalidatedAt ::
               ReorgEntry(tx, GoneAt(h, src, tx).value) in entries[..n])
            <==>
            (forall tx | GoneAt(h, src, tx) == Some(entries[n - 1].invalidatedAt) ::
               ReorgEntry(tx, GoneAt(h, src, tx).value) in entries[..n])
  {
    var last := entries[n - 1];
    assert last in entries;
    forall tx | && GoneAt(h, src, tx).Some?
                && after < GoneAt(h, src, tx).value < last.invalidatedAt
      ensures ReorgEntry(tx, GoneAt(h, src, tx).value) in entries[..n]
    {
      var e := ReorgEntry(tx, GoneAt(h, src, tx).value);
      assert !EntryBefore(last, e) && e in entries;
      var i :| 0 <= i < |entries| && entries[i] == e;
      assert forall j :: n <= j < |entries| ==> EntryBefore(last, entries[j]);
      assert entries[..n][i] == e;
    }
  }

  /** Two batches reorged in the same millisecond and a limit of one: the second is never cascaded. */
  lemma {:induction false} TiedReorgIsLost(h: Handler, src: Tables, at: nat)
    requires GoneAt(h, src, "0xa") == Some(at) && GoneAt(h, src, "0xb") == Some(at)
    requires forall tx :: GoneAt(h, src, tx).Some? ==> tx == "0xa" || tx == "0xb"
    ensures IsReorgListing(h, src, -1, 1, [ReorgEntry("0xa", at)])
    ensures forall limit, entries, e :: IsReorgListing(h, src, at, limit, entries) ==> e !in entries
  {
    assert Text.LexLess("xa", "xb") by { assert "xa"[1..] == "a" && "xb"[1..] == "b"; }
    assert Text.LexLess("0xa", "0xb") by { assert "0xa"[1..] == "xa" && "0xb"[1..] == "xb"; }
  }

  /** `resetHandler` drops the tables and then the cursors, in no transaction. After a crash in between,
      the index still covers the source exactly when nothing at or below the cursor decodes. */
  lemma {:induction false} CrashInsideResetCoversIff(h: Handler, s: Sys, c: Cursor)
    requires Inv(h, s) && IsCurrent(s.db.cursors, c)
    ensures Covered(h, s.(db := s.db.(posts := map[]))) <==>
              forall key | IsLive(h, s.source, key) && AtOrBefore(CoordOf(s.source.messages[key]), c.at) ::
                h.decode(c.handlerVersion, s.source.messages[key].contents) == None
  {
    var t := s.(db := s.db.(posts := map[]));
    if Covered(h, t) {
      forall key | IsLive(h, s.source, key) && AtOrBefore(CoordOf(s.source.messages[key]), c.at)
        ensures h.decode(c.handlerVersion, s.source.messages[key].contents) == None
      {
        assert Stored(h, t, c, Listed(key, s.source.messages[key]));
      }
    }
  }

  /** What the tick in flight commits next, on the database as it finds it by then. */
  function NextCommit(h: Handler, s: Sys, db: Db): Option<Commit> {
    match s.pc
    case Idle => None
    case Projecting(rows, f) => if rows == [] then None else ProjectTxn(h, s.code, db, rows[0], f)
    case Cascading(entries, f) => if entries == [] then None else CascadeTxn(db, entries[0], f)
  }

  /** The posts of the reset generation after its next commit: the row just projected, if it decodes. */
  ghost predicate OnlyNewPost(s: Sys, commit: Commit)
    requires !s.pc.Idle?
  {
    forall k :: k in commit.db.posts && k.versionId == s.pc.forward.versionId ==> Before(s.pc.forward.at, commit.db.posts[k].at)
  }

  lemma {:induction false} ResetWhileProjecting(h: Handler, s: Sys, db: Db, commit: Commit)
    requires Inv(h, s) && s.pc.Projecting? && s.pc.rows != []
    requires db == ResetVersion(s.db, s.pc.forward.versionId) || db == Db(map[], map[])
    requires ProjectTxn(h, s.code, db, s.pc.rows[0], s.pc.forward) == Some(commit)
    ensures IsCurrent(commit.db.cursors, commit.forward) && OnlyNewPost(s, commit)
    ensures commit.forward == s.pc.forward.(at := CoordOf(s.pc.rows[0].row)) && Before(s.pc.forward.at, commit.forward.at)
    ensures Stored(h, s.(db := commit.db), commit.forward, s.pc.rows[0])
  {
    hide SourceOk, ReorgsOk, Backed, Covered, HistoryOk, CascadesDone;
    var x, f := s.pc.rows[0], s.pc.forward;
    assert x in s.pc.rows;
    AdvanceIsRowCoord(f, x.row);
  }

  lemma {:induction false} ResetWhileCascading(h: Handler, s: Sys, db: Db, commit: Commit)
    requires Inv(h, s) && s.pc.Cascading? && s.pc.entries != []
    requires db == ResetVersion(s.db, s.pc.forward.versionId) || db == Db(map[], map[])
    requires CascadeTxn(db, s.pc.entries[0], s.pc.forward) == Some(commit)
    ensures IsCurrent(commit.db.cursors, commit.forward) && OnlyNewPost(s, commit)
    ensures commit.forward == s.pc.forward.(reorgAt := commit.forward.reorgAt)
  {
    hide SourceOk, ReorgsOk, Backed, Covered, HistoryOk, CascadesDone, InFlight;
  }

  lemma {:induction false} HeldIsCurrent(h: Handler, s: Sys)
    requires Lite(h, s) && !s.pc.Idle?
    ensures IsCurrent(s.db.cursors, s.pc.forward) && s.pc.forward.handlerVersion == s.code
  {
  }

  /** A generation reset while a tick holds its cursor, in whichever phase, is resurrected by the next commit, past the
      rows that were deleted: the index then covers the source exactly when none of those rows decodes. */
  lemma {:induction false} ResetDuringTickCoversIff(h: Handler, s: Sys, db: Db, commit: Commit)
    requires Inv(h, s) && !s.pc.Idle?
    requires db == ResetVersion(s.db, s.pc.forward.versionId) || db == Db(map[], map[])
    requires NextCommit(h, s, db) == Some(commit)
    ensures IsCurrent(commit.db.cursors, commit.forward)
    ensures (forall key | IsLive(h, s.source, key) && AtOrBefore(CoordOf(s.source.messages[key]), commit.forward.at) ::
               Stored(h, s.(db := commit.db), commit.forward, Listed(key, s.source.messages[key])))
            <==>
            (forall key | IsLive(h, s.source, key) && AtOrBefore(CoordOf(s.source.messages[key]), s.pc.forward.at) ::
               h.decode(s.code, s.source.messages[key].contents) == None)
  {
    if s.pc.Projecting? {
      ResetWhileProjecting(h, s, db, commit);
    } else {
      ResetWhileCascading(h, s, db, commit);
    }
    hide ProjectTxn, CascadeTxn, Timely, CursorsOk, PostsOwned, Backed, Covered, HistoryOk, InFlight, SourceOk;
    var t, f := s.(db := commit.db), s.pc.forward;
    assert f.handlerVersion == s.code by { HeldIsCurrent(h, s); }
    hide Lite, ResetVersion;
    forall key | IsLive(h, s.source, key) && AtOrBefore(CoordOf(s.source.messages[key]), f.at)
      ensures AtOrBefore(CoordOf(s.source.messages[key]), commit.forward.at)
      ensures Stored(h, t, commit.forward, Listed(key, s.source.messages[key]))
              <==> h.decode(s.code, s.source.messages[key].contents) == None
    {
    }
    forall key | && IsLive(h, s.source, key) && AtOrBefore(CoordOf(s.source.messages[key]), commit.forward.at)
                 && !AtOrBefore(CoordOf(s.source.messages[key]), f.at)
      ensures Stored(h, t, commit.forward, Listed(key, s.source.messages[key]))
    {
      ProjectRowReach(h, s, key);
    }
  }
}
