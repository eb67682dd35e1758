// packages/bam-indexer/src/framework/tick.ts and migrate.ts as they run: loops over the fetched
// lists that commit one transaction at a time. Each method is proved against the transactions of
// the machine, and the passes are proved to be runs of it.
module IndexerProcess {
  import opened Wrappers
  import Text
  import opened Store
  import opened Indexer
  import opened IndexerInvariant

  datatype Counters = Counters(projected: nat, skippedDecode: nat, skippedConflict: nat, reorged: nat)

  /** A pass over a list: the database and cursor it leaves, what it committed, and how it ended. */
  datatype Pass = Pass(db: Db, forward: Cursor, done: seq<Done>, ending: Ending)

  /** Finished the list; stopped at a failure that the pass survives; or an exception left the tick. */
  datatype Ending = Finished | Stopped | Aborted

  /** `fails(x)`: the database rejects the transaction of `x` for a reason of its own. */
  type Faults<!T> = T -> bool

  function ForwardPass(h: Handler, code: nat, db: Db, rows: seq<Listed>, f: Cursor, fails: Faults<Listed>): Pass
    decreases |rows|
  {
    if rows == [] then Pass(db, f, [], Finished)
    else
      var r := ProjectTxn(h, code, db, rows[0], f);
      if r == None || fails(rows[0]) then
        Pass(db, f, [], if h.decode(code, rows[0].row.contents) == None then Aborted else Stopped)
      else
        var p := ForwardPass(h, code, r.value.db, rows[1..], r.value.forward, fails);
        p.(done := [r.value.done] + p.done)
  }

  function CascadePass(db: Db, entries: seq<ReorgEntry>, f: Cursor, fails: Faults<ReorgEntry>): Pass
    decreases |entries|
  {
    if entries == [] then Pass(db, f, [], Finished)
    else
      var r := CascadeTxn(db, entries[0], f);
      if r == None || fails(entries[0]) then Pass(db, f, [], Stopped)
      else
        var p := CascadePass(r.value.db, entries[1..], r.value.forward, fails);
        p.(done := [r.value.done] + p.done)
  }

  function CountProjected(done: seq<Done>): nat {
    if done == [] then 0 else (if done[0].Projected? then 1 else 0) + CountProjected(done[1..])
  }

  lemma {:induction false} ForwardUnfold(h: Handler, code: nat, db: Db, rows: seq<Listed>, f: Cursor, fails: Faults<Listed>)
    ensures var p := ForwardPass(h, code, db, rows, f, fails);
      if rows == [] then p == Pass(db, f, [], Finished)
      else match ProjectTxn(h, code, db, rows[0], f)
           case None => p == Pass(db, f, [], if h.decode(code, rows[0].row.contents) == None then Aborted else Stopped)
           case Some(r) =>
             if fails(rows[0]) then
               p == Pass(db, f, [], if h.decode(code, rows[0].row.contents) == None then Aborted else Stopped)
             else
               && p == ForwardPass(h, code, r.db, rows[1..], r.forward, fails).(done := p.done)
               && p.done == [r.done] + ForwardPass(h, code, r.db, rows[1..], r.forward, fails).done
               && CountProjected([r.done]) == if h.decode(code, rows[0].row.contents) == None then 0 else 1
  {
    if rows != [] && ProjectTxn(h, code, db, rows[0], f).Some? {
      assert [ProjectTxn(h, code, db, rows[0], f).value.done][1..] == [];
    }
  }

  class Process {
    const h: Handler
    const code: nat
    var cursors: Cursors
    var posts: Posts

    ghost function State(): Db
      reads this
    {
      Db(cursors, posts)
    }

    constructor (h: Handler, code: nat, db: Db)
      ensures this.h == h && this.code == code && State() == db
    {
      this.h, this.code := h, code;
      cursors, posts := db.cursors, db.posts;
    }

    method ReadCurrentCursor() returns (c: Option<Cursor>)
      requires forall v :: v in cursors ==> cursors[v].versionId == v
      ensures if c.Some? then IsCurrent(cursors, c.value) else NoCurrent(cursors)
    {
      var current := set v | v in cursors && cursors[v].isCurrent;
      assert forall v :: v in cursors && cursors[v].isCurrent ==> v in current;
      if current == {} {
        return None;
      }
      var v :| v in current;
      return Some(cursors[v]);
    }

    /** Commits `forward`'s row, or reports why not: None stops the pass, `threw` leaves the tick. */
    method ProjectOne(x: Listed, forward: Cursor, fails: bool)
      returns (next: Option<Cursor>, threw: bool, ghost done: seq<Done>)
      modifies this`cursors, this`posts
      ensures match ProjectTxn(h, code, old(State()), x, forward)
              case Some(r) =>
                if fails then
                  next == None && done == [] && State() == old(State())
                  && (threw <==> h.decode(code, x.row.contents) == None)
                else next == Some(r.forward) && done == [r.done] && State() == r.db && !threw
              case None =>
                next == None && done == [] && State() == old(State())
                && (threw <==> h.decode(code, x.row.contents) == None)
    {
      done := [];
      var decoded := h.decode(code, x.row.contents);
      var advanced := Advance(forward, x.row);
      var upserted := UpsertCursor(cursors, advanced);
      if decoded == None {
        if fails || upserted == None {
          return None, true, [];
        }
        cursors := upserted.value;
        return Some(advanced), false, [Dropped(forward.versionId, x)];
      }
      var projected := Project(posts, forward.versionId, x, decoded.value);
      if fails || projected == None || upserted == None {
        return None, false, [];
      }
      posts := projected.value;
      cursors := upserted.value;
      return Some(advanced), false, [Projected(forward.versionId, x)];
    }

    method ReorgOne(e: ReorgEntry, forward: Cursor, fails: bool) returns (next: Option<Cursor>, ghost done: seq<Done>)
      modifies this`cursors, this`posts
      ensures match CascadeTxn(old(State()), e, forward)
              case Some(r) =>
                if fails then next == None && done == [] && State() == old(State())
                else next == Some(r.forward) && done == [r.done] && State() == r.db
              case None => next == None && done == [] && State() == old(State())
    {
      var advanced := AdvanceReorg(forward, e);
      var upserted := UpsertCursor(cursors, advanced);
      if fails || upserted == None {
        return None, [];
      }
      posts := Evict(posts, e.txHash);
      cursors := upserted.value;
      return Some(advanced), [Cascaded(forward.versionId, e)];
    }

    /** The forward loop of `tickHandler`. */
    method ForwardLoop(list: seq<Listed>, cursor: Cursor, fails: Faults<Listed>)
      returns (forward: Cursor, counters: Counters, threw: bool)
      modifies this`cursors, this`posts
      ensures var p := ForwardPass(h, code, old(State()), list, cursor, fails);
        && State() == p.db && forward == p.forward
        && (threw <==> p.ending == Aborted)
        && counters.projected == CountProjected(p.done)
        && counters.projected + counters.skippedDecode == |p.done|
        && counters.skippedConflict == (if p.ending == Stopped then 1 else 0)
        && counters.reorged == 0
    {
      hide ForwardPass, ProjectTxn, CountProjected;
      forward, counters, threw := cursor, Counters(0, 0, 0, 0), false;
      ghost var whole := ForwardPass(h, code, State(), list, cursor, fails);
      ghost var history: seq<Done> := [];
      assert history + whole.done == whole.done;
      CountAppend([], []);
      var i := 0;
      while i < |list|
        invariant 0 <= i <= |list|
        invariant counters.projected == CountProjected(history) && counters.skippedConflict == counters.reorged == 0
        invariant counters.projected + counters.skippedDecode == |history|
        invariant var rest := ForwardPass(h, code, State(), list[i..], forward, fails);
          whole == rest.(done := history + rest.done)
      {
        ForwardUnfold(h, code, State(), list[i..], forward, fails);
        assert list[i..][0] == list[i] && list[i..][1..] == list[i + 1..];
        var next, failed, done := ProjectOne(list[i], forward, fails(list[i]));
        if next == None {
          assert history + [] == history;
          if failed {
            threw := true;
          } else {
            counters := counters.(skippedConflict := counters.skippedConflict + 1);
          }
          return;
        }
        CountAppend(history, done);
        if h.decode(code, list[i].row.contents) == None {
          counters := counters.(skippedDecode := counters.skippedDecode + 1);
        } else {
          counters := counters.(projected := counters.projected + 1);
        }
        ghost var tail := ForwardPass(h, code, State(), list[i + 1..], next.value, fails);
        assert history + (done + tail.done) == (history + done) + tail.done;
        history := history + done;
        forward := next.value;
        i := i + 1;
      }
      ForwardUnfold(h, code, State(), list[i..], forward, fails);
      assert history + [] == history;
    }

    /** The reorg loop of `tickHandler`. */
    method CascadeLoop(list: seq<ReorgEntry>, cursor: Cursor, fails: Faults<ReorgEntry>) returns (reorged: nat)
      modifies this`cursors, this`posts
      ensures var p := CascadePass(old(State()), list, cursor, fails);
        State() == p.db && reorged == |p.done|
    {
      var forward := cursor;
      reorged := 0;
      ghost var whole := CascadePass(State(), list, cursor, fails);
      var j := 0;
      while j < |list|
        invariant 0 <= j <= |list|
        invariant var rest := CascadePass(State(), list[j..], forward, fails);
          whole.db == rest.db && |whole.done| == reorged + |rest.done|
      {
        assert list[j..][0] == list[j] && list[j..][1..] == list[j + 1..];
        var next, done := ReorgOne(list[j], forward, fails(list[j]));
        if next == None {
          return;
        }
        reorged := reorged + 1;
        forward := next.value;
        j := j + 1;
      }
    }

    /** One tick of the handler. The source may move between the two reads: `first` and `second`. */
    method TickHandler(first: Tables, second: Tables, batchSize: nat, rowFails: Faults<Listed>, reorgFails: Faults<ReorgEntry>)
      returns (counters: Counters, threw: bool, ghost cursor: Option<Cursor>,
               ghost rows: seq<Listed>, ghost entries: seq<ReorgEntry>)
      requires SourceOk(h, first)
      requires forall v :: v in cursors ==> cursors[v].versionId == v
      modifies this`cursors, this`posts
      ensures if cursor.Some? then IsCurrent(old(cursors), cursor.value) else NoCurrent(old(cursors))
      ensures cursor == None ==> State() == old(State()) && !threw && counters == Counters(0, 0, 0, 0)
      ensures cursor.Some? ==>
                && IsForwardListing(h, first, cursor.value.at, batchSize, rows)
                && var p := ForwardPass(h, code, old(State()), rows, cursor.value, rowFails);
                && (threw <==> p.ending == Aborted)
                && counters.projected == CountProjected(p.done)
                && counters.projected + counters.skippedDecode == |p.done|
                && counters.skippedConflict == (if p.ending == Stopped then 1 else 0)
                && (threw ==> State() == p.db && counters.reorged == 0)
                && (!threw ==>
                      && IsReorgListing(h, second, p.forward.reorgAt, batchSize, entries)
                      && var q := CascadePass(p.db, entries, p.forward, reorgFails);
                      && State() == q.db && counters.reorged == |q.done|)
    {
      hide ForwardPass, CascadePass, IsForwardListing, IsReorgListing, CountProjected;
      counters, threw, rows, entries := Counters(0, 0, 0, 0), false, [], [];
      var current := ReadCurrentCursor();
      cursor := current;
      if current == None {
        return;
      }
      var list := ListConfirmedAfter(h, first, current.value.at, batchSize);
      rows := list;
      var forward;
      forward, counters, threw := ForwardLoop(list, current.value, rowFails);
      if threw {
        return;
      }
      var reorged := ListReorgedAfter(h, second, forward.reorgAt, batchSize);
      entries := reorged;
      var evicted := CascadeLoop(reorged, forward, reorgFails);
      counters := counters.(reorged := evicted);
    }

    /** Process start: bootstrap or supersede the handler's generation. */
    method MigrateHandler(freshId: VersionId, now: nat) returns (ghost current: Option<Cursor>)
      requires forall v :: v in cursors ==> cursors[v].versionId == v
      requires freshId !in cursors
      requires forall v, w :: v in cursors && w in cursors && cursors[v].isCurrent && cursors[w].isCurrent ==> v == w
      modifies this`cursors
      ensures if current.Some? then IsCurrent(old(cursors), current.value) else NoCurrent(old(cursors))
      ensures State() == Migrate(old(State()), code, current, freshId, now)
      ensures exists c :: IsCurrent(cursors, c) && c.handlerVersion == code
      ensures current.Some? && current.value.handlerVersion == code ==> cursors == old(cursors)
      ensures !(current.Some? && current.value.handlerVersion == code) ==>
                && cursors.Keys == old(cursors).Keys + {freshId}
                && cursors[freshId] == Cursor(freshId, code, true, None, Coord(-1, -1, -1), -1)
                && forall v :: v in old(cursors) ==>
                      cursors[v] == if old(cursors)[v].isCurrent
                                    then old(cursors)[v].(isCurrent := false, supersededAt := Some(now)) else old(cursors)[v]
    {
      var existing := ReadCurrentCursor();
      current := existing;
      if existing == None {
        cursors := cursors[freshId := FreshCursor(freshId, code)];
        assert IsCurrent(cursors, FreshCursor(freshId, code));
      } else if existing.value.handlerVersion != code {
        cursors := SupersedeCurrent(cursors, now);
        cursors := cursors[freshId := FreshCursor(freshId, code)];
        assert IsCurrent(cursors, FreshCursor(freshId, code));
      }
    }

    method ResetHandlerVersion(v: VersionId)
      modifies this`cursors, this`posts
      ensures State() == ResetVersion(old(State()), v)
      ensures forall w :: w in cursors <==> w in old(cursors) && w != v
      ensures forall k :: k in posts <==> k in old(posts) && k.versionId != v
      ensures (forall w :: w in cursors ==> cursors[w] == old(cursors)[w]) && (forall k :: k in posts ==> posts[k] == old(posts)[k])
    {
      posts := DeleteVersion(posts, v);
      cursors := cursors - {v};
    }

    method ResetHandlerCurrent()
      requires forall v :: v in cursors ==> cursors[v].versionId == v
      modifies this`cursors, this`posts
      ensures NoCurrent(old(cursors)) ==> State() == old(State())
      ensures !NoCurrent(old(cursors)) ==>
                exists c :: IsCurrent(old(cursors), c) && State() == ResetVersion(old(State()), c.versionId)
    {
      var current := ReadCurrentCursor();
      if current == None {
        return;
      }
      ResetHandlerVersion(current.value.versionId);
    }
  }

  lemma {:induction false} CountAppend(a: seq<Done>, b: seq<Done>)
    ensures CountProjected(a + b) == CountProjected(a) + CountProjected(b)
    ensures CountProjected([]) == 0 && CountProjected(a) <= |a|
  {
    if a == [] {
      assert a + b == b;
    } else {
      CountAppend(a[1..], b);
      assert (a + b)[1..] == a[1..] + b;
    }
  }

  /** The count is the number of commits that projected a row. */
  lemma {:induction false} ProjectedIsCounted(done: seq<Done>)
    ensures CountProjected(done) == |set k | 0 <= k < |done| && done[k].Projected?|
  {
    if done != [] {
      var n := |done| - 1;
      var init := done[..n];
      assert done == init + [done[n]];
      CountAppend(init, [done[n]]);
      ProjectedIsCounted(init);
      var before, after := set k | 0 <= k < n && init[k].Projected?, set k | 0 <= k < |done| && done[k].Projected?;
      assert CountProjected([done[n]]) == if done[n].Projected? then 1 else 0;
      assert after == before + (if done[n].Projected? then {n} else {});
    }
  }

  // ----- the queries -----

  method ListConfirmedAfter(h: Handler, src: Tables, after: Coord, limit: nat) returns (rows: seq<Listed>)
    requires SourceOk(h, src)
    ensures IsForwardListing(h, src, after, limit, rows)
  {
    hide CoordOf, SourceOk, Before;
    var left := set key | key in src.messages && IsLive(h, src, key) && Before(after, CoordOf(src.messages[key]));
    ghost var all := left;
    rows := [];
    while left != {} && |rows| < limit
      invariant |rows| <= limit && left <= all
      invariant forall i, j :: 0 <= i < j < |rows| ==> Before(CoordOf(rows[i].row), CoordOf(rows[j].row))
      invariant forall x :: x in rows ==> x.key in all && x.row == src.messages[x.key]
      invariant forall key :: key in all && key !in left ==> Listed(key, src.messages[key]) in rows
      invariant forall x, key :: x in rows && key in left ==> Before(CoordOf(x.row), CoordOf(src.messages[key]))
      decreases |left|
    {
      var key := Earliest(h, src, left);
      left := left - {key};
      rows := rows + [Listed(key, src.messages[key])];
    }
  }

  method Earliest(h: Handler, src: Tables, keys: set<MessageKey>) returns (first: MessageKey)
    requires SourceOk(h, src) && keys != {}
    requires forall key :: key in keys ==> IsLive(h, src, key)
    ensures first in keys
    ensures forall key :: key in keys && key != first ==> Before(CoordOf(src.messages[first]), CoordOf(src.messages[key]))
  {
    hide CoordOf, GoneAt;
    first :| first in keys;
    var left := keys - {first};
    while left != {}
      invariant first in keys && left <= keys && first !in left
      invariant forall key :: key in keys - left && key != first ==> Before(CoordOf(src.messages[first]), CoordOf(src.messages[key]))
      decreases |left|
    {
      var key :| key in left;
      left := left - {key};
      if Before(CoordOf(src.messages[key]), CoordOf(src.messages[first])) {
        first := key;
      }
    }
  }

  method ListReorgedAfter(h: Handler, src: Tables, after: int, limit: nat) returns (entries: seq<ReorgEntry>)
    ensures IsReorgListing(h, src, after, limit, entries)
  {
    var left := set key | key in src.batches && key == BatchKey(h.chainId, key.txHash, h.contentTag)
      && src.batches[key].status == BatchReorged && src.batches[key].invalidatedAt.Some?
      && src.batches[key].invalidatedAt.value > after :: ReorgEntry(key.txHash, src.batches[key].invalidatedAt.value);
    ghost var all := left;
    assert forall e :: e in all <==> GoneAt(h, src, e.txHash) == Some(e.invalidatedAt) && e.invalidatedAt > after by {
      forall e: ReorgEntry | GoneAt(h, src, e.txHash) == Some(e.invalidatedAt) && e.invalidatedAt > after ensures e in all {
        assert BatchKey(h.chainId, e.txHash, h.contentTag) in src.batches;
      }
    }
    entries := [];
    while left != {} && |entries| < limit
      invariant |entries| <= limit && left <= all
      invariant forall i, j :: 0 <= i < j < |entries| ==> EntryBefore(entries[i], entries[j])
      invariant forall e :: e in entries ==> e in all
      invariant forall e :: e in all && e !in left ==> e in entries
      invariant forall x, e :: x in entries && e in left ==> EntryBefore(x, e)
      decreases |left|
    {
      var e := EarliestEntry(left);
      left := left - {e};
      entries := entries + [e];
    }
  }

  method EarliestEntry(entries: set<ReorgEntry>) returns (first: ReorgEntry)
    requires entries != {}
    ensures first in entries
    ensures forall e :: e in entries && e != first ==> EntryBefore(first, e)
  {
    first :| first in entries;
    var left := entries - {first};
    while left != {}
      invariant first in entries && left <= entries && first !in left
      invariant forall e :: e in entries - left && e != first ==> EntryBefore(first, e)
      decreases |left|
    {
      var e :| e in left;
      left := left - {e};
      EntryOrder(first, e);
      if EntryBefore(e, first) {
        forall x | x in entries - left && x != e ensures EntryBefore(e, x) {
          if x != first {
            EntryTransitive(e, first, x);
          }
        }
        first := e;
      }
    }
  }

  lemma {:induction false} LexTotal(a: string, b: string)
    ensures a == b || Text.LexLess(a, b) || Text.LexLess(b, a)
  {
    if a != "" && b != "" {
      LexTotal(a[1..], b[1..]);
      assert a == [a[0]] + a[1..] && b == [b[0]] + b[1..];
    }
  }

  lemma {:induction false} LexTransitive(a: string, b: string, c: string)
    requires Text.LexLess(a, b) && Text.LexLess(b, c)
    ensures Text.LexLess(a, c)
  {
    if a != "" && a[0] == b[0] == c[0] {
      LexTransitive(a[1..], b[1..], c[1..]);
    }
  }

  lemma {:induction false} EntryOrder(a: ReorgEntry, b: ReorgEntry)
    ensures a == b || EntryBefore(a, b) || EntryBefore(b, a)
  {
    LexTotal(a.txHash, b.txHash);
  }

  lemma {:induction false} EntryTransitive(a: ReorgEntry, b: ReorgEntry, c: ReorgEntry)
    requires EntryBefore(a, b) && EntryBefore(b, c)
    ensures EntryBefore(a, c)
  {
    if a.invalidatedAt == b.invalidatedAt == c.invalidatedAt {
      LexTransitive(a.txHash, b.txHash, c.txHash);
    }
  }

  // ----- how far a pass gets -----

  /** Only the generation that a tick holds may be current. */
  ghost predicate NoOtherCurrent(cursors: Cursors, v: VersionId) {
    forall w :: w in cursors && cursors[w].isCurrent ==> w == v
  }

  /** What stops the forward pass at a row. */
  ghost predicate StopsAt(h: Handler, code: nat, x: Listed, fails: Faults<Listed>) {
    || fails(x)
    || (h.decode(code, x.row.contents).Some?
        && (x.row.messageId.None? || x.row.batchRef.None? || x.row.blockNumber.None? || x.row.txIndex.None?
            || x.row.messageIndexWithinBatch.None?))
  }

  lemma {:induction false} CommitOrStop(h: Handler, code: nat, db: Db, x: Listed, f: Cursor)
    requires NoOtherCurrent(db.cursors, f.versionId)
    ensures var r, decodes := ProjectTxn(h, code, db, x, f), h.decode(code, x.row.contents).Some?;
      && (r.Some? <==> !StopsAt(h, code, x, y => false))
      && (r.Some? ==>
            && NoOtherCurrent(r.value.db.cursors, f.versionId) && r.value.forward.versionId == f.versionId
            && r.value.done == if decodes then Projected(f.versionId, x) else Dropped(f.versionId, x))
  {
  }

  /** The forward pass commits the rows before the first that stops it, in order, dropping those that do not decode; a row
      that does not decode and cannot be dropped leaves the tick. */
  lemma {:induction false} ForwardPassStops(h: Handler, code: nat, db: Db, rows: seq<Listed>, f: Cursor, fails: Faults<Listed>)
    requires NoOtherCurrent(db.cursors, f.versionId)
    ensures var p, n := ForwardPass(h, code, db, rows, f, fails), |ForwardPass(h, code, db, rows, f, fails).done|;
      && n <= |rows| && (forall k :: 0 <= k < n ==> !StopsAt(h, code, rows[k], fails))
      && (n < |rows| ==> StopsAt(h, code, rows[n], fails))
      && (forall k :: 0 <= k < n ==>
            p.done[k] == if h.decode(code, rows[k].row.contents).Some? then Projected(f.versionId, rows[k])
                         else Dropped(f.versionId, rows[k]))
      && (p.ending.Finished? <==> n == |rows|)
      && (p.ending.Aborted? <==> n < |rows| && h.decode(code, rows[n].row.contents).None?)
    decreases |rows|
  {
    if rows != [] {
      var r := ProjectTxn(h, code, db, rows[0], f);
      CommitOrStop(h, code, db, rows[0], f);
      hide ProjectTxn, NoOtherCurrent;
      if r.Some? && !fails(rows[0]) {
        ForwardPassStops(h, code, r.value.db, rows[1..], r.value.forward, fails);
      }
    }
  }

  /** The cascade commits the entries before the first that fails, in order. */
  lemma {:induction false} CascadePassStops(db: Db, entries: seq<ReorgEntry>, f: Cursor, fails: Faults<ReorgEntry>)
    requires NoOtherCurrent(db.cursors, f.versionId)
    ensures var p, n := CascadePass(db, entries, f, fails), |CascadePass(db, entries, f, fails).done|;
      && n <= |entries| && (forall k :: 0 <= k < n ==> !fails(entries[k]) && p.done[k] == Cascaded(f.versionId, entries[k]))
      && (n < |entries| ==> fails(entries[n]))
    decreases |entries|
  {
    if entries != [] {
      var r := CascadeTxn(db, entries[0], f);
      if r.Some? && !fails(entries[0]) {
        CascadePassStops(r.value.db, entries[1..], r.value.forward, fails);
      }
    }
  }

  // ----- the passes are runs of the machine -----

  lemma {:induction false} RunAppend(h: Handler, s: Sys, a: Action, states: seq<Sys>, actions: seq<Action>)
    requires IsRun(h, states, actions) && Step(h, s, a, states[0])
    ensures IsRun(h, [s] + states, [a] + actions)
  {
    hide Step;
    var ss, aa := [s] + states, [a] + actions;
    forall i | 0 <= i < |aa| ensures Step(h, ss[i], aa[i], ss[i + 1]) {
      if i > 0 {
        assert ss[i] == states[i - 1] && ss[i + 1] == states[i] && aa[i] == actions[i - 1];
      }
    }
  }

  /** A forward pass is a run of commits, ended by a failed one, or by the crash of the tick. */
  lemma {:induction false} ForwardPassIsRun(h: Handler, s: Sys, fails: Faults<Listed>)
    returns (states: seq<Sys>, actions: seq<Action>)
    requires s.pc.Projecting?
    ensures IsRun(h, states, actions) && states[0] == s
    ensures var p := ForwardPass(h, s.code, s.db, s.pc.rows, s.pc.forward, fails);
      states[|actions|] == s.(db := p.db, history := s.history + p.done,
                              pc := if p.ending == Aborted then Idle else Projecting([], p.forward))
    decreases |s.pc.rows|
  {
    var p := ForwardPass(h, s.code, s.db, s.pc.rows, s.pc.forward, fails);
    if s.pc.rows == [] {
      states, actions := [s], [];
      assert s.history + [] == s.history;
    } else {
      var r := ProjectTxn(h, s.code, s.db, s.pc.rows[0], s.pc.forward);
      if r == None || fails(s.pc.rows[0]) {
        var a := if p.ending == Aborted then Crash else ProjectThrows;
        var t := s.(pc := if p.ending == Aborted then Idle else Projecting([], s.pc.forward));
        assert s.history + [] == s.history;
        states, actions := [s, t], [a];
        assert Step(h, s, a, t);
      } else {
        var t := Committed(s, r.value, Projecting(s.pc.rows[1..], r.value.forward));
        states, actions := ForwardPassIsRun(h, t, fails);
        var q := ForwardPass(h, t.code, t.db, t.pc.rows, t.pc.forward, fails);
        assert (s.history + [r.value.done]) + q.done == s.history + ([r.value.done] + q.done);
        RunAppend(h, s, ProjectRow, states, actions);
        states, actions := [s] + states, [ProjectRow] + actions;
      }
    }
  }

  /** A cascade is a run of commits, possibly ended by a failed one. */
  lemma {:induction false} CascadePassIsRun(h: Handler, s: Sys, fails: Faults<ReorgEntry>)
    returns (states: seq<Sys>, actions: seq<Action>)
    requires s.pc.Cascading?
    ensures IsRun(h, states, actions) && states[0] == s
    ensures var p := CascadePass(s.db, s.pc.entries, s.pc.forward, fails);
      states[|actions|] == s.(db := p.db, history := s.history + p.done, pc := Cascading([], p.forward))
    decreases |s.pc.entries|
  {
    if s.pc.entries == [] {
      states, actions := [s], [];
      assert s.history + [] == s.history;
    } else {
      var r := CascadeTxn(s.db, s.pc.entries[0], s.pc.forward);
      if r == None || fails(s.pc.entries[0]) {
        var t := s.(pc := Cascading([], s.pc.forward));
        assert s.history + [] == s.history;
        states, actions := [s, t], [CascadeThrows];
        assert Step(h, s, CascadeThrows, t);
      } else {
        var t := Committed(s, r.value, Cascading(s.pc.entries[1..], r.value.forward));
        states, actions := CascadePassIsRun(h, t, fails);
        var q := CascadePass(t.db, t.pc.entries, t.pc.forward, fails);
        assert (s.history + [r.value.done]) + q.done == s.history + ([r.value.done] + q.done);
        RunAppend(h, s, CascadeEntry, states, actions);
        states, actions := [s] + states, [CascadeEntry] + actions;
      }
    }
  }

  /** Whatever fails on the way, a tick that starts from the invariant ends in it, left by an exception or not: `moved` is
      how the source grows and reorgs between the two reads of a tick that comes to the second. */
  lemma {:induction false} TickKeepsInv(h: Handler, s: Sys, c: Cursor, limit: nat, rows: seq<Listed>, rowFails: Faults<Listed>,
                     moved: seq<Sys>, moves: seq<Action>, entries: seq<ReorgEntry>, reorgFails: Faults<ReorgEntry>)
    returns (last: Sys)
    requires Inv(h, s) && Step(h, s, BeginTick(c, limit, rows), s.(pc := Projecting(rows, c)))
    requires var p := ForwardPass(h, s.code, s.db, rows, c, rowFails);
      p.ending != Aborted ==>
        && IsRun(h, moved, moves)
        && moved[0] == s.(db := p.db, history := s.history + p.done, pc := Projecting([], p.forward))
        && (forall m :: m in moves ==> m.SourceGrows? || m.SourceReorgs?)
        && IsReorgListing(h, moved[|moves|].source, p.forward.reorgAt, limit, entries)
    ensures var p := ForwardPass(h, s.code, s.db, rows, c, rowFails);
      && Inv(h, last) && last.pc == Idle
      && last.source == (if p.ending == Aborted then s.source else moved[|moves|].source)
      && last.db == (if p.ending == Aborted then p.db else CascadePass(p.db, entries, p.forward, reorgFails).db)
  {
    var p := ForwardPass(h, s.code, s.db, rows, c, rowFails);
    var begun := s.(pc := Projecting(rows, c));
    StepKeepsInv(h, s, BeginTick(c, limit, rows), begun);
    var ss, aa := ForwardPassIsRun(h, begun, rowFails);
    InvAlongRun(h, ss, aa, |aa|);
    if p.ending == Aborted {
      last := ss[|aa|];
    } else {
      last := CascadeKeepsRun(h, moved, moves, limit, entries, reorgFails);
    }
  }

  /** The second half of a tick. */
  lemma {:induction false} CascadeKeepsRun(h: Handler, moved: seq<Sys>, moves: seq<Action>, limit: nat, entries: seq<ReorgEntry>,
                                           reorgFails: Faults<ReorgEntry>)
    returns (last: Sys)
    requires IsRun(h, moved, moves) && Inv(h, moved[0]) && moved[0].pc.Projecting? && moved[0].pc.rows == []
    requires forall m :: m in moves ==> m.SourceGrows? || m.SourceReorgs?
    requires IsReorgListing(h, moved[|moves|].source, moved[0].pc.forward.reorgAt, limit, entries)
    ensures Inv(h, last) && last.pc == Idle && last.source == moved[|moves|].source
    ensures last.db == CascadePass(moved[0].db, entries, moved[0].pc.forward, reorgFails).db
  {
    var f := moved[0].pc.forward;
    InvAlongRun(h, moved, moves, |moves|);
    SourceMovesOnly(h, moved, moves, |moves|);
    var mid := moved[|moves|];
    var cascading := mid.(pc := Cascading(entries, f));
    assert Step(h, mid, BeginCascade(limit, entries), cascading);
    StepKeepsInv(h, mid, BeginCascade(limit, entries), cascading);
    var tt, bb := CascadePassIsRun(h, cascading, reorgFails);
    InvAlongRun(h, tt, bb, |bb|);
    last := tt[|bb|].(pc := Idle);
    assert Step(h, tt[|bb|], EndTick, last);
    StepKeepsInv(h, tt[|bb|], EndTick, last);
  }

  lemma {:induction false} InvAlongRun(h: Handler, states: seq<Sys>, actions: seq<Action>, i: nat)
    requires IsRun(h, states, actions) && Inv(h, states[0]) && i < |states|
    ensures Inv(h, states[i])
  {
    hide Step, Inv;
    if i > 0 {
      InvAlongRun(h, states, actions, i - 1);
      StepKeepsInv(h, states[i - 1], actions[i - 1], states[i]);
    }
  }

  lemma {:induction false} SourceMovesOnly(h: Handler, states: seq<Sys>, actions: seq<Action>, i: nat)
    requires IsRun(h, states, actions) && i < |states|
    requires forall m :: m in actions ==> m.SourceGrows? || m.SourceReorgs?
    ensures states[i] == states[0].(source := states[i].source)
  {
    if i > 0 {
      SourceMovesOnly(h, states, actions, i - 1);
      assert actions[i - 1] in actions;
      assert Step(h, states[i - 1], actions[i - 1], states[i]);
    }
  }
}
