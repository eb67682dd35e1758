// A reorged transaction can be mined again: the source may then take back what it said of a batch. What the index holds
// of a row that comes to be live, over a source that can change in any way between two steps.
module IndexerReconfirm {
  import opened Wrappers
  import opened Store
  import opened Indexer
  import opened IndexerInvariant
  import opened IndexerTheorems

  /** A step of the system whose source changes as it likes: rows and batches come, go, and come back. */
  ghost predicate AnySourceStep(h: Handler, s: Sys, a: Action, t: Sys) {
    if a.SourceGrows? || a.SourceReorgs? then SourceOk(h, a.source) && t == s.(source := a.source) else Step(h, s, a, t)
  }

  ghost predicate IsAnySourceRun(h: Handler, states: seq<Sys>, actions: seq<Action>) {
    && |states| == |actions| + 1
    && forall i :: 0 <= i < |actions| ==> AnySourceStep(h, states[i], actions[i], states[i + 1])
  }

  // ----- what holds over any source -----

  /** The fetched rows climb from the cursor on, and their ids belong to their slots. */
  ghost predicate RowsAhead(h: Handler, rows: seq<Listed>, forward: Cursor) {
    && (forall i, j :: 0 <= i < j < |rows| ==> Before(CoordOf(rows[i].row), CoordOf(rows[j].row)))
    && (forall x :: x in rows ==>
          && HasCoord(x.row) && Before(forward.at, CoordOf(x.row))
          && (x.row.messageId.Some? ==> h.owner(x.row.messageId.value) == x.key))
  }

  ghost predicate Keyed(h: Handler, s: Sys) {
    && SourceOk(h, s.source) && CursorsOk(s)
    && (forall k :: k in s.db.posts ==> s.db.posts[k].key == h.owner(k.messageId))
    && (s.pc.Projecting? ==> RowsAhead(h, s.pc.rows, s.pc.forward))
  }

  lemma {:induction false} CommitShape(h: Handler, s: Sys, t: Sys) returns (x: Listed, f: Cursor, g: Cursor)
    requires Keyed(h, s) && Step(h, s, ProjectRow, t)
    ensures s.pc == Projecting([x] + s.pc.rows[1..], f) && t.pc == Projecting(s.pc.rows[1..], g) && x in s.pc.rows
    ensures HasCoord(x.row) && Before(f.at, CoordOf(x.row)) && g == f.(at := CoordOf(x.row))
    ensures x.row.messageId.Some? ==> h.owner(x.row.messageId.value) == x.key
    ensures IsCurrent(s.db.cursors, f) && t.db.cursors == s.db.cursors[f.versionId := g]
    ensures f.handlerVersion == s.code && t.source == s.source && t.code == s.code
    ensures match h.decode(f.handlerVersion, x.row.contents)
            case None => t.db.posts == s.db.posts
            case Some(e) => Project(s.db.posts, f.versionId, x, e) == Some(t.db.posts)
  {
    hide SourceOk;
    x, f := s.pc.rows[0], s.pc.forward;
    assert x in s.pc.rows;
    AdvanceIsRowCoord(f, x.row);
    g := Advance(f, x.row);
    AdvanceCurrent(s, f, g, s.db.cursors[f.versionId := g]);
    assert s.pc.rows == [x] + s.pc.rows[1..];
  }

  lemma {:induction false} RestAhead(h: Handler, rows: seq<Listed>, f: Cursor, g: Cursor)
    requires RowsAhead(h, rows, f) && rows != [] && g.at == CoordOf(rows[0].row)
    ensures RowsAhead(h, rows[1..], g)
  {
    hide HasCoord;
    forall x | x in rows[1..] ensures x in rows && Before(g.at, CoordOf(x.row)) {
      var i :| 0 <= i < |rows| - 1 && rows[1..][i] == x;
      assert Before(CoordOf(rows[0].row), CoordOf(rows[i + 1].row));
    }
  }

  lemma {:induction false} KeyedProject(h: Handler, s: Sys, t: Sys)
    requires Keyed(h, s) && Step(h, s, ProjectRow, t)
    ensures Keyed(h, t)
  {
    var x, f, g := CommitShape(h, s, t);
    RestAhead(h, s.pc.rows, f, g);
    hide Step, SourceOk, RowsAhead, HasCoord, CoordOf;
  }

  lemma {:induction false} KeyedStep(h: Handler, s: Sys, a: Action, t: Sys)
    requires Keyed(h, s) && AnySourceStep(h, s, a, t)
    ensures Keyed(h, t)
  {
    if a.ProjectRow? {
      KeyedProject(h, s, t);
    } else if a.CascadeEntry? {
      var f, g := s.pc.forward, t.pc.forward;
      AdvanceCurrent(s, f, g, s.db.cursors[f.versionId := g]);
      hide SourceOk, GoneAt;
    } else if a.Start? && t.db != s.db {
      FreshCursors(h, s, a, t);
      hide Step, SourceOk;
    } else {
      hide GoneAt, ProjectTxn, CascadeTxn;
    }
  }

  lemma {:induction false} KeyedRun(h: Handler, states: seq<Sys>, actions: seq<Action>, i: nat)
    requires IsAnySourceRun(h, states, actions) && Initial(h, states[0]) && i < |states|
    ensures Keyed(h, states[i])
  {
    hide AnySourceStep;
    if i > 0 {
      KeyedRun(h, states, actions, i - 1);
      hide Keyed;
      KeyedStep(h, states[i - 1], actions[i - 1], states[i]);
    }
  }

  // ----- one row -----

  /** The row that is live from some moment on, with the post it makes for the generation `v`, and where the cursor of
      `v` stood and what `v` held for its id at that moment. */
  datatype Watch = Watch(key: MessageKey, row: MessageRow, id: string, event: Event, v: VersionId, start: Coord, held: Option<Post>)

  predicate WellWatched(w: Watch) {
    w.row.messageId == Some(w.id) && w.row.batchRef.Some? && HasCoord(w.row)
  }

  function Due(w: Watch): Post
    requires WellWatched(w)
  {
    PostOf(Listed(w.key, w.row), w.event)
  }

  ghost predicate LiveAs(h: Handler, s: Sys, w: Watch) {
    IsLive(h, s.source, w.key) && s.source.messages[w.key] == w.row
  }

  /** The generation is current and decodes the row as it did. */
  ghost predicate Working(h: Handler, s: Sys, w: Watch) {
    && w.v in s.db.cursors && s.db.cursors[w.v].isCurrent
    && h.decode(s.db.cursors[w.v].handlerVersion, w.row.contents) == Some(w.event)
    && AtOrBefore(w.start, s.db.cursors[w.v].at)
  }

  /** What is in flight is no older than the row: no other row of its id, the row itself if the list reaches it, and not
      its batch as reorged. */
  ghost predicate NoneStale(s: Sys, w: Watch)
    requires WellWatched(w)
  {
    match s.pc
    case Idle => true
    case Projecting(rows, f) =>
      && (forall x :: x in rows && x.row.messageId == Some(w.id) ==> x == Listed(w.key, w.row))
      && (rows != [] && Before(f.at, CoordOf(w.row)) && AtOrBefore(CoordOf(w.row), LastCoord(rows)) ==>
            Listed(w.key, w.row) in rows)
    case Cascading(entries, _) => forall e :: e in entries ==> e.txHash != w.row.batchRef.value
  }

  /** Once the cursor has reached the row, its post is there if the row lay ahead at first or the post was there then. */
  ghost predicate Settles(s: Sys, w: Watch)
    requires WellWatched(w) && w.v in s.db.cursors
  {
    Before(s.db.cursors[w.v].at, CoordOf(w.row)) ||
    (Lookup(s.db.posts, PostKey(w.v, w.id)) == Some(Due(w)) <==> Before(w.start, CoordOf(w.row)) || w.held == Some(Due(w)))
  }

  ghost predicate Watched(h: Handler, s: Sys, w: Watch)
    requires WellWatched(w)
  {
    Working(h, s, w) && NoneStale(s, w) && Settles(s, w)
  }

  lemma {:induction false} WatchProject(h: Handler, s: Sys, t: Sys, w: Watch)
    requires Keyed(h, s) && WellWatched(w) && Watched(h, s, w) && LiveAs(h, s, w) && Step(h, s, ProjectRow, t)
    ensures Watched(h, t, w)
  {
    assert h.owner(w.id) == w.key;
    var x, f, g := CommitShape(h, s, t);
    var rows := s.pc.rows;
    assert f.versionId == w.v;
    hide Step, SourceOk, GoneAt, IsLive;
    RowsPass(h, rows, f, w);
    if x == Listed(w.key, w.row) {
      assert Lookup(t.db.posts, PostKey(w.v, w.id)) == Some(Due(w));
    } else {
      assert x.row.messageId != Some(w.id);
      assert Lookup(t.db.posts, PostKey(w.v, w.id)) == Lookup(s.db.posts, PostKey(w.v, w.id));
    }
  }

  /** Committing the head of the list passes the row only if it is the row. */
  lemma {:induction false} RowsPass(h: Handler, rows: seq<Listed>, f: Cursor, w: Watch)
    requires WellWatched(w) && rows != [] && RowsAhead(h, rows, f)
    requires Before(f.at, CoordOf(w.row)) && AtOrBefore(CoordOf(w.row), LastCoord(rows)) ==> Listed(w.key, w.row) in rows
    ensures Before(f.at, CoordOf(w.row)) && rows[0] != Listed(w.key, w.row) ==> Before(CoordOf(rows[0].row), CoordOf(w.row))
    ensures rows[1..] != [] && Before(CoordOf(rows[0].row), CoordOf(w.row)) && AtOrBefore(CoordOf(w.row), LastCoord(rows[1..]))
            ==> Listed(w.key, w.row) in rows[1..]
  {
    hide HasCoord;
    var at, y := CoordOf(w.row), Listed(w.key, w.row);
    assert rows[0] in rows;
    assert |rows| > 1 ==> Before(CoordOf(rows[0].row), LastCoord(rows));
    BeforeIsTotal(LastCoord(rows), at);
    if y in rows {
      var i :| 0 <= i < |rows| && rows[i] == y;
      if i > 0 {
        assert Before(CoordOf(rows[0].row), CoordOf(rows[i].row)) && rows[1..][i - 1] == y;
      }
    }
  }

  lemma {:induction false} WatchCascade(h: Handler, s: Sys, t: Sys, w: Watch)
    requires Keyed(h, s) && WellWatched(w) && Watched(h, s, w) && Step(h, s, CascadeEntry, t)
    ensures Watched(h, t, w)
  {
    hide SourceOk, GoneAt;
    var f, g, e := s.pc.forward, t.pc.forward, s.pc.entries[0];
    AdvanceCurrent(s, f, g, s.db.cursors[f.versionId := g]);
    assert e in s.pc.entries && f.versionId == w.v;
    assert t.db.posts == Evict(s.db.posts, e.txHash);
  }

  lemma {:induction false} WatchFetch(h: Handler, s: Sys, a: Action, t: Sys, w: Watch)
    requires Keyed(h, s) && WellWatched(w) && Watched(h, s, w) && LiveAs(h, s, w)
    requires (a.BeginTick? || a.BeginCascade?) && Step(h, s, a, t)
    ensures Watched(h, t, w)
  {
    if a.BeginTick? {
      assert a.cursor == s.db.cursors[w.v];
      var at := CoordOf(w.row);
      hide GoneAt;
      if a.rows != [] && Before(a.cursor.at, at) && AtOrBefore(at, LastCoord(a.rows)) {
        assert a.rows[|a.rows| - 1] in a.rows;
        assert !Before(LastCoord(a.rows), at);
      }
    } else {
      assert GoneAt(h, s.source, w.row.batchRef.value) == None;
      hide SourceOk, GoneAt;
    }
  }

  /** A new generation is the only current one. */
  lemma {:induction false} SupersededEnds(h: Handler, s: Sys, a: Action, t: Sys, v: VersionId)
    requires CursorsOk(s) && a.Start? && Step(h, s, a, t) && t.db != s.db && v in s.db.cursors
    ensures v in t.db.cursors ==> !t.db.cursors[v].isCurrent
  {
    FreshCursors(h, s, a, t);
    hide Migrate;
    assert v in t.db.cursors ==> (t.db.cursors[v].isCurrent <==> IsCurrent(t.db.cursors, t.db.cursors[v]));
  }

  lemma {:induction false} WatchRest(h: Handler, s: Sys, a: Action, t: Sys, w: Watch)
    requires Keyed(h, s) && WellWatched(w) && Watched(h, s, w) && AnySourceStep(h, s, a, t)
    requires !a.ProjectRow? && !a.CascadeEntry? && !a.BeginTick? && !a.BeginCascade?
    requires w.v in t.db.cursors && t.db.cursors[w.v].isCurrent
    ensures Watched(h, t, w)
  {
    hide SourceOk, GoneAt, CoordOf;
    if a.Start? && t.db != s.db {
      SupersededEnds(h, s, a, t, w.v);
    } else if a.Reset? {
      assert PostKey(w.v, w.id) in t.db.posts <==> PostKey(w.v, w.id) in s.db.posts;
    }
  }

  lemma {:induction false} WatchRun(h: Handler, states: seq<Sys>, actions: seq<Action>, i: nat, j: nat, w: Watch)
    requires IsAnySourceRun(h, states, actions) && Initial(h, states[0]) && i <= j < |states|
    requires WellWatched(w) && Watched(h, states[i], w)
    requires forall k :: i <= k <= j ==> LiveAs(h, states[k], w) && w.v in states[k].db.cursors && states[k].db.cursors[w.v].isCurrent
    ensures Watched(h, states[j], w)
  {
    hide AnySourceStep;
    if i < j {
      WatchRun(h, states, actions, i, j - 1, w);
      KeyedRun(h, states, actions, j - 1);
      hide Keyed, Watched, LiveAs;
      WatchStep(h, states[j - 1], actions[j - 1], states[j], w);
    }
  }

  lemma {:induction false} WatchStep(h: Handler, s: Sys, a: Action, t: Sys, w: Watch)
    requires Keyed(h, s) && WellWatched(w) && Watched(h, s, w) && LiveAs(h, s, w) && AnySourceStep(h, s, a, t)
    requires w.v in t.db.cursors && t.db.cursors[w.v].isCurrent
    ensures Watched(h, t, w)
  {
    hide Keyed, Watched, LiveAs, Step;
    if a.ProjectRow? {
      WatchProject(h, s, t, w);
    } else if a.CascadeEntry? {
      WatchCascade(h, s, t, w);
    } else if a.BeginTick? || a.BeginCascade? {
      WatchFetch(h, s, a, t, w);
    } else {
      WatchRest(h, s, a, t, w);
    }
  }

  /** A row that comes to be live between two ticks, for the first time or again, and stays so: once the cursor has reached
      it, the index agrees with a recomputation on its id exactly when the row landed above the cursor, or the post it makes
      was still there, because no cascade had evicted it and the row came back just as it was. */
  lemma {:induction false} ReconfirmedRowAgreesIff(h: Handler, states: seq<Sys>, actions: seq<Action>, i: nat, j: nat,
                                                   key: MessageKey, id: string, event: Event, v: VersionId)
    requires IsAnySourceRun(h, states, actions) && Initial(h, states[0]) && i <= j < |states| && states[i].pc == Idle
    requires IsLive(h, states[i].source, key)
    requires var row := states[i].source.messages[key];
      && row.messageId == Some(id) && row.batchRef.Some? && h.decode(states[j].code, row.contents) == Some(event)
      && (forall k :: i <= k <= j ==>
            && IsLive(h, states[k].source, key) && states[k].source.messages[key] == row
            && v in states[k].db.cursors && states[k].db.cursors[v].isCurrent && states[k].code == states[j].code)
      && AtOrBefore(CoordOf(row), states[j].db.cursors[v].at)
    ensures var row := states[i].source.messages[key];
      Lookup(states[j].db.posts, PostKey(v, id)) == Recomputed(h, states[j].source, states[j].code, id)
      <==> || Before(states[i].db.cursors[v].at, CoordOf(row))
           || Lookup(states[i].db.posts, PostKey(v, id)) == Some(PostOf(Listed(key, row), event))
  {
    var row := states[i].source.messages[key];
    var w := Watch(key, row, id, event, v, states[i].db.cursors[v].at, Lookup(states[i].db.posts, PostKey(v, id)));
    KeyedRun(h, states, actions, i);
    KeyedRun(h, states, actions, j);
    hide AnySourceStep, Initial;
    BeforeIsTotal(w.start, CoordOf(row));
    forall k | i <= k <= j ensures LiveAs(h, states[k], w) {
    }
    WatchRun(h, states, actions, i, j, w);
    assert h.owner(id) == key;
    NotBothWays(CoordOf(row), states[j].db.cursors[v].at);
  }

  lemma {:induction false} NotBothWays(a: Coord, b: Coord)
    requires AtOrBefore(a, b)
    ensures !Before(b, a)
  {
  }
}
