// The invariant of the indexer machine, and its preservation by every step.
//
// It comes in two halves. `Lite` speaks of cursors, posts and rows, and holds whatever the times reorgs are stamped
// with; `Timely` adds what the reorg cursor promises when every reorg carries a later time than those before.
module IndexerInvariant {
  import opened Wrappers
  import Text
  import opened Store
  import opened Indexer

  // ----- the invariant -----

  ghost predicate CursorsOk(s: Sys) {
    var cs := s.db.cursors;
    && (forall v :: v in cs ==> cs[v].versionId == v)
    && (forall v, w :: v in cs && w in cs && cs[v].isCurrent && cs[w].isCurrent ==> v == w)
    && (forall v :: v in cs && cs[v].isCurrent ==> cs[v].handlerVersion == s.code)
    && (s.pc.Projecting? ==> IsCurrent(cs, s.pc.forward))
    && (s.pc.Cascading? ==> IsCurrent(cs, s.pc.forward))
  }

  /** Every post belongs to a generation whose cursor has reached it, and to the slot its id was hashed from. */
  ghost predicate PostsOwned(h: Handler, s: Sys) {
    forall k :: k in s.db.posts ==>
      && k.versionId in s.db.cursors && s.db.posts[k].key == h.owner(k.messageId)
      && AtOrBefore(s.db.posts[k].at, s.db.cursors[k.versionId].at)
  }

  predicate Gone(h: Handler, s: Sys, tx: string) {
    GoneAt(h, s.source, tx).Some?
  }

  ghost predicate BackedByLive(h: Handler, s: Sys, k: PostKey)
    requires k in s.db.posts
  {
    var key := h.owner(k.messageId);
    && k.versionId in s.db.cursors
    && IsLive(h, s.source, key)
    && var row := s.source.messages[key];
    && row.messageId == Some(k.messageId) && row.batchRef.Some?
    && var event := h.decode(s.db.cursors[k.versionId].handlerVersion, row.contents);
    && event.Some?
    && s.db.posts[k] == PostOf(Listed(key, row), event.value)
  }

  /** Every post of every generation is the image of a live row, or its batch is reorged. */
  ghost predicate Backed(h: Handler, s: Sys) {
    forall k :: k in s.db.posts ==> BackedByLive(h, s, k) || Gone(h, s, s.db.posts[k].batchRef)
  }

  function Outcome(h: Handler, c: Cursor, x: Listed): Done {
    if h.decode(c.handlerVersion, x.row.contents).Some? then Projected(c.versionId, x) else Dropped(c.versionId, x)
  }

  ghost predicate Stored(h: Handler, s: Sys, c: Cursor, x: Listed) {
    var event := h.decode(c.handlerVersion, x.row.contents);
    event.Some? ==>
      && Projectable(x.row)
      && PostKey(c.versionId, x.row.messageId.value) in s.db.posts
      && s.db.posts[PostKey(c.versionId, x.row.messageId.value)] == PostOf(x, event.value)
  }

  /** Every live row at or below the current cursor was committed, and its post is there. */
  ghost predicate Covered(h: Handler, s: Sys) {
    forall c, key |
      IsCurrent(s.db.cursors, c) && IsLive(h, s.source, key) && AtOrBefore(CoordOf(s.source.messages[key]), c.at) ::
        var x := Listed(key, s.source.messages[key]);
        Outcome(h, c, x) in s.history && Stored(h, s, c, x)
  }

  predicate Forward(d: Done) {
    d.Projected? || d.Dropped?
  }

  function DoneAt(d: Done): Coord
    requires Forward(d)
  {
    CoordOf(d.listed.row)
  }

  /** Per generation, commits climb strictly, and never pass the cursor. */
  ghost predicate HistoryOk(s: Sys) {
    && (forall i, j |
          && 0 <= i < j < |s.history| && Forward(s.history[i]) && Forward(s.history[j])
          && s.history[i].versionId == s.history[j].versionId ::
            Before(DoneAt(s.history[i]), DoneAt(s.history[j])))
    && (forall d :: d in s.history && Forward(d) && d.versionId in s.db.cursors ==>
          AtOrBefore(DoneAt(d), s.db.cursors[d.versionId].at))
  }

  function LastCoord(rows: seq<Listed>): Coord
    requires rows != []
  {
    CoordOf(rows[|rows| - 1].row)
  }

  /** A fetched row is still live, or was reorged since; then its slot can only be live further on. */
  ghost predicate StillMeaningful(h: Handler, s: Sys, x: Listed, last: Coord) {
    if IsLive(h, s.source, x.key) && s.source.messages[x.key] == x.row then true
    else
      && (x.row.batchRef.Some? ==> Gone(h, s, x.row.batchRef.value))
      && (IsLive(h, s.source, x.key) ==> Before(last, CoordOf(s.source.messages[x.key])))
  }

  ghost predicate RowsInFlight(h: Handler, s: Sys, rows: seq<Listed>, forward: Cursor) {
    && (forall i, j :: 0 <= i < j < |rows| ==> Before(CoordOf(rows[i].row), CoordOf(rows[j].row)))
    && (rows != [] ==>
          && (forall x :: x in rows ==>
                && HasCoord(x.row) && Before(forward.at, CoordOf(x.row))
                && (x.row.messageId.Some? ==> h.owner(x.row.messageId.value) == x.key)
                && StillMeaningful(h, s, x, LastCoord(rows)))
          && (forall key |
                && IsLive(h, s.source, key) && Before(forward.at, CoordOf(s.source.messages[key]))
                && AtOrBefore(CoordOf(s.source.messages[key]), LastCoord(rows)) ::
                  Listed(key, s.source.messages[key]) in rows))
  }

  ghost predicate InFlight(h: Handler, s: Sys) {
    match s.pc
    case Idle => true
    case Projecting(rows, f) => RowsInFlight(h, s, rows, f)
    case Cascading(entries, _) => forall e :: e in entries ==> Gone(h, s, e.txHash)
  }

  /** What holds whatever the times reorgs are stamped with. */
  ghost predicate Lite(h: Handler, s: Sys) {
    && SourceOk(h, s.source)
    && CursorsOk(s)
    && PostsOwned(h, s)
    && Backed(h, s)
    && Covered(h, s)
    && HistoryOk(s)
    && InFlight(h, s)
  }

  /** Reorg times tell batches apart, and the reorg cursor never runs ahead of the source. */
  ghost predicate ReorgsOk(h: Handler, s: Sys) {
    && (forall tx, ty :: Gone(h, s, tx) && GoneAt(h, s.source, ty) == GoneAt(h, s.source, tx) ==> tx == ty)
    && (forall c :: IsCurrent(s.db.cursors, c) ==>
          c.reorgAt == -1 || exists tx :: Gone(h, s, tx) && GoneAt(h, s.source, tx).value >= c.reorgAt)
  }

  /** The batch is reorged and the current generation's reorg pass has yet to reach it. */
  ghost predicate AwaitsCascade(h: Handler, s: Sys, tx: string) {
    Gone(h, s, tx) && forall c :: IsCurrent(s.db.cursors, c) ==> GoneAt(h, s.source, tx).value > c.reorgAt
  }

  /** A reorged batch that has a post left, or will get one from a fetched row, awaits the cascade. */
  ghost predicate LeftoversAwait(h: Handler, s: Sys) {
    && (forall k :: k in s.db.posts && Gone(h, s, s.db.posts[k].batchRef) ==> AwaitsCascade(h, s, s.db.posts[k].batchRef))
    && (s.pc.Projecting? ==> forall x | x in s.pc.rows && x.row.batchRef.Some? && Gone(h, s, x.row.batchRef.value) ::
          AwaitsCascade(h, s, x.row.batchRef.value))
  }

  /** Every reorg the current cursor has reached was cascaded by its generation. */
  ghost predicate CascadesDone(h: Handler, s: Sys) {
    forall c, tx | IsCurrent(s.db.cursors, c) && Gone(h, s, tx) && GoneAt(h, s.source, tx).value <= c.reorgAt ::
      Cascaded(c.versionId, ReorgEntry(tx, GoneAt(h, s.source, tx).value)) in s.history
  }

  ghost predicate EntriesInFlight(h: Handler, s: Sys, entries: seq<ReorgEntry>, forward: Cursor) {
    && (forall i, j :: 0 <= i < j < |entries| ==> entries[i].invalidatedAt < entries[j].invalidatedAt)
    && (forall e :: e in entries ==>
          e.invalidatedAt > forward.reorgAt && Gone(h, s, e.txHash) && GoneAt(h, s.source, e.txHash).value >= e.invalidatedAt)
    && (entries != [] ==>
          forall tx |
            Gone(h, s, tx) && forward.reorgAt < GoneAt(h, s.source, tx).value <= entries[|entries| - 1].invalidatedAt ::
              ReorgEntry(tx, GoneAt(h, s.source, tx).value) in entries)
  }

  /** What the reorg cursor promises. */
  ghost predicate Timely(h: Handler, s: Sys) {
    && ReorgsOk(h, s)
    && LeftoversAwait(h, s)
    && CascadesDone(h, s)
    && (s.pc.Cascading? ==> EntriesInFlight(h, s, s.pc.entries, s.pc.forward))
  }

  ghost predicate Inv(h: Handler, s: Sys) {
    Lite(h, s) && Timely(h, s)
  }

  // ----- initial states -----

  lemma {:induction false} InitialInv(h: Handler, s: Sys)
    requires Initial(h, s)
    ensures Inv(h, s)
  {
  }

  // ----- reading the source -----

  lemma {:induction false} BeginTickKeepsLite(h: Handler, s: Sys, a: Action, t: Sys)
    requires Lite(h, s) && a.BeginTick? && Step(h, s, a, t)
    ensures Lite(h, t)
  {
    RowsFetched(h, s, a, t);
    SamePosts(h, s, t);
    SameCovered(h, s, t);
    hide SourceOk, Backed, Covered, IsForwardListing, RowsInFlight;
  }

  lemma {:induction false} RowsFetched(h: Handler, s: Sys, a: Action, t: Sys)
    requires Lite(h, s) && a.BeginTick? && Step(h, s, a, t)
    ensures RowsInFlight(h, t, a.rows, a.cursor)
  {
    hide CursorsOk, PostsOwned, Backed, Covered, HistoryOk, InFlight, GoneAt;
    var rows := a.rows;
    if rows != [] {
      forall x | x in rows ensures AtOrBefore(CoordOf(x.row), LastCoord(rows)) {
        var i :| 0 <= i < |rows| && rows[i] == x;
        if i < |rows| - 1 {
          assert Before(CoordOf(rows[i].row), CoordOf(rows[|rows| - 1].row));
        }
      }
      assert rows[|rows| - 1] in rows;
    }
  }

  lemma {:induction false} SamePosts(h: Handler, s: Sys, t: Sys)
    requires Backed(h, s) && t.db == s.db && t.source == s.source
    ensures Backed(h, t)
  {
    forall k | k in t.db.posts ensures BackedByLive(h, t, k) || Gone(h, t, t.db.posts[k].batchRef) {
      assert BackedByLive(h, s, k) || Gone(h, s, s.db.posts[k].batchRef);
    }
  }

  lemma {:induction false} SameCovered(h: Handler, s: Sys, t: Sys)
    requires Covered(h, s) && t.db == s.db && t.source == s.source && t.history == s.history
    ensures Covered(h, t)
  {
    forall c, key | IsCurrent(t.db.cursors, c) && IsLive(h, t.source, key) && AtOrBefore(CoordOf(t.source.messages[key]), c.at)
      ensures Stored(h, t, c, Listed(key, t.source.messages[key]))
    {
      assert Stored(h, s, c, Listed(key, s.source.messages[key]));
    }
  }

  lemma {:induction false} BeginCascadeKeepsLite(h: Handler, s: Sys, a: Action, t: Sys)
    requires Lite(h, s) && a.BeginCascade? && Step(h, s, a, t)
    ensures Lite(h, t)
  {
    SamePosts(h, s, t);
    SameCovered(h, s, t);
    hide SourceOk, Backed, Covered;
  }

  /** Dropping the fetched list: a failure, the end of a tick, a crash. */
  lemma {:induction false} LetGoKeepsLite(h: Handler, s: Sys, a: Action, t: Sys)
    requires Lite(h, s) && Step(h, s, a, t)
    requires a.ProjectThrows? || a.CascadeThrows? || a.EndTick? || a.Crash?
    ensures Lite(h, t)
  {
    SamePosts(h, s, t);
    SameCovered(h, s, t);
    hide SourceOk, Backed, Covered;
  }

  // ----- committed transactions -----

  /** Advancing the current generation's cursor row leaves it the one current row. */
  lemma {:induction false} AdvanceCurrent(s: Sys, f: Cursor, g: Cursor, next: Cursors)
    requires CursorsOk(s) && IsCurrent(s.db.cursors, f) && next == s.db.cursors[f.versionId := g]
    requires g.versionId == f.versionId && g.handlerVersion == f.handlerVersion && g.isCurrent
    ensures UpsertCursor(s.db.cursors, g) == Some(next)
    ensures forall c :: IsCurrent(s.db.cursors, c) <==> c == f
    ensures forall c :: IsCurrent(next, c) <==> c == g
  {
    assert f.versionId in s.db.cursors && s.db.cursors[f.versionId].isCurrent;
  }

  lemma {:induction false} AdvanceIsRowCoord(f: Cursor, row: MessageRow)
    requires HasCoord(row)
    ensures Advance(f, row) == f.(at := CoordOf(row))
  {
  }

  lemma {:induction false} ProjectRowShape(h: Handler, s: Sys, t: Sys) returns (x: Listed, f: Cursor, g: Cursor)
    requires Lite(h, s) && Step(h, s, ProjectRow, t)
    ensures s.pc == Projecting([x] + s.pc.rows[1..], f) && t.pc == Projecting(s.pc.rows[1..], g)
    ensures HasCoord(x.row) && Before(f.at, CoordOf(x.row))
    ensures IsCurrent(s.db.cursors, f) && g == f.(at := CoordOf(x.row))
    ensures t.db.cursors == s.db.cursors[f.versionId := g]
    ensures forall c :: IsCurrent(s.db.cursors, c) <==> c == f
    ensures forall c :: IsCurrent(t.db.cursors, c) <==> c == g
    ensures f.handlerVersion == s.code
    ensures t.source == s.source && t.code == s.code && t.history == s.history + [Outcome(h, f, x)]
    ensures match h.decode(f.handlerVersion, x.row.contents)
            case None => t.db.posts == s.db.posts
            case Some(e) => Project(s.db.posts, f.versionId, x, e) == Some(t.db.posts)
  {
    hide SourceOk, PostsOwned, Backed, Covered, HistoryOk;
    x, f := s.pc.rows[0], s.pc.forward;
    assert x in s.pc.rows && HasCoord(x.row);
    AdvanceIsRowCoord(f, x.row);
    g := Advance(f, x.row);
    AdvanceCurrent(s, f, g, s.db.cursors[f.versionId := g]);
    assert s.pc.rows == [x] + s.pc.rows[1..];
  }

  lemma {:induction false} ProjectRowCursors(h: Handler, s: Sys, t: Sys)
    requires Lite(h, s) && Step(h, s, ProjectRow, t)
    ensures CursorsOk(t)
  {
    hide SourceOk, PostsOwned, Backed, Covered, HistoryOk, InFlight, Step;
    var x, f, g := ProjectRowShape(h, s, t);
  }

  lemma {:induction false} ProjectRowPosts(h: Handler, s: Sys, t: Sys)
    requires Lite(h, s) && Step(h, s, ProjectRow, t)
    ensures PostsOwned(h, t)
  {
    hide SourceOk, CursorsOk, Backed, Covered, HistoryOk, Step;
    var x, f, g := ProjectRowShape(h, s, t);
    assert x in s.pc.rows;
  }

  lemma {:induction false} ProjectRowBacked(h: Handler, s: Sys, t: Sys)
    requires Lite(h, s) && Step(h, s, ProjectRow, t)
    ensures Backed(h, t)
  {
    hide SourceOk, CursorsOk, Covered, HistoryOk, Step, GoneAt;
    var x, f, g := ProjectRowShape(h, s, t);
    assert x in s.pc.rows && StillMeaningful(h, s, x, LastCoord(s.pc.rows));
    forall k | k in t.db.posts ensures BackedByLive(h, t, k) || Gone(h, t, t.db.posts[k].batchRef) {
      assert k in s.db.posts ==> BackedByLive(h, s, k) || Gone(h, s, s.db.posts[k].batchRef);
      assert forall v :: v in s.db.cursors ==> t.db.cursors[v].handlerVersion == s.db.cursors[v].handlerVersion;
      if h.decode(f.handlerVersion, x.row.contents).Some?
        && k == PostKey(f.versionId, x.row.messageId.value)
      {
        assert t.db.posts[k] == PostOf(x, h.decode(f.handlerVersion, x.row.contents).value);
      } else {
        assert k in s.db.posts && t.db.posts[k] == s.db.posts[k];
      }
    }
  }

  /** A live row at or below the new cursor is the row just committed, or was at or below the old one. */
  lemma {:induction false} ProjectRowReach(h: Handler, s: Sys, key: MessageKey)
    requires Lite(h, s) && s.pc.Projecting? && s.pc.rows != []
    requires IsLive(h, s.source, key)
    requires AtOrBefore(CoordOf(s.source.messages[key]), CoordOf(s.pc.rows[0].row))
    ensures || s.pc.rows[0] == Listed(key, s.source.messages[key])
            || (&& AtOrBefore(CoordOf(s.source.messages[key]), s.pc.forward.at)
                && key != s.pc.rows[0].key)
  {
    hide CursorsOk, PostsOwned, Backed, Covered, HistoryOk, GoneAt;
    var rows, at := s.pc.rows, CoordOf(s.source.messages[key]);
    var x := rows[0];
    assert x in rows && StillMeaningful(h, s, x, LastCoord(rows));
    assert AtOrBefore(CoordOf(x.row), LastCoord(rows));
    if Before(s.pc.forward.at, at) {
      assert Listed(key, s.source.messages[key]) in rows;
      var i :| 0 <= i < |rows| && rows[i] == Listed(key, s.source.messages[key]);
      if i > 0 {
        assert Before(CoordOf(rows[0].row), CoordOf(rows[i].row));
      }
    }
  }

  lemma {:induction false} ProjectRowCovered(h: Handler, s: Sys, t: Sys)
    requires Lite(h, s) && Step(h, s, ProjectRow, t)
    ensures Covered(h, t)
  {
    hide CursorsOk, Backed, HistoryOk, Step, GoneAt;
    var x, f, g := ProjectRowShape(h, s, t);
    assert x in s.pc.rows;
    forall c, key | IsCurrent(t.db.cursors, c) && IsLive(h, t.source, key)
      && AtOrBefore(CoordOf(t.source.messages[key]), c.at)
      ensures Outcome(h, c, Listed(key, t.source.messages[key])) in t.history
      ensures Stored(h, t, c, Listed(key, t.source.messages[key]))
    {
      var y := Listed(key, t.source.messages[key]);
      ProjectRowReach(h, s, key);
      assert Outcome(h, c, y) == Outcome(h, f, y);
      if x == y {
        assert Stored(h, t, c, y);
      } else {
        assert Outcome(h, f, y) in s.history && Stored(h, s, f, y);
        assert Outcome(h, f, y) in t.history;
        if y.row.messageId.Some? {
          assert h.owner(y.row.messageId.value) == key;
        }
        assert Stored(h, t, c, y);
      }
    }
  }

  lemma {:induction false} ProjectRowHistory(h: Handler, s: Sys, t: Sys)
    requires Lite(h, s) && Step(h, s, ProjectRow, t)
    ensures HistoryOk(t)
  {
    hide SourceOk, CursorsOk, PostsOwned, Backed, Covered, InFlight, Step;
    var x, f, g := ProjectRowShape(h, s, t);
    forall i, j | && 0 <= i < j < |t.history| && Forward(t.history[i]) && Forward(t.history[j])
                  && t.history[i].versionId == t.history[j].versionId
      ensures Before(DoneAt(t.history[i]), DoneAt(t.history[j]))
    {
      if j == |s.history| {
        assert s.history[i] in s.history;
        assert AtOrBefore(DoneAt(s.history[i]), f.at);
      }
    }
  }

  lemma {:induction false} ProjectRowInFlight(h: Handler, s: Sys, t: Sys)
    requires Lite(h, s) && Step(h, s, ProjectRow, t)
    ensures InFlight(h, t)
  {
    hide SourceOk, CursorsOk, PostsOwned, Backed, Covered, HistoryOk, Step, RowsInFlight;
    var x, f, g := ProjectRowShape(h, s, t);
    RestInFlight(h, s, t, s.pc.rows, f, g);
  }

  lemma {:induction false} RestInFlight(h: Handler, s: Sys, t: Sys, rows: seq<Listed>, f: Cursor, g: Cursor)
    requires rows != [] && RowsInFlight(h, s, rows, f) && t.source == s.source && g.at == CoordOf(rows[0].row)
    ensures RowsInFlight(h, t, rows[1..], g)
  {
    hide HasCoord, GoneAt;
    var rest := rows[1..];
    if rest != [] {
      assert LastCoord(rest) == LastCoord(rows);
      forall y | y in rest ensures y in rows && Before(g.at, CoordOf(y.row)) && StillMeaningful(h, t, y, LastCoord(rest)) {
        var i :| 0 <= i < |rest| && rest[i] == y;
        assert Before(CoordOf(rows[0].row), CoordOf(rows[i + 1].row));
        assert StillMeaningful(h, s, y, LastCoord(rows));
      }
      hide StillMeaningful;
      forall key | && IsLive(h, s.source, key) && Before(g.at, CoordOf(s.source.messages[key]))
                   && AtOrBefore(CoordOf(s.source.messages[key]), LastCoord(rest))
        ensures Listed(key, s.source.messages[key]) in rest
      {
        assert Before(f.at, g.at) by { assert rows[0] in rows; }
        assert Listed(key, s.source.messages[key]) in rows;
      }
    }
  }

  lemma {:induction false} ProjectRowKeepsLite(h: Handler, s: Sys, t: Sys)
    requires Lite(h, s) && Step(h, s, ProjectRow, t)
    ensures Lite(h, t)
  {
    ProjectRowCursors(h, s, t);
    ProjectRowPosts(h, s, t);
    ProjectRowBacked(h, s, t);
    ProjectRowCovered(h, s, t);
    ProjectRowHistory(h, s, t);
    ProjectRowInFlight(h, s, t);
    var x, f, g := ProjectRowShape(h, s, t);
    hide Step, SourceOk, CursorsOk, PostsOwned, Backed, Covered, HistoryOk, InFlight;
  }

  /** What a committed cascade is, whatever the times. */
  lemma {:induction false} CascadeCommit(h: Handler, s: Sys, t: Sys) returns (e: ReorgEntry, f: Cursor, g: Cursor)
    requires Lite(h, s) && Step(h, s, CascadeEntry, t)
    ensures s.pc == Cascading([e] + s.pc.entries[1..], f) && t.pc == Cascading(s.pc.entries[1..], g)
    ensures Gone(h, s, e.txHash) && IsCurrent(s.db.cursors, f) && g == AdvanceReorg(f, e)
    ensures t.db.cursors == s.db.cursors[f.versionId := g]
    ensures forall c :: IsCurrent(s.db.cursors, c) <==> c == f
    ensures forall c :: IsCurrent(t.db.cursors, c) <==> c == g
    ensures t.source == s.source && t.code == s.code
    ensures t.history == s.history + [Cascaded(f.versionId, e)]
    ensures t.db.posts == Evict(s.db.posts, e.txHash)
  {
    hide SourceOk, PostsOwned, Backed, Covered, HistoryOk, GoneAt;
    e, f := s.pc.entries[0], s.pc.forward;
    assert e in s.pc.entries;
    g := AdvanceReorg(f, e);
    AdvanceCurrent(s, f, g, s.db.cursors[f.versionId := g]);
    assert s.pc.entries == [e] + s.pc.entries[1..];
  }

  lemma {:induction false} CascadeOwned(h: Handler, s: Sys, t: Sys)
    requires Lite(h, s) && Step(h, s, CascadeEntry, t)
    ensures CursorsOk(t) && PostsOwned(h, t) && HistoryOk(t) && InFlight(h, t)
  {
    hide SourceOk, Backed, Covered, Step, GoneAt;
    var e, f, g := CascadeCommit(h, s, t);
  }

  lemma {:induction false} CascadeBacked(h: Handler, s: Sys, t: Sys)
    requires Lite(h, s) && Step(h, s, CascadeEntry, t)
    ensures Backed(h, t)
  {
    hide SourceOk, CursorsOk, PostsOwned, Covered, HistoryOk, InFlight, Step, GoneAt;
    var e, f, g := CascadeCommit(h, s, t);
    forall k | k in t.db.posts ensures BackedByLive(h, t, k) || Gone(h, t, t.db.posts[k].batchRef) {
      assert k in s.db.posts && s.db.posts[k] == t.db.posts[k];
      assert BackedByLive(h, s, k) || Gone(h, s, s.db.posts[k].batchRef);
      assert forall v :: v in s.db.cursors ==> t.db.cursors[v].handlerVersion == s.db.cursors[v].handlerVersion;
    }
  }

  lemma {:induction false} CascadeCovered(h: Handler, s: Sys, t: Sys)
    requires Lite(h, s) && Step(h, s, CascadeEntry, t)
    ensures Covered(h, t)
  {
    hide CursorsOk, PostsOwned, Backed, HistoryOk, InFlight, Step, GoneAt;
    var e, f, g := CascadeCommit(h, s, t);
    forall c, key | IsCurrent(t.db.cursors, c) && IsLive(h, t.source, key)
      && AtOrBefore(CoordOf(t.source.messages[key]), c.at)
      ensures Outcome(h, c, Listed(key, t.source.messages[key])) in t.history
      ensures Stored(h, t, c, Listed(key, t.source.messages[key]))
    {
      var y := Listed(key, t.source.messages[key]);
      assert Outcome(h, f, y) in s.history && Stored(h, s, f, y);
      assert y.row.batchRef != Some(e.txHash);
    }
  }

  lemma {:induction false} CascadeKeepsLite(h: Handler, s: Sys, t: Sys)
    requires Lite(h, s) && Step(h, s, CascadeEntry, t)
    ensures Lite(h, t)
  {
    CascadeOwned(h, s, t);
    CascadeBacked(h, s, t);
    CascadeCovered(h, s, t);
    var e, f, g := CascadeCommit(h, s, t);
    hide Step, SourceOk, CursorsOk, PostsOwned, Backed, Covered, HistoryOk, InFlight;
  }

  // ----- process start and resets -----

  lemma {:induction false} StartKeepsLite(h: Handler, s: Sys, a: Action, t: Sys)
    requires Lite(h, s) && a.Start? && Step(h, s, a, t)
    ensures Lite(h, t)
  {
    if t.db != s.db {
      FreshCursors(h, s, a, t);
      FreshPosts(h, s, a, t);
      FreshBacked(h, s, a, t);
      FreshCovered(h, s, a, t);
      FreshHistory(h, s, a, t);
    } else {
      SamePosts(h, s, t);
      SameCovered(h, s, t);
    }
    hide SourceOk, PostsOwned, Backed, Covered, HistoryOk, Migrate;
  }

  /** A fresh generation starts at genesis, with nothing to cover. */
  lemma {:induction false} FreshCursors(h: Handler, s: Sys, a: Action, t: Sys)
    requires CursorsOk(s) && a.Start? && Step(h, s, a, t) && t.db != s.db
    ensures forall c :: IsCurrent(t.db.cursors, c) <==> c == FreshCursor(a.freshId, a.code)
    ensures CursorsOk(t) && t.db.posts == s.db.posts && t.source == s.source && t.history == s.history && t.pc == Idle
    ensures forall v :: v in t.db.cursors <==> v in s.db.cursors || v == a.freshId
    ensures forall v :: v in s.db.cursors ==>
              t.db.cursors[v].handlerVersion == s.db.cursors[v].handlerVersion && t.db.cursors[v].at == s.db.cursors[v].at
  {
    hide Step, Migrate;
    StartIs(h, s, a, t);
    MigrateShape(s.db, a.code, a.current, a.freshId, a.now);
  }

  lemma {:induction false} StartIs(h: Handler, s: Sys, a: Action, t: Sys)
    requires a.Start? && Step(h, s, a, t)
    ensures s.pc == Idle && UnusedId(s, a.freshId)
    ensures t == s.(db := Migrate(s.db, a.code, a.current, a.freshId, a.now), code := a.code)
    ensures if a.current.Some? then IsCurrent(s.db.cursors, a.current.value) else NoCurrent(s.db.cursors)
  {
    hide Migrate;
  }

  lemma {:induction false} MigrateShape(db: Db, code: nat, current: Option<Cursor>, freshId: VersionId, now: nat)
    requires freshId !in db.cursors && (current == None ==> NoCurrent(db.cursors))
    ensures var next := Migrate(db, code, current, freshId, now);
      next != db ==>
        && next.posts == db.posts
        && next.cursors.Keys == db.cursors.Keys + {freshId}
        && next.cursors[freshId] == FreshCursor(freshId, code)
        && (forall v :: v in db.cursors ==>
              next.cursors[v] == db.cursors[v].(isCurrent := false, supersededAt := next.cursors[v].supersededAt))
  {
  }

  lemma {:induction false} FreshPosts(h: Handler, s: Sys, a: Action, t: Sys)
    requires Lite(h, s) && a.Start? && Step(h, s, a, t) && t.db != s.db
    ensures PostsOwned(h, t)
  {
    FreshCursors(h, s, a, t);
    hide Step, SourceOk, CursorsOk, Backed, Covered, HistoryOk, InFlight;
  }

  lemma {:induction false} FreshBacked(h: Handler, s: Sys, a: Action, t: Sys)
    requires Lite(h, s) && a.Start? && Step(h, s, a, t) && t.db != s.db
    ensures Backed(h, t)
  {
    FreshCursors(h, s, a, t);
    hide Step, SourceOk, CursorsOk, Covered, HistoryOk, InFlight, GoneAt;
    forall k | k in t.db.posts ensures BackedByLive(h, t, k) || Gone(h, t, t.db.posts[k].batchRef) {
      assert BackedByLive(h, s, k) || Gone(h, s, s.db.posts[k].batchRef);
    }
  }

  lemma {:induction false} FreshCovered(h: Handler, s: Sys, a: Action, t: Sys)
    requires Lite(h, s) && a.Start? && Step(h, s, a, t) && t.db != s.db
    ensures Covered(h, t)
  {
    FreshCursors(h, s, a, t);
    hide Step, SourceOk, CursorsOk, PostsOwned, Backed, HistoryOk, InFlight;
  }

  lemma {:induction false} FreshHistory(h: Handler, s: Sys, a: Action, t: Sys)
    requires Lite(h, s) && a.Start? && Step(h, s, a, t) && t.db != s.db
    ensures HistoryOk(t)
  {
    FreshCursors(h, s, a, t);
    assert UnusedId(s, a.freshId);
    hide Step, SourceOk, CursorsOk, PostsOwned, Backed, Covered, InFlight, CoordOf;
  }

  lemma {:induction false} ResetKeepsLite(h: Handler, s: Sys, a: Action, t: Sys)
    requires Lite(h, s) && (a.Reset? || a.ResetAll?) && Step(h, s, a, t)
    ensures Lite(h, t)
  {
    ResetPosts(h, s, a, t);
    ResetCovered(h, s, a, t);
    hide SourceOk, PostsOwned, Backed, Covered;
  }

  lemma {:induction false} ResetPosts(h: Handler, s: Sys, a: Action, t: Sys)
    requires Lite(h, s) && (a.Reset? || a.ResetAll?) && Step(h, s, a, t)
    ensures PostsOwned(h, t) && Backed(h, t)
  {
    hide SourceOk, CursorsOk, Covered, HistoryOk, InFlight, GoneAt;
    forall k | k in t.db.posts ensures BackedByLive(h, t, k) || Gone(h, t, t.db.posts[k].batchRef) {
      assert BackedByLive(h, s, k) || Gone(h, s, s.db.posts[k].batchRef);
    }
  }

  lemma {:induction false} ResetCovered(h: Handler, s: Sys, a: Action, t: Sys)
    requires Lite(h, s) && (a.Reset? || a.ResetAll?) && Step(h, s, a, t)
    ensures Covered(h, t)
  {
    hide SourceOk, PostsOwned, Backed, HistoryOk, InFlight;
    forall c, key | IsCurrent(t.db.cursors, c) && IsLive(h, t.source, key)
      && AtOrBefore(CoordOf(t.source.messages[key]), c.at)
      ensures Outcome(h, c, Listed(key, t.source.messages[key])) in t.history
      ensures Stored(h, t, c, Listed(key, t.source.messages[key]))
    {
      assert IsCurrent(s.db.cursors, c);
      var y := Listed(key, s.source.messages[key]);
      assert Outcome(h, c, y) in s.history && Stored(h, s, c, y);
    }
  }

  // ----- the source moves -----

  lemma {:induction false} GrowKeepsLite(h: Handler, s: Sys, a: Action, t: Sys)
    requires Lite(h, s) && a.SourceGrows? && Step(h, s, a, t)
    ensures Lite(h, t)
  {
    GrowBacked(h, s, a, t);
    GrowCovered(h, s, a, t);
    GrowInFlight(h, s, a, t);
    hide Backed, Covered, InFlight, GoneAt;
  }

  lemma {:induction false} GrowBacked(h: Handler, s: Sys, a: Action, t: Sys)
    requires Lite(h, s) && a.SourceGrows? && Step(h, s, a, t)
    ensures Backed(h, t)
  {
    hide SourceOk, CursorsOk, PostsOwned, Covered, HistoryOk, InFlight, GoneAt;
    forall k | k in t.db.posts ensures BackedByLive(h, t, k) || Gone(h, t, t.db.posts[k].batchRef) {
      assert BackedByLive(h, s, k) || Gone(h, s, s.db.posts[k].batchRef);
    }
  }

  lemma {:induction false} GrowCovered(h: Handler, s: Sys, a: Action, t: Sys)
    requires Lite(h, s) && a.SourceGrows? && Step(h, s, a, t)
    ensures Covered(h, t)
  {
    hide CursorsOk, PostsOwned, Backed, HistoryOk, InFlight, GoneAt;
    forall c, key | IsCurrent(t.db.cursors, c) && IsLive(h, t.source, key)
      && AtOrBefore(CoordOf(t.source.messages[key]), c.at)
      ensures Outcome(h, c, Listed(key, t.source.messages[key])) in t.history
      ensures Stored(h, t, c, Listed(key, t.source.messages[key]))
    {
      assert IsLive(h, s.source, key);
      var y := Listed(key, s.source.messages[key]);
      assert Outcome(h, c, y) in s.history && Stored(h, s, c, y);
    }
  }

  lemma {:induction false} GrowInFlight(h: Handler, s: Sys, a: Action, t: Sys)
    requires Lite(h, s) && a.SourceGrows? && Step(h, s, a, t)
    ensures InFlight(h, t)
  {
    hide SourceOk, CursorsOk, PostsOwned, Backed, Covered, HistoryOk, GoneAt;
    if s.pc.Projecting? && s.pc.rows != [] {
      forall x | x in s.pc.rows ensures StillMeaningful(h, t, x, LastCoord(s.pc.rows)) {
        assert StillMeaningful(h, s, x, LastCoord(s.pc.rows));
      }
    }
  }

  lemma {:induction false} ReorgKeepsLite(h: Handler, s: Sys, a: Action, t: Sys)
    requires Lite(h, s) && a.SourceReorgs? && UntimedStep(h, s, a, t)
    ensures Lite(h, t)
  {
    ReorgBacked(h, s, a, t);
    ReorgCovered(h, s, a, t);
    ReorgInFlight(h, s, a, t);
    hide Backed, Covered, InFlight, GoneAt;
  }

  lemma {:induction false} ReorgBacked(h: Handler, s: Sys, a: Action, t: Sys)
    requires Lite(h, s) && a.SourceReorgs? && UntimedStep(h, s, a, t)
    ensures Backed(h, t)
  {
    hide SourceOk, CursorsOk, PostsOwned, Covered, HistoryOk, InFlight, GoneAt;
    forall k | k in t.db.posts ensures BackedByLive(h, t, k) || Gone(h, t, t.db.posts[k].batchRef) {
      assert BackedByLive(h, s, k) || Gone(h, s, s.db.posts[k].batchRef);
      if BackedByLive(h, s, k) && s.db.posts[k].batchRef != a.txHash {
        assert IsLive(h, t.source, h.owner(k.messageId));
      }
    }
  }

  lemma {:induction false} ReorgCovered(h: Handler, s: Sys, a: Action, t: Sys)
    requires Lite(h, s) && a.SourceReorgs? && UntimedStep(h, s, a, t)
    ensures Covered(h, t)
  {
    hide SourceOk, CursorsOk, PostsOwned, Backed, HistoryOk, InFlight, GoneAt;
    forall c, key | IsCurrent(t.db.cursors, c) && IsLive(h, t.source, key)
      && AtOrBefore(CoordOf(t.source.messages[key]), c.at)
      ensures Outcome(h, c, Listed(key, t.source.messages[key])) in t.history
      ensures Stored(h, t, c, Listed(key, t.source.messages[key]))
    {
      assert IsLive(h, s.source, key) && t.source.messages[key] == s.source.messages[key];
      var y := Listed(key, s.source.messages[key]);
      assert Outcome(h, c, y) in s.history && Stored(h, s, c, y);
    }
  }

  lemma {:induction false} ReorgInFlight(h: Handler, s: Sys, a: Action, t: Sys)
    requires Lite(h, s) && a.SourceReorgs? && UntimedStep(h, s, a, t)
    ensures InFlight(h, t)
  {
    hide SourceOk, CursorsOk, PostsOwned, Backed, Covered, HistoryOk, GoneAt;
    if s.pc.Projecting? && s.pc.rows != [] {
      forall x | x in s.pc.rows ensures StillMeaningful(h, t, x, LastCoord(s.pc.rows)) {
        assert StillMeaningful(h, s, x, LastCoord(s.pc.rows));
      }
    }
  }

  lemma {:induction false} StepKeepsLite(h: Handler, s: Sys, a: Action, t: Sys)
    requires Lite(h, s) && UntimedStep(h, s, a, t)
    ensures Lite(h, t)
  {
    hide Lite, Step, ReorgsAnytime;
    match a {
      case BeginTick(_, _, _) => BeginTickKeepsLite(h, s, a, t);
      case ProjectRow => ProjectRowKeepsLite(h, s, t);
      case BeginCascade(_, _) => BeginCascadeKeepsLite(h, s, a, t);
      case CascadeEntry => CascadeKeepsLite(h, s, t);
      case Start(_, _, _, _) => StartKeepsLite(h, s, a, t);
      case Reset(_) => ResetKeepsLite(h, s, a, t);
      case ResetAll => ResetKeepsLite(h, s, a, t);
      case SourceGrows(_) => GrowKeepsLite(h, s, a, t);
      case SourceReorgs(_, _, _) => ReorgKeepsLite(h, s, a, t);
      case _ => LetGoKeepsLite(h, s, a, t);
    }
  }

  // ----- what the reorg cursor promises -----

  /** A step that neither reorgs, nor fetches reorgs, nor cascades leaves reorgs, cascades and current reorg cursor alone. */
  predicate Quiet(a: Action) {
    !a.SourceReorgs? && !a.BeginCascade? && !a.CascadeEntry?
  }

  lemma {:induction false} QuietShape(h: Handler, s: Sys, a: Action, t: Sys)
    requires CursorsOk(s) && Step(h, s, a, t) && Quiet(a)
    ensures forall c | IsCurrent(t.db.cursors, c) && c.reorgAt != -1 ::
              exists b :: IsCurrent(s.db.cursors, b) && b.versionId == c.versionId && b.reorgAt == c.reorgAt
    ensures forall d :: d in s.history ==> d in t.history
    ensures forall tx :: GoneAt(h, t.source, tx) == GoneAt(h, s.source, tx)
    ensures t.pc.Cascading? ==>
              s.pc.Cascading? && t.pc.forward == s.pc.forward && (t.pc.entries == s.pc.entries || t.pc.entries == [])
  {
    hide SourceOk, IsForwardListing, IsReorgListing, ReorgsAnytime, GoneAt;
    if a.ProjectRow? {
      var f, g := s.pc.forward, t.pc.forward;
      AdvanceCurrent(s, f, g, s.db.cursors[f.versionId := g]);
    } else if a.Start? && t.db != s.db {
      MigrateShape(s.db, a.code, a.current, a.freshId, a.now);
    } else {
      assert forall c :: IsCurrent(t.db.cursors, c) ==> IsCurrent(s.db.cursors, c);
    }
  }

  /** A post of the next state was there before, or is that of a fetched row. */
  ghost predicate WasThere(s: Sys, t: Sys, k: PostKey)
    requires k in t.db.posts
  {
    || (k in s.db.posts && s.db.posts[k].batchRef == t.db.posts[k].batchRef)
    || (s.pc.Projecting? && exists x :: x in s.pc.rows && x.row.batchRef == Some(t.db.posts[k].batchRef))
  }

  lemma {:induction false} QuietPosts(h: Handler, s: Sys, a: Action, t: Sys)
    requires Lite(h, s) && Step(h, s, a, t) && Quiet(a)
    ensures forall k :: k in t.db.posts ==> WasThere(s, t, k)
  {
    if a.ProjectRow? {
      var x, f, g := ProjectRowShape(h, s, t);
      assert x in s.pc.rows;
      hide Step, Lite, HasCoord, CoordOf;
    } else {
      hide Lite, Grows, IsForwardListing;
    }
  }

  /** A row just fetched is live, so its batch is not reorged. */
  lemma {:induction false} QuietRows(h: Handler, s: Sys, a: Action, t: Sys)
    requires SourceOk(h, s.source) && Step(h, s, a, t) && Quiet(a) && t.pc.Projecting?
    ensures forall x :: x in t.pc.rows ==>
              || (s.pc.Projecting? && x in s.pc.rows)
              || (x.row.batchRef.Some? ==> !Gone(h, s, x.row.batchRef.value))
  {
    hide GoneAt, CoordOf, ProjectTxn, CascadeTxn, Migrate;
  }

  /** The current reorg cursor is at its start or where it was, and the source reorged nothing. */
  ghost predicate ReorgsAside(h: Handler, s: Sys, t: Sys) {
    && (forall c | IsCurrent(t.db.cursors, c) && c.reorgAt != -1 ::
          exists b :: IsCurrent(s.db.cursors, b) && b.versionId == c.versionId && b.reorgAt == c.reorgAt)
    && (forall tx :: GoneAt(h, t.source, tx) == GoneAt(h, s.source, tx))
  }

  lemma {:induction false} StillAwaits(h: Handler, s: Sys, t: Sys, tx: string)
    requires ReorgsAside(h, s, t) && AwaitsCascade(h, s, tx)
    ensures AwaitsCascade(h, t, tx)
  {
    hide GoneAt;
  }

  lemma {:induction false} QuietLeftovers(h: Handler, s: Sys, a: Action, t: Sys)
    requires Inv(h, s) && Step(h, s, a, t) && Quiet(a) && ReorgsAside(h, s, t)
    ensures LeftoversAwait(h, t)
  {
    QuietPosts(h, s, a, t);
    hide Step, ReorgsOk, CascadesDone, EntriesInFlight, AwaitsCascade, GoneAt, ReorgsAside;
    forall k | k in t.db.posts && Gone(h, t, t.db.posts[k].batchRef) ensures AwaitsCascade(h, t, t.db.posts[k].batchRef) {
      assert WasThere(s, t, k);
      SameGone(h, s, t, t.db.posts[k].batchRef);
      StillAwaits(h, s, t, t.db.posts[k].batchRef);
    }
    if t.pc.Projecting? {
      QuietRows(h, s, a, t);
      hide Lite, WasThere;
      forall x | x in t.pc.rows && x.row.batchRef.Some? && Gone(h, t, x.row.batchRef.value)
        ensures AwaitsCascade(h, t, x.row.batchRef.value)
      {
        SameGone(h, s, t, x.row.batchRef.value);
        StillAwaits(h, s, t, x.row.batchRef.value);
      }
    }
  }

  lemma {:induction false} SameGone(h: Handler, s: Sys, t: Sys, tx: string)
    requires ReorgsAside(h, s, t)
    ensures Gone(h, s, tx) <==> Gone(h, t, tx)
  {
    hide GoneAt;
  }

  lemma {:induction false} QuietDone(h: Handler, s: Sys, t: Sys)
    requires ReorgsOk(h, s) && CascadesDone(h, s) && ReorgsAside(h, s, t) && forall d :: d in s.history ==> d in t.history
    ensures ReorgsOk(h, t) && CascadesDone(h, t)
  {
    hide GoneAt;
    forall c | IsCurrent(t.db.cursors, c) && c.reorgAt != -1
      ensures exists tx :: Gone(h, t, tx) && GoneAt(h, t.source, tx).value >= c.reorgAt
    {
      var b :| IsCurrent(s.db.cursors, b) && b.versionId == c.versionId && b.reorgAt == c.reorgAt;
      var tx :| Gone(h, s, tx) && GoneAt(h, s.source, tx).value >= b.reorgAt;
      assert Gone(h, t, tx);
    }
    forall c, tx | IsCurrent(t.db.cursors, c) && Gone(h, t, tx) && GoneAt(h, t.source, tx).value <= c.reorgAt
      ensures Cascaded(c.versionId, ReorgEntry(tx, GoneAt(h, t.source, tx).value)) in t.history
    {
      var b :| IsCurrent(s.db.cursors, b) && b.versionId == c.versionId && b.reorgAt == c.reorgAt;
      assert Gone(h, s, tx);
      assert Cascaded(b.versionId, ReorgEntry(tx, GoneAt(h, s.source, tx).value)) in s.history;
    }
  }

  lemma {:induction false} QuietKeepsTimely(h: Handler, s: Sys, a: Action, t: Sys)
    requires Inv(h, s) && Step(h, s, a, t) && Quiet(a)
    ensures Timely(h, t)
  {
    QuietShape(h, s, a, t);
    QuietLeftovers(h, s, a, t);
    hide Step, Lite, LeftoversAwait, ReorgsOk, CascadesDone, EntriesInFlight;
    QuietDone(h, s, t);
    if t.pc.Cascading? {
      hide ReorgsAside;
      if t.pc.entries == [] {
        NoEntries(h, t, t.pc.forward);
      } else {
        SameEntries(h, s, t, t.pc.entries, t.pc.forward);
      }
    }
  }

  lemma {:induction false} NoEntries(h: Handler, t: Sys, f: Cursor)
    ensures EntriesInFlight(h, t, [], f)
  {
  }

  lemma {:induction false} BeginCascadeKeepsTimely(h: Handler, s: Sys, a: Action, t: Sys)
    requires Inv(h, s) && a.BeginCascade? && Step(h, s, a, t)
    ensures Timely(h, t)
  {
    EntriesFetched(h, s, a.entryLimit, a.entries, s.pc.forward);
    SameReorgs(h, s, t, a.entries, s.pc.forward);
    hide Lite, IsReorgListing, EntriesInFlight, ReorgsOk, CascadesDone, LeftoversAwait;
  }

  lemma {:induction false} SameReorgs(h: Handler, s: Sys, t: Sys, entries: seq<ReorgEntry>, f: Cursor)
    requires ReorgsOk(h, s) && CascadesDone(h, s) && LeftoversAwait(h, s) && EntriesInFlight(h, s, entries, f)
    requires t == s.(pc := Cascading(entries, f))
    ensures ReorgsOk(h, t) && CascadesDone(h, t) && LeftoversAwait(h, t) && EntriesInFlight(h, t, entries, f)
  {
    assert ReorgsAside(h, s, t);
    QuietDone(h, s, t);
    hide GoneAt, ReorgsOk, CascadesDone;
    forall k | k in t.db.posts && Gone(h, t, t.db.posts[k].batchRef) ensures AwaitsCascade(h, t, t.db.posts[k].batchRef) {
      assert AwaitsCascade(h, s, s.db.posts[k].batchRef);
    }
  }

  lemma {:induction false} SameEntries(h: Handler, s: Sys, t: Sys, entries: seq<ReorgEntry>, f: Cursor)
    requires EntriesInFlight(h, s, entries, f) && forall tx :: GoneAt(h, t.source, tx) == GoneAt(h, s.source, tx)
    ensures EntriesInFlight(h, t, entries, f)
  {
    hide GoneAt;
  }

  lemma {:induction false} EntriesFetched(h: Handler, s: Sys, limit: nat, entries: seq<ReorgEntry>, f: Cursor)
    requires ReorgsOk(h, s) && IsReorgListing(h, s.source, f.reorgAt, limit, entries)
    ensures EntriesInFlight(h, s, entries, f)
  {
    hide GoneAt;
    forall i, j | 0 <= i < j < |entries| ensures entries[i].invalidatedAt < entries[j].invalidatedAt {
      assert entries[i] in entries && entries[j] in entries;
      assert EntryBefore(entries[i], entries[j]);
      if entries[i].invalidatedAt == entries[j].invalidatedAt {
        assert entries[i].txHash == entries[j].txHash;
        LexIrreflexive(entries[i].txHash);
      }
    }
    if entries != [] {
      var last := entries[|entries| - 1];
      assert last in entries;
      forall tx | Gone(h, s, tx) && f.reorgAt < GoneAt(h, s.source, tx).value <= last.invalidatedAt
        ensures ReorgEntry(tx, GoneAt(h, s.source, tx).value) in entries
      {
        var e := ReorgEntry(tx, GoneAt(h, s.source, tx).value);
        if e !in entries {
          assert EntryBefore(last, e);
          assert GoneAt(h, s.source, tx) == GoneAt(h, s.source, last.txHash);
          LexIrreflexive(tx);
        }
      }
    }
  }

  lemma {:induction false} LexIrreflexive(s: string)
    ensures !Text.LexLess(s, s)
  {
    if s != "" {
      LexIrreflexive(s[1..]);
    }
  }

  /** The entry cascaded is younger than the reorg cursor, which moves to its time. */
  lemma {:induction false} CascadeShape(h: Handler, s: Sys, t: Sys) returns (e: ReorgEntry, f: Cursor, g: Cursor)
    requires Inv(h, s) && Step(h, s, CascadeEntry, t)
    ensures s.pc == Cascading([e] + s.pc.entries[1..], f) && t.pc == Cascading(s.pc.entries[1..], g)
    ensures f.reorgAt < e.invalidatedAt
    ensures Gone(h, s, e.txHash) && GoneAt(h, s.source, e.txHash).value >= e.invalidatedAt
    ensures IsCurrent(s.db.cursors, f) && g == f.(reorgAt := e.invalidatedAt)
    ensures t.db.cursors == s.db.cursors[f.versionId := g]
    ensures forall c :: IsCurrent(s.db.cursors, c) <==> c == f
    ensures forall c :: IsCurrent(t.db.cursors, c) <==> c == g
    ensures t.source == s.source && t.code == s.code
    ensures t.history == s.history + [Cascaded(f.versionId, e)]
    ensures t.db.posts == Evict(s.db.posts, e.txHash)
  {
    e, f, g := CascadeCommit(h, s, t);
    hide Lite, ReorgsOk, LeftoversAwait, CascadesDone, Step, GoneAt;
    assert e in s.pc.entries;
  }

  /** The head of the list is the oldest reorg not yet cascaded: whatever is older is done. */
  lemma {:induction false} CascadeReach(h: Handler, s: Sys, tx: string)
    requires Inv(h, s) && s.pc.Cascading? && s.pc.entries != []
    requires Gone(h, s, tx) && GoneAt(h, s.source, tx).value <= s.pc.entries[0].invalidatedAt
    ensures GoneAt(h, s.source, tx).value <= s.pc.forward.reorgAt
            || s.pc.entries[0] == ReorgEntry(tx, GoneAt(h, s.source, tx).value)
  {
    hide Lite, ReorgsOk, LeftoversAwait, CascadesDone, GoneAt;
    var es := s.pc.entries;
    var e := ReorgEntry(tx, GoneAt(h, s.source, tx).value);
    if s.pc.forward.reorgAt < e.invalidatedAt {
      if |es| > 1 {
        assert es[0].invalidatedAt < es[|es| - 1].invalidatedAt;
      }
      assert e in es;
      var i :| 0 <= i < |es| && es[i] == e;
      if i > 0 {
        assert es[0].invalidatedAt < es[i].invalidatedAt;
      }
    }
  }

  lemma {:induction false} CascadeDone(h: Handler, s: Sys, t: Sys)
    requires Inv(h, s) && Step(h, s, CascadeEntry, t)
    ensures ReorgsOk(h, t) && CascadesDone(h, t)
  {
    hide Lite, LeftoversAwait, Step, GoneAt;
    var e, f, g := CascadeShape(h, s, t);
    forall c, tx | IsCurrent(t.db.cursors, c) && Gone(h, t, tx) && GoneAt(h, t.source, tx).value <= c.reorgAt
      ensures Cascaded(c.versionId, ReorgEntry(tx, GoneAt(h, t.source, tx).value)) in t.history
    {
      CascadeReach(h, s, tx);
      if GoneAt(h, s.source, tx).value <= f.reorgAt {
        assert Cascaded(f.versionId, ReorgEntry(tx, GoneAt(h, s.source, tx).value)) in s.history;
      }
    }
  }

  lemma {:induction false} CascadeLeftovers(h: Handler, s: Sys, t: Sys)
    requires Inv(h, s) && Step(h, s, CascadeEntry, t)
    ensures LeftoversAwait(h, t)
  {
    hide Lite, ReorgsOk, CascadesDone, EntriesInFlight, Step, GoneAt;
    var e, f, g := CascadeShape(h, s, t);
    forall k | k in t.db.posts && Gone(h, t, t.db.posts[k].batchRef) ensures AwaitsCascade(h, t, t.db.posts[k].batchRef) {
      var tx := s.db.posts[k].batchRef;
      assert AwaitsCascade(h, s, tx);
      if GoneAt(h, s.source, tx).value <= e.invalidatedAt {
        CascadeReach(h, s, tx);
      }
    }
  }

  /** The rest of a climbing list climbs from its head on, and holds all but the head. */
  lemma {:induction false} RestClimbs(es: seq<ReorgEntry>)
    requires es != [] && forall i, j :: 0 <= i < j < |es| ==> es[i].invalidatedAt < es[j].invalidatedAt
    ensures forall i, j :: 0 <= i < j < |es[1..]| ==> es[1..][i].invalidatedAt < es[1..][j].invalidatedAt
    ensures forall x :: x in es[1..] ==> x in es && x.invalidatedAt > es[0].invalidatedAt
    ensures forall x :: x in es && x != es[0] ==> x in es[1..]
  {
    var rest := es[1..];
    assert es == [es[0]] + rest;
    forall x | x in rest ensures x.invalidatedAt > es[0].invalidatedAt {
      var i :| 0 <= i < |rest| && rest[i] == x;
      assert es[0].invalidatedAt < es[i + 1].invalidatedAt;
    }
  }

  /** What is left of a listing behind its head is the listing from the head's timestamp on. */
  lemma {:induction false} EntriesAdvance(h: Handler, s: Sys, t: Sys, es: seq<ReorgEntry>, f: Cursor, g: Cursor)
    requires EntriesInFlight(h, s, es, f) && es != [] && t.source == s.source
    requires f.reorgAt < g.reorgAt == es[0].invalidatedAt
    ensures EntriesInFlight(h, t, es[1..], g)
  {
    hide GoneAt;
    RestClimbs(es);
    var rest := es[1..];
    if rest != [] {
      assert rest[|rest| - 1] == es[|es| - 1];
      forall tx | Gone(h, t, tx) && g.reorgAt < GoneAt(h, t.source, tx).value <= rest[|rest| - 1].invalidatedAt
        ensures ReorgEntry(tx, GoneAt(h, t.source, tx).value) in rest
      {
        assert ReorgEntry(tx, GoneAt(h, s.source, tx).value) in es;
      }
    }
  }

  lemma {:induction false} CascadeKeepsTimely(h: Handler, s: Sys, t: Sys)
    requires Inv(h, s) && Step(h, s, CascadeEntry, t)
    ensures Timely(h, t)
  {
    CascadeDone(h, s, t);
    CascadeLeftovers(h, s, t);
    hide Lite, ReorgsOk, LeftoversAwait, CascadesDone, Step, EntriesInFlight;
    var e, f, g := CascadeShape(h, s, t);
    EntriesAdvance(h, s, t, s.pc.entries, f, g);
  }

  /** The new reorg awaits the cascade, and so does every batch that did before. */
  lemma {:induction false} ReorgNewest(h: Handler, s: Sys, a: Action, t: Sys)
    requires Timely(h, s) && a.SourceReorgs? && Step(h, s, a, t)
    ensures AwaitsCascade(h, t, a.txHash)
    ensures forall tx :: AwaitsCascade(h, s, tx) ==> AwaitsCascade(h, t, tx)
    ensures ReorgsOk(h, t) && CascadesDone(h, t)
  {
    hide SourceOk, LeftoversAwait, EntriesInFlight, GoneAt;
    forall c | IsCurrent(t.db.cursors, c) ensures a.invalidatedAt > c.reorgAt {
      assert IsCurrent(s.db.cursors, c);
    }
    assert GoneAt(h, t.source, a.txHash) == Some(a.invalidatedAt);
    forall c | IsCurrent(t.db.cursors, c) && c.reorgAt != -1
      ensures exists tx :: Gone(h, t, tx) && GoneAt(h, t.source, tx).value >= c.reorgAt
    {
      assert Gone(h, t, a.txHash);
    }
    forall c, tx | IsCurrent(t.db.cursors, c) && Gone(h, t, tx) && GoneAt(h, t.source, tx).value <= c.reorgAt
      ensures Cascaded(c.versionId, ReorgEntry(tx, GoneAt(h, t.source, tx).value)) in t.history
    {
      assert GoneAt(h, t.source, tx) == GoneAt(h, s.source, tx);
    }
  }

  lemma {:induction false} ReorgEntriesInFlight(h: Handler, s: Sys, a: Action, t: Sys)
    requires s.pc.Cascading? && EntriesInFlight(h, s, s.pc.entries, s.pc.forward)
    requires a.SourceReorgs? && Step(h, s, a, t)
    ensures EntriesInFlight(h, t, s.pc.entries, s.pc.forward)
  {
    hide SourceOk, GoneAt;
    var entries := s.pc.entries;
    forall e | e in entries ensures Gone(h, t, e.txHash) && GoneAt(h, t.source, e.txHash).value >= e.invalidatedAt {
      assert GoneAt(h, s.source, e.txHash).value < a.invalidatedAt;
    }
    if entries != [] {
      var last := entries[|entries| - 1];
      assert last in entries;
      forall tx | Gone(h, t, tx) && s.pc.forward.reorgAt < GoneAt(h, t.source, tx).value <= last.invalidatedAt
        ensures ReorgEntry(tx, GoneAt(h, t.source, tx).value) in entries
      {
        assert GoneAt(h, s.source, last.txHash).value < a.invalidatedAt;
        assert GoneAt(h, t.source, tx) == GoneAt(h, s.source, tx);
      }
    }
  }

  lemma {:induction false} ReorgKeepsTimely(h: Handler, s: Sys, a: Action, t: Sys)
    requires Timely(h, s) && a.SourceReorgs? && Step(h, s, a, t)
    ensures Timely(h, t)
  {
    ReorgNewest(h, s, a, t);
    ReorgLeftovers(h, s, a, t);
    if s.pc.Cascading? {
      ReorgEntriesInFlight(h, s, a, t);
    }
    hide ReorgsOk, CascadesDone, EntriesInFlight, LeftoversAwait, Reorgs;
  }

  lemma {:induction false} ReorgLeftovers(h: Handler, s: Sys, a: Action, t: Sys)
    requires Timely(h, s) && a.SourceReorgs? && Step(h, s, a, t)
    ensures LeftoversAwait(h, t)
  {
    ReorgNewest(h, s, a, t);
    hide ReorgsOk, CascadesDone, EntriesInFlight, SourceOk, GoneAt, IsLive, AwaitsCascade;
    forall tx | Gone(h, t, tx) ensures tx == a.txHash || Gone(h, s, tx) {
    }
    hide ReorgsAnytime, Gone;
  }

  // ----- every step -----

  lemma {:induction false} StepKeepsInv(h: Handler, s: Sys, a: Action, t: Sys)
    requires Inv(h, s) && Step(h, s, a, t)
    ensures Inv(h, t)
  {
    hide Step, Lite, Timely, ReorgsAnytime;
    StepIsUntimed(h, s, a, t);
    StepKeepsLite(h, s, a, t);
    if a.SourceReorgs? {
      ReorgKeepsTimely(h, s, a, t);
    } else if a.BeginCascade? {
      BeginCascadeKeepsTimely(h, s, a, t);
    } else if a.CascadeEntry? {
      CascadeKeepsTimely(h, s, t);
    } else {
      QuietKeepsTimely(h, s, a, t);
    }
  }

  lemma {:induction false} StepIsUntimed(h: Handler, s: Sys, a: Action, t: Sys)
    requires Step(h, s, a, t)
    ensures UntimedStep(h, s, a, t)
  {
    if a.SourceReorgs? {
      hide ReorgsAnytime;
    }
  }
}
