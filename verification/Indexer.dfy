// packages/bam-indexer/src/framework: one handler's incremental projection of the message log.
//
// The source is the store's tables; the indexer's own database holds the generation cursors and
// the projected posts. Every transaction is one function on that database. The machine below
// interleaves the transactions of a tick with changes of the source, failures, crashes and restarts.
module Indexer {
  import opened Wrappers
  import opened Bytes
  import opened Text
  import opened Store

  // ----- coordinates and cursors (cursor.ts) -----

  datatype Coord = Coord(block: int, tx: int, msg: int)

  const GENESIS := Coord(-1, -1, -1)

  predicate Before(a: Coord, b: Coord) {
    || a.block < b.block
    || (a.block == b.block && a.tx < b.tx)
    || (a.block == b.block && a.tx == b.tx && a.msg < b.msg)
  }

  predicate AtOrBefore(a: Coord, b: Coord) {
    a == b || Before(a, b)
  }

  type VersionId = nat

  datatype Cursor = Cursor(
    versionId: VersionId, handlerVersion: nat, isCurrent: bool, supersededAt: Option<nat>,
    at: Coord, reorgAt: int)

  type Cursors = map<VersionId, Cursor>

  ghost predicate IsCurrent(cursors: Cursors, c: Cursor) {
    c.versionId in cursors && cursors[c.versionId] == c && c.isCurrent
  }

  ghost predicate NoCurrent(cursors: Cursors) {
    forall v :: v in cursors ==> !cursors[v].isCurrent
  }

  /** The upsert, under the unique index that allows one current row per handler. */
  function UpsertCursor(cursors: Cursors, c: Cursor): Option<Cursors> {
    if c.isCurrent && exists v :: v in cursors && v != c.versionId && cursors[v].isCurrent then None
    else Some(cursors[c.versionId := c])
  }

  function SupersedeCurrent(cursors: Cursors, now: nat): Cursors {
    map v | v in cursors ::
      if cursors[v].isCurrent then cursors[v].(isCurrent := false, supersededAt := Some(now)) else cursors[v]
  }

  function FreshCursor(versionId: VersionId, handlerVersion: nat): Cursor {
    Cursor(versionId, handlerVersion, true, None, GENESIS, -1)
  }

  // ----- the handler (handler.ts, handlers/post-reply) -----

  datatype Event = Event(kind: nat, timestamp: nat, content: string, parent: Option<string>)

  datatype PostKey = PostKey(versionId: VersionId, messageId: string)

  datatype Post = Post(key: MessageKey, messageHash: string, event: Event, batchRef: string, at: Coord)

  type Posts = map<PostKey, Post>

  /** `decode` is the deployed code's decoder; `owner` is the (sender, nonce) a message id was hashed from. */
  datatype Handler = Handler(
    chainId: nat, contentTag: string,
    decode: (nat, bytes) -> Option<Event>, owner: string -> MessageKey)

  datatype Listed = Listed(key: MessageKey, row: MessageRow)

  function CoordOf(row: MessageRow): Coord {
    Coord(if row.blockNumber.Some? then row.blockNumber.value else -1,
          if row.txIndex.Some? then row.txIndex.value else -1,
          if row.messageIndexWithinBatch.Some? then row.messageIndexWithinBatch.value else -1)
  }

  predicate HasCoord(row: MessageRow) {
    row.blockNumber.Some? && row.txIndex.Some? && row.messageIndexWithinBatch.Some?
  }

  predicate Projectable(row: MessageRow) {
    row.messageId.Some? && row.batchRef.Some? && HasCoord(row)
  }

  function PostOf(x: Listed, event: Event): Post
    requires x.row.batchRef.Some?
  {
    Post(x.key, x.row.messageHash, event, x.row.batchRef.value, CoordOf(x.row))
  }

  /** `project`: throws on a missing id or coordinate, else upserts; a conflict keeps sender and nonce. */
  function Project(posts: Posts, v: VersionId, x: Listed, event: Event): Option<Posts> {
    if !Projectable(x.row) then None
    else
      var k := PostKey(v, x.row.messageId.value);
      var post := PostOf(x, event);
      Some(posts[k := if k in posts then post.(key := posts[k].key) else post])
  }

  /** `onReorg`: evicts the batch from every generation. */
  function Evict(posts: Posts, txHash: string): Posts {
    map k | k in posts && posts[k].batchRef != txHash :: posts[k]
  }

  function DeleteVersion(posts: Posts, v: VersionId): Posts {
    map k | k in posts && k.versionId != v :: posts[k]
  }

  // ----- the two queries (bam-store-source.ts) -----

  predicate IsLive(h: Handler, src: Tables, key: MessageKey) {
    && key in src.messages
    && src.messages[key].status == Confirmed
    && src.messages[key].contentTag == h.contentTag
    && src.messages[key].chainId == Some(h.chainId)
    && HasCoord(src.messages[key])
  }

  ghost predicate IsForwardListing(h: Handler, src: Tables, after: Coord, limit: nat, rows: seq<Listed>) {
    && |rows| <= limit
    && (forall i, j :: 0 <= i < j < |rows| ==> Before(CoordOf(rows[i].row), CoordOf(rows[j].row)))
    && (forall x :: x in rows ==>
          IsLive(h, src, x.key) && x.row == src.messages[x.key] && Before(after, CoordOf(x.row)))
    && (forall key :: IsLive(h, src, key) && Before(after, CoordOf(src.messages[key])) ==>
          || Listed(key, src.messages[key]) in rows
          || (|rows| == limit && forall x :: x in rows ==> Before(CoordOf(x.row), CoordOf(src.messages[key]))))
  }

  datatype ReorgEntry = ReorgEntry(txHash: string, invalidatedAt: nat)

  /** When the batch of this handler's chain and tag in `txHash` was reorged, if it was. */
  function GoneAt(h: Handler, src: Tables, txHash: string): Option<nat> {
    var key := BatchKey(h.chainId, txHash, h.contentTag);
    if key in src.batches && src.batches[key].status == BatchReorged then src.batches[key].invalidatedAt else None
  }

  predicate EntryBefore(a: ReorgEntry, b: ReorgEntry) {
    a.invalidatedAt < b.invalidatedAt || (a.invalidatedAt == b.invalidatedAt && LexLess(a.txHash, b.txHash))
  }

  ghost predicate IsReorgListing(h: Handler, src: Tables, after: int, limit: nat, entries: seq<ReorgEntry>) {
    && |entries| <= limit
    && (forall i, j :: 0 <= i < j < |entries| ==> EntryBefore(entries[i], entries[j]))
    && (forall e :: e in entries ==> GoneAt(h, src, e.txHash) == Some(e.invalidatedAt) && e.invalidatedAt > after)
    && (forall tx :: GoneAt(h, src, tx).Some? && GoneAt(h, src, tx).value > after ==>
          var e := ReorgEntry(tx, GoneAt(h, src, tx).value);
          || e in entries
          || (|entries| == limit && forall x :: x in entries ==> EntryBefore(x, e)))
  }

  // ----- the transactions of a tick (tick.ts) -----

  datatype Db = Db(cursors: Cursors, posts: Posts)

  /** What a committed transaction did: the history of a run. */
  datatype Done =
    | Projected(versionId: VersionId, listed: Listed)
    | Dropped(versionId: VersionId, listed: Listed)
    | Cascaded(versionId: VersionId, entry: ReorgEntry)

  datatype Commit = Commit(db: Db, forward: Cursor, done: Done)

  function Advance(forward: Cursor, row: MessageRow): Cursor {
    forward.(at := Coord(
      if row.blockNumber.Some? then row.blockNumber.value else forward.at.block,
      if row.txIndex.Some? then row.txIndex.value else forward.at.tx,
      if row.messageIndexWithinBatch.Some? then row.messageIndexWithinBatch.value else forward.at.msg))
  }

  function AdvanceReorg(forward: Cursor, entry: ReorgEntry): Cursor {
    forward.(reorgAt := if forward.reorgAt > entry.invalidatedAt then forward.reorgAt else entry.invalidatedAt)
  }

  /** `projectOne`'s transaction, or None when it throws and rolls back. */
  function ProjectTxn(h: Handler, code: nat, db: Db, x: Listed, forward: Cursor): Option<Commit> {
    var advanced := Advance(forward, x.row);
    match h.decode(code, x.row.contents)
    case None =>
      (match UpsertCursor(db.cursors, advanced)
       case None => None
       case Some(cs) => Some(Commit(db.(cursors := cs), advanced, Dropped(forward.versionId, x))))
    case Some(event) =>
      (match Project(db.posts, forward.versionId, x, event)
       case None => None
       case Some(ps) =>
         match UpsertCursor(db.cursors, advanced)
         case None => None
         case Some(cs) => Some(Commit(Db(cs, ps), advanced, Projected(forward.versionId, x))))
  }

  /** `reorgOne`'s transaction. */
  function CascadeTxn(db: Db, e: ReorgEntry, forward: Cursor): Option<Commit> {
    var advanced := AdvanceReorg(forward, e);
    match UpsertCursor(db.cursors, advanced)
    case None => None
    case Some(cs) => Some(Commit(Db(cs, Evict(db.posts, e.txHash)), advanced, Cascaded(forward.versionId, e)))
  }

  // ----- process start and resets (migrate.ts) -----

  function Migrate(db: Db, code: nat, current: Option<Cursor>, freshId: VersionId, now: nat): Db {
    match current
    case None => db.(cursors := db.cursors[freshId := FreshCursor(freshId, code)])
    case Some(c) =>
      if c.handlerVersion == code then db
      else db.(cursors := SupersedeCurrent(db.cursors, now)[freshId := FreshCursor(freshId, code)])
  }

  function ResetVersion(db: Db, v: VersionId): Db {
    Db(db.cursors - {v}, DeleteVersion(db.posts, v))
  }

  // ----- the machine -----

  /** Where the worker stands: between ticks, or holding a fetched list and its in-memory cursor. */
  datatype Pc =
    | Idle
    | Projecting(rows: seq<Listed>, forward: Cursor)
    | Cascading(entries: seq<ReorgEntry>, forward: Cursor)

  datatype Sys = Sys(source: Tables, db: Db, code: nat, pc: Pc, history: seq<Done>)

  datatype Action =
    | BeginTick(cursor: Cursor, rowLimit: nat, rows: seq<Listed>)
    | ProjectRow
    | ProjectThrows
    | BeginCascade(entryLimit: nat, entries: seq<ReorgEntry>)
    | CascadeEntry
    | CascadeThrows
    | EndTick
    | Crash
    | Start(current: Option<Cursor>, code: nat, freshId: VersionId, now: nat)
    | Reset(versionId: VersionId)
    | ResetAll
    | SourceGrows(source: Tables)
    | SourceReorgs(source: Tables, txHash: string, invalidatedAt: nat)

  /** The last fetched row while projecting, else the current cursor: no new row may land at or below it. */
  ghost predicate AboveHighWater(s: Sys, at: Coord) {
    && (forall c :: IsCurrent(s.db.cursors, c) ==> Before(c.at, at))
    && (s.pc.Projecting? && s.pc.rows != [] ==> Before(CoordOf(s.pc.rows[|s.pc.rows| - 1].row), at))
  }

  /** What the chain guarantees of any moment of the source: live rows of the handler have distinct
      coordinates, ids that belong to their slot, and a batch row that is not reorged. */
  ghost predicate SourceOk(h: Handler, src: Tables) {
    && (forall a, b :: IsLive(h, src, a) && IsLive(h, src, b) && a != b ==>
          CoordOf(src.messages[a]) != CoordOf(src.messages[b]))
    && (forall key :: IsLive(h, src, key) && src.messages[key].messageId.Some? ==>
          h.owner(src.messages[key].messageId.value) == key)
    && (forall key :: IsLive(h, src, key) && src.messages[key].batchRef.Some? ==>
          && BatchKey(h.chainId, src.messages[key].batchRef.value, h.contentTag) in src.batches
          && GoneAt(h, src, src.messages[key].batchRef.value) == None)
  }

  /** Rows are confirmed, wherever they land: what was live stays. */
  ghost predicate GrowsAnywhere(h: Handler, src: Tables, next: Tables) {
    && SourceOk(h, next)
    && (forall tx :: GoneAt(h, next, tx) == GoneAt(h, src, tx))
    && (forall key :: IsLive(h, src, key) ==> IsLive(h, next, key) && next.messages[key] == src.messages[key])
  }

  /** Rows are confirmed, and what is new lands above the high-water mark. */
  ghost predicate Grows(h: Handler, s: Sys, next: Tables) {
    && GrowsAnywhere(h, s.source, next)
    && (forall key :: IsLive(h, next, key) && !IsLive(h, s.source, key) ==>
          AboveHighWater(s, CoordOf(next.messages[key])))
  }

  /** A batch is reorged, whatever the time it is stamped with; its live rows go with it. */
  ghost predicate ReorgsAnytime(h: Handler, src: Tables, next: Tables, txHash: string, at: nat) {
    && SourceOk(h, next)
    && (forall tx :: GoneAt(h, next, tx) == if tx == txHash then Some(at) else GoneAt(h, src, tx))
    && (forall key :: IsLive(h, next, key) <==>
          IsLive(h, src, key) && src.messages[key].batchRef != Some(txHash))
    && (forall key :: IsLive(h, next, key) ==> next.messages[key] == src.messages[key])
  }

  /** A batch is reorged, later than every batch of the tag before it. */
  ghost predicate Reorgs(h: Handler, src: Tables, next: Tables, txHash: string, at: nat) {
    && ReorgsAnytime(h, src, next, txHash, at)
    && (forall tx :: GoneAt(h, src, tx).Some? ==> GoneAt(h, src, tx).value < at)
  }

  ghost predicate UnusedId(s: Sys, id: VersionId) {
    && id !in s.db.cursors
    && forall d :: d in s.history ==> d.versionId != id
  }

  function Committed(s: Sys, c: Commit, pc: Pc): Sys {
    s.(db := c.db, pc := pc, history := s.history + [c.done])
  }

  /** One step of the system. */
  ghost predicate Step(h: Handler, s: Sys, a: Action, t: Sys) {
    match a
    case BeginTick(c, limit, rows) =>
      && s.pc.Idle? && IsCurrent(s.db.cursors, c)
      && IsForwardListing(h, s.source, c.at, limit, rows) && t == s.(pc := Projecting(rows, c))
    case ProjectRow =>
      && s.pc.Projecting? && s.pc.rows != []
      && var r := ProjectTxn(h, s.code, s.db, s.pc.rows[0], s.pc.forward);
      && r.Some? && t == Committed(s, r.value, Projecting(s.pc.rows[1..], r.value.forward))
    case ProjectThrows =>
      s.pc.Projecting? && s.pc.rows != [] && t == s.(pc := Projecting([], s.pc.forward))
    case BeginCascade(limit, entries) =>
      && s.pc.Projecting? && s.pc.rows == []
      && IsReorgListing(h, s.source, s.pc.forward.reorgAt, limit, entries)
      && t == s.(pc := Cascading(entries, s.pc.forward))
    case CascadeEntry =>
      && s.pc.Cascading? && s.pc.entries != []
      && var r := CascadeTxn(s.db, s.pc.entries[0], s.pc.forward);
      && r.Some? && t == Committed(s, r.value, Cascading(s.pc.entries[1..], r.value.forward))
    case CascadeThrows =>
      s.pc.Cascading? && s.pc.entries != [] && t == s.(pc := Cascading([], s.pc.forward))
    case EndTick =>
      s.pc.Cascading? && s.pc.entries == [] && t == s.(pc := Idle)
    case Crash =>
      t == s.(pc := Idle)
    case Start(current, code, freshId, now) =>
      && s.pc.Idle? && UnusedId(s, freshId)
      && (if current.Some? then IsCurrent(s.db.cursors, current.value) else NoCurrent(s.db.cursors))
      && t == s.(db := Migrate(s.db, code, current, freshId, now), code := code)
    case Reset(v) =>
      s.pc.Idle? && t == s.(db := ResetVersion(s.db, v))
    case ResetAll =>
      s.pc.Idle? && t == s.(db := Db(map[], map[]))
    case SourceGrows(next) =>
      Grows(h, s, next) && t == s.(source := next)
    case SourceReorgs(next, txHash, at) =>
      Reorgs(h, s.source, next, txHash, at) && t == s.(source := next)
  }

  /** One step of the system, whatever the times reorgs are stamped with. */
  ghost predicate UntimedStep(h: Handler, s: Sys, a: Action, t: Sys) {
    if a.SourceReorgs? then ReorgsAnytime(h, s.source, a.source, a.txHash, a.invalidatedAt) && t == s.(source := a.source)
    else Step(h, s, a, t)
  }

  ghost predicate Initial(h: Handler, s: Sys) {
    && SourceOk(h, s.source)
    && (forall tx, ty :: GoneAt(h, s.source, tx).Some? && GoneAt(h, s.source, ty) == GoneAt(h, s.source, tx) ==> tx == ty)
    && s.db == Db(map[], map[]) && s.pc == Idle && s.history == []
  }

  /** A run: consecutive states are related by the listed actions. */
  ghost predicate IsRun(h: Handler, states: seq<Sys>, actions: seq<Action>) {
    && |states| == |actions| + 1
    && forall i :: 0 <= i < |actions| ==> Step(h, states[i], actions[i], states[i + 1])
  }
}
