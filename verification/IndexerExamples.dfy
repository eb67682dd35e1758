// Runs of the indexer that end caught up and wrong: a row confirmed below the cursor, and two reorgs in one millisecond.
module IndexerExamples {
  import opened Wrappers
  import Text
  import opened Store
  import opened Indexer
  import opened IndexerInvariant
  import opened IndexerTheorems
  import opened IndexerLanding
  import opened IndexerSource
  import opened IndexerTies
  import opened IndexerLeftovers

  // ----- a row that arrives late -----

  const KEY_A := MessageKey("a", "0")
  const KEY_B := MessageKey("b", "0")

  function ExampleHandler(): Handler {
    Handler(1, "t", (code, contents) => Some(Event(0, 0, "", None)), id => if id == "a" then KEY_A else KEY_B)
  }

  function ExampleRow(id: string, block: nat): MessageRow {
    MessageRow(Some(id), "t", [], [], id, Confirmed, Some(id), Some(1), None, None, Some(block), Some(0), Some(0))
  }

  function ExampleBatches(): map<BatchKey, BatchRow> {
    var batch := BatchRow("", "", None, None, BatchConfirmed, None, None, None, None, None, []);
    map[BatchKey(1, "a", "t") := batch, BatchKey(1, "b", "t") := batch]
  }

  /** Block 5 holds a message of sender a; later block 3 turns out to hold one of sender b. */
  function EarlyTables(): Tables {
    Tables(map[KEY_A := ExampleRow("a", 5)], ExampleBatches(), map[])
  }

  function LateTables(): Tables {
    Tables(map[KEY_A := ExampleRow("a", 5), KEY_B := ExampleRow("b", 3)], ExampleBatches(), map[])
  }

  lemma {:induction false} ExampleLive()
    ensures forall tx :: GoneAt(ExampleHandler(), EarlyTables(), tx) == GoneAt(ExampleHandler(), LateTables(), tx) == None
    ensures forall key :: IsLive(ExampleHandler(), EarlyTables(), key) <==> key == KEY_A
    ensures forall key :: IsLive(ExampleHandler(), LateTables(), key) <==> key == KEY_A || key == KEY_B
  {
  }

  lemma {:induction false} ExampleSources()
    ensures SourceOk(ExampleHandler(), EarlyTables()) && SourceOk(ExampleHandler(), LateTables())
  {
    var h, late := ExampleHandler(), LateTables();
    assert EarlyTables() == Without(late, {KEY_B});
    ExampleLive();
    assert late.messages[KEY_A] == ExampleRow("a", 5) && late.messages[KEY_B] == ExampleRow("b", 3);
    TwoRowsOk(late, 5, 3);
    hide EarlyTables, LateTables, ExampleHandler, GoneAt, IsLive, SourceOk;
    HiddenRows(h, late, {KEY_B});
  }

  /** A source that holds the two example rows in different blocks, neither batch reorged, is well-formed. */
  lemma {:induction false} TwoRowsOk(src: Tables, m: nat, n: nat)
    requires m != n && KEY_A in src.messages && KEY_B in src.messages && src.batches == ExampleBatches()
    requires src.messages[KEY_A] == ExampleRow("a", m) && src.messages[KEY_B] == ExampleRow("b", n)
    requires forall key :: IsLive(ExampleHandler(), src, key) ==> key == KEY_A || key == KEY_B
    requires forall tx :: GoneAt(ExampleHandler(), src, tx) == None
    ensures SourceOk(ExampleHandler(), src)
  {
    var h := ExampleHandler();
    assert h.owner("a") == KEY_A && h.owner("b") == KEY_B && h.chainId == 1 && h.contentTag == "t";
    assert BatchKey(1, "a", "t") in src.batches && BatchKey(1, "b", "t") in src.batches;
    hide ExampleHandler, ExampleBatches, GoneAt, IsLive;
  }

  lemma {:induction false} ExampleGrowth()
    ensures GrowsAnywhere(ExampleHandler(), EarlyTables(), LateTables())
  {
    ExampleSources();
    ExampleLive();
    hide GoneAt, IsLive, SourceOk, ExampleRow, ExampleHandler, ExampleBatches;
  }

  function ExampleStart(): Cursor {
    FreshCursor(0, 0)
  }

  function ExampleEnd(): Cursor {
    ExampleStart().(at := Coord(5, 0, 0))
  }

  function ExampleRows(): seq<Listed> {
    [Listed(KEY_A, ExampleRow("a", 5))]
  }

  function Started(): Sys {
    Sys(EarlyTables(), Db(map[0 := ExampleStart()], map[]), 0, Idle, [])
  }

  /** After the commit of the row of block 5. */
  function Ticked(): Sys {
    var x := ExampleRows()[0];
    Sys(EarlyTables(), Db(map[0 := ExampleEnd()], map[PostKey(0, "a") := PostOf(x, Event(0, 0, "", None))]), 0,
        Projecting([], ExampleEnd()), [Projected(0, x)])
  }

  lemma {:induction false} ExampleListing()
    ensures Step(ExampleHandler(), Started(), BeginTick(ExampleStart(), 2, ExampleRows()),
                 Started().(pc := Projecting(ExampleRows(), ExampleStart())))
  {
    ExampleLive();
    hide GoneAt, IsLive;
    assert IsForwardListing(ExampleHandler(), EarlyTables(), GENESIS, 2, ExampleRows());
  }

  lemma {:induction false} ExampleCommit()
    ensures Step(ExampleHandler(), Started().(pc := Projecting(ExampleRows(), ExampleStart())), ProjectRow, Ticked())
  {
    hide EarlyTables, LateTables, ExampleBatches;
    var cs := map[0 := ExampleStart()];
    assert cs[0 := ExampleEnd()] == map[0 := ExampleEnd()] && ExampleRows()[1..] == [];
    assert UpsertCursor(cs, ExampleEnd()) == Some(map[0 := ExampleEnd()]);
  }

  lemma {:induction false} ExampleCascade()
    ensures Step(ExampleHandler(), Ticked(), BeginCascade(1, []), Ticked().(pc := Cascading([], ExampleEnd())))
  {
    ExampleLive();
    hide GoneAt, EarlyTables, LateTables, ExampleRows;
  }

  /** Block 3 has its row now. */
  function Backfilled(): Sys {
    Ticked().(pc := Idle, source := LateTables())
  }

  lemma {:induction false} ExampleMisses()
    ensures Drained(ExampleHandler(), Backfilled(), ExampleEnd())
    ensures Lookup(Backfilled().db.posts, PostKey(0, "b")) == None
    ensures Recomputed(ExampleHandler(), LateTables(), 0, "b").Some?
  {
    ExampleLive();
    hide GoneAt, IsLive;
  }

  function Installed(): Sys {
    Sys(EarlyTables(), Db(map[], map[]), 0, Idle, [])
  }

  lemma {:induction false} ExampleEnds()
    ensures Initial(ExampleHandler(), Installed()) && Step(ExampleHandler(), Installed(), Start(None, 0, 0, 0), Started())
    ensures Step(ExampleHandler(), Ticked().(pc := Cascading([], ExampleEnd())), EndTick, Ticked().(pc := Idle))
    ensures LooseStep(ExampleHandler(), Ticked().(pc := Idle), SourceGrows(LateTables()), Backfilled())
  {
    ExampleSources();
    ExampleLive();
    ExampleGrowth();
    hide GoneAt, SourceOk, GrowsAnywhere, EarlyTables, LateTables, ExampleRows;
  }

  /** An index that has projected block 5 when block 3 gets its row: it has caught up, and lacks the post of that row. */
  lemma {:induction false} BackfilledRowIsMissing() returns (states: seq<Sys>, actions: seq<Action>, c: Cursor)
    ensures |states| == |actions| + 1
    ensures var h, t := ExampleHandler(), states[|actions|];
      && IsLooseRun(h, states, actions) && Initial(h, states[0]) && Drained(h, t, c)
      && Lookup(t.db.posts, PostKey(c.versionId, "b")) == None && Recomputed(h, t.source, t.code, "b").Some?
  {
    ExampleEnds();
    ExampleListing();
    ExampleCommit();
    ExampleCascade();
    ExampleMisses();
    assert Backfilled().source == LateTables() && Backfilled().code == 0 && ExampleEnd().versionId == 0;
    hide Installed, Started, Ticked, Backfilled, ExampleStart, ExampleEnd, ExampleRows, ExampleHandler, LateTables;
    hide Step, Initial, Drained, Lookup, Recomputed;
    c := ExampleEnd();
    var h := ExampleHandler();
    states, actions := [Installed()], [];
    assert IsLooseRun(h, states, actions);
    hide IsLooseRun;
    states, actions := OneLooser(h, states, actions, Start(None, 0, 0, 0), Started());
    states, actions := OneLooser(h, states, actions, BeginTick(ExampleStart(), 2, ExampleRows()),
                                 Started().(pc := Projecting(ExampleRows(), ExampleStart())));
    states, actions := OneLooser(h, states, actions, ProjectRow, Ticked());
    states, actions := OneLooser(h, states, actions, BeginCascade(1, []), Ticked().(pc := Cascading([], c)));
    states, actions := OneLooser(h, states, actions, EndTick, Ticked().(pc := Idle));
    states, actions := OneLooser(h, states, actions, SourceGrows(LateTables()), Backfilled());
  }

  lemma {:induction false} OneLooser(h: Handler, states: seq<Sys>, actions: seq<Action>, a: Action, t: Sys)
    returns (longer: seq<Sys>, more: seq<Action>)
    requires |states| == |actions| + 1 && IsLooseRun(h, states, actions) && LooseStep(h, states[|actions|], a, t)
    ensures IsLooseRun(h, longer, more) && |longer| == |more| + 1 && longer[0] == states[0] && longer[|more|] == t
  {
    hide LooseStep;
    longer, more := states + [t], actions + [a];
  }

  // ----- two reorgs in one millisecond -----

  /** Blocks 5 and 6 hold a message each. */
  function BothTables(): Tables {
    Tables(map[KEY_A := ExampleRow("a", 5), KEY_B := ExampleRow("b", 6)], ExampleBatches(), map[])
  }

  function FirstReorged(): Tables {
    ReorgOf(BothTables(), "a")
  }

  function BothReorged(): Tables {
    ReorgOf(FirstReorged(), "b")
  }

  function ReorgOf(t: Tables, txHash: string): Tables {
    var r := MarkReorged(t, 1, txHash, 7);
    if r.Ok? then r.value else t
  }

  lemma {:induction false} BothLive()
    ensures SourceOk(ExampleHandler(), BothTables())
    ensures forall tx :: GoneAt(ExampleHandler(), BothTables(), tx) == None
    ensures forall key :: IsLive(ExampleHandler(), BothTables(), key) <==> key == KEY_A || key == KEY_B
    ensures forall key | IsLive(ExampleHandler(), BothTables(), key) ::
              BothTables().messages[key].batchRef == Some("a") || BothTables().messages[key].batchRef == Some("b")
  {
    var h, src := ExampleHandler(), BothTables();
    assert src.messages[KEY_A] == ExampleRow("a", 5) && src.messages[KEY_B] == ExampleRow("b", 6);
    assert forall key :: IsLive(h, src, key) <==> key == KEY_A || key == KEY_B;
    assert forall tx :: GoneAt(h, src, tx) == None;
    hide BothTables, ExampleHandler, GoneAt, IsLive, SourceOk;
    TwoRowsOk(src, 5, 6);
  }

  lemma {:induction false} TwoInOrder(h: Handler, x: Tables, y: Tables, z: Tables, a: string, b: string, at: nat)
    requires ReorgsAnytime(h, x, y, a, at) && ReorgsAnytime(h, y, z, b, at) && forall tx :: GoneAt(h, x, tx) == None
    ensures ReorgsInOrder(h, x, y, a, at) && ReorgsInOrder(h, y, z, b, at)
  {
    hide GoneAt, SourceOk;
  }

  lemma {:induction false} ReorgsOne(h: Handler, t: Tables, txHash: string)
    requires SourceOk(h, t) && h.chainId == 1 && BatchKey(1, txHash, h.contentTag) in t.batches
    ensures ReorgsAnytime(h, t, ReorgOf(t, txHash), txHash, 7) && ReorgOf(t, txHash).batches.Keys == t.batches.Keys
  {
    MarkReorgedIsSourceReorg(h, t, txHash, 7);
    hide SourceOk, GoneAt, ReorgsAnytime;
  }

  /** The two reorgs carry the same time. */
  lemma {:induction false} BothGo()
    ensures ReorgsAnytime(ExampleHandler(), BothTables(), FirstReorged(), "a", 7)
    ensures ReorgsInOrder(ExampleHandler(), BothTables(), FirstReorged(), "a", 7)
    ensures ReorgsAnytime(ExampleHandler(), FirstReorged(), BothReorged(), "b", 7)
    ensures ReorgsInOrder(ExampleHandler(), FirstReorged(), BothReorged(), "b", 7)
  {
    BothLive();
    var h := ExampleHandler();
    assert BatchKey(1, "a", "t") in BothTables().batches && BatchKey(1, "b", "t") in BothTables().batches;
    assert h.chainId == 1 && h.contentTag == "t";
    hide BothTables, ExampleHandler, GoneAt, IsLive, SourceOk, ReorgOf, ReorgsInOrder;
    ReorgsOne(h, BothTables(), "a");
    assert SourceOk(h, FirstReorged());
    hide ReorgsAnytime;
    ReorgsOne(h, FirstReorged(), "b");
    TwoInOrder(h, BothTables(), FirstReorged(), BothReorged(), "a", "b", 7);
  }

  const ROW_A := Listed(KEY_A, ExampleRow("a", 5))
  const ROW_B := Listed(KEY_B, ExampleRow("b", 6))
  const GONE_A := ReorgEntry("a", 7)

  function PostFor(x: Listed): Post
    requires x.row.batchRef.Some?
  {
    PostOf(x, Event(0, 0, "", None))
  }

  function At(block: int, reorgAt: int): Cursor {
    FreshCursor(0, 0).(at := Coord(block, 0, 0), reorgAt := reorgAt)
  }

  function BothFetched(): Sys {
    Sys(BothTables(), Db(map[0 := ExampleStart()], map[]), 0, Projecting([ROW_A, ROW_B], ExampleStart()), [])
  }

  function OneDone(): Sys {
    Sys(BothTables(), Db(map[0 := At(5, -1)], map[PostKey(0, "a") := PostFor(ROW_A)]), 0, Projecting([ROW_B], At(5, -1)),
        [Projected(0, ROW_A)])
  }

  function BothDone(src: Tables): Sys {
    Sys(src, Db(map[0 := At(6, -1)], map[PostKey(0, "a") := PostFor(ROW_A), PostKey(0, "b") := PostFor(ROW_B)]), 0,
        Projecting([], At(6, -1)), [Projected(0, ROW_A), Projected(0, ROW_B)])
  }

  /** After the cascade of the first batch. */
  function Evicted(pc: Pc): Sys {
    Sys(BothReorged(), Db(map[0 := At(6, 7)], map[PostKey(0, "b") := PostFor(ROW_B)]), 0, pc,
        [Projected(0, ROW_A), Projected(0, ROW_B), Cascaded(0, GONE_A)])
  }

  lemma {:induction false} StepIsOrdered(h: Handler, s: Sys, a: Action, t: Sys)
    requires Step(h, s, a, t) && !a.SourceReorgs? && !a.SourceGrows?
    ensures OrderedStep(h, s, a, t)
  {
    hide Step;
  }

  lemma {:induction false} FetchBoth()
    ensures var h, installed := ExampleHandler(), Sys(BothTables(), Db(map[], map[]), 0, Idle, []);
            var started := installed.(db := Db(map[0 := ExampleStart()], map[]));
      && Initial(h, installed) && Step(h, installed, Start(None, 0, 0, 0), started)
      && Step(h, started, BeginTick(ExampleStart(), 3, [ROW_A, ROW_B]), BothFetched())
  {
    BothLive();
    hide GoneAt, IsLive, SourceOk;
    assert IsForwardListing(ExampleHandler(), BothTables(), GENESIS, 3, [ROW_A, ROW_B]);
  }

  lemma {:induction false} ProjectFirst()
    ensures Step(ExampleHandler(), BothFetched(), ProjectRow, OneDone())
  {
    hide BothTables, ExampleBatches;
    var cs := map[0 := ExampleStart()];
    assert cs[0 := At(5, -1)] == map[0 := At(5, -1)] && [ROW_A, ROW_B][1..] == [ROW_B];
    assert UpsertCursor(cs, At(5, -1)) == Some(map[0 := At(5, -1)]);
  }

  lemma {:induction false} ProjectSecond()
    ensures Step(ExampleHandler(), OneDone(), ProjectRow, BothDone(BothTables()))
  {
    hide BothTables, ExampleBatches;
    var cs := map[0 := At(5, -1)];
    assert cs[0 := At(6, -1)] == map[0 := At(6, -1)] && [ROW_B][1..] == [];
    assert UpsertCursor(cs, At(6, -1)) == Some(map[0 := At(6, -1)]);
    assert map[PostKey(0, "a") := PostFor(ROW_A)][PostKey(0, "b") := PostFor(ROW_B)]
           == map[PostKey(0, "a") := PostFor(ROW_A), PostKey(0, "b") := PostFor(ROW_B)];
  }

  lemma {:induction false} TwoReorgs(h: Handler, x: Tables, y: Tables, z: Tables, a: string, b: string, at: nat)
    requires ReorgsAnytime(h, x, y, a, at) && ReorgsAnytime(h, y, z, b, at)
    requires forall tx :: GoneAt(h, x, tx) == None
    requires forall key :: IsLive(h, x, key) ==> x.messages[key].batchRef == Some(a) || x.messages[key].batchRef == Some(b)
    ensures forall tx :: GoneAt(h, z, tx) == if tx == a || tx == b then Some(at) else None
    ensures forall key :: !IsLive(h, z, key)
  {
    hide GoneAt, SourceOk;
    forall key ensures !IsLive(h, z, key) {
      assert !IsLive(h, y, key) || y.messages[key].batchRef == Some(b);
    }
  }

  lemma {:induction false} BothGoneAt()
    ensures forall tx :: GoneAt(ExampleHandler(), BothReorged(), tx) == if tx == "a" || tx == "b" then Some(7) else None
    ensures forall key :: !IsLive(ExampleHandler(), BothReorged(), key)
  {
    BothLive();
    BothGo();
    hide BothTables, FirstReorged, BothReorged, ExampleHandler, GoneAt, IsLive, SourceOk, ReorgsInOrder, ReorgsAnytime;
    TwoReorgs(ExampleHandler(), BothTables(), FirstReorged(), BothReorged(), "a", "b", 7);
  }

  /** A limit of one: the listing holds the first batch only. */
  lemma {:induction false} FetchOne()
    ensures Step(ExampleHandler(), BothDone(BothReorged()), BeginCascade(1, [GONE_A]),
                 BothDone(BothReorged()).(pc := Cascading([GONE_A], At(6, -1))))
  {
    BothGoneAt();
    hide GoneAt, BothReorged;
    assert Text.LexLess("a", "b");
  }

  lemma {:induction false} CascadeFirst()
    ensures Step(ExampleHandler(), BothDone(BothReorged()).(pc := Cascading([GONE_A], At(6, -1))), CascadeEntry,
                 Evicted(Cascading([], At(6, 7))))
  {
    hide BothReorged, ExampleHandler;
    var cs, posts := map[0 := At(6, -1)], map[PostKey(0, "a") := PostFor(ROW_A), PostKey(0, "b") := PostFor(ROW_B)];
    assert cs[0 := At(6, 7)] == map[0 := At(6, 7)] && [GONE_A][1..] == [];
    assert UpsertCursor(cs, At(6, 7)) == Some(map[0 := At(6, 7)]);
    assert PostFor(ROW_A).batchRef == "a" && PostFor(ROW_B).batchRef == "b";
    assert Evict(posts, "a") == map[PostKey(0, "b") := PostFor(ROW_B)];
  }

  lemma {:induction false} SecondIsLeft()
    ensures Leftover(ExampleHandler(), Evicted(Idle), At(6, 7), "b")
    ensures Recomputed(ExampleHandler(), BothReorged(), 0, "b") == None
  {
    BothGoneAt();
    assert PostFor(ROW_B).batchRef == "b";
    hide GoneAt, IsLive, BothReorged;
  }

  lemma {:induction false} BothAreReached()
    ensures Drained(ExampleHandler(), Evicted(Idle), At(6, 7))
  {
    BothGoneAt();
    hide GoneAt, IsLive, BothReorged;
  }

  function Empty(): Sys {
    Sys(BothTables(), Db(map[], map[]), 0, Idle, [])
  }

  function Begun(): Sys {
    Empty().(db := Db(map[0 := ExampleStart()], map[]))
  }

  function OneListed(): Sys {
    BothDone(BothReorged()).(pc := Cascading([GONE_A], At(6, -1)))
  }

  lemma {:induction false} TickOrdered()
    ensures var h := ExampleHandler();
      && Initial(h, Empty()) && OrderedStep(h, Empty(), Start(None, 0, 0, 0), Begun())
      && OrderedStep(h, Begun(), BeginTick(ExampleStart(), 3, [ROW_A, ROW_B]), BothFetched())
      && OrderedStep(h, BothFetched(), ProjectRow, OneDone()) && OrderedStep(h, OneDone(), ProjectRow, BothDone(BothTables()))
  {
    FetchBoth();
    ProjectFirst();
    ProjectSecond();
    assert Empty() == Sys(BothTables(), Db(map[], map[]), 0, Idle, []);
    assert Begun() == Empty().(db := Db(map[0 := ExampleStart()], map[]));
    hide Step, BothTables, ExampleHandler, BothFetched, OneDone, BothDone, Empty, Begun, Initial, ExampleStart, OrderedStep;
    var h := ExampleHandler();
    StepIsOrdered(h, Empty(), Start(None, 0, 0, 0), Begun());
    StepIsOrdered(h, Begun(), BeginTick(ExampleStart(), 3, [ROW_A, ROW_B]), BothFetched());
    StepIsOrdered(h, BothFetched(), ProjectRow, OneDone());
    StepIsOrdered(h, OneDone(), ProjectRow, BothDone(BothTables()));
  }

  lemma {:induction false} ReorgsOrdered()
    ensures var h := ExampleHandler();
      && OrderedStep(h, BothDone(BothTables()), SourceReorgs(FirstReorged(), "a", 7), BothDone(FirstReorged()))
      && OrderedStep(h, BothDone(FirstReorged()), SourceReorgs(BothReorged(), "b", 7), BothDone(BothReorged()))
  {
    BothGo();
    hide ReorgsAnytime, ReorgsInOrder, BothTables, FirstReorged, BothReorged, ExampleHandler;
  }

  lemma {:induction false} CascadeOrdered()
    ensures var h := ExampleHandler();
      && OrderedStep(h, BothDone(BothReorged()), BeginCascade(1, [GONE_A]), OneListed())
      && OrderedStep(h, OneListed(), CascadeEntry, Evicted(Cascading([], At(6, 7))))
      && OrderedStep(h, Evicted(Cascading([], At(6, 7))), EndTick, Evicted(Idle))
  {
    FetchOne();
    CascadeFirst();
    var h := ExampleHandler();
    assert Step(h, Evicted(Cascading([], At(6, 7))), EndTick, Evicted(Idle)) by {
      hide BothReorged, ExampleHandler;
    }
    hide Step, BothReorged, ExampleHandler, BothDone, Evicted, At, OrderedStep;
    StepIsOrdered(h, BothDone(BothReorged()), BeginCascade(1, [GONE_A]), OneListed());
    StepIsOrdered(h, OneListed(), CascadeEntry, Evicted(Cascading([], At(6, 7))));
    StepIsOrdered(h, Evicted(Cascading([], At(6, 7))), EndTick, Evicted(Idle));
  }

  /** Two batches reorged in one millisecond and a limit of one: the index has caught up and keeps the post of the second. */
  lemma {:induction false} TiedReorgLeavesPost() returns (states: seq<Sys>, actions: seq<Action>, c: Cursor)
    ensures |states| == |actions| + 1
    ensures var h, t := ExampleHandler(), states[|actions|];
      && IsOrderedRun(h, states, actions) && Initial(h, states[0]) && Drained(h, t, c) && Leftover(h, t, c, "b")
      && Recomputed(h, t.source, t.code, "b") == None
  {
    TickOrdered();
    ReorgsOrdered();
    CascadeOrdered();
    SecondIsLeft();
    BothAreReached();
    assert Evicted(Idle).source == BothReorged() && Evicted(Idle).code == 0;
    hide Empty, Begun, BothFetched, OneDone, BothDone, OneListed, Evicted, At, ExampleStart;
    hide BothTables, FirstReorged, BothReorged, ExampleHandler, OrderedStep, Drained, Leftover, Recomputed, Initial;
    c := At(6, 7);
    var h := ExampleHandler();
    states, actions := [Empty()], [];
    assert IsOrderedRun(h, states, actions);
    hide IsOrderedRun;
    states, actions := OneMore(h, states, actions, Start(None, 0, 0, 0), Begun());
    states, actions := OneMore(h, states, actions, BeginTick(ExampleStart(), 3, [ROW_A, ROW_B]), BothFetched());
    states, actions := OneMore(h, states, actions, ProjectRow, OneDone());
    states, actions := OneMore(h, states, actions, ProjectRow, BothDone(BothTables()));
    states, actions := OneMore(h, states, actions, SourceReorgs(FirstReorged(), "a", 7), BothDone(FirstReorged()));
    states, actions := OneMore(h, states, actions, SourceReorgs(BothReorged(), "b", 7), BothDone(BothReorged()));
    states, actions := OneMore(h, states, actions, BeginCascade(1, [GONE_A]), OneListed());
    states, actions := OneMore(h, states, actions, CascadeEntry, Evicted(Cascading([], c)));
    states, actions := OneMore(h, states, actions, EndTick, Evicted(Idle));
  }

  lemma {:induction false} OneMore(h: Handler, states: seq<Sys>, actions: seq<Action>, a: Action, t: Sys)
    returns (longer: seq<Sys>, more: seq<Action>)
    requires |states| == |actions| + 1 && IsOrderedRun(h, states, actions) && OrderedStep(h, states[|actions|], a, t)
    ensures IsOrderedRun(h, longer, more) && |longer| == |more| + 1 && longer[0] == states[0] && longer[|more|] == t
  {
    hide OrderedStep;
    longer, more := states + [t], actions + [a];
  }
}
