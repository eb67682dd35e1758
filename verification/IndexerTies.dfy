// The reorg pass over a source whose reorgs can share a timestamp: the clock that stamps them never goes back, no more.
module IndexerTies {
  import opened Wrappers
  import opened Store
  import opened Indexer
  import opened IndexerInvariant
  import opened IndexerLanding

  /** A batch is reorged, not earlier than any batch of the tag before it. */
  ghost predicate ReorgsInOrder(h: Handler, src: Tables, next: Tables, txHash: string, at: nat) {
    && (forall tx :: GoneAt(h, src, tx).Some? ==> GoneAt(h, src, tx).value <= at)
    && (forall tx :: GoneAt(h, next, tx) == if tx == txHash then Some(at) else GoneAt(h, src, tx))
  }

  ghost predicate TieStep(h: Handler, s: Sys, a: Action, t: Sys) {
    if a.SourceReorgs? then ReorgsInOrder(h, s.source, a.source, a.txHash, a.invalidatedAt) && t == s.(source := a.source)
    else LooseStep(h, s, a, t)
  }

  ghost predicate IsTieRun(h: Handler, states: seq<Sys>, actions: seq<Action>) {
    && |states| == |actions| + 1
    && forall i :: 0 <= i < |actions| ==> TieStep(h, states[i], actions[i], states[i + 1])
  }

  /** The generation has cascaded the batch, at the time it carries now. */
  ghost predicate IsCascaded(h: Handler, s: Sys, c: Cursor, tx: string)
    requires GoneAt(h, s.source, tx).Some?
  {
    Cascaded(c.versionId, ReorgEntry(tx, GoneAt(h, s.source, tx).value)) in s.history
  }

  /** Every reorg the current reorg cursor has reached was cascaded. */
  ghost predicate ReorgsComplete(h: Handler, s: Sys) {
    forall c, tx | IsCurrent(s.db.cursors, c) && GoneAt(h, s.source, tx).Some? && GoneAt(h, s.source, tx).value <= c.reorgAt ::
      IsCascaded(h, s, c, tx)
  }

  /** Every reorg stamped with the very millisecond the cursor stands at was cascaded. */
  ghost predicate NoTieLeft(h: Handler, s: Sys) {
    forall c, tx | IsCurrent(s.db.cursors, c) && GoneAt(h, s.source, tx).Some? && GoneAt(h, s.source, tx).value == c.reorgAt ::
      IsCascaded(h, s, c, tx)
  }

  /** No reorg is fetched and not yet cascaded. */
  predicate Settled(s: Sys) {
    s.pc.Cascading? ==> s.pc.entries == []
  }

  // ----- what holds with ties -----

  ghost predicate BehindDone(h: Handler, s: Sys) {
    forall c, tx | IsCurrent(s.db.cursors, c) && GoneAt(h, s.source, tx).Some? && GoneAt(h, s.source, tx).value < c.reorgAt ::
      IsCascaded(h, s, c, tx)
  }

  ghost predicate CursorReached(h: Handler, s: Sys) {
    forall c :: IsCurrent(s.db.cursors, c) ==>
      c.reorgAt == -1 || exists tx :: GoneAt(h, s.source, tx).Some? && GoneAt(h, s.source, tx).value >= c.reorgAt
  }

  /** The rest of a listing: in order, whole below its last timestamp, and with the ties of the entry before it. */
  ghost predicate Fetched(h: Handler, s: Sys, entries: seq<ReorgEntry>, f: Cursor) {
    && (forall i, j :: 0 <= i < j < |entries| ==> entries[i].invalidatedAt <= entries[j].invalidatedAt)
    && (forall e :: e in entries ==>
          && e.invalidatedAt >= f.reorgAt
          && GoneAt(h, s.source, e.txHash).Some? && GoneAt(h, s.source, e.txHash).value >= e.invalidatedAt)
    && (entries != [] ==>
          forall tx |
            && GoneAt(h, s.source, tx).Some?
            && f.reorgAt <= GoneAt(h, s.source, tx).value < entries[|entries| - 1].invalidatedAt ::
              ReorgEntry(tx, GoneAt(h, s.source, tx).value) in entries || IsCascaded(h, s, f, tx))
  }

  ghost predicate TieInv(h: Handler, s: Sys) {
    && CursorsOk(s) && BehindDone(h, s) && CursorReached(h, s)
    && (s.pc.Cascading? ==> Fetched(h, s, s.pc.entries, s.pc.forward))
  }

  // ----- every step -----

  lemma {:induction false} CommitCursors(h: Handler, s: Sys, a: Action, t: Sys)
    requires CursorsOk(s) && (a.ProjectRow? || a.CascadeEntry?) && Step(h, s, a, t)
    ensures CursorsOk(t)
  {
    var f, g := s.pc.forward, t.pc.forward;
    AdvanceCurrent(s, f, g, s.db.cursors[f.versionId := g]);
    hide Project, Evict;
  }

  lemma {:induction false} CursorsStep(h: Handler, s: Sys, a: Action, t: Sys)
    requires CursorsOk(s) && TieStep(h, s, a, t)
    ensures CursorsOk(t)
  {
    if a.ProjectRow? || a.CascadeEntry? {
      CommitCursors(h, s, a, t);
      hide LooseStep;
    } else if a.Start? && t.db != s.db {
      FreshCursors(h, s, a, t);
      hide LooseStep;
    } else {
      hide GrowsAnywhere, ReorgsInOrder, IsForwardListing, IsReorgListing, ProjectTxn, CascadeTxn, DeleteVersion;
    }
  }

  lemma {:induction false} QuietTieStep(h: Handler, s: Sys, a: Action, t: Sys)
    requires CursorsOk(s) && TieStep(h, s, a, t) && Quiet(a)
    ensures ReorgsAside(h, s, t) && forall d :: d in s.history ==> d in t.history
    ensures t.pc.Cascading? ==>
              s.pc.Cascading? && t.pc.forward == s.pc.forward && (t.pc.entries == s.pc.entries || t.pc.entries == [])
  {
    if !a.SourceGrows? {
      QuietShape(h, s, a, t);
      hide Step;
    }
  }

  lemma {:induction false} QuietBehind(h: Handler, s: Sys, t: Sys)
    requires BehindDone(h, s) && CursorReached(h, s) && ReorgsAside(h, s, t) && forall d :: d in s.history ==> d in t.history
    ensures BehindDone(h, t) && CursorReached(h, t)
  {
    hide GoneAt;
    forall c | IsCurrent(t.db.cursors, c) && c.reorgAt != -1
      ensures exists tx :: GoneAt(h, t.source, tx).Some? && GoneAt(h, t.source, tx).value >= c.reorgAt
    {
      var b :| IsCurrent(s.db.cursors, b) && b.versionId == c.versionId && b.reorgAt == c.reorgAt;
      var tx :| GoneAt(h, s.source, tx).Some? && GoneAt(h, s.source, tx).value >= b.reorgAt;
      assert GoneAt(h, t.source, tx).Some?;
    }
    forall c, tx | IsCurrent(t.db.cursors, c) && GoneAt(h, t.source, tx).Some? && GoneAt(h, t.source, tx).value < c.reorgAt
      ensures IsCascaded(h, t, c, tx)
    {
      var b :| IsCurrent(s.db.cursors, b) && b.versionId == c.versionId && b.reorgAt == c.reorgAt;
      assert IsCascaded(h, s, b, tx);
    }
  }

  lemma {:induction false} StillFetched(h: Handler, s: Sys, t: Sys, entries: seq<ReorgEntry>, f: Cursor)
    requires Fetched(h, s, entries, f) && ReorgsAside(h, s, t) && forall d :: d in s.history ==> d in t.history
    ensures Fetched(h, t, entries, f) && Fetched(h, t, [], f)
  {
    hide GoneAt;
  }

  lemma {:induction false} QuietStep(h: Handler, s: Sys, a: Action, t: Sys)
    requires TieInv(h, s) && TieStep(h, s, a, t) && Quiet(a)
    ensures TieInv(h, t)
  {
    CursorsStep(h, s, a, t);
    QuietTieStep(h, s, a, t);
    hide TieStep, CursorsOk, BehindDone, CursorReached, Fetched, ReorgsAside;
    QuietBehind(h, s, t);
    if t.pc.Cascading? {
      StillFetched(h, s, t, s.pc.entries, s.pc.forward);
    }
  }

  lemma {:induction false} CommitShape(h: Handler, s: Sys, t: Sys) returns (e: ReorgEntry, f: Cursor, g: Cursor)
    requires TieInv(h, s) && Step(h, s, CascadeEntry, t)
    ensures s.pc == Cascading([e] + s.pc.entries[1..], f) && t.pc == Cascading(s.pc.entries[1..], g)
    ensures g == f.(reorgAt := e.invalidatedAt) && f.reorgAt <= e.invalidatedAt
    ensures GoneAt(h, s.source, e.txHash).Some? && GoneAt(h, s.source, e.txHash).value >= e.invalidatedAt
    ensures forall c :: IsCurrent(s.db.cursors, c) <==> c == f
    ensures forall c :: IsCurrent(t.db.cursors, c) <==> c == g
    ensures t.source == s.source && t.history == s.history + [Cascaded(f.versionId, e)]
  {
    hide GoneAt, BehindDone, CursorReached;
    e, f, g := s.pc.entries[0], s.pc.forward, t.pc.forward;
    assert e in s.pc.entries;
    AdvanceCurrent(s, f, g, s.db.cursors[f.versionId := g]);
    assert s.pc.entries == [e] + s.pc.entries[1..];
  }

  /** What is older than the head of a listing has been cascaded. */
  lemma {:induction false} OlderIsDone(h: Handler, s: Sys, es: seq<ReorgEntry>, f: Cursor, tx: string)
    requires Fetched(h, s, es, f) && es != [] && GoneAt(h, s.source, tx).Some?
    requires f.reorgAt <= GoneAt(h, s.source, tx).value < es[0].invalidatedAt
    ensures IsCascaded(h, s, f, tx)
  {
    hide GoneAt;
    assert |es| > 1 ==> es[0].invalidatedAt <= es[|es| - 1].invalidatedAt;
    var e := ReorgEntry(tx, GoneAt(h, s.source, tx).value);
    forall i | 0 <= i < |es| ensures es[i] != e {
      assert i > 0 ==> es[0].invalidatedAt <= es[i].invalidatedAt;
    }
  }

  lemma {:induction false} TailOf(es: seq<ReorgEntry>)
    requires es != []
    ensures forall e :: e in es <==> e == es[0] || e in es[1..]
  {
    assert es == [es[0]] + es[1..];
  }

  /** A reorg of the listing is its head, which is cascaded now, or in the rest, or was cascaded before. */
  lemma {:induction false} RestHolds(h: Handler, s: Sys, t: Sys, es: seq<ReorgEntry>, f: Cursor, g: Cursor, tx: string)
    requires Fetched(h, s, es, f) && es != [] && t.source == s.source && g.versionId == f.versionId
    requires t.history == s.history + [Cascaded(f.versionId, es[0])]
    requires GoneAt(h, s.source, tx).Some? && f.reorgAt <= GoneAt(h, s.source, tx).value < es[|es| - 1].invalidatedAt
    ensures ReorgEntry(tx, GoneAt(h, s.source, tx).value) in es[1..] || IsCascaded(h, t, g, tx)
  {
    TailOf(es);
    assert ReorgEntry(tx, GoneAt(h, s.source, tx).value) in es || IsCascaded(h, s, f, tx);
    hide Fetched, GoneAt;
  }

  lemma {:induction false} RestClimbs(es: seq<ReorgEntry>)
    requires es != [] && forall i, j :: 0 <= i < j < |es| ==> es[i].invalidatedAt <= es[j].invalidatedAt
    ensures forall i, j :: 0 <= i < j < |es[1..]| ==> es[1..][i].invalidatedAt <= es[1..][j].invalidatedAt
    ensures forall x :: x in es[1..] ==> x.invalidatedAt >= es[0].invalidatedAt
  {
    var rest := es[1..];
    forall x | x in rest ensures x.invalidatedAt >= es[0].invalidatedAt {
      var i :| 0 <= i < |rest| && rest[i] == x;
      assert es[0].invalidatedAt <= es[i + 1].invalidatedAt;
    }
  }

  lemma {:induction false} RestFetched(h: Handler, s: Sys, t: Sys, es: seq<ReorgEntry>, f: Cursor, g: Cursor)
    requires Fetched(h, s, es, f) && es != [] && t.source == s.source
    requires g == f.(reorgAt := es[0].invalidatedAt) && f.reorgAt <= g.reorgAt
    requires t.history == s.history + [Cascaded(f.versionId, es[0])]
    ensures Fetched(h, t, es[1..], g)
  {
    hide GoneAt, IsCascaded;
    var rest := es[1..];
    TailOf(es);
    RestClimbs(es);
    if rest != [] {
      assert rest[|rest| - 1] == es[|es| - 1];
      forall tx | && GoneAt(h, t.source, tx).Some?
                  && g.reorgAt <= GoneAt(h, t.source, tx).value < rest[|rest| - 1].invalidatedAt
        ensures ReorgEntry(tx, GoneAt(h, t.source, tx).value) in rest || IsCascaded(h, t, g, tx)
      {
        RestHolds(h, s, t, es, f, g, tx);
      }
    }
  }

  lemma {:induction false} CascadeStep(h: Handler, s: Sys, t: Sys)
    requires TieInv(h, s) && Step(h, s, CascadeEntry, t)
    ensures TieInv(h, t)
  {
    CursorsStep(h, s, CascadeEntry, t);
    var e, f, g := CommitShape(h, s, t);
    RestFetched(h, s, t, s.pc.entries, f, g);
    hide GoneAt, Step, Fetched, CursorsOk;
    forall tx | GoneAt(h, t.source, tx).Some? && GoneAt(h, t.source, tx).value < g.reorgAt ensures IsCascaded(h, t, g, tx) {
      if GoneAt(h, t.source, tx).value < f.reorgAt {
        assert IsCascaded(h, s, f, tx);
      } else {
        OlderIsDone(h, s, s.pc.entries, f, tx);
      }
    }
  }

  lemma {:induction false} FetchStep(h: Handler, s: Sys, a: Action, t: Sys)
    requires TieInv(h, s) && NoTieLeft(h, s) && a.BeginCascade? && Step(h, s, a, t)
    ensures TieInv(h, t)
  {
    hide GoneAt;
    var es, f := a.entries, s.pc.forward;
    forall i, j | 0 <= i < j < |es| ensures es[i].invalidatedAt <= es[j].invalidatedAt {
      assert EntryBefore(es[i], es[j]);
    }
    if es != [] {
      var last := es[|es| - 1];
      assert last in es;
      forall tx | GoneAt(h, s.source, tx).Some? && f.reorgAt <= GoneAt(h, s.source, tx).value < last.invalidatedAt
        ensures ReorgEntry(tx, GoneAt(h, s.source, tx).value) in es || IsCascaded(h, s, f, tx)
      {
        assert !EntryBefore(last, ReorgEntry(tx, GoneAt(h, s.source, tx).value));
      }
    }
  }

  /** A new reorg is no older than what the cursor has reached and what is in flight. */
  lemma {:induction false} ReorgStep(h: Handler, s: Sys, a: Action, t: Sys)
    requires TieInv(h, s) && a.SourceReorgs? && TieStep(h, s, a, t)
    ensures TieInv(h, t)
  {
    hide GoneAt;
    forall c | IsCurrent(s.db.cursors, c) ensures c.reorgAt <= a.invalidatedAt {
    }
    if s.pc.Cascading? && s.pc.entries != [] {
      assert s.pc.entries[|s.pc.entries| - 1] in s.pc.entries;
    }
  }

  lemma {:induction false} TieStepKeepsInv(h: Handler, s: Sys, a: Action, t: Sys)
    requires TieInv(h, s) && TieStep(h, s, a, t) && (Settled(s) ==> NoTieLeft(h, s))
    ensures TieInv(h, t)
  {
    hide TieInv;
    if a.SourceReorgs? {
      ReorgStep(h, s, a, t);
    } else if a.BeginCascade? {
      FetchStep(h, s, a, t);
    } else if a.CascadeEntry? {
      CascadeStep(h, s, t);
    } else {
      QuietStep(h, s, a, t);
    }
  }

  lemma {:induction false} TieRunKeepsInv(h: Handler, states: seq<Sys>, actions: seq<Action>, i: nat)
    requires IsTieRun(h, states, actions) && Initial(h, states[0]) && i < |states|
    requires forall j :: 0 <= j < i && Settled(states[j]) ==> NoTieLeft(h, states[j])
    ensures TieInv(h, states[i])
  {
    hide TieStep, NoTieLeft, Settled;
    if i > 0 {
      TieRunKeepsInv(h, states, actions, i - 1);
      hide TieInv;
      TieStepKeepsInv(h, states[i - 1], actions[i - 1], states[i]);
    }
  }

  /** In a run whose reorgs can tie, the reorg pass is complete throughout exactly when no tie with the cursor is ever left:
      neither by a listing cut by its limit, nor by a failure or a crash, nor by a reorg stamped too late to be listed. */
  lemma {:induction false} ReorgPassCompleteIff(h: Handler, states: seq<Sys>, actions: seq<Action>)
    requires IsTieRun(h, states, actions) && Initial(h, states[0])
    ensures (forall i | 0 <= i < |states| && Settled(states[i]) :: ReorgsComplete(h, states[i]))
            <==>
            (forall i | 0 <= i < |states| && Settled(states[i]) :: NoTieLeft(h, states[i]))
  {
    if forall i | 0 <= i < |states| && Settled(states[i]) :: NoTieLeft(h, states[i]) {
      forall i | 0 <= i < |states| && Settled(states[i]) ensures ReorgsComplete(h, states[i]) {
        TieRunKeepsInv(h, states, actions, i);
        hide TieStep, Initial, Settled;
        assert NoTieLeft(h, states[i]);
      }
    } else {
      hide TieStep, Initial, Settled;
      var i :| 0 <= i < |states| && Settled(states[i]) && !NoTieLeft(h, states[i]);
      assert !ReorgsComplete(h, states[i]);
    }
  }

  // ----- which step leaves a tie -----

  /** A listing cut by its limit inside a millisecond, a failure or crash whose next entry carries the millisecond the
      cursor stands at, or a reorg stamped with that millisecond, or with the last one fetched. */
  ghost predicate LeavesTie(h: Handler, s: Sys, a: Action) {
    match a
    case BeginCascade(_, entries) =>
      entries != [] && exists tx | GoneAt(h, s.source, tx) == Some(entries[|entries| - 1].invalidatedAt) ::
        ReorgEntry(tx, entries[|entries| - 1].invalidatedAt) !in entries
    case CascadeThrows => !Settled(s) && s.pc.entries[0].invalidatedAt == s.pc.forward.reorgAt
    case Crash => !Settled(s) && s.pc.entries[0].invalidatedAt == s.pc.forward.reorgAt
    case SourceReorgs(_, _, at) =>
      || (exists c :: IsCurrent(s.db.cursors, c) && c.reorgAt == at)
      || (!Settled(s) && s.pc.entries[|s.pc.entries| - 1].invalidatedAt == at)
    case _ => false
  }

  /** What was fetched includes every reorg of its last millisecond. */
  ghost predicate FetchedWhole(h: Handler, s: Sys, entries: seq<ReorgEntry>, f: Cursor) {
    entries != [] ==>
      forall tx | GoneAt(h, s.source, tx) == Some(entries[|entries| - 1].invalidatedAt) ::
        ReorgEntry(tx, entries[|entries| - 1].invalidatedAt) in entries || IsCascaded(h, s, f, tx)
  }

  ghost predicate NoTieInv(h: Handler, s: Sys) {
    && TieInv(h, s)
    && (Settled(s) ==> NoTieLeft(h, s))
    && (s.pc.Cascading? ==> FetchedWhole(h, s, s.pc.entries, s.pc.forward))
  }

  lemma {:induction false} QuietNoTie(h: Handler, s: Sys, a: Action, t: Sys)
    requires NoTieInv(h, s) && TieStep(h, s, a, t) && Quiet(a) && !LeavesTie(h, s, a)
    ensures Settled(t) ==> NoTieLeft(h, t)
    ensures t.pc.Cascading? ==> FetchedWhole(h, t, t.pc.entries, t.pc.forward)
  {
    QuietTieStep(h, s, a, t);
    if Settled(t) {
      forall c, tx | IsCurrent(t.db.cursors, c) && GoneAt(h, t.source, tx).Some? && GoneAt(h, t.source, tx).value == c.reorgAt
        ensures IsCascaded(h, t, c, tx)
      {
        var b :| IsCurrent(s.db.cursors, b) && b.versionId == c.versionId && b.reorgAt == c.reorgAt;
        if !Settled(s) {
          InFlightStep(h, s, a, t);
          hide TieStep, GoneAt, BehindDone, CursorReached;
          OlderIsDone(h, s, s.pc.entries, s.pc.forward, tx);
        }
        assert IsCascaded(h, s, b, tx);
      }
    }
    hide TieStep, GoneAt, TieInv;
  }

  /** While entries are in flight a quiet step lets them go, or leaves the tick alone. */
  lemma {:induction false} InFlightStep(h: Handler, s: Sys, a: Action, t: Sys)
    requires CursorsOk(s) && TieStep(h, s, a, t) && Quiet(a) && !Settled(s) && Settled(t) && !LeavesTie(h, s, a)
    ensures s.pc.forward.reorgAt != s.pc.entries[0].invalidatedAt
    ensures forall c :: IsCurrent(s.db.cursors, c) ==> c == s.pc.forward
  {
    hide SourceOk, GoneAt;
  }

  lemma {:induction false} CascadeNoTie(h: Handler, s: Sys, t: Sys)
    requires NoTieInv(h, s) && Step(h, s, CascadeEntry, t)
    ensures Settled(t) ==> NoTieLeft(h, t)
    ensures FetchedWhole(h, t, t.pc.entries, t.pc.forward)
  {
    var e, f, g := CommitShape(h, s, t);
    var es := s.pc.entries;
    hide TieInv, Step, GoneAt;
    forall x | x in es ensures x == e || x in es[1..] {
      var i :| 0 <= i < |es| && es[i] == x;
      assert i > 0 ==> es[1..][i - 1] == x;
    }
  }

  lemma {:induction false} NoTieStep(h: Handler, s: Sys, a: Action, t: Sys)
    requires NoTieInv(h, s) && TieStep(h, s, a, t) && !LeavesTie(h, s, a)
    ensures NoTieInv(h, t)
  {
    TieStepKeepsInv(h, s, a, t);
    hide TieInv;
    if a.CascadeEntry? {
      CascadeNoTie(h, s, t);
      hide TieStep, NoTieLeft, FetchedWhole;
    } else if a.BeginCascade? {
      hide IsReorgListing, GoneAt;
    } else if a.SourceReorgs? {
      ReorgNoTie(h, s, a, t);
      hide TieStep, LeavesTie, NoTieLeft, FetchedWhole;
    } else {
      QuietNoTie(h, s, a, t);
      hide TieStep, LeavesTie, NoTieLeft, FetchedWhole;
    }
  }

  lemma {:induction false} ReorgNoTie(h: Handler, s: Sys, a: Action, t: Sys)
    requires NoTieInv(h, s) && a.SourceReorgs? && TieStep(h, s, a, t) && !LeavesTie(h, s, a)
    ensures Settled(t) ==> NoTieLeft(h, t)
    ensures t.pc.Cascading? ==> FetchedWhole(h, t, t.pc.entries, t.pc.forward)
  {
    hide TieInv, GoneAt;
  }

  lemma {:induction false} NoTieRun(h: Handler, states: seq<Sys>, actions: seq<Action>, i: nat)
    requires IsTieRun(h, states, actions) && Initial(h, states[0]) && i < |states|
    requires forall j :: 0 <= j < i ==> !LeavesTie(h, states[j], actions[j])
    ensures NoTieInv(h, states[i])
  {
    hide TieStep, LeavesTie;
    if i > 0 {
      NoTieRun(h, states, actions, i - 1);
      hide NoTieInv;
      NoTieStep(h, states[i - 1], actions[i - 1], states[i]);
    }
  }

  /** A run none of whose steps leaves a tie completes its reorg pass throughout. */
  lemma {:induction false} UntiedRunIsComplete(h: Handler, states: seq<Sys>, actions: seq<Action>, i: nat)
    requires IsTieRun(h, states, actions) && Initial(h, states[0]) && i < |states| && Settled(states[i])
    requires forall j :: 0 <= j < i ==> !LeavesTie(h, states[j], actions[j])
    ensures ReorgsComplete(h, states[i])
  {
    NoTieRun(h, states, actions, i);
    hide TieStep, LeavesTie, Fetched, FetchedWhole, CursorsOk;
  }

  /** The reorg a step passes by: the one it stamps, or the next one of the list it lets go. */
  ghost predicate PassedBy(h: Handler, s: Sys, a: Action, e: ReorgEntry) {
    match a
    case SourceReorgs(_, txHash, at) => Settled(s) && e == ReorgEntry(txHash, at)
    case CascadeThrows => !Settled(s) && e == s.pc.entries[0] && GoneAt(h, s.source, e.txHash) == Some(e.invalidatedAt)
    case Crash => !Settled(s) && e == s.pc.entries[0] && GoneAt(h, s.source, e.txHash) == Some(e.invalidatedAt)
    case _ => false
  }

  /** And these steps do leave one: a batch not yet cascaded at that time is passed by. */
  lemma {:induction false} TieIsLeft(h: Handler, s: Sys, a: Action, t: Sys, c: Cursor, e: ReorgEntry)
    requires CursorsOk(s) && TieStep(h, s, a, t) && LeavesTie(h, s, a) && PassedBy(h, s, a, e)
    requires IsCurrent(s.db.cursors, c) && Cascaded(c.versionId, e) !in s.history
    ensures Settled(t) && !NoTieLeft(h, t)
  {
    assert IsCurrent(t.db.cursors, c);
    assert GoneAt(h, t.source, e.txHash) == Some(e.invalidatedAt) && e.invalidatedAt == c.reorgAt;
  }

  // ----- a tie once left is left for good -----

  /** The generation has gone past the entry without cascading it. */
  ghost predicate Skipped(s: Sys, v: VersionId, e: ReorgEntry) {
    && v in s.db.cursors && e.invalidatedAt <= s.db.cursors[v].reorgAt
    && Cascaded(v, e) !in s.history
    && (s.pc.Cascading? && s.pc.forward.versionId == v ==> e !in s.pc.entries)
  }

  lemma {:induction false} SkippedStep(h: Handler, s: Sys, a: Action, t: Sys, v: VersionId, e: ReorgEntry)
    requires CursorsOk(s) && TieStep(h, s, a, t) && Skipped(s, v, e) && v in t.db.cursors
    ensures Skipped(t, v, e)
  {
    hide GrowsAnywhere, IsForwardListing, ReorgsInOrder, GoneAt;
    if a.CascadeEntry? {
      assert s.pc.entries[0] in s.pc.entries;
      assert forall x :: x in s.pc.entries[1..] ==> x in s.pc.entries;
    }
  }

  lemma {:induction false} RunKeepsCursors(h: Handler, states: seq<Sys>, actions: seq<Action>, i: nat)
    requires IsTieRun(h, states, actions) && Initial(h, states[0]) && i < |states|
    ensures CursorsOk(states[i])
  {
    hide TieStep;
    if i > 0 {
      RunKeepsCursors(h, states, actions, i - 1);
      hide CursorsOk, Initial;
      CursorsStep(h, states[i - 1], actions[i - 1], states[i]);
    }
  }

  /** A reorg that a settled generation has gone past without cascading it is never cascaded by that generation at the
      time it carries. */
  lemma {:induction false} ReorgBehindCursorIsLost(h: Handler, states: seq<Sys>, actions: seq<Action>, i: nat, j: nat,
                                                   v: VersionId, e: ReorgEntry)
    requires IsTieRun(h, states, actions) && Initial(h, states[0]) && i <= j < |states|
    requires forall k :: i <= k <= j ==> v in states[k].db.cursors
    requires Settled(states[i]) && e.invalidatedAt <= states[i].db.cursors[v].reorgAt && Cascaded(v, e) !in states[i].history
    ensures Skipped(states[j], v, e)
  {
    hide TieStep;
    if i < j {
      ReorgBehindCursorIsLost(h, states, actions, i, j - 1, v, e);
      RunKeepsCursors(h, states, actions, j - 1);
      hide Skipped, CursorsOk, Initial;
      SkippedStep(h, states[j - 1], actions[j - 1], states[j], v, e);
    }
  }
}
