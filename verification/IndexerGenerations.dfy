// How long a generation lasts: what a process start keeps, and what ends the current generation of a run.
module IndexerGenerations {
  import opened Wrappers
  import opened Indexer
  import opened IndexerInvariant
  import opened IndexerTheorems

  /** A start keeps the current generation, and then touches nothing, exactly when the deployed version is the
      generation's own. Otherwise it freezes that one as superseded and adds a current one that has read nothing. */
  lemma {:induction false} StartKeepsIff(h: Handler, s: Sys, c: Cursor, code: nat, freshId: VersionId, now: nat, t: Sys)
    requires Inv(h, s) && Step(h, s, Start(Some(c), code, freshId, now), t)
    ensures t.db.posts == s.db.posts
    ensures IsCurrent(t.db.cursors, c) <==> c.handlerVersion == code
    ensures c.handlerVersion == code ==> t.db.cursors == s.db.cursors
    ensures c.handlerVersion != code ==>
              && freshId !in s.db.cursors && t.db.cursors.Keys == s.db.cursors.Keys + {freshId}
              && t.db.cursors[freshId] == Cursor(freshId, code, true, None, Coord(-1, -1, -1), -1)
              && t.db.cursors[c.versionId] == c.(isCurrent := false, supersededAt := Some(now))
              && forall v :: v in s.db.cursors && v != c.versionId ==> t.db.cursors[v] == s.db.cursors[v]
  {
    hide InFlight, PostsOwned, Backed, Covered, HistoryOk, Timely, SourceOk;
  }

  /** A start without a current generation adds one that has read nothing, and touches nothing else. */
  lemma {:induction false} FirstStartAddsOne(h: Handler, s: Sys, code: nat, freshId: VersionId, now: nat, t: Sys)
    requires Step(h, s, Start(None, code, freshId, now), t)
    ensures t.db.posts == s.db.posts && freshId !in s.db.cursors
    ensures t.db.cursors == s.db.cursors[freshId := Cursor(freshId, code, true, None, Coord(-1, -1, -1), -1)]
  {
  }

  /** A start of another version, a reset of this generation, or of all. */
  predicate EndsGeneration(a: Action, v: VersionId, version: nat) {
    match a
    case Start(_, code, _, _) => code != version
    case Reset(w) => w == v
    case ResetAll => true
    case _ => false
  }

  /** One step leaves the current generation current exactly when it is none of those three. */
  lemma {:induction false} GenerationEndsIff(h: Handler, s: Sys, a: Action, t: Sys, c: Cursor)
    requires Inv(h, s) && Step(h, s, a, t) && IsCurrent(s.db.cursors, c)
    ensures (exists d :: IsCurrent(t.db.cursors, d) && d.versionId == c.versionId)
            <==> !EndsGeneration(a, c.versionId, c.handlerVersion)
    ensures forall d :: IsCurrent(t.db.cursors, d) && d.versionId == c.versionId ==> d.handlerVersion == c.handlerVersion
  {
    var v := c.versionId;
    if a.ProjectRow? {
      var x, f, g := ProjectRowShape(h, s, t);
      assert IsCurrent(t.db.cursors, t.db.cursors[v]);
    } else if a.CascadeEntry? {
      var e, f, g := CascadeShape(h, s, t);
      assert IsCurrent(t.db.cursors, t.db.cursors[v]);
    } else if a.Start? {
      assert a.current == Some(c);
      StartKeepsIff(h, s, c, a.code, a.freshId, a.now, t);
      assert a.code == c.handlerVersion ==> IsCurrent(t.db.cursors, c);
    } else {
      hide InFlight, PostsOwned, Backed, Covered, HistoryOk, Timely, SourceOk, Grows, Reorgs, IsForwardListing, IsReorgListing;
      assert !EndsGeneration(a, v, c.handlerVersion) ==> IsCurrent(t.db.cursors, c);
    }
  }

  /** Over a run, the current generation stays the current one, at its version, as long as none of them comes. */
  lemma {:induction false} GenerationLasts(h: Handler, states: seq<Sys>, actions: seq<Action>, i: nat, j: nat, c: Cursor)
    returns (d: Cursor)
    requires IsRun(h, states, actions) && Initial(h, states[0]) && i <= j < |states| && IsCurrent(states[i].db.cursors, c)
    requires forall k :: i <= k < j ==> !EndsGeneration(actions[k], c.versionId, c.handlerVersion)
    ensures IsCurrent(states[j].db.cursors, d) && d.versionId == c.versionId && d.handlerVersion == c.handlerVersion
    ensures forall e :: IsCurrent(states[j].db.cursors, e) ==> e == d
    decreases j
  {
    hide Step, Initial;
    RunKeepsInv(h, states, actions, j);
    if i == j {
      d := c;
    } else {
      var b := GenerationLasts(h, states, actions, i, j - 1, c);
      RunKeepsInv(h, states, actions, j - 1);
      GenerationEndsIff(h, states[j - 1], actions[j - 1], states[j], b);
      d :| IsCurrent(states[j].db.cursors, d) && d.versionId == b.versionId;
    }
    hide Inv;
    forall e | IsCurrent(states[j].db.cursors, e) ensures e == d {
      AtMostOneCurrent(h, states, actions, j, e, d);
    }
  }
}
