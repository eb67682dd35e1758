// What holds over every run of the widget, however its tasks, clicks and wallet events interleave.
module WidgetTheorems {
  import opened Wrappers
  import opened ThreadForest
  import opened Widget

  /** `id` is a submit in flight that no disconnect has overtaken. */
  ghost predicate Current(m: Machine, id: nat) {
    id in m.tasks && m.tasks[id].Submitting? && m.tasks[id].epoch == m.ui.opEpoch
  }

  function Attempt(pc: SubmitPc): nat {
    match pc
    case RequestingAccount => 0
    case EnsuringChain(_) => 0
    case FetchingNonce(_, a) => a
    case Signing(_, a, _) => a
    case Posting(_, a, _) => a
  }

  ghost predicate Orderly(m: Machine, id: nat)
    requires id in m.tasks
  {
    && id < m.nextTask
    && (m.tasks[id].Submitting? ==>
          && m.tasks[id].epoch <= m.ui.opEpoch
          && !m.tasks[id].submitPc.RequestingAccount?
          && Attempt(m.tasks[id].submitPc) <= MAX_STALE_NONCE_RETRIES)
  }

  /** No composer without an account, and the page shows what account, composer and submit there are. */
  ghost predicate PageAgrees(u: Ui) {
    && (u.composing.Some? ==> u.account.Some?)
    && if u.destroyed then u.view.Gone?
       else
         && u.view.Page? && u.view.connected == u.account.Some?
         && (u.account.None? ==> u.view.composer.NoComposer?)
         && (u.account.Some? && u.composing.None? ==> u.view.composer.Trigger?)
         && (u.account.Some? && u.composing.Some? ==>
               u.view.composer.Open? && u.view.composer.busy == u.submitting
               && (u.view.composer.submittable ==> !u.submitting))
  }

  ghost predicate Inv(m: Machine) {
    && (forall id :: id in m.tasks ==> Orderly(m, id))
    && (m.ui.submitting <==> exists id :: Current(m, id))
    && (forall i, j :: Current(m, i) && Current(m, j) ==> i == j)
    && PageAgrees(m.ui)
  }

  lemma {:induction false} MountInv(platform: Platform, hasProvider: bool)
    ensures Inv(Mount(platform, hasProvider))
  {
  }

  // ----- what a step does to the page and to the tasks -----

  lemma {:induction false} RenderAgrees(u: Ui)
    requires u.composing.Some? ==> u.account.Some?
    ensures PageAgrees(Render(u))
  {
  }

  /** A click on Submit, the only step that sends one off: it starts a task, shows an error, or does nothing. */
  lemma {:induction false} SubmitOutcome(m: Machine, hasProvider: bool, why: string)
    requires PageAgrees(m.ui) && Enabled(m, ClickSubmit(hasProvider, why))
    ensures !m.ui.submitting && m.ui.composing.Some? && m.ui.account.Some?
    ensures var m' := OnSubmit(m, hasProvider, why);
            && PageAgrees(m'.ui) && m'.ui.opEpoch == m.ui.opEpoch
            && if m'.ui.submitting then Sent(m, m') else m' == m.(ui := m'.ui)
  {
    var u := m.ui;
    RenderAgrees(u.(error := Some(TooLong)));
    RenderAgrees(u.(submitting := true, error := None));
    FailingAgrees(Render(u.(submitting := true, error := None)), u.opEpoch, Failed(why));
    assert u.composing.Some? && u.account.Some? && !u.submitting;
    hide PageAgrees, SubmitFails, Enabled;
  }

  /** The task that `m'` has and `m` has not carries the draft, its place and the account as they are in `m`. */
  ghost predicate Sent(m: Machine, m': Machine)
    requires m.ui.composing.Some? && m.ui.account.Some?
  {
    && m.nextTask in m'.tasks && m' == Spawn(m.(ui := m'.ui), m'.tasks[m.nextTask])
    && m'.tasks[m.nextTask] == Task.Submitting(m.ui.opEpoch, m.ui.platform.trim(m.ui.composing.value.draft),
                                               m.ui.composing.value.parent, EnsuringChain(m.ui.account.value))
  }

  /** An answer to a submit in flight: it goes on, or ends and leaves `submitting` false when it was current. */
  lemma {:induction false} ResumedSubmit(m: Machine, id: nat, reply: Reply)
    requires PageAgrees(m.ui) && Enabled(m, Resume(id, reply)) && m.tasks[id].Submitting?
    requires Orderly(m, id)
    ensures var t := m.tasks[id];
            var m' := ResumeSubmit(m, id, t, reply);
            && PageAgrees(m'.ui) && m'.ui.opEpoch == m.ui.opEpoch
            && if id in m'.tasks then m' == GoOn(m, id, m'.tasks[id]).(posts := m'.posts) && Advanced(t, m'.tasks[id])
               else
                 && m'.posts == m.posts && (m' == End(m, id, m'.ui) || m' == Refresh(End(m, id, m'.ui)))
                 && (Current(m, id) ==> !m'.ui.submitting) && (!Current(m, id) ==> m'.ui == m.ui)
  {
    var u := m.ui;
    RenderAgrees(u.(composing := None, submitting := false));
    FailingAgrees(u, m.tasks[id].epoch, if reply.Thrown? then Failed(reply.why) else NoncesExhausted);
    hide PageAgrees, Render, SubmitFails;
  }

  lemma {:induction false} FailingAgrees(u: Ui, epoch: nat, notice: Notice)
    requires PageAgrees(u)
    ensures PageAgrees(SubmitFails(u, epoch, notice)) && SubmitFails(u, epoch, notice).opEpoch == u.opEpoch
    ensures if epoch == u.opEpoch then !SubmitFails(u, epoch, notice).submitting else SubmitFails(u, epoch, notice) == u
  {
    RenderAgrees(u.(submitting := false, error := Some(notice)));
    hide PageAgrees, Rendering;
  }

  ghost predicate Advanced(t: Task, t': Task)
    requires t.Submitting?
  {
    && t'.Submitting? && t' == t.(submitPc := t'.submitPc)
    && !t'.submitPc.RequestingAccount? && Attempt(t'.submitPc) <= MAX_STALE_NONCE_RETRIES
  }

  /** Every other step leaves the submits and `submitting` alone, and the epoch unless it is a disconnect. */
  lemma {:induction false} OtherStep(m: Machine, e: Event)
    requires PageAgrees(m.ui) && Enabled(m, e)
    requires !e.ClickSubmit? && !(e.Resume? && m.tasks[e.task].Submitting?)
    ensures var m' := Step(m, e);
            && PageAgrees(m'.ui) && (e.ClickDisconnect? || m'.ui.opEpoch == m.ui.opEpoch)
            && (m'.ui.submitting == if e.ClickDisconnect? then false else m.ui.submitting)
            && m'.posts == m.posts && TasksAside(m, m')
  {
    if e.Resume? {
      OtherResume(m, e.task, e.reply);
      hide Step, Enabled;
    }
  }

  lemma {:induction false} OtherResume(m: Machine, id: nat, reply: Reply)
    requires PageAgrees(m.ui) && Enabled(m, Resume(id, reply)) && !m.tasks[id].Submitting?
    ensures var m' := Step(m, Resume(id, reply));
            && PageAgrees(m'.ui) && m'.ui.opEpoch == m.ui.opEpoch && m'.ui.submitting == m.ui.submitting
            && m'.posts == m.posts && m'.nextTask == m.nextTask && OneAside(m, m', id)
  {
    var m' := Step(m, Resume(id, reply));
    if id in m'.tasks {
      assert m'.tasks == m.tasks[id := m'.tasks[id]];
    }
  }

  /** One task that is no submit came, went or moved on. */
  ghost predicate TasksAside(m: Machine, m': Machine) {
    || (m'.tasks == m.tasks && m'.nextTask == m.nextTask)
    || (m'.nextTask == m.nextTask + 1 && m.nextTask in m'.tasks && !m'.tasks[m.nextTask].Submitting?
        && m'.tasks == m.tasks[m.nextTask := m'.tasks[m.nextTask]])
    || (m'.nextTask == m.nextTask && exists id :: OneAside(m, m', id))
  }

  ghost predicate OneAside(m: Machine, m': Machine, id: nat) {
    && id in m.tasks && !m.tasks[id].Submitting?
    && if id in m'.tasks then !m'.tasks[id].Submitting? && m'.tasks == m.tasks[id := m'.tasks[id]]
       else m'.tasks == m.tasks - {id}
  }

  // ----- the invariant -----

  lemma {:induction false} OtherKeepsInv(m: Machine, m': Machine)
    requires Inv(m) && TasksAside(m, m') && PageAgrees(m'.ui)
    requires m'.ui.opEpoch == m.ui.opEpoch && m'.ui.submitting == m.ui.submitting
    ensures Inv(m')
  {
    hide PageAgrees;
    assert m.nextTask in m.tasks ==> Orderly(m, m.nextTask);
    forall id ensures Current(m', id) <==> Current(m, id) {
    }
    forall id | id in m'.tasks ensures Orderly(m', id) {
      assert id in m.tasks ==> Orderly(m, id);
    }
  }

  lemma {:induction false} DisconnectKeepsInv(m: Machine)
    requires Inv(m)
    ensures Inv(m.(ui := OnDisconnect(m.ui)))
  {
    var m' := m.(ui := OnDisconnect(m.ui));
    forall id | id in m.tasks ensures Orderly(m', id) && !Current(m', id) {
      assert Orderly(m, id);
    }
  }

  lemma {:induction false} SubmitKeepsInv(m: Machine, hasProvider: bool, why: string)
    requires Inv(m) && Enabled(m, ClickSubmit(hasProvider, why))
    ensures Inv(OnSubmit(m, hasProvider, why))
  {
    SubmitOutcome(m, hasProvider, why);
    var m' := OnSubmit(m, hasProvider, why);
    assert m.nextTask in m.tasks ==> Orderly(m, m.nextTask);
    hide PageAgrees, OnSubmit;
    if m'.ui.submitting {
      assert Current(m', m.nextTask);
    }
    forall id ensures Current(m', id) <==> m'.ui.submitting && id == m.nextTask {
      assert !Current(m, id);
    }
    forall id | id in m'.tasks ensures Orderly(m', id) {
      assert id in m.tasks ==> Orderly(m, id);
    }
  }

  lemma {:induction false} ResumedSubmitKeepsInv(m: Machine, id: nat, reply: Reply)
    requires Inv(m) && Enabled(m, Resume(id, reply)) && m.tasks[id].Submitting?
    ensures Inv(Step(m, Resume(id, reply)))
  {
    assert Orderly(m, id);
    ResumedSubmit(m, id, reply);
    var m' := Step(m, Resume(id, reply));
    hide PageAgrees, ResumeSubmit;
    forall k ensures Current(m', k) <==> Current(m, k) && (k == id ==> id in m'.tasks) {
      assert k in m.tasks ==> Orderly(m, k);
    }
    forall k | k in m'.tasks ensures Orderly(m', k) {
      assert k in m.tasks ==> Orderly(m, k);
    }
    if Current(m, id) {
      if id in m'.tasks {
        assert Current(m', id);
      }
    } else if k :| Current(m, k) {
      assert Current(m', k);
    }
  }

  lemma {:induction false} StepKeepsInv(m: Machine, e: Event)
    requires Inv(m) && Enabled(m, e)
    ensures Inv(Step(m, e))
  {
    if e.ClickSubmit? {
      SubmitKeepsInv(m, e.hasProvider, e.why);
    } else if e.ClickDisconnect? {
      DisconnectKeepsInv(m);
    } else if e.Resume? && m.tasks[e.task].Submitting? {
      ResumedSubmitKeepsInv(m, e.task, e.reply);
    } else {
      OtherStep(m, e);
      OtherKeepsInv(m, Step(m, e));
    }
  }

  lemma {:induction false} RunKeepsInv(m: Machine, es: seq<Event>)
    requires Inv(m) && Possible(m, es)
    ensures Inv(Run(m, es))
    decreases |es|
  {
    if es != [] {
      StepKeepsInv(m, es[0]);
      RunKeepsInv(Step(m, es[0]), es[1..]);
    }
  }

  /** In every run, `submitting` says that exactly one submit of the current epoch is in flight. */
  lemma {:induction false} OneSubmitInFlight(platform: Platform, hasProvider: bool, es: seq<Event>)
    requires Possible(Mount(platform, hasProvider), es)
    ensures var m := Run(Mount(platform, hasProvider), es);
            && (m.ui.submitting <==> exists id :: Current(m, id))
            && (forall i, j :: Current(m, i) && Current(m, j) ==> i == j)
            && (m.ui.composing.Some? ==> m.ui.account.Some?)
  {
    MountInv(platform, hasProvider);
    RunKeepsInv(Mount(platform, hasProvider), es);
  }

  // ----- a submit overtaken by a disconnect -----

  ghost predicate Overtaken(m: Machine, id: nat) {
    id in m.tasks && m.tasks[id].Submitting? && m.tasks[id].epoch != m.ui.opEpoch
  }

  ghost predicate OnlyResumes(es: seq<Event>, ids: set<nat>) {
    forall k :: 0 <= k < |es| ==> es[k].Resume? && es[k].task in ids
  }

  /** Whatever answers they get, submits overtaken by a disconnect change nothing the widget shows or remembers. */
  lemma {:induction false} OvertakenSubmitsAreInert(m: Machine, ids: set<nat>, es: seq<Event>)
    requires Inv(m) && Possible(m, es) && OnlyResumes(es, ids)
    requires forall id :: id in ids && id in m.tasks ==> Overtaken(m, id)
    ensures Run(m, es).ui == m.ui
    decreases |es|
  {
    if es != [] {
      var id := es[0].task;
      assert Overtaken(m, id) && Orderly(m, id);
      var m' := Step(m, es[0]);
      ResumedSubmit(m, id, es[0].reply);
      StepKeepsInv(m, es[0]);
      hide Inv, PageAgrees, ResumeSubmit;
      assert forall k :: k in ids && k in m'.tasks ==> k in m.tasks && Overtaken(m, k);
      OvertakenSubmitsAreInert(m', ids, es[1..]);
    }
  }

  /** Past the check after the chain switch, with a request to the Poster still to make. */
  predicate MayStillPost(pc: SubmitPc) {
    match pc
    case RequestingAccount => false
    case EnsuringChain(_) => false
    case FetchingNonce(_, _) => true
    case Signing(_, _, _) => true
    case Posting(_, attempt, _) => attempt < MAX_STALE_NONCE_RETRIES
  }

  function PostsBy(posts: seq<Post>, id: nat): nat {
    if posts == [] then 0
    else PostsBy(posts[..|posts| - 1], id) + if posts[|posts| - 1].task == id then 1 else 0
  }

  /** The submit has ended, or was overtaken with no request left to make. */
  ghost predicate Spent(m: Machine, id: nat) {
    && id < m.nextTask
    && (id in m.tasks ==>
          m.tasks[id].Submitting? && m.tasks[id].epoch < m.ui.opEpoch && !MayStillPost(m.tasks[id].submitPc))
  }

  /** The reply is one that the suspended submit can get. */
  ghost predicate Answered(m: Machine, id: nat, reply: Reply) {
    id in m.tasks && m.tasks[id].Submitting? && SubmitAnswers(m.tasks[id].submitPc, reply)
  }

  lemma {:induction false} OnePost(posts: seq<Post>, p: Post, id: nat)
    ensures PostsBy(posts + [p], id) == PostsBy(posts, id) + if p.task == id then 1 else 0
  {
    assert (posts + [p])[..|posts|] == posts;
  }

  /** Only an answered signing request hands something to the Poster. */
  lemma {:induction false} ResumePosts(m: Machine, id: nat, k: nat, reply: Reply)
    requires Answered(m, k, reply)
    ensures PostsBy(ResumeSubmit(m, k, m.tasks[k], reply).posts, id)
            == PostsBy(m.posts, id) + if id == k && m.tasks[k].submitPc.Signing? && !reply.Thrown? then 1 else 0
  {
    var pc := m.tasks[k].submitPc;
    if pc.Signing? {
      OnePost(m.posts, Post(k, pc.account, m.tasks[k].parent, m.tasks[k].draft, pc.nonce), id);
    }
    hide Render, SubmitFails, PostsBy;
  }

  lemma {:induction false} ResumeTasks(m: Machine, id: nat, k: nat, reply: Reply)
    requires Answered(m, k, reply)
    ensures var m' := ResumeSubmit(m, k, m.tasks[k], reply);
            && m.nextTask <= m'.nextTask
            && (id in m'.tasks && id != k ==>
                  (id in m.tasks && m'.tasks[id] == m.tasks[id]) || (id == m.nextTask && m'.tasks[id].Refreshing?))
  {
    hide Render, SubmitFails;
  }

  lemma {:induction false} SpentResume(m: Machine, id: nat, k: nat, reply: Reply)
    requires Spent(m, id) && Answered(m, k, reply) && Orderly(m, k)
    ensures var m' := ResumeSubmit(m, k, m.tasks[k], reply);
            && PostsBy(m'.posts, id) == PostsBy(m.posts, id) && (id in m'.tasks ==> id in m.tasks)
            && (id in m'.tasks ==> m'.tasks[id] == m.tasks[id]) && m.nextTask <= m'.nextTask
  {
    ResumePosts(m, id, k, reply);
    ResumeTasks(m, id, k, reply);
    hide Render, SubmitFails, PostsBy;
  }

  lemma {:induction false} SpentStep(m: Machine, id: nat, e: Event)
    requires Inv(m) && Enabled(m, e) && Spent(m, id)
    ensures Spent(Step(m, e), id) && PostsBy(Step(m, e).posts, id) == PostsBy(m.posts, id)
  {
    if e.ClickSubmit? {
      SubmitOutcome(m, e.hasProvider, e.why);
      hide OnSubmit, PageAgrees, Inv;
    } else if e.Resume? && m.tasks[e.task].Submitting? {
      assert Orderly(m, e.task);
      ResumedSubmit(m, e.task, e.reply);
      SpentResume(m, id, e.task, e.reply);
      hide ResumeSubmit, PageAgrees, Inv;
    } else {
      OtherStep(m, e);
      var m' := Step(m, e);
      assert e.ClickDisconnect? ==> m'.ui.opEpoch == m.ui.opEpoch + 1;
      hide Step, Enabled, PageAgrees, Inv;
    }
  }

  lemma {:induction false} SpentRun(m: Machine, id: nat, es: seq<Event>)
    requires Inv(m) && Possible(m, es) && Spent(m, id)
    ensures PostsBy(Run(m, es).posts, id) == PostsBy(m.posts, id)
    decreases |es|
  {
    if es != [] {
      StepKeepsInv(m, es[0]);
      SpentStep(m, id, es[0]);
      SpentRun(Step(m, es[0]), id, es[1..]);
    }
  }

  /**
   * A disconnect need not stop the comment: in some run from here the overtaken submit hands it to the Poster, exactly
   * when it was past the chain check and had not sent its last retry. Otherwise it does in none.
   */
  lemma {:induction false} OvertakenSubmitPostsIff(m: Machine, id: nat)
    requires Inv(m) && Overtaken(m, id)
    ensures (exists es :: Possible(m, es) && PostsBy(Run(m, es).posts, id) > PostsBy(m.posts, id))
            <==> MayStillPost(m.tasks[id].submitPc)
  {
    assert Orderly(m, id);
    if MayStillPost(m.tasks[id].submitPc) {
      var es := ToNextPost(m, id);
    } else {
      forall es | Possible(m, es) ensures PostsBy(Run(m, es).posts, id) == PostsBy(m.posts, id) {
        SpentRun(m, id, es);
      }
    }
  }

  lemma {:induction false} ToNextPost(m: Machine, id: nat) returns (es: seq<Event>)
    requires Overtaken(m, id) && MayStillPost(m.tasks[id].submitPc)
    ensures Possible(m, es) && PostsBy(Run(m, es).posts, id) == PostsBy(m.posts, id) + 1
    decreases match m.tasks[id].submitPc
              case Posting(_, _, _) => 2
              case FetchingNonce(_, _) => 1
              case _ => 0
  {
    var pc := m.tasks[id].submitPc;
    var e := Resume(id, if pc.FetchingNonce? then Nonce(0) else if pc.Signing? then Done else StaleNonce);
    var m' := Step(m, e);
    if pc.Signing? {
      es := [e];
      assert es[1..] == [];
      assert m'.posts[..|m.posts|] == m.posts;
    } else {
      var rest := ToNextPost(m', id);
      es := [e] + rest;
      assert es[1..] == rest;
    }
  }

  // ----- what is handed to the Poster -----

  /** Requests made so far: one a retry, counting the one under way. */
  function Made(t: Task): nat {
    if !t.Submitting? then 0 else Attempt(t.submitPc) + if t.submitPc.Posting? then 1 else 0
  }

  ghost predicate PostsOf(m: Machine, id: nat) {
    && (id >= m.nextTask ==> PostsBy(m.posts, id) == 0)
    && (id in m.tasks ==> PostsBy(m.posts, id) == Made(m.tasks[id]))
    && PostsBy(m.posts, id) <= MAX_STALE_NONCE_RETRIES + 1
  }

  lemma {:induction false} PostsOfStep(m: Machine, id: nat, e: Event)
    requires Inv(m) && Enabled(m, e) && PostsOf(m, id)
    ensures PostsOf(Step(m, e), id)
  {
    var m' := Step(m, e);
    assert id in m.tasks ==> Orderly(m, id);
    assert m.nextTask in m.tasks ==> Orderly(m, m.nextTask);
    if e.ClickSubmit? {
      SubmitOutcome(m, e.hasProvider, e.why);
      hide OnSubmit, PageAgrees, Inv;
    } else if e.Resume? && m.tasks[e.task].Submitting? {
      assert Orderly(m, e.task);
      PostsOfResume(m, id, e.task, e.reply);
    } else {
      OtherStep(m, e);
      hide Step, Enabled, PageAgrees, Inv;
    }
  }

  lemma {:induction false} ResumeMade(m: Machine, k: nat, reply: Reply)
    requires Answered(m, k, reply) && Orderly(m, k)
    ensures var t, m' := m.tasks[k], ResumeSubmit(m, k, m.tasks[k], reply);
            k in m'.tasks ==> Made(m'.tasks[k]) == Made(t) + if t.submitPc.Signing? && !reply.Thrown? then 1 else 0
  {
    hide Render, SubmitFails, PostsBy;
  }

  lemma {:induction false} PostsOfResume(m: Machine, id: nat, k: nat, reply: Reply)
    requires PostsOf(m, id) && Answered(m, k, reply) && Orderly(m, k)
    ensures PostsOf(ResumeSubmit(m, k, m.tasks[k], reply), id)
  {
    ResumePosts(m, id, k, reply);
    ResumeTasks(m, id, k, reply);
    ResumeMade(m, k, reply);
    hide ResumeSubmit, PostsBy;
  }

  /** No click on Submit hands the Poster more than nine messages. */
  lemma {:induction false} AtMostNinePosts(platform: Platform, hasProvider: bool, es: seq<Event>, id: nat)
    requires Possible(Mount(platform, hasProvider), es)
    ensures PostsBy(Run(Mount(platform, hasProvider), es).posts, id) <= 9
  {
    MountInv(platform, hasProvider);
    RunPostsOf(Mount(platform, hasProvider), es, id);
  }

  lemma {:induction false} RunPostsOf(m: Machine, es: seq<Event>, id: nat)
    requires Inv(m) && PostsOf(m, id) && Possible(m, es)
    ensures PostsOf(Run(m, es), id)
    decreases |es|
  {
    if es != [] {
      StepKeepsInv(m, es[0]);
      PostsOfStep(m, id, es[0]);
      RunPostsOf(Step(m, es[0]), es[1..], id);
    }
  }

  // ----- a disconnect lasts -----

  ghost predicate NoConnectClick(es: seq<Event>) {
    forall k :: 0 <= k < |es| ==> !es[k].ClickConnect?
  }

  ghost predicate SignedOut(m: Machine) {
    Inv(m) && m.ui.manuallyDisconnected && m.ui.account.None? && forall id :: id in m.tasks ==> !m.tasks[id].Connecting?
  }

  lemma {:induction false} StaysSignedOut(m: Machine, e: Event)
    requires SignedOut(m) && Enabled(m, e) && !e.ClickConnect?
    ensures SignedOut(Step(m, e))
  {
    StepKeepsInv(m, e);
    if e.Resume? {
      assert Orderly(m, e.task) && !m.tasks[e.task].Connecting?;
      hide Inv, PageAgrees;
      ResumeSignedOut(m, e.task, e.reply);
    } else {
      hide Inv, Rendering;
    }
  }

  lemma {:induction false} ResumeSignedOut(m: Machine, id: nat, reply: Reply)
    requires Enabled(m, Resume(id, reply)) && m.ui.manuallyDisconnected && m.ui.account.None?
    requires forall k :: k in m.tasks ==> !m.tasks[k].Connecting?
    requires m.tasks[id].Submitting? ==> !m.tasks[id].submitPc.RequestingAccount?
    ensures var m' := Step(m, Resume(id, reply));
      m'.ui.manuallyDisconnected && m'.ui.account.None? && forall k :: k in m'.tasks ==> !m'.tasks[k].Connecting?
  {
    hide Rendering;
  }

  lemma {:induction false} RunSignedOut(m: Machine, es: seq<Event>)
    requires SignedOut(m) && Possible(m, es) && NoConnectClick(es)
    ensures SignedOut(Run(m, es))
    decreases |es|
  {
    if es != [] {
      StaysSignedOut(m, es[0]);
      RunSignedOut(Step(m, es[0]), es[1..]);
    }
  }

  /** After a click on Disconnect no run without a click on Connect brings an account back, unless a connect was in flight. */
  lemma {:induction false} DisconnectLastsIff(m: Machine)
    requires Inv(m) && Enabled(m, ClickDisconnect)
    ensures var out := Step(m, ClickDisconnect);
            (forall es | Possible(out, es) && NoConnectClick(es) :: Run(out, es).ui.account.None?)
            <==> (forall id :: id in m.tasks ==> !m.tasks[id].Connecting?)
  {
    var out := Step(m, ClickDisconnect);
    StepKeepsInv(m, ClickDisconnect);
    if forall id :: id in m.tasks ==> !m.tasks[id].Connecting? {
      assert SignedOut(out);
      forall es | Possible(out, es) && NoConnectClick(es) ensures Run(out, es).ui.account.None? {
        RunSignedOut(out, es);
      }
    }
    if id :| id in m.tasks && m.tasks[id].Connecting? {
      var es := ConnectComesBack(out, id);
      assert Possible(out, es) && NoConnectClick(es);
    }
  }

  lemma {:induction false} ConnectComesBack(m: Machine, id: nat) returns (es: seq<Event>)
    requires id in m.tasks && m.tasks[id].Connecting?
    ensures Possible(m, es) && NoConnectClick(es) && Run(m, es).ui.account.Some?
    decreases m.tasks[id].connectPc.AwaitAccount?
  {
    if m.tasks[id].connectPc.AwaitAccount? {
      var e := Resume(id, Granted([]));
      var rest := ConnectComesBack(Step(m, e), id);
      es := [e] + rest;
      assert es[1..] == rest;
    } else {
      es := [Resume(id, Done)];
      assert es[1..] == [];
    }
  }

  // ----- drafts -----

  /** As long as the submit of `draft` is in flight, the composer holds that text, or none. */
  ghost predicate DraftSafe(m: Machine, id: nat, draft: string) {
    Current(m, id) ==> m.ui.composing.None? || m.ui.composing.value.draft == draft || m.ui.composing.value.draft == []
  }

  lemma {:induction false} ComposerChanges(m: Machine, e: Event)
    requires Enabled(m, e) && PageAgrees(m.ui) && m.ui.submitting
    ensures var c := m.ui.composing;
            var c' := Step(m, e).ui.composing;
            || c' == c
            || (c' == None && (e.ClickDisconnect? || e == AccountsChanged(None) || (e.Resume? && Current(m, e.task))))
            || (e.StartCompose? && c'.Some? && c'.value.draft == if c.Some? then c.value.draft else [])
  {
    if e.Resume? {
      ComposerOnResume(m, e.task, e.reply);
    } else {
      ComposerOnEvent(m, e);
    }
    hide Step, Enabled, PageAgrees;
  }

  lemma {:induction false} ComposerOnResume(m: Machine, id: nat, reply: Reply)
    requires Enabled(m, Resume(id, reply))
    ensures Step(m, Resume(id, reply)).ui.composing == if Current(m, id) && reply.Accepted? then None else m.ui.composing
  {
    hide Rendering;
  }

  lemma {:induction false} ComposerOnEvent(m: Machine, e: Event)
    requires Enabled(m, e) && PageAgrees(m.ui) && m.ui.submitting && !e.Resume?
    ensures var c := m.ui.composing;
            Step(m, e).ui.composing ==
              if e.ClickDisconnect? || e == AccountsChanged(None) then None
              else if e.StartCompose? then Some(Composing(e.parent, if c.Some? then c.value.draft else []))
              else c
  {
    hide Rendering;
  }

  lemma {:induction false} DraftSafeStep(m: Machine, id: nat, draft: string, e: Event)
    requires Inv(m) && Enabled(m, e) && id < m.nextTask && DraftSafe(m, id, draft)
    ensures DraftSafe(Step(m, e), id, draft) && id < Step(m, e).nextTask
  {
    var m' := Step(m, e);
    assert id in m.tasks ==> Orderly(m, id);
    if m.ui.submitting {
      ComposerChanges(m, e);
    }
    CurrentBefore(m, id, e);
    hide Inv, Step, Enabled;
  }

  lemma {:induction false} CurrentBefore(m: Machine, id: nat, e: Event)
    requires Inv(m) && Enabled(m, e) && id < m.nextTask
    ensures id < Step(m, e).nextTask && (Current(Step(m, e), id) ==> Current(m, id) && m.ui.submitting)
  {
    var m' := Step(m, e);
    assert id in m.tasks ==> Orderly(m, id);
    if e.ClickSubmit? {
      SubmitOutcome(m, e.hasProvider, e.why);
      hide OnSubmit;
    } else if e.Resume? && m.tasks[e.task].Submitting? {
      assert Orderly(m, e.task);
      ResumedSubmit(m, e.task, e.reply);
      hide ResumeSubmit;
    } else if !e.ClickDisconnect? {
      OtherStep(m, e);
      hide Step, Enabled;
    }
    hide PageAgrees, Render;
  }

  /** A submit that succeeds never discards text typed after it was sent: what it clears is its own draft, or nothing. */
  lemma {:induction false} SuccessDiscardsOnlyItsOwnDraft(m: Machine, id: nat, draft: string, es: seq<Event>)
    requires Inv(m) && Possible(m, es) && id < m.nextTask && DraftSafe(m, id, draft)
    ensures DraftSafe(Run(m, es), id, draft)
    decreases |es|
  {
    if es != [] {
      StepKeepsInv(m, es[0]);
      DraftSafeStep(m, id, draft, es[0]);
      SuccessDiscardsOnlyItsOwnDraft(Step(m, es[0]), id, draft, es[1..]);
    }
  }

  /** The composer keeps the text of a submit in flight exactly until the wallet reports that it is disconnected. */
  lemma {:induction false} DraftKeptIff(m: Machine, id: nat, e: Event)
    requires Inv(m) && Enabled(m, e) && Current(m, id) && m.ui.composing.Some? && Current(Step(m, e), id)
    ensures (Step(m, e).ui.composing.Some? && Step(m, e).ui.composing.value.draft == m.ui.composing.value.draft)
            <==> e != AccountsChanged(None)
  {
    assert Orderly(m, id) && m.ui.submitting;
    ComposerChanges(m, e);
    if e.Resume? && Current(m, e.task) {
      assert e.task == id;
      ResumedSubmit(m, id, e.reply);
    }
  }

  // ----- the Submit button -----

  ghost predicate OnlyTyping(es: seq<Event>) {
    forall k :: 0 <= k < |es| ==> es[k].DraftChange?
  }

  lemma {:induction false} TypingChangesNoButton(m: Machine, es: seq<Event>)
    requires Possible(m, es) && OnlyTyping(es)
    ensures Run(m, es).ui.view == m.ui.view
    decreases |es|
  {
    if es != [] {
      assert es[0].DraftChange?;
      TypingChangesNoButton(Step(m, es[0]), es[1..]);
    }
  }

  /**
   * Typing does not render, so in a composer opened on an empty draft Submit stays disabled whatever is typed; the
   * next answer of the poll renders, and then it is enabled exactly for a draft that is not blank.
   */
  lemma {:induction false} SubmitNeedsARender(m: Machine, parent: Option<Hash>, es: seq<Event>, id: nat, messages: seq<Message>)
    requires Inv(m) && Enabled(m, StartCompose(parent)) && m.ui.composing.None? && m.ui.platform.trim("") == ""
    requires Possible(Step(m, StartCompose(parent)), es) && OnlyTyping(es)
    ensures var typed := Run(Step(m, StartCompose(parent)), es);
            && !Enabled(typed, ClickSubmit(true, "")) && !Enabled(typed, ClickSubmit(false, ""))
            && (Enabled(typed, Resume(id, Messages(messages))) && !typed.ui.submitting && typed.ui.composing.Some? ==>
                  (Enabled(Step(typed, Resume(id, Messages(messages))), ClickSubmit(true, ""))
                   <==> typed.ui.platform.trim(typed.ui.composing.value.draft) != ""))
  {
    var page := Step(m, StartCompose(parent));
    StepKeepsInv(m, StartCompose(parent));
    RunKeepsInv(page, es);
    TypingChangesNoButton(page, es);
  }
}
