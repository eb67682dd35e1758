// What the widget hands to the Poster, told from the events of a run: the click that sent the comment off, and the last
// answer its task was given.
module WidgetPosts {
  import opened Wrappers
  import opened ThreadForest
  import opened Widget
  import opened WidgetTheorems

  /** The latest answer a task was given. */
  function LastAnswer(es: seq<Event>, id: nat): Option<Reply> {
    if es == [] then None
    else
      var e := es[|es| - 1];
      if e.Resume? && e.task == id then Some(e.reply) else LastAnswer(es[..|es| - 1], id)
  }

  /** Event `k` is the click on Submit that started the task, with this text, place and account in the composer. */
  ghost predicate SentBy(start: Machine, es: seq<Event>, k: nat, id: nat, draft: string, parent: Option<Hash>, account: Account)
  {
    && k < |es| && es[k].ClickSubmit? && Possible(start, es[..k]) && Possible(start, es[..k + 1])
    && var before, after := Run(start, es[..k]), Run(start, es[..k + 1]);
    && before.nextTask == id && after.nextTask == id + 1
    && before.ui.account == Some(account) && before.ui.composing.Some?
    && before.ui.composing.value.parent == parent
    && before.ui.platform.trim(before.ui.composing.value.draft) == draft
  }

  // ----- runs grow at the end -----

  lemma {:induction false} RunAppend(m: Machine, es: seq<Event>, e: Event)
    ensures Possible(m, es + [e]) <==> Possible(m, es) && Enabled(Run(m, es), e)
    ensures Possible(m, es + [e]) ==> Run(m, es + [e]) == Step(Run(m, es), e)
    decreases |es|
  {
    hide Step, Enabled;
    if es == [] {
      assert [e][1..] == [];
      assert es + [e] == [e];
      assert Enabled(m, e) ==> Possible(Step(m, e), []);
    } else {
      assert (es + [e])[1..] == es[1..] + [e];
      if Enabled(m, es[0]) {
        RunAppend(Step(m, es[0]), es[1..], e);
      }
    }
  }

  /** The first `j` events and the next. */
  lemma {:induction false} Prefix(m: Machine, es: seq<Event>, j: nat)
    requires Possible(m, es) && j <= |es|
    ensures Possible(m, es[..j])
    ensures j < |es| ==>
              && Enabled(Run(m, es[..j]), es[j]) && Possible(m, es[..j + 1])
              && Run(m, es[..j + 1]) == Step(Run(m, es[..j]), es[j])
    decreases |es| - j
  {
    hide Step, Enabled, Possible, Run;
    if j == |es| {
      assert es[..j] == es;
    } else {
      Prefix(m, es, j + 1);
      assert es[..j + 1] == es[..j] + [es[j]];
      RunAppend(m, es[..j], es[j]);
    }
  }

  lemma {:induction false} LastAnswerAppend(es: seq<Event>, e: Event, id: nat)
    ensures LastAnswer(es + [e], id) == if e.Resume? && e.task == id then Some(e.reply) else LastAnswer(es, id)
  {
    assert (es + [e])[..|es|] == es;
  }

  // ----- one step -----

  /** The account a submit acts for. */
  function ActingFor(pc: SubmitPc): Option<Account> {
    if pc.RequestingAccount? then None else Some(pc.account)
  }

  lemma {:induction false} ResumeMoves(m: Machine, k: nat, reply: Reply)
    requires Answered(m, k, reply) && Orderly(m, k)
    ensures var t, m' := m.tasks[k], ResumeSubmit(m, k, m.tasks[k], reply);
      k in m'.tasks ==>
        && m'.tasks[k].Submitting? && m'.tasks[k].draft == t.draft && m'.tasks[k].parent == t.parent
        && ActingFor(m'.tasks[k].submitPc) == ActingFor(t.submitPc)
        && (m'.tasks[k].submitPc.Signing? <==> reply.Nonce?)
        && (reply.Nonce? ==> m'.tasks[k].submitPc.nonce == reply.nonce)
  {
    hide Render, SubmitFails;
  }

  lemma {:induction false} ResumeHands(m: Machine, k: nat, reply: Reply)
    requires Answered(m, k, reply)
    ensures var t, pc := m.tasks[k], m.tasks[k].submitPc;
      ResumeSubmit(m, k, t, reply).posts ==
        m.posts + if pc.Signing? && reply == Done then [Post(k, pc.account, t.parent, t.draft, pc.nonce)] else []
  {
    hide Render, SubmitFails;
  }

  /** A task is at the signature exactly when its last answer was a nonce, and then holds that nonce. */
  ghost predicate AnswersTracked(es: seq<Event>, m: Machine, id: nat) {
    && (id >= m.nextTask ==> LastAnswer(es, id) == None)
    && (id in m.tasks ==> (AtSignature(m.tasks[id]) <==> LastAnswer(es, id).Some? && LastAnswer(es, id).value.Nonce?))
    && (id in m.tasks && AtSignature(m.tasks[id]) ==> LastAnswer(es, id) == Some(Nonce(m.tasks[id].submitPc.nonce)))
  }

  /** A submit in flight was sent by a click. */
  ghost predicate SentTracked(start: Machine, es: seq<Event>, m: Machine, id: nat) {
    id in m.tasks && m.tasks[id].Submitting? ==>
      var t := m.tasks[id];
      ActingFor(t.submitPc).Some? && exists k :: SentBy(start, es, k, id, t.draft, t.parent, ActingFor(t.submitPc).value)
  }

  predicate AtSignature(t: Task) {
    t.Submitting? && t.submitPc.Signing?
  }

  /** A step leaves a task that it does not answer as it is, or makes it: a submit at a click, something else otherwise. */
  ghost predicate Kept(m: Machine, e: Event, m': Machine, id: nat) {
    && m.nextTask <= m'.nextTask
    && (id in m'.tasks && id < m.nextTask ==> id in m.tasks)
    && (id in m'.tasks && id in m.tasks && !(e.Resume? && e.task == id) ==> m'.tasks[id] == m.tasks[id])
    && (id in m'.tasks && id in m.tasks && !m.tasks[id].Submitting? ==> !m'.tasks[id].Submitting?)
    && (id in m'.tasks && id !in m.tasks ==>
          if e.ClickSubmit? then m.ui.composing.Some? && m.ui.account.Some? && Sent(m, m') && id == m.nextTask
          else !m'.tasks[id].Submitting?)
  }

  lemma {:induction false} StepKeeps(m: Machine, e: Event, id: nat)
    requires Inv(m) && Enabled(m, e)
    ensures Kept(m, e, Step(m, e), id)
  {
    assert id in m.tasks ==> Orderly(m, id);
    if e.ClickSubmit? {
      SubmitOutcome(m, e.hasProvider, e.why);
      hide OnSubmit, PageAgrees, Inv;
    } else if e.Resume? && m.tasks[e.task].Submitting? {
      assert Orderly(m, e.task);
      ResumeTasks(m, id, e.task, e.reply);
      ResumeMoves(m, e.task, e.reply);
      hide ResumeSubmit, PageAgrees, Inv;
    } else {
      OtherStep(m, e);
      hide Step, Enabled, PageAgrees, Inv;
    }
  }

  lemma {:induction false} AnswersStep(m: Machine, es: seq<Event>, e: Event, id: nat)
    requires Inv(m) && Enabled(m, e) && AnswersTracked(es, m, id)
    ensures AnswersTracked(es + [e], Step(m, e), id)
  {
    LastAnswerAppend(es, e, id);
    StepKeeps(m, e, id);
    assert id in m.tasks ==> Orderly(m, id);
    if e.Resume? && e.task == id && m.tasks[id].Submitting? {
      ResumeMoves(m, id, e.reply);
      hide ResumeSubmit, Inv, LastAnswer;
    } else {
      hide Step, Inv, LastAnswer;
    }
  }

  lemma {:induction false} SentStays(start: Machine, es: seq<Event>, e: Event, k: nat, id: nat, draft: string,
                                     parent: Option<Hash>, account: Account)
    requires SentBy(start, es, k, id, draft, parent, account)
    ensures SentBy(start, es + [e], k, id, draft, parent, account)
  {
    hide Possible, Run;
    assert (es + [e])[..k] == es[..k] && (es + [e])[..k + 1] == es[..k + 1];
  }

  /** A click that starts a task is the one that sent it. */
  lemma {:induction false} SentNow(start: Machine, es: seq<Event>, e: Event)
    requires Possible(start, es + [e]) && Possible(start, es) && e.ClickSubmit?
    requires var m, m' := Run(start, es), Run(start, es + [e]);
      m.ui.composing.Some? && m.ui.account.Some? && Sent(m, m')
    ensures var m, t := Run(start, es), Run(start, es + [e]).tasks[Run(start, es).nextTask];
      t.Submitting? && SentBy(start, es + [e], |es|, m.nextTask, t.draft, t.parent, m.ui.account.value)
      && ActingFor(t.submitPc) == m.ui.account
  {
    hide Possible, Run;
    assert (es + [e])[..|es|] == es && (es + [e])[..|es| + 1] == es + [e];
  }

  lemma {:induction false} SentStep(start: Machine, es: seq<Event>, e: Event, id: nat)
    requires Possible(start, es + [e]) && Possible(start, es) && Inv(Run(start, es))
    requires SentTracked(start, es, Run(start, es), id)
    ensures SentTracked(start, es + [e], Run(start, es + [e]), id)
  {
    var m := Run(start, es);
    RunAppend(start, es, e);
    var m' := Step(m, e);
    StepKeeps(m, e, id);
    assert id in m.tasks ==> Orderly(m, id);
    if id in m'.tasks && m'.tasks[id].Submitting? {
      if id in m.tasks {
        var t := m.tasks[id];
        var k :| SentBy(start, es, k, id, t.draft, t.parent, ActingFor(t.submitPc).value);
        if e.Resume? && e.task == id {
          ResumeMoves(m, id, e.reply);
        }
        SentStays(start, es, e, k, id, t.draft, t.parent, ActingFor(t.submitPc).value);
      } else {
        SentNow(start, es, e);
      }
    }
  }

  // ----- whole runs -----

  lemma {:induction false} Tracking(platform: Platform, hasProvider: bool, es: seq<Event>, id: nat)
    requires Possible(Mount(platform, hasProvider), es)
    ensures var start := Mount(platform, hasProvider);
      && Inv(Run(start, es)) && AnswersTracked(es, Run(start, es), id) && SentTracked(start, es, Run(start, es), id)
    decreases |es|
  {
    var start := Mount(platform, hasProvider);
    MountedInv(platform, hasProvider, es);
    if es != [] {
      var init, e := es[..|es| - 1], es[|es| - 1];
      assert es == init + [e];
      RunAppend(start, init, e);
      hide Possible, Run, Mount, Inv, Enabled, Step, AnswersTracked, SentTracked;
      Tracking(platform, hasProvider, init, id);
      AnswersStep(Run(start, init), init, e, id);
      SentStep(start, init, e, id);
    }
  }

  lemma {:induction false} MountedInv(platform: Platform, hasProvider: bool, es: seq<Event>)
    requires Possible(Mount(platform, hasProvider), es)
    ensures Inv(Run(Mount(platform, hasProvider), es))
  {
    MountInv(platform, hasProvider);
    RunKeepsInv(Mount(platform, hasProvider), es);
  }

  /** The answer completes the signature asked for after a nonce. */
  predicate Signs(es: seq<Event>, j: nat)
    requires j < |es|
  {
    && es[j].Resume? && es[j].reply == Done
    && LastAnswer(es[..j], es[j].task).Some? && LastAnswer(es[..j], es[j].task).value.Nonce?
  }

  lemma {:induction false} PostsStep(m: Machine, es: seq<Event>, e: Event)
    requires Inv(m) && Enabled(m, e) && forall id :: AnswersTracked(es, m, id)
    ensures var posts, posts' := m.posts, Step(m, e).posts;
      if e.Resume? && e.reply == Done && LastAnswer(es, e.task).Some? && LastAnswer(es, e.task).value.Nonce? then
        && e.task in m.tasks && AtSignature(m.tasks[e.task])
        && var t := m.tasks[e.task];
           posts' == posts + [Post(e.task, t.submitPc.account, t.parent, t.draft, LastAnswer(es, e.task).value.nonce)]
      else posts' == posts
  {
    if e.ClickSubmit? {
      SubmitOutcome(m, e.hasProvider, e.why);
      hide OnSubmit, PageAgrees, Inv, LastAnswer;
    } else if e.Resume? && m.tasks[e.task].Submitting? {
      ResumeHands(m, e.task, e.reply);
      assert AnswersTracked(es, m, e.task);
      hide ResumeSubmit, PageAgrees, Inv, LastAnswer;
    } else {
      OtherStep(m, e);
      assert e.Resume? ==> AnswersTracked(es, m, e.task);
      hide Step, PageAgrees, Inv, LastAnswer;
    }
  }

  /** In every run, one message is handed over at each answered signature, and none at any other event. */
  lemma {:induction false} HandedOverIff(platform: Platform, hasProvider: bool, es: seq<Event>, j: nat)
    requires Possible(Mount(platform, hasProvider), es) && j < |es|
    ensures Possible(Mount(platform, hasProvider), es[..j]) && Possible(Mount(platform, hasProvider), es[..j + 1])
    ensures var before, after := Run(Mount(platform, hasProvider), es[..j]), Run(Mount(platform, hasProvider), es[..j + 1]);
      && |after.posts| == |before.posts| + (if Signs(es, j) then 1 else 0)
      && after.posts[..|before.posts|] == before.posts
  {
    var start := Mount(platform, hasProvider);
    Prefix(start, es, j);
    MountedInv(platform, hasProvider, es[..j]);
    forall id ensures AnswersTracked(es[..j], Run(start, es[..j]), id) {
      Tracking(platform, hasProvider, es[..j], id);
    }
    PostsStep(Run(start, es[..j]), es[..j], es[j]);
  }

  /** Every message handed over in a run was sent by a click: at `k` the composer held its text and its place, and the
      widget its account; at `j` it was signed, with the nonce its task had just been answered. */
  lemma {:induction false} PostHasItsClick(platform: Platform, hasProvider: bool, es: seq<Event>, q: nat) returns (k: nat, j: nat)
    requires Possible(Mount(platform, hasProvider), es) && q < |Run(Mount(platform, hasProvider), es).posts|
    ensures var start, p := Mount(platform, hasProvider), Run(Mount(platform, hasProvider), es).posts[q];
      && SentBy(start, es, k, p.task, p.content, p.parent, p.sender)
      && k < j < |es| && es[j] == Resume(p.task, Done) && LastAnswer(es[..j], p.task) == Some(Nonce(p.nonce))
      && Possible(start, es[..j]) && |Run(start, es[..j]).posts| == q
    decreases |es|
  {
    var start := Mount(platform, hasProvider);
    if es != [] {
      var init, e := es[..|es| - 1], es[|es| - 1];
      var p := Run(start, es).posts[q];
      assert es == init + [e];
      RunAppend(start, init, e);
      var m := Run(start, init);
      MountedInv(platform, hasProvider, init);
      forall id ensures AnswersTracked(init, m, id) && SentTracked(start, init, m, id) {
        Tracking(platform, hasProvider, init, id);
      }
      PostsStep(m, init, e);
      hide Inv, Step, Enabled, LastAnswer, AnswersTracked, SentBy, Mount, Possible, Run;
      if q < |m.posts| {
        k, j := PostHasItsClick(platform, hasProvider, init, q);
        assert es[..j] == init[..j];
      } else {
        j := |es| - 1;
        assert SentTracked(start, init, m, p.task);
        k :| SentBy(start, init, k, p.task, p.content, p.parent, p.sender);
      }
      SentStays(start, init, e, k, p.task, p.content, p.parent, p.sender);
    }
  }

  lemma {:induction false} TasksCountUp(platform: Platform, hasProvider: bool, es: seq<Event>, i: nat, j: nat)
    requires Possible(Mount(platform, hasProvider), es) && i <= j <= |es|
    ensures Possible(Mount(platform, hasProvider), es[..i]) && Possible(Mount(platform, hasProvider), es[..j])
    ensures Run(Mount(platform, hasProvider), es[..i]).nextTask <= Run(Mount(platform, hasProvider), es[..j]).nextTask
    decreases j
  {
    var start := Mount(platform, hasProvider);
    Prefix(start, es, i);
    Prefix(start, es, j);
    if i < j {
      TasksCountUp(platform, hasProvider, es, i, j - 1);
      Prefix(start, es, j - 1);
      MountedInv(platform, hasProvider, es[..j - 1]);
      StepKeeps(Run(start, es[..j - 1]), es[j - 1], 0);
    }
  }

  /** Whatever a task started by a click on Submit hands to the Poster, in any run, carries the text, the place and the
      account of that click, and the nonce its task was answered last. */
  lemma {:induction false} ClickDecidesItsPosts(platform: Platform, hasProvider: bool, es: seq<Event>, k: nat, q: nat)
    returns (j: nat)
    requires Possible(Mount(platform, hasProvider), es) && k < |es| && es[k].ClickSubmit?
    requires Possible(Mount(platform, hasProvider), es[..k]) && Possible(Mount(platform, hasProvider), es[..k + 1])
    requires var start := Mount(platform, hasProvider);
      && Run(start, es[..k + 1]).nextTask == Run(start, es[..k]).nextTask + 1
      && q < |Run(start, es).posts| && Run(start, es).posts[q].task == Run(start, es[..k]).nextTask
    ensures var start, p := Mount(platform, hasProvider), Run(Mount(platform, hasProvider), es).posts[q];
      var click := Run(start, es[..k]).ui;
      && click.composing.Some? && p.content == click.platform.trim(click.composing.value.draft)
      && p.parent == click.composing.value.parent && Some(p.sender) == click.account
      && k < j < |es| && es[j] == Resume(p.task, Done) && LastAnswer(es[..j], p.task) == Some(Nonce(p.nonce))
  {
    var start := Mount(platform, hasProvider);
    var i;
    i, j := PostHasItsClick(platform, hasProvider, es, q);
    hide Mount, Possible, Run;
    if i < k {
      TasksCountUp(platform, hasProvider, es, i + 1, k);
    } else if k < i {
      TasksCountUp(platform, hasProvider, es, k + 1, i);
    }
  }
}
