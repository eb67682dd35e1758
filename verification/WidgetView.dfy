// What the widget shows, told from the events of a run: the account, the thread, the composer and the error line.
module WidgetView {
  import opened Wrappers
  import opened ThreadForest
  import opened Widget
  import opened WidgetTheorems
  import opened WidgetPosts

  // ----- the account -----

  /** The account and the veto of a manual disconnect. */
  datatype Wallet = Wallet(account: Option<Account>, vetoed: bool)

  /** The answer lets a connect finish that was granted an account before. */
  predicate Connects(before: seq<Event>, e: Event) {
    && e.Resume? && e.reply == Done
    && LastAnswer(before, e.task).Some? && LastAnswer(before, e.task).value.Granted?
  }

  /** What the events say of the wallet: disconnecting forgets the account and vetoes what the wallet offers by itself until
      the next click on connect; a finished connect always counts. */
  function WalletAfter(es: seq<Event>): Wallet {
    if es == [] then Wallet(None, false)
    else
      var before, e := es[..|es| - 1], es[|es| - 1];
      var w := WalletAfter(before);
      if e.ClickDisconnect? then Wallet(None, true)
      else if e.ClickConnect? then w.(vetoed := false)
      else if e.AccountsChanged? then (if w.vetoed && e.next.Some? then w else w.(account := e.next))
      else if e.Resume? && e.reply.Existing? then
        (if w.vetoed || w.account.Some? then w else w.(account := e.reply.existing))
      else if Connects(before, e) then w.(account := Some(LastAnswer(before, e.task).value.granted))
      else w
  }

  /** A connect waits for the chain exactly when its last answer was an account, and then holds that account. */
  ghost predicate GrantTracked(es: seq<Event>, m: Machine, id: nat) {
    && (id >= m.nextTask ==> LastAnswer(es, id) == None)
    && (id in m.tasks ==> (AtChain(m.tasks[id]) <==> LastAnswer(es, id).Some? && LastAnswer(es, id).value.Granted?))
    && (id in m.tasks && AtChain(m.tasks[id]) ==> LastAnswer(es, id) == Some(Granted(m.tasks[id].connectPc.account)))
  }

  predicate AtChain(t: Task) {
    t.Connecting? && t.connectPc.AwaitChain?
  }

  lemma {:induction false} NewTask(m: Machine, e: Event, id: nat)
    requires Inv(m) && Enabled(m, e) && id in Step(m, e).tasks && id !in m.tasks
    ensures id >= m.nextTask && !AtChain(Step(m, e).tasks[id])
  {
    StepKeeps(m, e, id);
    if e.ClickSubmit? {
      hide Step, Inv, Enabled;
    } else if e.Resume? {
      if m.tasks[e.task].Submitting? {
        assert Orderly(m, e.task);
        ResumeTasks(m, id, e.task, e.reply);
      }
      hide ResumeSubmit, Rendering;
    }
  }

  lemma {:induction false} ConnectMoves(m: Machine, id: nat, reply: Reply)
    requires Enabled(m, Resume(id, reply)) && !m.tasks[id].Submitting?
    ensures var m' := Step(m, Resume(id, reply));
      && (m.tasks[id].Connecting? ==> (id in m'.tasks <==> reply.Granted?))
      && (m.tasks[id].Connecting? && id in m'.tasks ==> m'.tasks[id] == Connecting(AwaitChain(reply.granted)))
      && (!m.tasks[id].Connecting? ==> id !in m'.tasks && !reply.Granted?)
  {
    hide Rendering;
  }

  lemma {:induction false} GrantStep(m: Machine, es: seq<Event>, e: Event, id: nat)
    requires Inv(m) && Enabled(m, e) && GrantTracked(es, m, id)
    ensures GrantTracked(es + [e], Step(m, e), id)
  {
    LastAnswerAppend(es, e, id);
    StepKeeps(m, e, id);
    assert id in m.tasks ==> Orderly(m, id);
    if id in Step(m, e).tasks && id !in m.tasks {
      NewTask(m, e, id);
    }
    if e.Resume? && e.task == id {
      if m.tasks[id].Submitting? {
        ResumeMoves(m, id, e.reply);
        assert !e.reply.Granted?;
      } else {
        ConnectMoves(m, id, e.reply);
      }
    }
    hide Step, Inv, LastAnswer;
  }

  lemma {:induction false} Granting(platform: Platform, hasProvider: bool, es: seq<Event>, id: nat)
    requires Possible(Mount(platform, hasProvider), es)
    ensures Inv(Run(Mount(platform, hasProvider), es)) && GrantTracked(es, Run(Mount(platform, hasProvider), es), id)
    decreases |es|
  {
    var start := Mount(platform, hasProvider);
    MountedInv(platform, hasProvider, es);
    if es != [] {
      var init, e := es[..|es| - 1], es[|es| - 1];
      assert es == init + [e];
      RunAppend(start, init, e);
      hide Possible, Run, Mount, Inv, Enabled, Step, GrantTracked;
      Granting(platform, hasProvider, init, id);
      GrantStep(Run(start, init), init, e, id);
    }
  }

  lemma {:induction false} WalletOnResume(m: Machine, id: nat, reply: Reply)
    requires Enabled(m, Resume(id, reply)) && (m.tasks[id].Submitting? ==> !m.tasks[id].submitPc.RequestingAccount?)
    ensures var u, u' := m.ui, Step(m, Resume(id, reply)).ui;
      && u'.manuallyDisconnected == u.manuallyDisconnected
      && u'.account ==
           (if reply.Existing? && !u.manuallyDisconnected && u.account.None? then reply.existing
            else if reply == Done && AtChain(m.tasks[id]) then Some(m.tasks[id].connectPc.account)
            else u.account)
  {
    hide Rendering;
    if m.tasks[id].Submitting? {
      SubmitKeepsWallet(m, id, reply);
      hide ResumeSubmit;
    }
  }

  lemma {:induction false} SubmitKeepsWallet(m: Machine, id: nat, reply: Reply)
    requires Answered(m, id, reply) && !m.tasks[id].submitPc.RequestingAccount?
    ensures var u' := ResumeSubmit(m, id, m.tasks[id], reply).ui;
      u'.account == m.ui.account && u'.manuallyDisconnected == m.ui.manuallyDisconnected
      && u'.destroyed == m.ui.destroyed && u'.messages == m.ui.messages && u'.loading == m.ui.loading
  {
    hide Rendering;
  }

  lemma {:induction false} WalletOnEvent(m: Machine, e: Event)
    requires Enabled(m, e) && !e.Resume?
    ensures var u, u' := m.ui, Step(m, e).ui;
      && u'.manuallyDisconnected == (if e.ClickDisconnect? then true else if e.ClickConnect? then false else u.manuallyDisconnected)
      && u'.account ==
           (if e.ClickDisconnect? then None
            else if e.AccountsChanged? && !(u.manuallyDisconnected && e.next.Some?) then e.next
            else u.account)
  {
    hide Rendering;
  }

  /** A connect that finishes subscribes to the wallet's event, and nothing else changes the subscription. */
  lemma {:induction false} WiredStep(m: Machine, e: Event)
    requires Enabled(m, e)
    ensures Step(m, e).ui.wired
            <==> m.ui.wired || (e.Resume? && e.reply == Done && AtChain(m.tasks[e.task]))
  {
    if e.Resume? && m.tasks[e.task].Submitting? {
      SubmitKeepsWired(m, e.task, e.reply);
      hide ResumeSubmit;
    } else if e.Resume? {
      hide ResumeSubmit, Rendering;
    } else {
      hide Rendering;
    }
  }

  lemma {:induction false} SubmitKeepsWired(m: Machine, id: nat, reply: Reply)
    requires Answered(m, id, reply)
    ensures ResumeSubmit(m, id, m.tasks[id], reply).ui.wired == m.ui.wired
  {
    hide Rendering;
  }

  /** In every run the account and the veto are what the events say. */
  lemma {:induction false} AccountIsWallet(platform: Platform, hasProvider: bool, es: seq<Event>)
    requires Possible(Mount(platform, hasProvider), es)
    ensures var u := Run(Mount(platform, hasProvider), es).ui;
      u.account == WalletAfter(es).account && u.manuallyDisconnected == WalletAfter(es).vetoed
    decreases |es|
  {
    var start := Mount(platform, hasProvider);
    if es != [] {
      var init, e := es[..|es| - 1], es[|es| - 1];
      assert es == init + [e];
      RunAppend(start, init, e);
      AccountIsWallet(platform, hasProvider, init);
      MountedInv(platform, hasProvider, init);
      var m := Run(start, init);
      if e.Resume? {
        Granting(platform, hasProvider, init, e.task);
        assert Orderly(m, e.task);
        WalletOnResume(m, e.task, e.reply);
      } else {
        WalletOnEvent(m, e);
      }
      hide Possible, Run, Mount, Inv, Step, LastAnswer;
    }
  }

  // ----- the thread -----

  /** The last list of messages that a refresh brought while the widget stood. */
  function ThreadAfter(es: seq<Event>): Option<seq<Message>> {
    if es == [] then None
    else
      var before, e := es[..|es| - 1], es[|es| - 1];
      if e.Resume? && e.reply.Messages? && Destroy !in before then Some(e.reply.messages) else ThreadAfter(before)
  }

  lemma {:induction false} ThreadStep(m: Machine, e: Event)
    requires Enabled(m, e) && (e.Resume? && m.tasks[e.task].Submitting? ==> !m.tasks[e.task].submitPc.RequestingAccount?)
    ensures var u, u' := m.ui, Step(m, e).ui;
      && u'.destroyed == (u.destroyed || e == Destroy)
      && u'.messages == if e.Resume? && e.reply.Messages? && !u.destroyed then e.reply.messages else u.messages
  {
    if e.Resume? && m.tasks[e.task].Submitting? {
      SubmitKeepsWallet(m, e.task, e.reply);
      hide ResumeSubmit;
    } else if e.Resume? {
      hide ResumeSubmit, Rendering;
    } else {
      hide Rendering;
    }
  }

  /** In every run the messages on the page are those of the last answer before the widget was taken down. */
  lemma {:induction false} MessagesAreTheThread(platform: Platform, hasProvider: bool, es: seq<Event>)
    requires Possible(Mount(platform, hasProvider), es)
    ensures var u := Run(Mount(platform, hasProvider), es).ui;
      u.messages == ThreadAfter(es).GetOr([]) && (u.destroyed <==> Destroy in es)
    decreases |es|
  {
    var start := Mount(platform, hasProvider);
    if es != [] {
      var init, e := es[..|es| - 1], es[|es| - 1];
      assert es == init + [e];
      RunAppend(start, init, e);
      MessagesAreTheThread(platform, hasProvider, init);
      MountedInv(platform, hasProvider, init);
      var m := Run(start, init);
      assert e.Resume? ==> Orderly(m, e.task);
      ThreadStep(m, e);
      hide Possible, Run, Mount, Inv, Step;
    }
  }

  // ----- composer, loading, error -----

  /** The text that a click on Submit would send. */
  function Trimmed(u: Ui): string
    requires u.composing.Some?
  {
    u.platform.trim(u.composing.value.draft)
  }

  /** The composer opens at a place keeping its text, takes what is typed, and closes on Cancel, when the account goes, and
      when its own submit is accepted; nothing else moves it. */
  lemma {:induction false} ComposerStep(m: Machine, e: Event)
    requires Inv(m) && Enabled(m, e)
    ensures var c, c' := m.ui.composing, Step(m, e).ui.composing;
      match e
      case StartCompose(parent) => c' == Some(Composing(parent, if c.Some? then c.value.draft else ""))
      case DraftChange(draft) => c' == if c.Some? then Some(Composing(c.value.parent, draft)) else None
      case CancelCompose => c' == None
      case ClickDisconnect => c' == None
      case AccountsChanged(next) => c' == if next.None? then None else c
      case Resume(id, reply) => c' == if Current(m, id) && reply.Accepted? then None else c
      case _ => c' == c
  {
    if e.Resume? {
      ComposerOnResume(m, e.task, e.reply);
      hide Step;
    } else {
      hide Rendering;
    }
  }

  /** What each step leaves in the error line. */
  lemma {:induction false} ErrorStep(m: Machine, e: Event)
    requires Inv(m) && Enabled(m, e)
    ensures var u, error := m.ui, Step(m, e).ui.error;
      match e
      case ClickConnect(hasProvider, why) => error == if hasProvider then None else Some(Failed(why))
      case ClickDisconnect => error == None
      case StartCompose(_) => error == None
      case ClickSubmit(hasProvider, why) =>
        && u.composing.Some?
        && error == if Trimmed(u) == "" then u.error
                    else if u.platform.points(Trimmed(u)) > 4000 then Some(TooLong)
                    else if hasProvider then None else Some(Failed(why))
      case Resume(id, reply) =>
        (match m.tasks[id]
         case Refreshing => error == if reply.Thrown? && !u.destroyed then Some(Failed(reply.why)) else u.error
         case Bootstrapping => error == u.error
         case Connecting(_) => error == if reply.Thrown? then Some(Failed(reply.why)) else u.error
         case Submitting(epoch, _, _, pc) =>
           error == if epoch != u.opEpoch then u.error
                    else if reply.Thrown? then Some(Failed(reply.why))
                    else if reply.StaleNonce? && pc.Posting? && pc.attempt == 8 then Some(NoncesExhausted)
                    else u.error)
      case _ => error == u.error
  {
    if e.Resume? {
      ErrorOnResume(m, e.task, e.reply);
      hide Step, Inv;
    } else if e.ClickSubmit? {
      SubmitOutcome(m, e.hasProvider, e.why);
      hide Rendering, Inv;
    } else {
      hide Rendering, Inv;
    }
  }

  lemma {:induction false} ErrorOnResume(m: Machine, id: nat, reply: Reply)
    requires Enabled(m, Resume(id, reply))
    ensures var u, error := m.ui, Step(m, Resume(id, reply)).ui.error;
      match m.tasks[id]
      case Refreshing => error == if reply.Thrown? && !u.destroyed then Some(Failed(reply.why)) else u.error
      case Bootstrapping => error == u.error
      case Connecting(_) => error == if reply.Thrown? then Some(Failed(reply.why)) else u.error
      case Submitting(epoch, _, _, pc) =>
        error == if epoch != u.opEpoch then u.error
                 else if reply.Thrown? then Some(Failed(reply.why))
                 else if reply.StaleNonce? && pc.Posting? && pc.attempt == 8 then Some(NoncesExhausted)
                 else u.error
  {
    hide Rendering;
  }

  /** The page says it is loading until the first refresh is answered, well or badly, while the widget stands. */
  lemma {:induction false} LoadingStep(m: Machine, e: Event)
    requires Inv(m) && Enabled(m, e)
    ensures Step(m, e).ui.loading
            <==> m.ui.loading && !(e.Resume? && m.tasks[e.task].Refreshing? && !m.ui.destroyed)
  {
    if e.Resume? {
      assert Orderly(m, e.task);
      LoadingOnResume(m, e.task, e.reply);
      hide Step, Inv;
    } else {
      hide Rendering, Inv;
    }
  }

  lemma {:induction false} LoadingOnResume(m: Machine, id: nat, reply: Reply)
    requires Enabled(m, Resume(id, reply)) && (m.tasks[id].Submitting? ==> !m.tasks[id].submitPc.RequestingAccount?)
    ensures Step(m, Resume(id, reply)).ui.loading <==> m.ui.loading && !(m.tasks[id].Refreshing? && !m.ui.destroyed)
  {
    if m.tasks[id].Submitting? {
      SubmitKeepsWallet(m, id, reply);
      hide ResumeSubmit;
    } else {
      hide ResumeSubmit, Rendering;
    }
  }

  // ----- what a step starts, and what goes on -----

  ghost predicate Started(m: Machine, m': Machine, t: Task) {
    m'.nextTask == m.nextTask + 1 && m.nextTask in m'.tasks && m'.tasks[m.nextTask] == t
  }

  /** A connect starts at its click, a refresh at a poll and when a submit that still counts is accepted, a submit at a
      click on a text that is neither blank nor too long; nothing else starts a task. */
  lemma {:induction false} StartedBy(m: Machine, e: Event)
    requires Inv(m) && Enabled(m, e)
    ensures var u, m' := m.ui, Step(m, e);
      match e
      case ClickConnect(hasProvider, _) =>
        if hasProvider then Started(m, m', Connecting(AwaitAccount)) else m'.nextTask == m.nextTask
      case Poll => Started(m, m', Refreshing)
      case ClickSubmit(hasProvider, _) =>
        && u.composing.Some? && u.account.Some?
        && if hasProvider && Trimmed(u) != "" && u.platform.points(Trimmed(u)) <= 4000 then
             Started(m, m', Submitting(u.opEpoch, Trimmed(u), u.composing.value.parent, EnsuringChain(u.account.value)))
           else m'.nextTask == m.nextTask
      case Resume(id, reply) =>
        if Current(m, id) && reply.Accepted? && !u.destroyed then Started(m, m', Refreshing) else m'.nextTask == m.nextTask
      case _ => m'.nextTask == m.nextTask
  {
    if e.ClickSubmit? {
      SubmitOutcome(m, e.hasProvider, e.why);
      hide Rendering, Inv;
    } else if e.Resume? {
      assert Orderly(m, e.task);
      StartedOnResume(m, e.task, e.reply);
      hide Step, Inv;
    } else {
      hide Rendering, Inv;
    }
  }

  lemma {:induction false} StartedOnResume(m: Machine, id: nat, reply: Reply)
    requires Enabled(m, Resume(id, reply)) && Orderly(m, id)
    ensures var m' := Step(m, Resume(id, reply));
      if Current(m, id) && reply.Accepted? && !m.ui.destroyed then Started(m, m', Refreshing)
      else m'.nextTask == m.nextTask
  {
    hide Rendering;
  }

  /** A submit goes on after an answer unless something was thrown, the chain check found it overtaken, the Poster took the
      message, or no retry is left; then it asks for a nonce, a signature, the Poster, or the next nonce. */
  lemma {:induction false} SubmitGoesOnIff(m: Machine, id: nat, reply: Reply)
    requires Answered(m, id, reply) && Orderly(m, id)
    ensures var t, m' := m.tasks[id], ResumeSubmit(m, id, m.tasks[id], reply);
      match t.submitPc
      case RequestingAccount => false
      case EnsuringChain(a) =>
        if reply == Done && t.epoch == m.ui.opEpoch then id in m'.tasks && m'.tasks[id] == t.(submitPc := FetchingNonce(a, 0))
        else id !in m'.tasks
      case FetchingNonce(a, n) =>
        if reply.Nonce? then id in m'.tasks && m'.tasks[id] == t.(submitPc := Signing(a, n, reply.nonce)) else id !in m'.tasks
      case Signing(a, n, nonce) =>
        if reply == Done then id in m'.tasks && m'.tasks[id] == t.(submitPc := Posting(a, n, nonce)) else id !in m'.tasks
      case Posting(a, n, _) =>
        if reply.StaleNonce? && n < 8 then id in m'.tasks && m'.tasks[id] == t.(submitPc := FetchingNonce(a, n + 1))
        else id !in m'.tasks
  {
    hide Rendering;
  }

  /** The answers to a submit that goes well. */
  function GoodAnswers(id: nat, nonce: nat): seq<Event> {
    [Resume(id, Done), Resume(id, Nonce(nonce)), Resume(id, Done), Resume(id, Accepted)]
  }

  /** A click on Submit whose answers are all good hands over one message, closes the composer, and is over. */
  lemma {:induction false} SubmitGetsThrough(m: Machine, nonce: nat)
    requires Inv(m) && Enabled(m, ClickSubmit(true, "")) && m.ui.composing.Some? && m.ui.account.Some?
    requires Trimmed(m.ui) != "" && m.ui.platform.points(Trimmed(m.ui)) <= 4000
    ensures Possible(m, [ClickSubmit(true, "")] + GoodAnswers(m.nextTask, nonce))
    ensures var last := Run(m, [ClickSubmit(true, "")] + GoodAnswers(m.nextTask, nonce));
      && last.posts == m.posts + [Post(m.nextTask, m.ui.account.value, m.ui.composing.value.parent, Trimmed(m.ui), nonce)]
      && last.ui.composing.None? && !last.ui.submitting && last.ui.account == m.ui.account
      && m.nextTask !in last.tasks
  {
    var id, u := m.nextTask, m.ui;
    var m1 := Step(m, ClickSubmit(true, ""));
    StepKeepsInv(m, ClickSubmit(true, ""));
    SubmitOutcome(m, true, "");
    StartedBy(m, ClickSubmit(true, ""));
    AnswersGetThrough(m1, id, nonce);
    assert ([ClickSubmit(true, "")] + GoodAnswers(id, nonce))[1..] == GoodAnswers(id, nonce);
    WalletOnEvent(m, ClickSubmit(true, ""));
  }

  lemma {:induction false} AnswersGetThrough(m: Machine, id: nat, nonce: nat)
    requires Inv(m) && id in m.tasks && m.tasks[id].Submitting? && m.tasks[id].submitPc.EnsuringChain? && Current(m, id)
    ensures Possible(m, GoodAnswers(id, nonce))
    ensures var t, last := m.tasks[id], Run(m, GoodAnswers(id, nonce));
      && last.posts == m.posts + [Post(id, t.submitPc.account, t.parent, t.draft, nonce)]
      && last.ui.composing.None? && !last.ui.submitting && last.ui.account == m.ui.account
      && id !in last.tasks
  {
    hide Rendering;
    var es := GoodAnswers(id, nonce);
    var a := Step(m, es[0]);
    var b := Step(a, es[1]);
    var c := Step(b, es[2]);
    var d := Step(c, es[3]);
    assert Possible(d, []) && Run(d, []) == d;
    assert [es[3]][1..] == [] && Possible(c, [es[3]]) && Run(c, [es[3]]) == d;
    assert es[2..][1..] == [es[3]] && es[2..][0] == es[2] && Possible(b, es[2..]) && Run(b, es[2..]) == d;
    assert es[1..][1..] == es[2..] && es[1..][0] == es[1] && Possible(a, es[1..]) && Run(a, es[1..]) == d;
  }
}
