// packages/bam-comments/src/render.ts: one mounted instance, its variables updated in place by the event handlers and
// by the calls that go on after an await.
module WidgetInstance {
  import opened Wrappers
  import opened ThreadForest
  import opened Widget
  import opened WidgetTheorems

  class Instance {
    const platform: Platform
    var account: Option<Account>
    var composing: Option<Composing>
    var submitting: bool
    var error: Option<Notice>
    var messages: seq<Message>
    var loading: bool
    var opEpoch: nat
    var manuallyDisconnected: bool
    var wired: bool
    var destroyed: bool
    var view: View
    /** The calls suspended at an await. */
    var tasks: map<nat, Task>
    var nextTask: nat
    /** The requests made to the Poster. */
    var posts: seq<Post>

    function State(): Ui
      reads this
    {
      Ui(platform, account, composing, submitting, error, messages, loading,
         opEpoch, manuallyDisconnected, wired, destroyed, view)
    }

    function Whole(): Machine
      reads this
    {
      Machine(State(), tasks, nextTask, posts)
    }

    constructor (platform: Platform, hasProvider: bool)
      ensures Whole() == Mount(platform, hasProvider) && Inv(Whole())
      ensures tasks == (if hasProvider then map[0 := Bootstrapping, 1 := Refreshing] else map[0 := Refreshing])
      ensures wired == hasProvider && account == None && composing == None && loading && messages == []
    {
      this.platform := platform;
      account, composing, submitting, error := None, None, false, None;
      messages, loading := [], true;
      opEpoch, manuallyDisconnected, wired, destroyed := 0, false, false, false;
      view := Gone;
      tasks, nextTask, posts := map[], 0, [];
      new;
      if hasProvider {
        wired := true;
        Start(Bootstrapping);
      }
      StartRefresh();
      Draw();
      MountInv(platform, hasProvider);
    }

    method Draw()
      modifies this`view
      ensures State() == Render(old(State()))
    {
      if destroyed {
        view := Gone;
      } else {
        var composer := NoComposer;
        if account.Some? {
          composer := Trigger;
          if composing.Some? {
            composer := Open(submitting, !submitting && platform.trim(composing.value.draft) != "");
          }
        }
        view := Page(account.Some?, composer, !loading);
      }
    }

    method Start(t: Task)
      modifies this`tasks, this`nextTask
      ensures Whole() == Spawn(old(Whole()), t)
    {
      tasks, nextTask := tasks[nextTask := t], nextTask + 1;
    }

    method StartRefresh()
      modifies this`tasks, this`nextTask
      ensures Whole() == Refresh(old(Whole()))
    {
      if !destroyed {
        Start(Refreshing);
      }
    }

    method HandleDisconnect()
      modifies this
      ensures Whole() == old(Whole()).(ui := OnDisconnect(old(State())))
    {
      hide Render;
      opEpoch := opEpoch + 1;
      manuallyDisconnected := true;
      account, composing, error := None, None, None;
      submitting := false;
      assert State() == old(State()).(opEpoch := opEpoch, manuallyDisconnected := true, account := None, composing := None,
                                      error := None, submitting := false);
      Draw();
    }

    method HandleStartCompose(parent: Option<Hash>)
      modifies this
      ensures Whole() == old(Whole()).(ui := OnStartCompose(old(State()), parent))
    {
      composing := Some(Composing(parent, if composing.Some? then composing.value.draft else ""));
      error := None;
      Draw();
    }

    method HandleCancelCompose()
      modifies this
      ensures Whole() == old(Whole()).(ui := OnCancelCompose(old(State())))
    {
      composing := None;
      Draw();
    }

    method HandleDraftChange(draft: string)
      modifies this
      ensures Whole() == old(Whole()).(ui := OnDraftChange(old(State()), draft))
    {
      if composing.Some? {
        composing := Some(composing.value.(draft := draft));
      }
    }

    method HandleAccountsChanged(next: Option<Account>)
      modifies this
      ensures Whole() == old(Whole()).(ui := OnAccountsChanged(old(State()), next))
    {
      if manuallyDisconnected && next.Some? {
        return;
      }
      account := next;
      if next.None? {
        composing := None;
      }
      Draw();
    }

    method HandleConnect(hasProvider: bool, why: string)
      modifies this
      ensures Whole() == OnConnect(old(Whole()), hasProvider, why)
    {
      manuallyDisconnected := false;
      error := None;
      if hasProvider {
        Start(Connecting(AwaitAccount));
      } else {
        error := Some(Failed(why));
        Draw();
      }
    }

    method HandleSubmit(hasProvider: bool, why: string)
      modifies this
      ensures Whole() == OnSubmit(old(Whole()), hasProvider, why)
    {
      if composing.None? || submitting {
        return;
      }
      var draft, parent := platform.trim(composing.value.draft), composing.value.parent;
      if draft == "" {
        return;
      }
      if platform.points(draft) > COMMENT_MAX_CHARS {
        error := Some(TooLong);
        Draw();
        return;
      }
      submitting := true;
      error := None;
      Draw();
      var myEpoch := opEpoch;
      if !hasProvider {
        CatchSubmit(myEpoch, Failed(why));
        return;
      }
      Start(Task.Submitting(myEpoch, draft, parent,
                            if account.Some? then EnsuringChain(account.value) else RequestingAccount));
    }

    method CatchSubmit(myEpoch: nat, notice: Notice)
      modifies this`submitting, this`error, this`view
      ensures Whole() == old(Whole()).(ui := SubmitFails(old(State()), myEpoch, notice))
    {
      if myEpoch != opEpoch {
        return;
      }
      submitting := false;
      error := Some(notice);
      Draw();
    }

    method ContinueRefresh(id: nat, reply: Reply)
      requires Enabled(Whole(), Resume(id, reply)) && tasks[id].Refreshing?
      modifies this
      ensures Whole() == Step(old(Whole()), Resume(id, reply))
    {
      hide Rendering;
      tasks := tasks - {id};
      if destroyed {
        return;
      }
      loading := false;
      if reply.Messages? {
        messages := reply.messages;
      } else {
        error := Some(Failed(reply.why));
      }
      Draw();
    }

    method ContinueBootstrap(id: nat, existing: Option<Account>)
      requires id in tasks && tasks[id].Bootstrapping?
      modifies this
      ensures Whole() == Step(old(Whole()), Resume(id, Existing(existing)))
    {
      tasks := tasks - {id};
      if manuallyDisconnected {
        return;
      }
      if existing.Some? && account.None? {
        account := existing;
        Draw();
      }
    }

    method ContinueConnect(id: nat, reply: Reply)
      requires Enabled(Whole(), Resume(id, reply)) && tasks[id].Connecting?
      modifies this
      ensures Whole() == Step(old(Whole()), Resume(id, reply))
    {
      var pc := tasks[id].connectPc;
      if reply.Granted? {
        tasks := tasks[id := Connecting(AwaitChain(reply.granted))];
        return;
      }
      tasks := tasks - {id};
      if reply.Thrown? {
        error := Some(Failed(reply.why));
      } else {
        account := Some(pc.account);
        wired := true;
      }
      Draw();
    }

    method ContinueSubmit(id: nat, reply: Reply)
      requires Enabled(Whole(), Resume(id, reply)) && tasks[id].Submitting?
      modifies this
      ensures Whole() == Step(old(Whole()), Resume(id, reply))
    {
      hide Render, SubmitFails, Refresh;
      var t := tasks[id];
      var myEpoch := t.epoch;
      tasks := tasks - {id};
      if reply.Thrown? {
        CatchSubmit(myEpoch, Failed(reply.why));
        return;
      }
      match t.submitPc
      case RequestingAccount =>
        if myEpoch == opEpoch {
          account := Some(reply.granted);
          GoOnAs(id, t, EnsuringChain(reply.granted));
        }
      case EnsuringChain(account) =>
        if myEpoch == opEpoch {
          GoOnAs(id, t, FetchingNonce(account, 0));
        }
      case FetchingNonce(account, attempt) =>
        GoOnAs(id, t, Signing(account, attempt, reply.nonce));
      case Signing(account, attempt, nonce) =>
        posts := posts + [Post(id, account, t.parent, t.draft, nonce)];
        GoOnAs(id, t, Posting(account, attempt, nonce));
      case Posting(account, attempt, nonce) =>
        if reply.StaleNonce? {
          if attempt == MAX_STALE_NONCE_RETRIES {
            CatchSubmit(myEpoch, NoncesExhausted);
          } else {
            GoOnAs(id, t, FetchingNonce(account, attempt + 1));
          }
        } else if myEpoch == opEpoch {
          SubmitSucceeds();
        }
    }

    method SubmitSucceeds()
      modifies this
      ensures Whole() == Refresh(old(Whole()).(ui := Render(old(State()).(composing := None, submitting := false))))
    {
      hide Render;
      composing := None;
      submitting := false;
      Draw();
      StartRefresh();
    }

    method GoOnAs(id: nat, t: Task, pc: SubmitPc)
      requires t.Submitting?
      modifies this`tasks
      ensures Whole() == old(Whole()).(tasks := old(tasks)[id := t.(submitPc := pc)])
    {
      tasks := tasks[id := t.(submitPc := pc)];
    }

    method Unmount()
      modifies this
      ensures Whole() == old(Whole()).(ui := old(State()).(destroyed := true, view := Gone))
    {
      destroyed := true;
      view := Gone;
    }

    /** Any event the page, the wallet, the clock or an awaited call can deliver. */
    method Deliver(e: Event)
      requires Inv(Whole()) && Enabled(Whole(), e)
      modifies this
      ensures Whole() == Step(old(Whole()), e) && Inv(Whole())
    {
      StepKeepsInv(Whole(), e);
      hide Inv;
      match e
      case ClickConnect(hasProvider, why) => HandleConnect(hasProvider, why);
      case ClickDisconnect => HandleDisconnect();
      case StartCompose(parent) => HandleStartCompose(parent);
      case CancelCompose => HandleCancelCompose();
      case DraftChange(draft) => HandleDraftChange(draft);
      case ClickSubmit(hasProvider, why) => HandleSubmit(hasProvider, why);
      case AccountsChanged(next) => HandleAccountsChanged(next);
      case Poll => StartRefresh();
      case Destroy => Unmount();
      case Resume(id, reply) =>
        match tasks[id]
        case Refreshing => ContinueRefresh(id, reply);
        case Bootstrapping => ContinueBootstrap(id, reply.existing);
        case Connecting(_) => ContinueConnect(id, reply);
        case Submitting(_, _, _, _) => ContinueSubmit(id, reply);
    }
  }
}
