// packages/bam-comments/src/render.ts, the state machine inside mountInstance: event handlers and asynchronous
// tasks that interleave at every await. A task is what is left to do of one call, as a program counter.
module Widget {
  import opened Wrappers
  import opened ThreadForest

  type Account = string

  const MAX_STALE_NONCE_RETRIES: nat := 8
  const COMMENT_MAX_CHARS: nat := 4000

  /** `draft.trim()` and the number of code points of a string, as the platform has them. */
  datatype Platform = Platform(trim: string -> string, points: string -> nat)

  datatype Composing = Composing(parent: Option<Hash>, draft: string)

  /** The error line: the length cap, the nonce retries used up, or a described failure. */
  datatype Notice = TooLong | NoncesExhausted | Failed(why: string)

  /** What the last render put on the page, as far as it decides which clicks are possible. */
  datatype View =
    | Gone
    | Page(connected: bool, composer: ComposerView, thread: bool)

  datatype ComposerView = NoComposer | Trigger | Open(busy: bool, submittable: bool)

  datatype ConnectPc = AwaitAccount | AwaitChain(account: Account)

  datatype SubmitPc =
    | RequestingAccount
    | EnsuringChain(account: Account)
    | FetchingNonce(account: Account, attempt: nat)
    | Signing(account: Account, attempt: nat, nonce: nat)
    | Posting(account: Account, attempt: nat, nonce: nat)

  datatype Task =
    | Refreshing
    | Bootstrapping
    | Connecting(connectPc: ConnectPc)
    | Submitting(epoch: nat, draft: string, parent: Option<Hash>, submitPc: SubmitPc)

  /** One message handed to the Poster, by the task that did. */
  datatype Post = Post(task: nat, sender: Account, parent: Option<Hash>, content: string, nonce: nat)

  /** `state` and the other variables of mountInstance, with the page as last rendered. */
  datatype Ui = Ui(
    platform: Platform,
    account: Option<Account>, composing: Option<Composing>, submitting: bool, error: Option<Notice>,
    messages: seq<Message>, loading: bool,
    opEpoch: nat, manuallyDisconnected: bool, wired: bool, destroyed: bool,
    view: View)

  datatype Machine = Machine(ui: Ui, tasks: map<nat, Task>, nextTask: nat, posts: seq<Post>)

  /** What an awaited call comes back with. */
  datatype Reply =
    | Messages(messages: seq<Message>)
    | Existing(existing: Option<Account>)
    | Granted(granted: Account)
    | Done
    | Nonce(nonce: nat)
    | Accepted
    | StaleNonce
    | Thrown(why: string)

  datatype Event =
    | ClickConnect(hasProvider: bool, why: string)
    | ClickDisconnect
    | StartCompose(parent: Option<Hash>)
    | CancelCompose
    | DraftChange(draft: string)
    | ClickSubmit(hasProvider: bool, why: string)
    | AccountsChanged(next: Option<Account>)
    | Poll
    | Resume(task: nat, reply: Reply)
    | Destroy

  // ----- rendering -----

  function Rendering(u: Ui): View {
    if u.destroyed then Gone
    else
      Page(u.account.Some?,
           if u.account.None? then NoComposer
           else match u.composing
             case None => Trigger
             case Some(c) => Open(u.submitting, !u.submitting && u.platform.trim(c.draft) != ""),
           !u.loading)
  }

  function Render(u: Ui): Ui {
    u.(view := Rendering(u))
  }

  function Spawn(m: Machine, t: Task): Machine {
    m.(tasks := m.tasks[m.nextTask := t], nextTask := m.nextTask + 1)
  }

  function Refresh(m: Machine): Machine {
    if m.ui.destroyed then m else Spawn(m, Refreshing)
  }

  /** The task `id` ends, leaving the page as `u`. */
  function End(m: Machine, id: nat, u: Ui): Machine {
    m.(tasks := m.tasks - {id}, ui := u)
  }

  /** The task `id` goes on as `t`. */
  function GoOn(m: Machine, id: nat, t: Task): Machine {
    m.(tasks := m.tasks[id := t])
  }

  // ----- event handlers -----

  function Mount(platform: Platform, hasProvider: bool): Machine {
    var u := Ui(platform, None, None, false, None, [], true, 0, false, hasProvider, false, Gone);
    var m := Machine(Render(u), map[], 0, []);
    Refresh(if hasProvider then Spawn(m, Bootstrapping) else m)
  }

  function OnDisconnect(u: Ui): Ui {
    Render(u.(opEpoch := u.opEpoch + 1, manuallyDisconnected := true, account := None, composing := None,
              error := None, submitting := false))
  }

  function OnStartCompose(u: Ui, parent: Option<Hash>): Ui {
    var draft := if u.composing.Some? then u.composing.value.draft else "";
    Render(u.(composing := Some(Composing(parent, draft)), error := None))
  }

  function OnCancelCompose(u: Ui): Ui {
    Render(u.(composing := None))
  }

  function OnDraftChange(u: Ui, draft: string): Ui {
    if u.composing.None? then u else u.(composing := Some(u.composing.value.(draft := draft)))
  }

  function OnAccountsChanged(u: Ui, next: Option<Account>): Ui {
    if u.manuallyDisconnected && next.Some? then u
    else Render(u.(account := next, composing := if next.None? then None else u.composing))
  }

  function OnConnect(m: Machine, hasProvider: bool, why: string): Machine {
    var u := m.ui.(manuallyDisconnected := false, error := None);
    if hasProvider then Spawn(m.(ui := u), Connecting(AwaitAccount))
    else m.(ui := Render(u.(error := Some(Failed(why)))))
  }

  function OnSubmit(m: Machine, hasProvider: bool, why: string): Machine {
    if m.ui.composing.None? || m.ui.submitting then m
    else
      var draft := m.ui.platform.trim(m.ui.composing.value.draft);
      if draft == "" then m
      else if m.ui.platform.points(draft) > COMMENT_MAX_CHARS then m.(ui := Render(m.ui.(error := Some(TooLong))))
      else
        var u := Render(m.ui.(submitting := true, error := None));
        if !hasProvider then m.(ui := SubmitFails(u, u.opEpoch, Failed(why)))
        else
          Spawn(m.(ui := u),
                Submitting(u.opEpoch, draft, u.composing.value.parent,
                           if u.account.Some? then EnsuringChain(u.account.value) else RequestingAccount))
  }

  /** The `catch` of onSubmit. */
  function SubmitFails(u: Ui, myEpoch: nat, notice: Notice): Ui {
    if myEpoch != u.opEpoch then u else Render(u.(submitting := false, error := Some(notice)))
  }

  // ----- tasks going on after an await -----

  function ResumeRefresh(u: Ui, reply: Reply): Ui
    requires reply.Messages? || reply.Thrown?
  {
    if u.destroyed then u
    else if reply.Messages? then Render(u.(messages := reply.messages, loading := false))
    else Render(u.(loading := false, error := Some(Failed(reply.why))))
  }

  function ResumeBootstrap(u: Ui, existing: Option<Account>): Ui {
    if u.manuallyDisconnected then u
    else if existing.Some? && u.account.None? then Render(u.(account := existing))
    else u
  }

  predicate ConnectAnswers(pc: ConnectPc, reply: Reply) {
    reply.Thrown? || (if pc.AwaitAccount? then reply.Granted? else reply.Done?)
  }

  function ResumeConnect(m: Machine, id: nat, pc: ConnectPc, reply: Reply): Machine
    requires ConnectAnswers(pc, reply)
  {
    if reply.Thrown? then End(m, id, Render(m.ui.(error := Some(Failed(reply.why)))))
    else if pc.AwaitAccount? then GoOn(m, id, Connecting(AwaitChain(reply.granted)))
    else End(m, id, Render(m.ui.(account := Some(pc.account), wired := true)))
  }

  predicate SubmitAnswers(pc: SubmitPc, reply: Reply) {
    reply.Thrown? ||
    match pc
    case RequestingAccount => reply.Granted?
    case EnsuringChain(_) => reply.Done?
    case FetchingNonce(_, _) => reply.Nonce?
    case Signing(_, _, _) => reply.Done?
    case Posting(_, _, _) => reply.Accepted? || reply.StaleNonce?
  }

  function ResumeSubmit(m: Machine, id: nat, t: Task, reply: Reply): Machine
    requires t.Submitting? && SubmitAnswers(t.submitPc, reply)
  {
    if reply.Thrown? then End(m, id, SubmitFails(m.ui, t.epoch, Failed(reply.why)))
    else
      match t.submitPc
      case RequestingAccount =>
        if t.epoch != m.ui.opEpoch then End(m, id, m.ui)
        else GoOn(m, id, t.(submitPc := EnsuringChain(reply.granted))).(ui := m.ui.(account := Some(reply.granted)))
      case EnsuringChain(account) =>
        if t.epoch != m.ui.opEpoch then End(m, id, m.ui)
        else GoOn(m, id, t.(submitPc := FetchingNonce(account, 0)))
      case FetchingNonce(account, attempt) =>
        GoOn(m, id, t.(submitPc := Signing(account, attempt, reply.nonce)))
      case Signing(account, attempt, nonce) =>
        GoOn(m, id, t.(submitPc := Posting(account, attempt, nonce)))
          .(posts := m.posts + [Post(id, account, t.parent, t.draft, nonce)])
      case Posting(account, attempt, nonce) =>
        if reply.Accepted? then
          if t.epoch != m.ui.opEpoch then End(m, id, m.ui)
          else Refresh(End(m, id, Render(m.ui.(composing := None, submitting := false))))
        else if attempt == MAX_STALE_NONCE_RETRIES then End(m, id, SubmitFails(m.ui, t.epoch, NoncesExhausted))
        else GoOn(m, id, t.(submitPc := FetchingNonce(account, attempt + 1)))
  }

  // ----- steps -----

  /** A click needs its button on the page, a task its answer, the wallet's event its listener. */
  predicate Enabled(m: Machine, e: Event) {
    match e
    case ClickConnect(_, _) => m.ui.view.Page? && !m.ui.view.connected
    case ClickDisconnect => m.ui.view.Page? && m.ui.view.connected
    case StartCompose(parent) =>
      m.ui.view.Page? && if parent.None? then m.ui.view.composer.Trigger? else m.ui.view.connected && m.ui.view.thread
    case CancelCompose => m.ui.view.Page? && m.ui.view.composer.Open? && !m.ui.view.composer.busy
    case DraftChange(_) => m.ui.view.Page? && m.ui.view.composer.Open? && !m.ui.view.composer.busy
    case ClickSubmit(_, _) => m.ui.view.Page? && m.ui.view.composer.Open? && m.ui.view.composer.submittable
    case AccountsChanged(_) => m.ui.wired && !m.ui.destroyed
    case Poll => !m.ui.destroyed
    case Destroy => !m.ui.destroyed
    case Resume(id, reply) =>
      id in m.tasks &&
      match m.tasks[id]
      case Refreshing => reply.Messages? || reply.Thrown?
      case Bootstrapping => reply.Existing?
      case Connecting(pc) => ConnectAnswers(pc, reply)
      case Submitting(_, _, _, pc) => SubmitAnswers(pc, reply)
  }

  function Step(m: Machine, e: Event): Machine
    requires Enabled(m, e)
  {
    match e
    case ClickConnect(hasProvider, why) => OnConnect(m, hasProvider, why)
    case ClickDisconnect => m.(ui := OnDisconnect(m.ui))
    case StartCompose(parent) => m.(ui := OnStartCompose(m.ui, parent))
    case CancelCompose => m.(ui := OnCancelCompose(m.ui))
    case DraftChange(draft) => m.(ui := OnDraftChange(m.ui, draft))
    case ClickSubmit(hasProvider, why) => OnSubmit(m, hasProvider, why)
    case AccountsChanged(next) => m.(ui := OnAccountsChanged(m.ui, next))
    case Poll => Refresh(m)
    case Destroy => m.(ui := m.ui.(destroyed := true, view := Gone))
    case Resume(id, reply) =>
      match m.tasks[id]
      case Refreshing => End(m, id, ResumeRefresh(m.ui, reply))
      case Bootstrapping => End(m, id, ResumeBootstrap(m.ui, reply.existing))
      case Connecting(pc) => ResumeConnect(m, id, pc, reply)
      case Submitting(_, _, _, _) => ResumeSubmit(m, id, m.tasks[id], reply)
  }

  /** Every event of the list is possible when its turn comes. */
  predicate Possible(m: Machine, es: seq<Event>)
    decreases |es|
  {
    es == [] || (Enabled(m, es[0]) && Possible(Step(m, es[0]), es[1..]))
  }

  function Run(m: Machine, es: seq<Event>): Machine
    requires Possible(m, es)
    decreases |es|
  {
    if es == [] then m else Run(Step(m, es[0]), es[1..])
  }
}
