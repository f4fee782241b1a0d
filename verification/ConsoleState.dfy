/** The state of the console (desktop/src/app.rs) as a value, and what every step keeps of it.

    Besides the console's own fields the state records what was sent, what has been answered, and
    what the server may have accepted. */
module ConsoleState {
  import opened Prelude
  import opened SessionCopy
  import opened ConsoleData

  /** What the console remembers about a request agrees with what it sent. */
  predicate Fits(p: Pending, task: Task) {
    match p
    case ListPending(_, _) => task.ListTask?
    case DetailPending(_) => task.DetailTask?
    case SnapshotPending(_) => task.SnapshotTask?
    case CredentialsPending(_) => task.CredentialsTask?
    case MutationPending(effect) => task == MutationTask(effect)
    case WorkspacePending(switching) => task == WorkspaceTask(switching)
    case ChangePending(_, change) => (task.SubmitChange? || task.ReadChange?) && task.change == change
    case StatusPending(_) => task.ReadStatus?
    case ReviewPending(review) => task == ReviewTask(review)
    case PlanPending(plan, execute) => task == if execute then ExecutePlan(plan) else ReadPlan(plan)
  }

  /** The server answers with what it was asked for, and a page lists no id twice. */
  predicate Honest(task: Task, h: Http) {
    h.Answer? && h.body.Some? ==>
      match h.body.value
      case SnapshotBody(s) => task.SnapshotTask? ==> s.session.id == task.id
      case ResourceBody(r) =>
        (task.DetailTask? ==> r.id == task.id) &&
        (task.MutationTask? ==> match task.effect
                                case Archived(id, _) => r.id == id
                                case Relabeled(id) => r.id == id
                                case _ => true)
      case CredentialsBody(vaultId) => task.CredentialsTask? ==> vaultId == task.vaultId
      case PageBody(page) => DistinctIds(page.data)
      case _ => true
  }

  /** Requests: the table of outstanding ones, and a record of what was sent, answered, and refused for
      good, and which of them review or execute a copy. */
  datatype Requests = Requests(
    nextId: nat, pending: map<nat, Pending>,
    tasks: map<nat, Task>, completed: set<nat>, rejected: set<nat>, copies: set<nat>)

  datatype Selection = Selection(
    generation: nat, id: Option<Id>, resource: Option<Resource>, snapshot: Option<Snapshot>, credentialsOf: Option<Id>,
    snapshotPending: Option<nat>, detailPending: Option<nat>)

  /** `chain` records the accepted Sessions pages since the last one that started the list anew. */
  datatype Listing = Listing(
    generation: nat, slot: Option<nat>, collection: Collection, resources: seq<Resource>, sessionIndex: set<Id>,
    after: Option<Id>, chain: seq<Link>)

  /** `receipts` holds the last receipt of each change, `begun` the changes begun since a reset. */
  datatype Changes = Changes(
    generation: nat, current: Option<RuntimeChange>, next: nat, receipts: map<nat, ChangeState>, begun: set<nat>)

  /** `open` records the plans with an execution whose outcome is unknown. */
  datatype Copies = Copies(
    transfer: Option<TransferPlan>, slot: Option<nat>, failed: bool, uncertain: bool, needsRefresh: bool,
      open: set<nat>)
  {
    predicate Active() {
      uncertain || slot.Some? || (transfer.Some? && transfer.value.status.Active())
    }
  }

  datatype Workspace = Workspace(
    local: bool, open: bool, slot: Option<nat>, sessionToOpen: Option<Id>, archivedSessions: bool,
    mutationPending: Option<nat>)

  datatype State = State(
    req: Requests, sel: Selection, list: Listing, change: Changes, copy: Copies, ws: Workspace)

  const INIT := State(
    Requests(0, map[], map[], {}, {}, {}),
    Selection(0, None, None, None, None, None, None),
    Listing(0, None, Sessions, [], {}, None, []),
    Changes(0, None, 0, map[], {}),
    Copies(None, None, false, false, false, {}),
    Workspace(false, false, None, None, false, None))

  // ---------------------------------------------------------------- invariants

  /** The request starts something of a copy. */
  predicate CopyTask(task: Task) {
    task.ExecutePlan? || task.ReviewTask?
  }

  predicate Numbered(q: Requests) {
    && (forall i :: i in q.tasks ==> i <= q.nextId)
    && (forall i :: i in q.pending ==> i in q.tasks && Fits(q.pending[i], q.tasks[i]) && i !in q.completed)
    && q.rejected <= q.completed && (forall i :: i in q.completed ==> i in q.tasks)
  }

  predicate ForSelection(p: Pending) {
    p.DetailPending? || p.SnapshotPending? || p.CredentialsPending?
  }

  predicate ForCopies(p: Pending) {
    p.ReviewPending? || p.PlanPending?
  }

  /** No selection request is newer than the selection. */
  predicate SelectionBounded(q: Requests, generation: nat) {
    forall i :: i in q.pending && ForSelection(q.pending[i]) ==> q.pending[i].generation <= generation
  }

  /** The slots name exactly the outstanding requests of the current generation, and those ask for
      the selected resource. */
  predicate SlotsExact(q: Requests, sel: Selection, collection: Collection) {
    && (sel.snapshotPending.Some? ==>
          sel.snapshotPending.value in q.pending &&
            q.pending[sel.snapshotPending.value] == SnapshotPending(sel.generation))
    && (sel.detailPending.Some? ==>
          sel.detailPending.value in q.pending && q.pending[sel.detailPending.value] == DetailPending(sel.generation))
    && (collection.Sessions? ==> sel.detailPending.None?)
    && forall i :: i in q.pending && i in q.tasks ==>
         && (q.pending[i] == SnapshotPending(sel.generation) ==>
               sel.snapshotPending == Some(i) && sel.id.Some? && q.tasks[i] == SnapshotTask(sel.id.value))
         && (q.pending[i] == DetailPending(sel.generation) ==>
               sel.detailPending == Some(i) && sel.id.Some? && q.tasks[i] == DetailTask(collection, sel.id.value))
         && (q.pending[i] == CredentialsPending(sel.generation) ==>
               sel.id.Some? && q.tasks[i] == CredentialsTask(sel.id.value))
  }

  /** Whatever is shown belongs to the selected id. */
  predicate Fenced(sel: Selection) {
    && (sel.resource.Some? ==> sel.id == Some(sel.resource.value.id))
    && (sel.snapshot.Some? ==> sel.id == Some(sel.snapshot.value.session.id))
    && (sel.credentialsOf.Some? ==> sel.id == sel.credentialsOf)
  }

  predicate ListBounded(q: Requests, generation: nat) {
    forall i :: i in q.pending && q.pending[i].ListPending? ==> q.pending[i].generation <= generation
  }

  /** The one current page request asks from the current cursor of the current collection. */
  predicate ListExact(q: Requests, list: Listing) {
    && (list.slot.Some? ==>
          list.slot.value in q.pending && q.pending[list.slot.value].ListPending? &&
          q.pending[list.slot.value].generation == list.generation)
    && forall i ::
         i in q.pending && i in q.tasks && q.pending[i].ListPending? && q.pending[i].generation == list.generation ==>
         && list.slot == Some(i) && (q.pending[i].append ==> list.after.Some?)
         && q.tasks[i] == ListTask(list.collection, if q.pending[i].append then list.after else None)
  }

  /** The listed Sessions continue one unbroken chain of pages. */
  predicate Chained(list: Listing) {
    && Unbroken(list.chain) && DistinctIds(list.resources)
    && (list.collection.Sessions? && list.after.Some? ==>
          && list.chain != [] && Continues(list.chain[|list.chain| - 1].page, list.after)
          && list.sessionIndex == ChainIds(list.chain) && list.sessionIndex <= Ids(list.resources))
  }

  predicate Submits(q: Requests, r: nat, change: nat) {
    r in q.tasks && q.tasks[r] in {SubmitChange(change, Setup), SubmitChange(change, Rollback)}
  }

  /** Some submission of the change may have been accepted. */
  ghost predicate MaybeAccepted(q: Requests, change: nat) {
    exists r: nat :: Submits(q, r, change) && r !in q.rejected
  }

  /** The change is over: reported terminal by its own receipt, or never accepted. */
  ghost predicate Settled(q: Requests, c: Changes, change: nat) {
    (change in c.receipts && c.receipts[change] in {Done, AwaitingRestart, Broken}) || !MaybeAccepted(q, change)
  }

  ghost predicate ChangeSound(q: Requests, c: Changes, change: RuntimeChange) {
    && (change.pending.Some? ==> change.pending.value in q.pending && q.pending[change.pending.value].ChangePending?)
    && (forall r: nat :: Submits(q, r, change.id) ==>
          q.tasks[r].action == change.action && (r in q.completed || change.pending == Some(r)))
    && (change.progress.NotAccepted? ==> change.pending.None? && !MaybeAccepted(q, change.id))
    && (change.progress.Submitting? ==>
          && change.pending.Some? && Submits(q, change.pending.value, change.id)
          && forall r: nat :: Submits(q, r, change.id) ==> r == change.pending.value || r in q.rejected)
    && (change.progress.Unconfirmed? ==> AnsweredUnrefused(q, change.id))
    && (change.id in c.receipts <==> change.progress.Accepted?)
    && (change.progress.Accepted? ==>
          && c.receipts[change.id] == change.progress.state && AnsweredUnrefused(q, change.id)
          && (change.progress.state in {Done, AwaitingRestart, Broken} ==> change.pending.None?))
  }

  /** Some submission of the change was answered, and not refused for good. */
  ghost predicate AnsweredUnrefused(q: Requests, change: nat) {
    exists r: nat :: Submits(q, r, change) && r in q.completed && r !in q.rejected
  }

  /** Of the changes begun since the last reset, all but the current one are settled. */
  ghost predicate ChangesTracked(q: Requests, c: Changes) {
    && (forall x :: x in c.begun || x in c.receipts ==> x < c.next)
    && (forall r: nat, x: nat :: Submits(q, r, x) ==> x < c.next)
    && (forall x :: x in c.begun ==> Settled(q, c, x) || (c.current.Some? && c.current.value.id == x))
    && (forall i :: i in q.pending && q.pending[i].ChangePending? ==>
          c.current.Some? && q.pending[i] == ChangePending(c.generation, c.current.value.id) &&
          c.current.value.pending == Some(i))
    && (c.current.Some? ==> c.current.value.id in c.begun && ChangeSound(q, c, c.current.value))
  }

  /** An execution of unknown outcome is the shown transfer, and it is pending or uncertain. */
  predicate CopiesTracked(q: Requests, c: Copies) {
    && (forall i :: i in q.copies ==> i in q.tasks)
    && (forall i :: i in q.tasks ==> (i in q.copies <==> CopyTask(q.tasks[i])))
    && (c.slot.Some? ==> c.slot.value in q.pending && ForCopies(q.pending[c.slot.value]))
    && (forall i :: i in q.pending && ForCopies(q.pending[i]) ==> c.slot == Some(i))
    && (c.uncertain ==> c.transfer.Some? && c.transfer.value.id in c.open)
    && (forall i :: i in q.pending && q.pending[i].PlanPending? && q.pending[i].execute ==>
          q.pending[i].plan in c.open && !c.uncertain)
    && (forall i :: i in q.tasks && q.tasks[i].ExecutePlan? && i !in q.completed ==> c.slot == Some(i))
    && (forall i :: i in q.pending && q.pending[i].PlanPending? && (q.pending[i].execute || c.uncertain) ==>
          c.transfer.Some? && c.transfer.value.id == q.pending[i].plan)
    && (forall i :: i in q.pending && q.pending[i].ReviewPending? ==> !c.uncertain)
    && (forall plan :: plan in c.open ==>
          && c.transfer.Some? && c.transfer.value.id == plan
          && (c.uncertain || (c.slot.Some? && q.pending[c.slot.value] == PlanPending(plan, true))))
  }

  /** While the workspace is being switched no copy is in flight. */
  predicate SwitchQuiet(q: Requests, slot: Option<nat>, c: Copies) {
    && (slot.Some? ==> slot.value in q.pending && q.pending[slot.value].WorkspacePending?)
    && (forall i :: i in q.pending && q.pending[i].WorkspacePending? ==> slot == Some(i))
    && (slot.Some? && q.pending[slot.value].switching ==> c.slot.None? && c.open == {} && !c.uncertain)
  }

  ghost predicate Selecting(s: State) {
    SelectionBounded(s.req, s.sel.generation) && SlotsExact(s.req, s.sel, s.list.collection)
  }

  ghost predicate Listed(s: State) {
    ListBounded(s.req, s.list.generation) && ListExact(s.req, s.list)
  }

  ghost predicate Valid(s: State) {
    && Numbered(s.req) && Selecting(s) && Fenced(s.sel) && Listed(s) && Chained(s.list)
    && ChangesTracked(s.req, s.change) && CopiesTracked(s.req, s.copy) && SwitchQuiet(s.req, s.ws.slot, s.copy)
  }

  // ---------------------------------------------------------------- submitting

  /** Whether the worker's queue is full when request number `n` is submitted. */
  type Queue = nat -> bool

  function Sent(q: Requests, task: Task, p: Pending): Requests {
    var n := q.nextId + 1;
    q.(nextId := n, pending := q.pending[n := p], tasks := q.tasks[n := task],
       copies := if CopyTask(task) then q.copies + {n} else q.copies)
  }

  /** `ConsoleApp::submit`: the table and the request's number, unless the queue is full. */
  function Submit(q: Requests, task: Task, p: Pending, busy: Queue): (Requests, Option<nat>) {
    if busy(q.nextId + 1) then (q.(nextId := q.nextId + 1), None) else (Sent(q, task, p), Some(q.nextId + 1))
  }

  /** Requests were only added, under new numbers, and none answered. */
  predicate Extends(q: Requests, r: Requests) {
    && q.nextId <= r.nextId && r.completed == q.completed && r.rejected == q.rejected
    && (forall i :: i in q.tasks && i <= q.nextId ==> i in r.tasks && r.tasks[i] == q.tasks[i])
    && (forall i :: i in r.tasks && i <= q.nextId ==> i in q.tasks)
  }

  /** Browsing leaves the rest of the console aside. */
  predicate Aside(s: State, t: State) {
    && t.copy == s.copy && t.change == s.change && t.list.chain == s.list.chain
    && t.req.copies == s.req.copies && Extends(s.req, t.req)
  }

  lemma SentNumbered(q: Requests, task: Task, p: Pending)
    requires Numbered(q) && Fits(p, task)
    ensures Numbered(Sent(q, task, p)) && Numbered(q.(nextId := q.nextId + 1))
    ensures var n := q.nextId + 1; n !in q.tasks && n !in q.pending && n !in q.rejected && n !in q.completed
  {
  }

  /** Changes are tracked alike where their submissions and their requests are alike. */
  lemma ChangesCarryOver(q: Requests, r: Requests, c: Changes)
    requires ChangesTracked(q, c) && q.rejected == r.rejected && q.completed == r.completed
    requires forall i :: i in q.tasks && i in r.tasks ==> q.tasks[i] == r.tasks[i]
    requires forall i: nat, x: nat :: Submits(r, i, x) <==> Submits(q, i, x)
    requires forall i :: i in r.pending && r.pending[i].ChangePending? ==>
               i in q.pending && q.pending[i] == r.pending[i]
    requires forall i :: i in q.pending && q.pending[i].ChangePending? ==>
               i in r.pending && r.pending[i] == q.pending[i]
    ensures ChangesTracked(r, c)
  {
    forall x: nat
      ensures MaybeAccepted(r, x) <==> MaybeAccepted(q, x)
      ensures AnsweredUnrefused(r, x) <==> AnsweredUnrefused(q, x)
    {
    }
  }

  lemma SentKeepsSelection(q: Requests, task: Task, p: Pending, sel: Selection, collection: Collection)
    requires Numbered(q) && Fits(p, task) && !ForSelection(p)
    ensures SelectionBounded(q, sel.generation) ==> SelectionBounded(Sent(q, task, p), sel.generation)
    ensures SlotsExact(q, sel, collection) ==> SlotsExact(Sent(q, task, p), sel, collection)
  {
    SentNumbered(q, task, p);
  }

  lemma SentKeepsList(q: Requests, task: Task, p: Pending, list: Listing)
    requires Numbered(q) && Fits(p, task) && !p.ListPending?
    ensures ListBounded(q, list.generation) ==> ListBounded(Sent(q, task, p), list.generation)
    ensures ListExact(q, list) ==> ListExact(Sent(q, task, p), list)
  {
    SentNumbered(q, task, p);
  }

  lemma SentKeepsChanges(q: Requests, task: Task, p: Pending, c: Changes)
    requires Numbered(q) && Fits(p, task) && !p.ChangePending? && ChangesTracked(q, c)
    ensures ChangesTracked(Sent(q, task, p), c)
  {
    hide ChangesTracked;
    SentNumbered(q, task, p);
    ChangesCarryOver(q, Sent(q, task, p), c);
  }

  lemma SentKeepsCopies(q: Requests, task: Task, p: Pending, c: Copies)
    requires Numbered(q) && Fits(p, task) && !ForCopies(p) && CopiesTracked(q, c)
    ensures CopiesTracked(Sent(q, task, p), c)
  {
    SentNumbered(q, task, p);
  }

  lemma SentKeepsSwitch(q: Requests, task: Task, p: Pending, slot: Option<nat>, c: Copies)
    requires Numbered(q) && Fits(p, task) && !p.WorkspacePending? && SwitchQuiet(q, slot, c)
    ensures SwitchQuiet(Sent(q, task, p), slot, c)
  {
    SentNumbered(q, task, p);
  }

  /** Nothing but the request counter differs after a refusal. */
  lemma RefusalKeeps(s: State)
    requires Numbered(s.req)
    ensures var t := s.(req := s.req.(nextId := s.req.nextId + 1));
            && Numbered(t.req) && (Selecting(s) ==> Selecting(t)) && (Listed(s) ==> Listed(t))
            && (ChangesTracked(s.req, s.change) ==> ChangesTracked(t.req, t.change))
            && (CopiesTracked(s.req, s.copy) ==> CopiesTracked(t.req, t.copy))
            && (SwitchQuiet(s.req, s.ws.slot, s.copy) ==> SwitchQuiet(t.req, t.ws.slot, t.copy))
  {
    hide ChangesTracked;
    if ChangesTracked(s.req, s.change) {
      ChangesCarryOver(s.req, s.req.(nextId := s.req.nextId + 1), s.change);
    }
  }

  /** A submission, accepted or refused, keeps every invariant that is not about its own kind. */
  lemma SubmitKeeps(s: State, task: Task, p: Pending, busy: Queue)
    requires Numbered(s.req) && Fits(p, task)
    ensures var t := s.(req := Submit(s.req, task, p, busy).0);
            && Numbered(t.req)
            && (!ForSelection(p) && Selecting(s) ==> Selecting(t))
            && (!p.ListPending? && Listed(s) ==> Listed(t))
            && (!p.ChangePending? && ChangesTracked(s.req, s.change) ==> ChangesTracked(t.req, t.change))
            && (!ForCopies(p) && CopiesTracked(s.req, s.copy) ==> CopiesTracked(t.req, t.copy))
            && (!p.WorkspacePending? && SwitchQuiet(s.req, s.ws.slot, s.copy) ==> SwitchQuiet(t.req, t.ws.slot, t.copy))
  {
    hide SelectionBounded, SlotsExact, ListBounded, ListExact, ChangesTracked, CopiesTracked, SwitchQuiet, Numbered;
    RefusalKeeps(s);
    SentNumbered(s.req, task, p);
    if !ForSelection(p) { SentKeepsSelection(s.req, task, p, s.sel, s.list.collection); }
    if !p.ListPending? { SentKeepsList(s.req, task, p, s.list); }
    if !p.ChangePending? && ChangesTracked(s.req, s.change) { SentKeepsChanges(s.req, task, p, s.change); }
    if !ForCopies(p) && CopiesTracked(s.req, s.copy) { SentKeepsCopies(s.req, task, p, s.copy); }
    if !p.WorkspacePending? && SwitchQuiet(s.req, s.ws.slot, s.copy) {
      SentKeepsSwitch(s.req, task, p, s.ws.slot, s.copy);
    }
  }
}
