/** Which requests the console of desktop/src/app.rs sends, and what it shows, after every event of every
    run: said as one table, without the steps that bring it about. */
module ConsoleRequests {
  import opened Prelude
  import opened SessionCopy
  import opened ConsoleData
  import opened ConsoleState
  import opened ConsoleBrowse
  import opened ConsoleReceive
  import opened ConsoleLocal
  import opened ConsoleRun
  import opened ConsoleProperties

  // ---------------------------------------------------------------- which requests are wanted

  /** What an event brings for a request that is awaited: a successful answer with a body. */
  function Landed(s: State, e: Event): Option<(Pending, Body)> {
    if e.Completion? && e.request in s.req.pending && e.answer.Answer? && 200 <= e.answer.status < 300 then
      match e.answer.body
      case Some(body) => Some((s.req.pending[e.request], body))
      case None => None
    else None
  }

  /** What is asked of one resource: a session is read with what is in it. */
  function AskFor(collection: Collection, id: Id): Task {
    if collection == Sessions then SnapshotTask(id) else DetailTask(collection, id)
  }

  /** The selected resource is asked for, unless it is already. */
  function Refreshing(s: State): seq<Task> {
    match s.sel.id
    case None => []
    case Some(id) =>
      if (if s.list.collection == Sessions then s.sel.snapshotPending else s.sel.detailPending) == None
      then [AskFor(s.list.collection, id)] else []
  }

  /** The list goes on where it ended, unless it is being read. */
  function GoingOn(s: State): seq<Task> {
    if s.list.slot == None && s.list.after != None then [ListTask(s.list.collection, s.list.after)] else []
  }

  /** Where an edit leads to: the resource named, or else the one that the answer carries. */
  function Target(selectId: Option<Id>, body: Body): Option<Id> {
    match (selectId, body)
    case (Some(id), _) => Some(id)
    case (None, ResourceBody(resource)) => Some(resource.id)
    case _ => None
  }

  /** After a mutation the list that it changed is read anew, and what it concerns is shown. */
  function Following(s: State, effect: Effect, body: Body): seq<Task> {
    match effect
    case Edited(collection, selectId) =>
      [ListTask(collection, None)] +
      (match Target(selectId, body)
       case None => []
       case Some(id) =>
         if s.list.collection == collection && s.sel.id == Some(id) then Refreshing(s) else [AskFor(collection, id)])
    case Posted(id) => if s.sel.id == Some(id) && s.sel.snapshotPending == None then [SnapshotTask(id)] else []
    case Deleted(collection, _) => if s.list.collection == collection then [ListTask(collection, None)] else []
    case Archived(_, _) => if s.list.collection == Sessions then [ListTask(Sessions, None)] else []
    case Relabeled(_) => if s.list.collection == Sessions then [ListTask(Sessions, None)] else []
    case CredentialGone(id) =>
      if s.list.collection == Vaults && s.sel.id == Some(id) then [CredentialsTask(id)] else []
  }

  /** A copy is asked about only from the local workspace, while that is not being switched. */
  function Copying(s: State, task: Task): seq<Task> {
    if s.ws.local && s.ws.slot == None then [task] else []
  }

  predicate CopyActive(c: Copies) {
    c.uncertain || c.slot != None || (c.transfer.Some? && c.transfer.value.status.Active())
  }

  /** The plan shown is executed if it can be, and nothing about copies is going on. */
  function Executing(s: State): seq<Task> {
    match s.copy.transfer
    case None => []
    case Some(plan) => if CopyActive(s.copy) || !plan.CanExecute() then [] else Copying(s, ExecutePlan(plan.id))
  }

  /** The plan shown is read again while it is active or its outcome is unknown, and once when the workspace
      window is open after a reset. */
  function Watching(s: State): seq<Task> {
    match s.copy.transfer
    case None => []
    case Some(plan) =>
      if s.copy.slot == None && (plan.status.Active() || s.copy.uncertain || (s.ws.open && s.copy.needsRefresh))
      then Copying(s, ReadPlan(plan.id)) else []
  }

  /** A change is submitted if there is none, or the current one is over, or the current one is of this
      action, its outcome is unknown and nothing is asked about it. */
  function Changing(c: Changes, action: RuntimeAction): seq<Task> {
    match c.current
    case None => [SubmitChange(c.next, action)]
    case Some(change) =>
      match change.progress
      case Submitting => []
      case Unconfirmed =>
        if change.action == action && change.pending == None then [SubmitChange(change.id, action)] else []
      case NotAccepted => [SubmitChange(c.next, action)]
      case Accepted(state) => if state in {Queued, Working} then [] else [SubmitChange(c.next, action)]
  }

  function Polling(s: State): seq<Task> {
    match s.change.current
    case Some(RuntimeChange(id, _, Accepted(state), None, _)) =>
      if s.ws.local && s.ws.slot == None && state in {Queued, Working} then [ReadChange(id)] else []
    case _ => []
  }

  /** A workspace is left only where nothing but the runtime's status is awaited, no copy is active, and no
      change. */
  predicate Leavable(s: State) {
    && (forall i :: i in s.req.pending ==> s.req.pending[i].StatusPending?) && !CopyActive(s.copy)
    && (match s.change.current
        case None => true
        case Some(change) =>
          match change.progress
          case NotAccepted => true
          case Accepted(state) => state !in {Queued, Working}
          case _ => false)
  }

  /** The requests that the console makes upon the event, one after another. */
  function Wanted(s: State, e: Event): seq<Task> {
    match e
    case ToCollection(collection) => if collection == s.list.collection then [] else [ListTask(collection, None)]
    case ToResource(id) => if s.sel.id == Some(id) then [] else [AskFor(s.list.collection, id)]
    case Reload => if s.list.slot == None then [ListTask(s.list.collection, None)] + Refreshing(s) else []
    case LoadMore => GoingOn(s)
    case LoadHidden => if s.list.collection == Sessions then GoingOn(s) else []
    case SwitchArchived => if s.list.collection == Sessions then GoingOn(s) else []
    case PollSelection => if s.list.collection == Sessions && !s.ws.open then Refreshing(s) else []
    case Mutation(effect) => if s.ws.mutationPending == None then [MutationTask(effect)] else []
    case Begin(action) => Changing(s.change, action)
    case PollChange => Polling(s)
    case Dismiss => []
    case PollStatus => [ReadStatus]
    case Review(review) => if CopyActive(s.copy) then [] else Copying(s, ReviewTask(review))
    case Execute => Executing(s)
    case OpenSaved(plan) => if CopyActive(s.copy) then [] else Copying(s, ReadPlan(plan))
    case PollTransfer => Watching(s)
    case Window(_) => []
    case Connect(_) => if Leavable(s) then [WorkspaceTask(true)] else []
    case Completion(_, _) =>
      match Landed(s, e)
      case Some((ListPending(generation, _), PageBody(page))) =>
        if generation == s.list.generation && s.list.collection == Sessions && page.hasMore && page.data != []
        then [ListTask(Sessions, Some(page.data[|page.data| - 1].id))] else []
      case Some((DetailPending(generation), ResourceBody(resource))) =>
        if generation == s.sel.generation && s.list.collection == Vaults then [CredentialsTask(resource.id)] else []
      case Some((MutationPending(effect), body)) => Following(s, effect, body)
      case Some((WorkspacePending(true), WorkspaceBody(_))) =>
        [ListTask(Sessions, None)] +
        (match s.ws.sessionToOpen
         case None => []
         case Some(id) => [SnapshotTask(id)])
      case _ => []
  }

  /** These requests were made, under the next numbers, and no others; each was sent unless the worker's
      queue was full. */
  ghost predicate Asks(q: Requests, r: Requests, wanted: seq<Task>, busy: Queue) {
    && r.nextId == q.nextId + |wanted|
    && (forall i :: q.nextId < i <= r.nextId && !busy(i) ==> i in r.tasks)
    && (forall i :: i in r.tasks && i > q.nextId ==>
          i <= r.nextId && !busy(i) && r.tasks[i] == wanted[i - q.nextId - 1])
    && (forall i :: i <= q.nextId ==> (i in q.tasks <==> i in r.tasks))
    && (forall i :: i <= q.nextId && i in q.tasks ==> r.tasks[i] == q.tasks[i])
  }

  // ---------------------------------------------------------------- asking

  lemma AsksNothing(q: Requests, r: Requests, busy: Queue)
    requires Numbered(q) && r.tasks == q.tasks && r.nextId == q.nextId
    ensures Asks(q, r, [], busy)
  {
  }

  lemma AsksOne(q: Requests, task: Task, p: Pending, busy: Queue)
    requires Numbered(q) && Fits(p, task)
    ensures Asks(q, Submit(q, task, p, busy).0, [task], busy) && Numbered(Submit(q, task, p, busy).0)
  {
    SentNumbered(q, task, p);
  }

  lemma AsksMore(q: Requests, r: Requests, t: Requests, a: seq<Task>, b: seq<Task>, busy: Queue)
    requires Asks(q, r, a, busy) && Asks(r, t, b, busy)
    ensures Asks(q, t, a + b, busy)
  {
  }

  /** What was asked of a table is asked of one with the same requests. */
  lemma AsksAlike(q: Requests, p: Requests, r: Requests, wanted: seq<Task>, busy: Queue)
    requires Asks(p, r, wanted, busy) && p.tasks == q.tasks && p.nextId == q.nextId
    ensures Asks(q, r, wanted, busy)
  {
  }

  lemma ListAsks(s: State, append: bool, busy: Queue)
    requires Numbered(s.req)
    ensures var t := RefreshList(s, append, busy);
            && Asks(s.req, t.req, [ListTask(s.list.collection, if append then s.list.after else None)], busy)
            && Numbered(t.req) && t.sel == s.sel && t.list.collection == s.list.collection && t.ws == s.ws
            && t.list.resources == s.list.resources
  {
    var task, p := ListTask(s.list.collection, if append then s.list.after else None),
      ListPending(s.list.generation + 1, append);
    AsksOne(s.req, task, p, busy);
    hide Asks, Numbered, Submit;
  }

  lemma SnapshotAsks(s: State, busy: Queue)
    requires Numbered(s.req)
    ensures var wanted := if s.sel.id.Some? && s.sel.snapshotPending == None
                          then [SnapshotTask(s.sel.id.value)] else [];
            Asks(s.req, RefreshSnapshot(s, busy).req, wanted, busy)
  {
    AsksNothing(s.req, s.req, busy);
    if s.sel.id.Some? {
      AsksOne(s.req, SnapshotTask(s.sel.id.value), SnapshotPending(s.sel.generation), busy);
    }
    hide Asks, Numbered, Submit;
  }

  lemma DetailAsks(s: State, busy: Queue)
    requires Numbered(s.req)
    ensures var wanted := if s.sel.id.Some? && s.sel.detailPending == None
                          then [DetailTask(s.list.collection, s.sel.id.value)] else [];
            Asks(s.req, RefreshDetail(s, busy).req, wanted, busy)
  {
    AsksNothing(s.req, s.req, busy);
    if s.sel.id.Some? {
      AsksOne(s.req, DetailTask(s.list.collection, s.sel.id.value), DetailPending(s.sel.generation), busy);
    }
    hide Asks, Numbered, Submit;
  }

  lemma SelectionAsks(s: State, busy: Queue)
    requires Numbered(s.req)
    ensures Asks(s.req, RefreshSelection(s, busy).req, Refreshing(s), busy)
  {
    SnapshotAsks(s, busy);
    DetailAsks(s, busy);
    hide Asks, Numbered, RefreshSnapshot, RefreshDetail;
  }

  lemma CredentialsAsks(s: State, busy: Queue)
    requires Numbered(s.req) && s.sel.id.Some?
    ensures Asks(s.req, RefreshCredentials(s, busy).req, [CredentialsTask(s.sel.id.value)], busy)
  {
    AsksOne(s.req, CredentialsTask(s.sel.id.value), CredentialsPending(s.sel.generation), busy);
    hide Asks, Numbered, Submit;
  }

  lemma SelectAsks(s: State, id: Id, busy: Queue)
    requires Numbered(s.req)
    ensures var wanted := if s.sel.id == Some(id) then [] else [AskFor(s.list.collection, id)];
            Asks(s.req, Select(s, id, busy).req, wanted, busy)
  {
    AsksNothing(s.req, s.req, busy);
    SelectionAsks(Chosen(s, id), busy);
    hide Asks, Numbered, RefreshSelection;
  }

  lemma GoingOnAsks(s: State, busy: Queue)
    requires Numbered(s.req)
    ensures Asks(s.req, LoadPastHiddenSessions(s, busy).req, if s.list.collection == Sessions then GoingOn(s) else [],
                 busy)
  {
    AsksNothing(s.req, s.req, busy);
    ListAsks(s, true, busy);
    hide Asks, Numbered, RefreshList;
  }

  lemma NavigateAsks(s: State, collection: Collection, busy: Queue)
    requires Numbered(s.req)
    ensures var wanted, t := if collection == s.list.collection then [] else [ListTask(collection, None)],
                             Navigate(s, collection, busy);
            Asks(s.req, t.req, wanted, busy) && Numbered(t.req)
    ensures var t := Navigate(s, collection, busy);
            && t.list.collection == collection && t.ws == s.ws
            && (collection != s.list.collection ==> t.sel == Cleared(s.sel) && t.list.resources == [])
  {
    AsksNothing(s.req, s.req, busy);
    ListAsks(ClearSelection(Emptied(s, collection)), false, busy);
    hide Asks, Numbered, RefreshList;
  }

  // ---------------------------------------------------------------- what mutations are followed by

  lemma EditAsks(s: State, collection: Collection, busy: Queue)
    requires Numbered(s.req)
    ensures var t := Edit(s, collection, busy);
            && Asks(s.req, t.req, [ListTask(collection, None)], busy) && Numbered(t.req)
            && t.list.collection == collection
            && t.sel == (if collection == s.list.collection then s.sel else Cleared(s.sel))
            && t.list.resources == (if collection == s.list.collection then s.list.resources else [])
            && t.ws == (if collection == Sessions then s.ws.(archivedSessions := false) else s.ws)
  {
    var t := if collection.Sessions? then s.(ws := s.ws.(archivedSessions := false)) else s;
    NavigateAsks(t, collection, busy);
    ListAsks(t, false, busy);
    hide Asks, Numbered, RefreshList, Navigate;
  }

  lemma ReopenAsks(s: State, target: Option<Id>, busy: Queue)
    requires Numbered(s.req)
    ensures var wanted := if target == None then [] else if s.sel.id == target then Refreshing(s)
                          else [AskFor(s.list.collection, target.value)];
            Asks(s.req, Reopen(s, target, busy).req, wanted, busy)
  {
    AsksNothing(s.req, s.req, busy);
    SelectionAsks(s, busy);
    if target.Some? {
      SelectAsks(s, target.value, busy);
    }
    hide Asks, Numbered, RefreshSelection, Select, Refreshing, AskFor;
  }

  lemma EditedAsks(s: State, collection: Collection, selectId: Option<Id>, body: Body, busy: Queue)
    requires Numbered(s.req)
    ensures Asks(s.req, MutationDone(s, Edited(collection, selectId), body, busy).req,
                 Following(s, Edited(collection, selectId), body), busy)
  {
    var t, target := Edit(s, collection, busy), Target(selectId, body);
    EditAsks(s, collection, busy);
    ReopenAsks(t, target, busy);
    assert collection == s.list.collection ==> Refreshing(t) == Refreshing(s);
    hide Asks, Numbered, Edit, Reopen, Refreshing, AskFor;
    AsksMore(s.req, t.req, Reopen(t, target, busy).req, [ListTask(collection, None)],
             if target == None then [] else if t.sel.id == target then Refreshing(t)
             else [AskFor(collection, target.value)], busy);
  }

  lemma OthersAsk(s: State, effect: Effect, body: Body, busy: Queue)
    requires Numbered(s.req) && !effect.Edited?
    ensures Asks(s.req, MutationDone(s, effect, body, busy).req, Following(s, effect, body), busy)
  {
    AsksNothing(s.req, s.req, busy);
    hide Asks, Numbered, RefreshList, RefreshSnapshot, RefreshCredentials, Replace, Relabel, Cleared;
    match effect
    case Posted(_) => SnapshotAsks(s, busy);
    case Deleted(_, id) => ListAsks(if s.sel.id == Some(id) then ClearSelection(s) else s, false, busy);
    case Archived(id, archived) =>
      var t := RowReplaced(s, id, body);
      ListAsks(if t.sel.id == Some(id) && t.ws.archivedSessions != archived then ClearSelection(t) else t, false, busy);
    case Relabeled(id) =>
      var t := RowReplaced(s, id, body);
      ListAsks(if body.ResourceBody? && t.sel.id == Some(id) then t.(sel := Relabel(t.sel, body.resource)) else t,
               false, busy);
    case CredentialGone(_) =>
      if s.sel.id.Some? {
        CredentialsAsks(s, busy);
      }
  }

  // ---------------------------------------------------------------- what answers are followed by

  /** The slots of the console when an awaited request is answered. */
  lemma SlotsTaken(s: State, id: nat, h: Http)
    requires Valid(s) && id in s.req.pending && id in s.req.tasks
    ensures var t, p := Taken(s, id, h), s.req.pending[id];
            && (!p.SnapshotPending? ==> t.sel.snapshotPending == s.sel.snapshotPending)
            && (!p.DetailPending? ==> t.sel.detailPending == s.sel.detailPending)
            && (p.ListPending? && p.generation == s.list.generation ==> t.list.slot == None)
            && (!p.ListPending? ==> t.list.slot == s.list.slot)
            && (p == DetailPending(s.sel.generation) ==>
                  s.sel.id.Some? && s.req.tasks[id] == DetailTask(s.list.collection, s.sel.id.value))
            && t.sel.id == s.sel.id && t.list.collection == s.list.collection
            && t.req.tasks == s.req.tasks && t.req.nextId == s.req.nextId && Numbered(t.req)
  {
    hide Fenced, Chained, ChangesTracked, CopiesTracked, SwitchQuiet;
  }

  /** A good reply is one that lands. */
  lemma LandedIs(s: State, id: nat, h: Http)
    requires id in s.req.pending && id in s.req.tasks
    ensures var reply, landed := ReplyTo(s.req.tasks[id], h), Landed(s, Completion(id, h));
            && (reply.Good? <==> landed.Some?)
            && (reply.Good? ==> landed.value == (s.req.pending[id], reply.body))
  {
  }

  /** After a mutation as before the answer was taken. */
  lemma FollowingTaken(s: State, t: State, effect: Effect, body: Body)
    requires t.sel.id == s.sel.id && t.sel.snapshotPending == s.sel.snapshotPending
    requires t.sel.detailPending == s.sel.detailPending && t.list.collection == s.list.collection
    ensures Following(t, effect, body) == Following(s, effect, body)
  {
  }

  lemma MutationAsks(s: State, effect: Effect, body: Body, busy: Queue)
    requires Numbered(s.req)
    ensures Asks(s.req, MutationDone(s, effect, body, busy).req, Following(s, effect, body), busy)
  {
    hide Asks, Numbered, MutationDone, Following;
    match effect
    case Edited(collection, selectId) => EditedAsks(s, collection, selectId, body, busy);
    case _ => OthersAsk(s, effect, body, busy);
  }

  lemma PageAsks(t: State, append: bool, page: Page, cursor: Option<Id>, busy: Queue)
    requires Numbered(t.req) && t.list.slot == None
    ensures var wanted := if t.list.collection == Sessions && page.hasMore && page.data != []
                          then [ListTask(Sessions, Some(page.data[|page.data| - 1].id))] else [];
            Asks(t.req, LoadPastHiddenSessions(t.(list := AcceptPage(t.list, append, page, cursor)), busy).req, wanted,
                 busy)
  {
    var u := t.(list := AcceptPage(t.list, append, page, cursor));
    GoingOnAsks(u, busy);
    hide Asks, Numbered, LoadPastHiddenSessions, Retain, UpsertAll, AddMissing;
    assert u.list.slot == None && u.list.collection == t.list.collection && u.list.after == NextCursor(page);
    hide AcceptPage;
  }

  /** What a current answer to a browsing request is followed by. */
  function Answering(s: State, task: Task, p: Pending, body: Body): seq<Task> {
    match (p, body)
    case (ListPending(_, _), PageBody(page)) =>
      if s.list.collection == Sessions && page.hasMore && page.data != []
      then [ListTask(Sessions, Some(page.data[|page.data| - 1].id))] else []
    case (DetailPending(_), ResourceBody(resource)) =>
      if s.list.collection == Vaults then [CredentialsTask(resource.id)] else []
    case (MutationPending(effect), _) => Following(s, effect, body)
    case _ => []
  }

  lemma AnsweringIsWanted(s: State, id: nat, h: Http, body: Body)
    requires id in s.req.pending && Browsing(s.req.pending[id]) && id in s.req.tasks
    requires Landed(s, Completion(id, h)) == Some((s.req.pending[id], body))
    ensures Wanted(s, Completion(id, h)) ==
            if Current(s, s.req.pending[id]) then Answering(s, s.req.tasks[id], s.req.pending[id], body) else []
  {
    hide Landed, Following;
  }

  lemma AcceptAsks(t: State, task: Task, p: Pending, body: Body, busy: Queue)
    requires Numbered(t.req) && Browsing(p) && Fits(p, task)
    requires p.ListPending? ==> t.list.slot == None
    requires p.DetailPending? && body.ResourceBody? ==> t.sel.id == Some(body.resource.id)
    ensures Asks(t.req, Accept(t, task, p, body, busy).req, Answering(t, task, p, body), busy)
  {
    AsksNothing(t.req, t.req, busy);
    hide Asks, Numbered, MutationDone, Following, AcceptPage, LoadPastHiddenSessions, RefreshCredentials;
    match (p, body)
    case (ListPending(_, append), PageBody(page)) => PageAsks(t, append, page, task.after, busy);
    case (DetailPending(_), ResourceBody(resource)) =>
      CredentialsAsks(t.(sel := t.sel.(resource := Some(resource))), busy);
    case (MutationPending(effect), _) => MutationAsks(t, effect, body, busy);
    case _ =>
  }

  lemma AnsweringTaken(s: State, t: State, task: Task, p: Pending, body: Body)
    requires t.sel.id == s.sel.id && t.list.collection == s.list.collection
    requires p.MutationPending? ==>
               t.sel.snapshotPending == s.sel.snapshotPending && t.sel.detailPending == s.sel.detailPending
    ensures Answering(t, task, p, body) == Answering(s, task, p, body)
  {
    hide Following;
    if p.MutationPending? {
      FollowingTaken(s, t, p.effect, body);
    }
  }

  lemma HonestDetail(s: State, id: nat, h: Http, body: Body)
    requires id in s.req.pending && id in s.req.tasks && Honest(s.req.tasks[id], h)
    requires Landed(s, Completion(id, h)) == Some((s.req.pending[id], body))
    requires s.req.tasks[id].DetailTask?
    ensures body.ResourceBody? ==> body.resource.id == s.req.tasks[id].id
  {
  }

  lemma BrowsingAsks(s: State, id: nat, h: Http, busy: Queue)
    requires Valid(s) && Numbered(s.req) && id in s.req.pending && id in s.req.tasks && Honest(s.req.tasks[id], h)
    requires Browsing(s.req.pending[id]) && Fits(s.req.pending[id], s.req.tasks[id])
    ensures Asks(s.req, ReceiveBrowsing(s, id, h, busy).req, Wanted(s, Completion(id, h)), busy)
  {
    SlotsTaken(s, id, h);
    LandedIs(s, id, h);
    var t, p, task, reply := Taken(s, id, h), s.req.pending[id], s.req.tasks[id], ReplyTo(s.req.tasks[id], h);
    AsksNothing(s.req, t.req, busy);
    hide Valid, Asks, Numbered, Accept, Taken, Honest, ReplyTo, Landed, Wanted, Answering;
    if reply.Good? {
      AnsweringIsWanted(s, id, h, reply.body);
      if Current(s, p) {
        if p.DetailPending? {
          HonestDetail(s, id, h, reply.body);
        }
        AcceptAsks(t, task, p, reply.body, busy);
        AnsweringTaken(s, t, task, p, reply.body);
        AsksAlike(s.req, t.req, ReceiveBrowsing(s, id, h, busy).req, Wanted(s, Completion(id, h)), busy);
      }
    } else {
      NothingLanded(s, Completion(id, h));
    }
  }

  lemma NothingLanded(s: State, e: Event)
    requires e.Completion? && Landed(s, e).None?
    ensures Wanted(s, e) == []
  {
    hide Landed;
  }

  lemma LandedWorkspace(s: State, e: Event, switching: bool)
    requires e.Completion? && e.request in s.req.pending && s.req.pending[e.request] == WorkspacePending(switching)
    ensures Wanted(s, e) ==
            if Landed(s, e).Some? && Landed(s, e).value.1.WorkspaceBody? && switching
            then [ListTask(Sessions, None)] +
                 (if s.ws.sessionToOpen.Some? then [SnapshotTask(s.ws.sessionToOpen.value)] else [])
            else []
  {
    hide Following;
  }

  lemma WorkspaceAsks(s: State, id: nat, h: Http, busy: Queue)
    requires Numbered(s.req) && id in s.req.pending && id in s.req.tasks && s.req.pending[id].WorkspacePending?
    ensures var reply := ReplyTo(s.req.tasks[id], h);
            Asks(s.req, ReceiveWorkspace(Taken(s, id, h), s.req.pending[id].switching, reply, busy).req,
                 Wanted(s, Completion(id, h)), busy)
  {
    LandedIs(s, id, h);
    LandedWorkspace(s, Completion(id, h), s.req.pending[id].switching);
    var t, reply, switching := Taken(s, id, h), ReplyTo(s.req.tasks[id], h), s.req.pending[id].switching;
    assert t.req.tasks == s.req.tasks && t.req.nextId == s.req.nextId && t.ws.sessionToOpen == s.ws.sessionToOpen;
    assert Numbered(t.req.(pending := map[]));
    AsksNothing(s.req, t.req, busy);
    hide Asks, Numbered, Taken, Landed, ReplyTo, Select, ResetWorkspace, Wanted;
    if reply.Good? && reply.body.WorkspaceBody? && switching {
      SwitchAsks(s, t, reply.body.local, busy);
    }
  }

  /** After a switch the first page is asked for, and the session to open. */
  lemma SwitchAsks(s: State, t: State, local: bool, busy: Queue)
    requires Numbered(t.req.(pending := map[])) && t.req.tasks == s.req.tasks && t.req.nextId == s.req.nextId
    ensures var target := t.ws.sessionToOpen;
            var u := ResetWorkspace(t.(ws := t.ws.(slot := None, local := local, sessionToOpen := None)), busy);
            var v := u.(ws := u.ws.(open := false));
            Asks(s.req, (if target.Some? then Select(v, target.value, busy) else v).req,
                 [ListTask(Sessions, None)] + (if target.Some? then [SnapshotTask(target.value)] else []), busy)
  {
    var w := t.(ws := t.ws.(slot := None, local := local, sessionToOpen := None));
    var b := Blank(w);
    var u := ResetWorkspace(w, busy);
    var v, target := u.(ws := u.ws.(open := false)), t.ws.sessionToOpen;
    ListAsks(b, false, busy);
    AsksAlike(s.req, b.req, u.req, [ListTask(Sessions, None)], busy);
    hide Asks, Numbered, Select, RefreshList;
    if target.Some? {
      SelectAsks(v, target.value, busy);
      AsksMore(s.req, v.req, Select(v, target.value, busy).req, [ListTask(Sessions, None)],
               [SnapshotTask(target.value)], busy);
    }
  }

  /** An answer about copies or a change, or to a forgotten request, is followed by nothing. */
  lemma NoneWanted(s: State, e: Event)
    requires e.Completion?
    requires e.request in s.req.pending ==>
               ForCopies(s.req.pending[e.request]) || s.req.pending[e.request].ChangePending?
    ensures Wanted(s, e) == []
  {
    hide Following;
  }

  lemma ReceiveIs(s: State, id: nat, h: Http, busy: Queue, matches: Matching)
    requires Numbered(s.req) && id in s.req.tasks
    ensures var t, reply := Receive(s, id, h, busy, matches), ReplyTo(s.req.tasks[id], h);
            if id !in s.req.pending || ForCopies(s.req.pending[id]) || s.req.pending[id].ChangePending?
            then t.req == Answered(s.req, id, h)
            else
              && Fits(s.req.pending[id], s.req.tasks[id])
              && if s.req.pending[id].WorkspacePending?
                 then t == ReceiveWorkspace(Taken(s, id, h), s.req.pending[id].switching, reply, busy)
                 else Browsing(s.req.pending[id]) && t == ReceiveBrowsing(s, id, h, busy)
  {
    hide ReceiveBrowsing, ReceiveWorkspace, ReceiveChange, ReceiveCopy, ReplyTo, Fits, Answered;
  }

  lemma ReceiveAsks(s: State, id: nat, h: Http, busy: Queue, matches: Matching)
    requires Valid(s) && Numbered(s.req) && id in s.req.tasks && Honest(s.req.tasks[id], h)
    ensures Asks(s.req, Receive(s, id, h, busy, matches).req, Wanted(s, Completion(id, h)), busy)
  {
    ReceiveIs(s, id, h, busy, matches);
    AsksNothing(s.req, Answered(s.req, id, h), busy);
    hide Valid, Numbered, Asks, Answered, Honest, Receive, ReceiveBrowsing, ReceiveWorkspace, ReplyTo, Wanted, Fits,
         Taken;
    if id !in s.req.pending || ForCopies(s.req.pending[id]) || s.req.pending[id].ChangePending? {
      NoneWanted(s, Completion(id, h));
    } else if s.req.pending[id].WorkspacePending? {
      WorkspaceAsks(s, id, h, busy);
    } else {
      BrowsingAsks(s, id, h, busy);
    }
  }

  // ---------------------------------------------------------------- what the user and polls ask

  lemma CopyAsks(s: State, task: Task, p: Pending, busy: Queue)
    requires Numbered(s.req) && Fits(p, task)
    ensures Asks(s.req, CopyRequest(s, task, p, busy).req, Copying(s, task), busy)
  {
    AsksNothing(s.req, s.req, busy);
    AsksOne(s.req, task, p, busy);
    hide Asks, Numbered, Submit;
  }

  lemma ExecuteAsks(s: State, busy: Queue)
    requires Numbered(s.req)
    ensures Asks(s.req, ExecuteCopy(s, busy).req, Executing(s), busy)
  {
    AsksNothing(s.req, s.req, busy);
    if s.copy.transfer.Some? {
      var shown := s.copy.transfer.value.id;
      CopyAsks(s, ExecutePlan(shown), PlanPending(shown, true), busy);
    }
    hide Asks, Numbered, CopyRequest, Copying;
  }

  lemma WatchAsks(s: State, busy: Queue)
    requires Numbered(s.req)
    ensures Asks(s.req, PollCopy(s, busy).req, Watching(s), busy)
  {
    AsksNothing(s.req, s.req, busy);
    if s.copy.transfer.Some? {
      var shown := s.copy.transfer.value.id;
      CopyAsks(s, ReadPlan(shown), PlanPending(shown, false), busy);
    }
    hide Asks, Numbered, CopyRequest;
  }

  lemma CopiesAsk(s: State, e: Event, busy: Queue, matches: Matching)
    requires Numbered(s.req) && (e.Review? || e.Execute? || e.OpenSaved? || e.PollTransfer?)
    ensures Asks(s.req, Apply(s, e, busy, matches).req, Wanted(s, e), busy)
  {
    AsksNothing(s.req, s.req, busy);
    hide Asks, Numbered, CopyRequest, Copying, Executing, Watching, ExecuteCopy, PollCopy;
    match e
    case Review(review) => CopyAsks(s, ReviewTask(review), ReviewPending(review), busy);
    case OpenSaved(plan) => CopyAsks(s, ReadPlan(plan), PlanPending(plan, false), busy);
    case Execute => ExecuteAsks(s, busy);
    case PollTransfer => WatchAsks(s, busy);
  }

  lemma BeginAsks(s: State, action: RuntimeAction, busy: Queue)
    requires Numbered(s.req)
    ensures Asks(s.req, StartChange(s, action, busy).req, Changing(s.change, action), busy)
  {
    AsksNothing(s.req, s.req, busy);
    var c := Renewed(s.change, action);
    AsksOne(s.req, SubmitChange(c.current.value.id, action), ChangePending(c.generation, c.current.value.id), busy);
    hide Asks, Numbered, Submit;
  }

  lemma PollAsks(s: State, busy: Queue)
    requires Numbered(s.req)
    ensures Asks(s.req, RefreshChange(s, busy).req, Polling(s), busy)
  {
    AsksNothing(s.req, s.req, busy);
    if s.change.current.Some? {
      var id := s.change.current.value.id;
      AsksOne(s.req, ReadChange(id), ChangePending(s.change.generation, id), busy);
    }
    hide Asks, Numbered, Submit;
  }

  lemma ChangesAsk(s: State, e: Event, busy: Queue, matches: Matching)
    requires Numbered(s.req) && (e.Begin? || e.PollChange? || e.Dismiss? || e.PollStatus?)
    ensures Asks(s.req, Apply(s, e, busy, matches).req, Wanted(s, e), busy)
  {
    AsksNothing(s.req, s.req, busy);
    AsksOne(s.req, ReadStatus, StatusPending(s.change.generation), busy);
    PollAsks(s, busy);
    hide Asks, Numbered, Submit, StartChange, RefreshChange, Changing, Polling;
    if e.Begin? {
      BeginAsks(s, e.action, busy);
    }
  }

  lemma BrowsersAsk(s: State, e: Event, busy: Queue, matches: Matching)
    requires Numbered(s.req)
    requires e.ToCollection? || e.ToResource? || e.Reload? || e.LoadMore? || e.LoadHidden? || e.SwitchArchived? ||
             e.PollSelection?
    ensures Asks(s.req, Apply(s, e, busy, matches).req, Wanted(s, e), busy)
  {
    AsksNothing(s.req, s.req, busy);
    hide Asks, Numbered, RefreshList, RefreshSnapshot, RefreshSelection, Navigate, Select, LoadPastHiddenSessions;
    match e
    case ToCollection(collection) => NavigateAsks(s, collection, busy);
    case ToResource(id) => SelectAsks(s, id, busy);
    case Reload =>
      var t := RefreshList(s, false, busy);
      ListAsks(s, false, busy);
      SelectionAsks(t, busy);
      assert Refreshing(t) == Refreshing(s);
      AsksMore(s.req, t.req, RefreshSelection(t, busy).req, [ListTask(s.list.collection, None)], Refreshing(s), busy);
    case LoadMore => ListAsks(s, true, busy);
    case LoadHidden => GoingOnAsks(s, busy);
    case SwitchArchived =>
      GoingOnAsks(ClearSelection(s.(ws := s.ws.(archivedSessions := !s.ws.archivedSessions))), busy);
    case PollSelection => SnapshotAsks(s, busy);
  }

  lemma MutateAsks(s: State, e: Event, busy: Queue, matches: Matching)
    requires Numbered(s.req) && (e.Mutation? || e.Window? || e.Connect?)
    ensures Asks(s.req, Apply(s, e, busy, matches).req, Wanted(s, e), busy)
  {
    AsksNothing(s.req, s.req, busy);
    AsksOne(s.req, WorkspaceTask(true), WorkspacePending(true), busy);
    if e.Mutation? {
      AsksOne(s.req, MutationTask(e.effect), MutationPending(e.effect), busy);
    }
    hide Asks, Numbered, Submit;
  }

  /** The first frame asks for the first page of Sessions and for the workspace. */
  lemma FirstRequests(first: Queue)
    ensures Asks(INIT.req, Start(first).req, [ListTask(Sessions, None), WorkspaceTask(false)], first)
  {
    var s := RefreshList(INIT, false, first);
    ListAsks(INIT, false, first);
    AsksOne(s.req, WorkspaceTask(false), WorkspacePending(false), first);
    AsksMore(INIT.req, s.req, Start(first).req, [ListTask(Sessions, None)], [WorkspaceTask(false)], first);
    hide Asks, Submit;
  }

  /** In every run, exactly which requests every event leads to: those in the table, under the next numbers,
      each sent unless the queue is full for it. */
  lemma RequestsSent(states: seq<State>, inputs: seq<Input>, first: Queue, matches: Matching, k: nat)
    requires Run(states, inputs, first, matches) && k < |inputs|
    ensures Asks(states[k].req, states[k + 1].req, Wanted(states[k], inputs[k].event), inputs[k].busy)
  {
    var s, t, e, busy := states[k], states[k + 1], inputs[k].event, inputs[k].busy;
    EveryStateValid(states, inputs, first, matches, k);
    assert Follows(s, inputs[k], t, matches);
    hide Run, Valid, Numbered, Asks, Wanted, Apply, Honest;
    match e
    case Completion(id, h) => ReceiveAsks(s, id, h, busy, matches);
      FollowsReceive(s, inputs[k], t, matches);
    case Mutation(_) => MutateAsks(s, e, busy, matches);
    case Window(_) => MutateAsks(s, e, busy, matches);
    case Connect(_) => MutateAsks(s, e, busy, matches);
    case Review(_) => CopiesAsk(s, e, busy, matches);
    case Execute => CopiesAsk(s, e, busy, matches);
    case OpenSaved(_) => CopiesAsk(s, e, busy, matches);
    case PollTransfer => CopiesAsk(s, e, busy, matches);
    case Begin(_) => ChangesAsk(s, e, busy, matches);
    case PollChange => ChangesAsk(s, e, busy, matches);
    case Dismiss => ChangesAsk(s, e, busy, matches);
    case PollStatus => ChangesAsk(s, e, busy, matches);
    case _ => BrowsersAsk(s, e, busy, matches);
  }
}
