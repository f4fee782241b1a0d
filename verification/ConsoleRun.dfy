/** Runs of the console of desktop/src/app.rs: user actions, polls, and completions in any order, with
    any request refused by a full queue. */
module ConsoleRun {
  import opened Prelude
  import opened SessionCopy
  import opened ConsoleData
  import opened ConsoleState
  import opened ConsoleBrowse
  import opened ConsoleReceive
  import opened ConsoleLocal

  datatype Event =
    | ToCollection(collection: Collection)
    | ToResource(resource: Id)
    | Reload
    | LoadMore
    | LoadHidden
    | SwitchArchived
    | PollSelection
    | Mutation(effect: Effect)
    | Begin(action: RuntimeAction)
    | PollChange
    | Dismiss
    | PollStatus
    | Review(review: CopyReview)
    | Execute
    | OpenSaved(plan: nat)
    | PollTransfer
    | Window(open: bool)
    | Connect(sessionToOpen: Option<Id>)
    | Completion(request: nat, answer: Http)

  /** A request is answered once, by a server that answers what it was asked. */
  predicate Possible(s: State, e: Event) {
    e.Completion? ==>
      e.request in s.req.tasks && e.request !in s.req.completed && Honest(s.req.tasks[e.request], e.answer)
  }

  /** A completion of a request that a reset forgot changes nothing. */
  function Receive(s: State, id: nat, h: Http, busy: Queue, matches: Matching): State
    requires Numbered(s.req) && id in s.req.tasks
  {
    if id !in s.req.pending then s.(req := Answered(s.req, id, h))
    else
      var p, t, reply := s.req.pending[id], Taken(s, id, h), ReplyTo(s.req.tasks[id], h);
      if ForCopies(p) then t.(copy := ReceiveCopy(t.copy, id, p, reply, matches))
      else if p.ChangePending? then
        if Current(s, p) then t.(change := ReceiveChange(t.change, p.change, reply)) else t
      else if p.WorkspacePending? then ReceiveWorkspace(t, p.switching, reply, busy)
      else ReceiveBrowsing(s, id, h, busy)
  }

  function Apply(s: State, e: Event, busy: Queue, matches: Matching): State
    requires Numbered(s.req) && Possible(s, e)
  {
    match e
    case ToCollection(collection) => Navigate(s, collection, busy)
    case ToResource(id) => Select(s, id, busy)
    case Reload => if s.list.slot.Some? then s else RefreshSelection(RefreshList(s, false, busy), busy)
    case LoadMore => if s.list.slot.Some? || s.list.after.None? then s else RefreshList(s, true, busy)
    case LoadHidden => LoadPastHiddenSessions(s, busy)
    case SwitchArchived => ToggleArchived(s, busy)
    case PollSelection => if s.list.collection.Sessions? && !s.ws.open then RefreshSnapshot(s, busy) else s
    case Mutation(effect) => Mutate(s, effect, busy)
    case Begin(action) => StartChange(s, action, busy)
    case PollChange => RefreshChange(s, busy)
    case Dismiss => DismissChange(s)
    case PollStatus => ReadRuntimeStatus(s, busy)
    case Review(review) => ReviewCopy(s, review, busy)
    case Execute => ExecuteCopy(s, busy)
    case OpenSaved(plan) => OpenSavedCopy(s, plan, busy)
    case PollTransfer => PollCopy(s, busy)
    case Window(open) => s.(ws := s.ws.(open := open))
    case Connect(sessionToOpen) => ConnectWorkspace(s, sessionToOpen, busy)
    case Completion(id, h) => Receive(s, id, h, busy, matches)
  }

  /** The first frame asks for the first page and for the workspace. */
  function Start(busy: Queue): State {
    var s := RefreshList(INIT, false, busy);
    var r := Submit(s.req, WorkspaceTask(false), WorkspacePending(false), busy);
    s.(req := r.0, ws := s.ws.(slot := r.1))
  }

  /** An event, and whether the worker's queue is full for each request it submits. */
  datatype Input = Input(event: Event, busy: Queue)

  predicate Follows(s: State, input: Input, t: State, matches: Matching) {
    Numbered(s.req) && Possible(s, input.event) && t == Apply(s, input.event, input.busy, matches)
  }

  predicate Run(states: seq<State>, inputs: seq<Input>, first: Queue, matches: Matching) {
    && |states| == |inputs| + 1 && states[0] == Start(first)
    && forall k :: 0 <= k < |inputs| ==> Follows(states[k], inputs[k], states[k + 1], matches)
  }

  // ---------------------------------------------------------------- every state is valid

  lemma InitUnlisted()
    ensures Unlisted(INIT) && ListBounded(INIT.req, INIT.list.generation)
  {
    assert forall r: nat, x: nat :: !Submits(INIT.req, r, x);
  }

  lemma StartIsValid(busy: Queue)
    ensures Valid(Start(busy))
  {
    hide Numbered, SelectionBounded, SlotsExact, Fenced, ListBounded, ListExact, Chained, ChangesTracked, CopiesTracked;
    InitUnlisted();
    RefreshListKeeps(INIT, false, busy);
    var s := RefreshList(INIT, false, busy);
    SubmitKeeps(s, WorkspaceTask(false), WorkspacePending(false), busy);
    SentNumbered(s.req, WorkspaceTask(false), WorkspacePending(false));
  }

  lemma ForgottenKeeps(s: State, id: nat, h: Http)
    requires Valid(s) && id in s.req.tasks && id !in s.req.pending && id !in s.req.completed
    ensures Valid(s.(req := Answered(s.req, id, h)))
  {
    var t := Taken(s, id, h);
    assert Freed(s.sel.snapshotPending, id) == s.sel.snapshotPending &&
           Freed(s.sel.detailPending, id) == s.sel.detailPending
      && Freed(s.list.slot, id) == s.list.slot by {
      hide ChangesTracked, CopiesTracked, SwitchQuiet, Chained;
    }
    hide Valid, Numbered, Answered;
    TakenKeeps(s, id, h);
    WorkspaceFree(t, s.ws);
    assert t.(ws := s.ws) == s.(req := Answered(s.req, id, h));
  }

  lemma ReceiveKeeps(s: State, id: nat, h: Http, busy: Queue, matches: Matching)
    requires Valid(s) && id in s.req.tasks && id !in s.req.completed && Honest(s.req.tasks[id], h)
    ensures Valid(Receive(s, id, h, busy, matches))
  {
    FencedNow(s);
    if id in s.req.pending && s.req.pending[id].ChangePending? {
      ChangeAwaited(s.req, s.change, id);
    }
    hide Valid, ReceiveWorkspace, ReceiveBrowsing, ReceiveChange, ReceiveCopy, Honest, Answered;
    if id !in s.req.pending {
      ForgottenKeeps(s, id, h);
    } else {
      var p := s.req.pending[id];
      if ForCopies(p) {
        ReceiveCopyKeeps(s, id, h, matches);
      } else if p.ChangePending? {
        ReceiveChangeKeeps(s, id, h);
      } else if p.WorkspacePending? {
        ReceiveWorkspaceKeeps(s, id, h, ReplyTo(s.req.tasks[id], h), busy);
      } else {
        ReceiveBrowsingKeeps(s, id, h, busy);
      }
    }
  }
}
