/** Local requests in the console of desktop/src/app.rs: runtime changes, session copies, and
    switching the workspace. */
module ConsoleLocal {
  import opened Prelude
  import opened SessionCopy
  import opened ConsoleData
  import opened ConsoleState
  import opened ConsoleBrowse
  import opened ConsoleReceive

  /** Copies are left aside, and so is the chain of pages. */
  predicate CopiesAside(s: State, t: State) {
    && t.copy == s.copy && t.req.copies == s.req.copies && t.list.chain == s.list.chain
    && Extends(s.req, t.req)
  }

  /** Changes are left aside, and so is the chain of pages. */
  predicate ChangesAside(s: State, t: State) {
    t.change == s.change && t.list.chain == s.list.chain && Extends(s.req, t.req)
  }

  // ---------------------------------------------------------------- runtime changes

  /** A change that is over, or none, gives way to a new one with a fresh id. */
  function Renewed(c: Changes, action: RuntimeAction): (r: Changes)
    ensures r.current.Some? && (r.current.value.Active() || r.current.value.progress.NotAccepted?)
  {
    if c.current.Some? && c.current.value.Active() then c
    else c.(current := Some(RuntimeChange(c.next, action, NotAccepted, None, false)),
            next := c.next + 1, begun := c.begun + {c.next})
  }

  predicate Submittable(change: RuntimeChange, action: RuntimeAction) {
    change.action == action && (change.progress.NotAccepted? || change.progress.Unconfirmed?) && change.pending.None?
  }

  function SubmittedChange(change: RuntimeChange, id: Option<nat>): RuntimeChange {
    change.(progress := if id.Some? && change.progress.NotAccepted? then Submitting else change.progress,
            pending := id, failed := id.None?)
  }

  function StartChange(s: State, action: RuntimeAction, busy: Queue): (r: State)
    ensures CopiesAside(s, r)
  {
    var c := Renewed(s.change, action);
    var change := c.current.value;
    if !Submittable(change, action) then s.(change := c)
    else
      var r := Submit(s.req, SubmitChange(change.id, action), ChangePending(c.generation, change.id), busy);
      s.(req := r.0, change := c.(current := Some(SubmittedChange(change, r.1))))
  }

  predicate Pollable(c: Changes) {
    && c.current.Some? && c.current.value.pending.None?
    && c.current.value.progress.Accepted? && c.current.value.progress.state.Active()
  }

  function RefreshChange(s: State, busy: Queue): (r: State)
    ensures CopiesAside(s, r)
  {
    if !s.ws.local || s.ws.slot.Some? || !Pollable(s.change) then s
    else
      var c := s.change;
      var r := Submit(s.req, ReadChange(c.current.value.id), ChangePending(c.generation, c.current.value.id), busy);
      s.(req := r.0, change := c.(current := Some(c.current.value.(pending := r.1, failed := r.1.None?))))
  }

  function DismissChange(s: State): (r: State)
    ensures CopiesAside(s, r)
  {
    if s.change.current.Some? && s.change.current.value.progress.NotAccepted?
    then s.(change := s.change.(current := None))
    else s
  }

  function ReadRuntimeStatus(s: State, busy: Queue): (r: State)
    ensures CopiesAside(s, r)
  {
    s.(req := Submit(s.req, ReadStatus, StatusPending(s.change.generation), busy).0)
  }

  /** The state a reply reports of this very change. */
  function Receipt(change: RuntimeChange, reply: Reply): Option<ChangeState> {
    if reply.Good? && reply.body.ReceiptBody? && reply.body.change == change.id && reply.body.action == change.action
    then Some(reply.body.state) else None
  }

  function ReceiveChange(c: Changes, x: nat, reply: Reply): Changes {
    if c.current.None? || c.current.value.id != x then c
    else
      var change := c.current.value;
      var receipt := Receipt(change, reply);
      var progress := if receipt.Some? then Accepted(receipt.value)
                      else if !change.progress.Submitting? then change.progress
                      else if reply.Rejected? then NotAccepted
                      else Unconfirmed;
      c.(current := Some(change.(progress := progress, pending := None, failed := receipt.None?)),
         receipts := if receipt.Some? then c.receipts[x := receipt.value] else c.receipts)
  }

  // ---------------------------------------------------------------- session copies

  /** `ConsoleApp::copy_request`: only from the local workspace, and not while it is being switched. */
  function CopyRequest(s: State, task: Task, p: Pending, busy: Queue): (r: State)
    ensures ChangesAside(s, r)
  {
    if !s.ws.local || s.ws.slot.Some? then s.(copy := s.copy.(slot := None, failed := true))
    else
      var r := Submit(s.req, task, p, busy);
      s.(req := r.0,
         copy := s.copy.(slot := r.1, failed := r.1.None?,
                         open := if p.PlanPending? && p.execute && r.1.Some?
                                 then s.copy.open + {p.plan} else s.copy.open))
  }

  function ReviewCopy(s: State, review: CopyReview, busy: Queue): (r: State)
    ensures ChangesAside(s, r)
  {
    if s.copy.Active() then s else CopyRequest(s, ReviewTask(review), ReviewPending(review), busy)
  }

  function ExecuteCopy(s: State, busy: Queue): (r: State)
    ensures ChangesAside(s, r)
  {
    if s.copy.Active() || s.copy.transfer.None? || !s.copy.transfer.value.CanExecute() then s
    else
      var plan := s.copy.transfer.value.id;
      CopyRequest(s, ExecutePlan(plan), PlanPending(plan, true), busy)
  }

  function OpenSavedCopy(s: State, plan: nat, busy: Queue): (r: State)
    ensures ChangesAside(s, r)
  {
    if s.copy.Active() then s else CopyRequest(s, ReadPlan(plan), PlanPending(plan, false), busy)
  }

  predicate CopyDue(s: State) {
    && s.ws.local && s.ws.slot.None? && s.copy.slot.None? && s.copy.transfer.Some?
    && (s.copy.transfer.value.status.Active() || s.copy.uncertain || (s.ws.open && s.copy.needsRefresh))
  }

  function PollCopy(s: State, busy: Queue): (r: State)
    ensures ChangesAside(s, r)
  {
    if !CopyDue(s) then s
    else
      var plan := s.copy.transfer.value.id;
      CopyRequest(s, ReadPlan(plan), PlanPending(plan, false), busy)
  }

  /** The plan a reply brings, if it is acceptable and is what was asked for. */
  function PlanOf(p: Pending, reply: Reply, matches: Matching): Option<TransferPlan> {
    if && reply.Good? && reply.body.PlanBody?
       && reply.body.plan.Acceptable(if p.PlanPending? then Some(p.plan) else None, matches)
       && (p.ReviewPending? ==> reply.body.plan.MatchesReview(p.review))
    then Some(reply.body.plan) else None
  }

  function ReceiveCopy(c: Copies, id: nat, p: Pending, reply: Reply, matches: Matching): Copies {
    if c.slot != Some(id) then c
    else
      var plan := PlanOf(p, reply, matches);
      var executed := p.PlanPending? && p.execute;
      if plan.Some? then Copies(plan, None, false, false, false, c.open - {plan.value.id})
      else if executed && !reply.Rejected?
      then c.(slot := None, failed := true, uncertain := true, needsRefresh := true)
      else c.(slot := None, failed := true, open := if executed then c.open - {p.plan} else c.open)
  }

  // ---------------------------------------------------------------- switching

  /** Nothing is outstanding but reads of the runtime's status, and nothing is active. */
  predicate CanSwitch(s: State) {
    && (forall i :: i in s.req.pending ==> s.req.pending[i].StatusPending?)
    && !s.copy.Active() && (s.change.current.Some? ==> !s.change.current.value.Active())
  }

  function ConnectWorkspace(s: State, sessionToOpen: Option<Id>, busy: Queue): (r: State)
    ensures CopiesAside(s, r) && ChangesAside(s, r)
  {
    if !CanSwitch(s) then s
    else
      var r := Submit(s.req, WorkspaceTask(true), WorkspacePending(true), busy);
      s.(req := r.0, ws := s.ws.(slot := r.1, sessionToOpen := sessionToOpen))
  }

  /** What `ConsoleApp::reset_workspace` leaves before it asks for the first page. */
  function Blank(s: State): (r: State)
    ensures r.list.chain == s.list.chain && r.change.begun == {}
  {
    State(
      s.req.(pending := map[]),
      Selection(s.sel.generation + 1, None, None, None, None, None, None),
      Listing(s.list.generation + 1, None, Sessions, [], {}, None, s.list.chain),
      s.change.(generation := s.change.generation + 1, current := None, begun := {}),
      s.copy.(slot := None, failed := false, needsRefresh := s.copy.transfer.Some?),
      s.ws.(archivedSessions := false, mutationPending := None))
  }

  function ResetWorkspace(s: State, busy: Queue): (r: State)
    ensures r.list.chain == s.list.chain && r.change.begun == {} && Extends(s.req, r.req)
  {
    RefreshList(Blank(s), false, busy)
  }

  function ReceiveWorkspace(s: State, switching: bool, reply: Reply, busy: Queue): (r: State)
    ensures r.list.chain == s.list.chain && (r.change == s.change || r.change.begun == {}) && Extends(s.req, r.req)
    ensures !switching ==> CopiesAside(s, r)
  {
    var t := s.(ws := s.ws.(slot := None));
    if !reply.Good? || !reply.body.WorkspaceBody? then t
    else if !switching then t.(ws := t.ws.(local := reply.body.local))
    else
      var target := t.ws.sessionToOpen;
      var u := ResetWorkspace(t.(ws := t.ws.(local := reply.body.local, sessionToOpen := None)), busy);
      var v := u.(ws := u.ws.(open := false));
      if target.Some? then Select(v, target.value, busy) else v
  }

  // ---------------------------------------------------------------- runtime changes keep the invariants

  lemma RenewKeeps(q: Requests, c: Changes, action: RuntimeAction)
    requires ChangesTracked(q, c)
    ensures ChangesTracked(q, Renewed(c, action))
  {
    var t := Renewed(c, action);
    if t != c {
      forall x | x in t.begun ensures Settled(q, t, x) || t.current.value.id == x {
        if x in c.begun {
          assert Settled(q, c, x);
        }
      }
      assert !MaybeAccepted(q, c.next);
    }
  }

  /** What may be asked about the current change, which awaits nothing. */
  predicate ChangeAskable(c: Changes, task: Task) {
    && c.current.Some? && c.current.value.pending.None?
    && var change := c.current.value;
       || (task == SubmitChange(change.id, change.action) && Submittable(change, change.action))
       || (task == ReadChange(change.id) && Pollable(c))
  }

  lemma ChangeRefused(q: Requests, c: Changes, task: Task)
    requires ChangesTracked(q, c) && ChangeAskable(c, task)
    ensures ChangesTracked(q.(nextId := q.nextId + 1), c.(current := Some(SubmittedChange(c.current.value, None))))
  {
    var r, t := q.(nextId := q.nextId + 1), c.(current := Some(SubmittedChange(c.current.value, None)));
    assert forall i: nat, x: nat :: Submits(r, i, x) <==> Submits(q, i, x);
    hide Submits, Submittable;
    forall x | x in t.begun && x != c.current.value.id ensures Settled(r, t, x) {
      assert Settled(q, c, x);
    }
  }

  /** A sent request submits the current change or nothing. */
  lemma SentSubmits(q: Requests, c: Changes, task: Task)
    requires Numbered(q) && ChangeAskable(c, task)
    ensures var id, n := c.current.value.id, q.nextId + 1;
            var r := Sent(q, task, ChangePending(c.generation, id));
            && (forall i: nat, x: nat :: Submits(r, i, x) <==>
                Submits(q, i, x) || (i == n && x == id && task.SubmitChange?))
            && !Submits(q, n, id)
  {
    SentNumbered(q, task, ChangePending(c.generation, c.current.value.id));
  }

  lemma ChangeSent(q: Requests, c: Changes, task: Task)
    requires Numbered(q) && ChangesTracked(q, c) && ChangeAskable(c, task)
    ensures ChangesTracked(Sent(q, task, ChangePending(c.generation, c.current.value.id)),
                           c.(current := Some(SubmittedChange(c.current.value, Some(q.nextId + 1)))))
  {
    var id, n := c.current.value.id, q.nextId + 1;
    var r, t := Sent(q, task, ChangePending(c.generation, id)),
      c.(current := Some(SubmittedChange(c.current.value, Some(n))));
    SentNumbered(q, task, ChangePending(c.generation, id));
    SentSubmits(q, c, task);
    hide Submits, Numbered;
    forall x | x in t.begun && x != id ensures Settled(r, t, x) {
      assert Settled(q, c, x);
    }
  }

  /** A request about the current change takes its free slot. */
  lemma ChangeAsked(q: Requests, c: Changes, task: Task, busy: Queue)
    requires Numbered(q) && ChangesTracked(q, c) && ChangeAskable(c, task)
    ensures var r := Submit(q, task, ChangePending(c.generation, c.current.value.id), busy);
            ChangesTracked(r.0, c.(current := Some(SubmittedChange(c.current.value, r.1))))
  {
    hide ChangesTracked, Numbered, ChangeAskable, SubmittedChange;
    if busy(q.nextId + 1) {
      ChangeRefused(q, c, task);
    } else {
      ChangeSent(q, c, task);
    }
  }

  lemma StartChangeTracked(s: State, action: RuntimeAction, busy: Queue)
    requires Numbered(s.req) && ChangesTracked(s.req, s.change)
    ensures var t := StartChange(s, action, busy); ChangesTracked(t.req, t.change)
  {
    hide ChangesTracked, Numbered, Submit, SubmittedChange;
    RenewKeeps(s.req, s.change, action);
    var c := Renewed(s.change, action);
    if Submittable(c.current.value, action) {
      ChangeAsked(s.req, c, SubmitChange(c.current.value.id, action), busy);
    }
  }

  lemma StartChangeKeeps(s: State, action: RuntimeAction, busy: Queue)
    requires Valid(s)
    ensures Valid(StartChange(s, action, busy))
  {
    hide Numbered, SelectionBounded, SlotsExact, Fenced, ListBounded, ListExact, Chained, ChangesTracked, CopiesTracked,
         SwitchQuiet;
    hide Submit, SubmittedChange, Renewed;
    StartChangeTracked(s, action, busy);
    var c := Renewed(s.change, action);
    var change := c.current.value;
    SubmitKeeps(s, SubmitChange(change.id, action), ChangePending(c.generation, change.id), busy);
  }

  lemma RefreshChangeKeeps(s: State, busy: Queue)
    requires Valid(s)
    ensures Valid(RefreshChange(s, busy))
  {
    hide Numbered, SelectionBounded, SlotsExact, Fenced, ListBounded, ListExact, Chained, ChangesTracked, CopiesTracked,
         SwitchQuiet;
    if Pollable(s.change) {
      var change := s.change.current.value;
      ChangeAsked(s.req, s.change, ReadChange(change.id), busy);
      SubmitKeeps(s, ReadChange(change.id), ChangePending(s.change.generation, change.id), busy);
    }
  }

  lemma DismissKeeps(q: Requests, c: Changes)
    requires ChangesTracked(q, c) && c.current.Some? && c.current.value.progress.NotAccepted?
    ensures ChangesTracked(q, c.(current := None))
  {
    var t := c.(current := None);
    forall x | x in t.begun ensures Settled(q, t, x) {
      assert Settled(q, c, x) || c.current.value.id == x;
    }
  }

  lemma DismissChangeKeeps(s: State)
    requires Valid(s)
    ensures Valid(DismissChange(s))
  {
    hide Numbered, SelectionBounded, SlotsExact, Fenced, ListBounded, ListExact, Chained, ChangesTracked, CopiesTracked,
         SwitchQuiet;
    if s.change.current.Some? && s.change.current.value.progress.NotAccepted? {
      DismissKeeps(s.req, s.change);
    }
  }

  lemma ReadRuntimeStatusKeeps(s: State, busy: Queue)
    requires Valid(s)
    ensures Valid(ReadRuntimeStatus(s, busy))
  {
    hide Numbered, SelectionBounded, SlotsExact, Fenced, ListBounded, ListExact, Chained, ChangesTracked, CopiesTracked,
         SwitchQuiet;
    SubmitKeeps(s, ReadStatus, StatusPending(s.change.generation), busy);
  }

  /** Only one request about a change is outstanding, and it is about the current change. */
  lemma ChangeAwaited(q: Requests, c: Changes, id: nat)
    requires ChangesTracked(q, c) && id in q.pending && q.pending[id].ChangePending?
    ensures c.current.Some? && c.current.value.pending == Some(id)
    ensures q.pending[id] == ChangePending(c.generation, c.current.value.id)
  {
  }

  lemma ReceiveChangeTracked(q: Requests, c: Changes, id: nat, h: Http)
    requires Numbered(q) && ChangesTracked(q, c) && id in q.pending && q.pending[id].ChangePending?
    ensures ChangesTracked(Answered(q, id, h), ReceiveChange(c, q.pending[id].change, ReplyTo(q.tasks[id], h)))
  {
    var reply := ReplyTo(q.tasks[id], h);
    var r, t := Answered(q, id, h), ReceiveChange(c, q.pending[id].change, reply);
    var x := c.current.value.id;
    forall y: nat ensures MaybeAccepted(r, y) ==> MaybeAccepted(q, y) {
      RejectionsSettle(q, r, y);
    }
    assert forall i: nat, y: nat :: Submits(r, i, y) <==> Submits(q, i, y);
    assert t.current.value.progress.NotAccepted? && !c.current.value.progress.NotAccepted? ==> id in r.rejected;
    assert forall y :: y in t.begun && y != x ==> Settled(q, c, y);
  }

  lemma ReceiveChangeKeeps(s: State, id: nat, h: Http)
    requires Valid(s) && id in s.req.pending && s.req.pending[id].ChangePending? && id in s.req.tasks
    ensures var c := ReceiveChange(s.change, s.req.pending[id].change, ReplyTo(s.req.tasks[id], h));
            Valid(Taken(s, id, h).(change := c))
  {
    hide Numbered, SelectionBounded, SlotsExact, ListBounded, ListExact, ChangesTracked, CopiesTracked, SwitchQuiet,
         Answered;
    hide Unbroken, DistinctIds, ReceiveChange;
    AnsweredKeepsSelection(s.req, id, h, s.sel, s.list.collection);
    AnsweredKeepsList(s.req, id, h, s.list);
    ReceiveChangeTracked(s.req, s.change, id, h);
    AnsweredKeepsCopies(s.req, id, h, s.ws.slot, s.copy);
  }

  // ---------------------------------------------------------------- copies keep the invariants

  /** A request the console may make about copies: one at a time, and while an execution is uncertain
      only reads of the shown transfer. */
  predicate CopyAskable(c: Copies, task: Task, p: Pending) {
    && ForCopies(p) && Fits(p, task) && c.slot.None?
    && (c.uncertain ==> p.PlanPending? && !p.execute && c.transfer.Some? && c.transfer.value.id == p.plan)
    && (p.PlanPending? && p.execute ==> c.transfer.Some? && c.transfer.value.id == p.plan)
  }

  lemma CopyAsked(q: Requests, c: Copies, task: Task, p: Pending, busy: Queue)
    requires Numbered(q) && CopiesTracked(q, c) && CopyAskable(c, task, p)
    ensures var r := Submit(q, task, p, busy);
            CopiesTracked(r.0, c.(slot := r.1, failed := r.1.None?,
                                  open := if p.PlanPending? && p.execute && r.1.Some?
                                          then c.open + {p.plan} else c.open))
  {
    SentNumbered(q, task, p);
  }

  lemma CopyRequestKeeps(s: State, task: Task, p: Pending, busy: Queue)
    requires Valid(s) && CopyAskable(s.copy, task, p)
    ensures Valid(CopyRequest(s, task, p, busy))
  {
    hide Numbered, SelectionBounded, SlotsExact, Fenced, ListBounded, ListExact, Chained, ChangesTracked;
    if s.ws.local && s.ws.slot.None? {
      hide CopiesTracked;
      CopyAsked(s.req, s.copy, task, p, busy);
      SubmitKeeps(s, task, p, busy);
    }
  }

  lemma ReviewCopyKeeps(s: State, review: CopyReview, busy: Queue)
    requires Valid(s)
    ensures Valid(ReviewCopy(s, review, busy))
  {
    hide Valid, CopyRequest;
    if !s.copy.Active() {
      CopyRequestKeeps(s, ReviewTask(review), ReviewPending(review), busy);
    }
  }

  lemma OpenSavedCopyKeeps(s: State, plan: nat, busy: Queue)
    requires Valid(s)
    ensures Valid(OpenSavedCopy(s, plan, busy))
  {
    hide Valid, CopyRequest;
    if !s.copy.Active() {
      CopyRequestKeeps(s, ReadPlan(plan), PlanPending(plan, false), busy);
    }
  }

  lemma ShownCopyKeeps(s: State, busy: Queue)
    requires Valid(s)
    ensures Valid(ExecuteCopy(s, busy)) && Valid(PollCopy(s, busy))
  {
    hide Valid, CopyRequest;
    if s.copy.transfer.Some? {
      var shown := s.copy.transfer.value.id;
      if !s.copy.Active() {
        CopyRequestKeeps(s, ExecutePlan(shown), PlanPending(shown, true), busy);
      }
      if CopyDue(s) {
        CopyRequestKeeps(s, ReadPlan(shown), PlanPending(shown, false), busy);
      }
    }
  }

  lemma ReceiveCopyTracked(q: Requests, c: Copies, id: nat, h: Http, matches: Matching)
    requires Numbered(q) && CopiesTracked(q, c) && id in q.pending && ForCopies(q.pending[id])
    ensures CopiesTracked(Answered(q, id, h), ReceiveCopy(c, id, q.pending[id], ReplyTo(q.tasks[id], h), matches))
  {
  }

  lemma ReceiveCopyQuiet(q: Requests, slot: Option<nat>, c: Copies, id: nat, h: Http, matches: Matching)
    requires Numbered(q) && CopiesTracked(q, c) && SwitchQuiet(q, slot, c) && id in q.pending &&
             ForCopies(q.pending[id])
    ensures SwitchQuiet(Answered(q, id, h), slot, ReceiveCopy(c, id, q.pending[id], ReplyTo(q.tasks[id], h), matches))
  {
    hide PlanOf;
  }

  lemma ReceiveCopyKeeps(s: State, id: nat, h: Http, matches: Matching)
    requires Valid(s) && id in s.req.pending && ForCopies(s.req.pending[id]) && id in s.req.tasks
    ensures var c := ReceiveCopy(s.copy, id, s.req.pending[id], ReplyTo(s.req.tasks[id], h), matches);
            Valid(Taken(s, id, h).(copy := c))
  {
    hide Numbered, SelectionBounded, SlotsExact, ListBounded, ListExact, ChangesTracked, CopiesTracked, SwitchQuiet,
         Answered;
    hide Unbroken, DistinctIds, ReceiveCopy;
    AnsweredKeepsSelection(s.req, id, h, s.sel, s.list.collection);
    AnsweredKeepsList(s.req, id, h, s.list);
    Unanswered(s.req, id);
    AnsweredKeepsChanges(s.req, id, h, s.change);
    ReceiveCopyTracked(s.req, s.copy, id, h, matches);
    ReceiveCopyQuiet(s.req, s.ws.slot, s.copy, id, h, matches);
  }

  // ---------------------------------------------------------------- switching keeps the invariants

  lemma ConnectWorkspaceKeeps(s: State, sessionToOpen: Option<Id>, busy: Queue)
    requires Valid(s)
    ensures Valid(ConnectWorkspace(s, sessionToOpen, busy))
  {
    hide Numbered, SelectionBounded, SlotsExact, Fenced, ListBounded, ListExact, Chained, ChangesTracked;
    if CanSwitch(s) {
      SubmitKeeps(s, WorkspaceTask(true), WorkspacePending(true), busy);
      SentNumbered(s.req, WorkspaceTask(true), WorkspacePending(true));
    }
  }

  lemma SwitchAnswered(q: Requests, slot: Option<nat>, c: Copies, id: nat, h: Http)
    requires Numbered(q) && CopiesTracked(q, c) && SwitchQuiet(q, slot, c)
    requires id in q.pending && q.pending[id].WorkspacePending?
    ensures CopiesTracked(Answered(q, id, h), c) && SwitchQuiet(Answered(q, id, h), None, c)
    ensures q.pending[id].switching ==> c.slot.None? && c.open == {} && !c.uncertain
  {
  }

  /** Once a workspace request is answered nothing waits for it. */
  lemma WorkspaceAnswered(s: State, id: nat, h: Http)
    requires Valid(s) && id in s.req.pending && s.req.pending[id].WorkspacePending? && id in s.req.tasks
    ensures var t := Taken(s, id, h);
            && Valid(t.(ws := t.ws.(slot := None)))
            && (s.req.pending[id].switching ==> t.copy.slot.None? && t.copy.open == {} && !t.copy.uncertain)
  {
    hide Numbered, SelectionBounded, SlotsExact, ListBounded, ListExact, ChangesTracked, CopiesTracked, SwitchQuiet,
         Answered;
    hide Unbroken, DistinctIds;
    AnsweredKeepsSelection(s.req, id, h, s.sel, s.list.collection);
    AnsweredKeepsList(s.req, id, h, s.list);
    Unanswered(s.req, id);
    AnsweredKeepsChanges(s.req, id, h, s.change);
    SwitchAnswered(s.req, s.ws.slot, s.copy, id, h);
  }

  lemma BlankUnlisted(s: State)
    requires Valid(s) && s.copy.open == {} && !s.copy.uncertain && s.ws.slot.None?
    ensures Unlisted(Blank(s)) && ListBounded(Blank(s).req, Blank(s).list.generation)
  {
    hide Unbroken, MaybeAccepted;
    assert forall i: nat, x: nat :: Submits(Blank(s).req, i, x) <==> Submits(s.req, i, x);
    assert ChangesTracked(Blank(s).req, Blank(s).change);
  }

  lemma ResetWorkspaceKeeps(s: State, busy: Queue)
    requires Valid(s) && s.copy.open == {} && !s.copy.uncertain && s.ws.slot.None?
    ensures Valid(ResetWorkspace(s, busy))
  {
    hide Valid, Unlisted, ListBounded, RefreshList;
    BlankUnlisted(s);
    RefreshListKeeps(Blank(s), false, busy);
  }

  lemma ReceiveWorkspaceKeeps(s: State, id: nat, h: Http, reply: Reply, busy: Queue)
    requires Valid(s) && id in s.req.pending && s.req.pending[id].WorkspacePending? && id in s.req.tasks
    ensures Valid(ReceiveWorkspace(Taken(s, id, h), s.req.pending[id].switching, reply, busy))
  {
    hide Valid, ResetWorkspace, Taken, Select, Answered;
    WorkspaceAnswered(s, id, h);
    var t := Taken(s, id, h);
    var t1 := t.(ws := t.ws.(slot := None));
    if reply.Good? && reply.body.WorkspaceBody? {
      var switching := s.req.pending[id].switching;
      var ws := t1.ws.(local := reply.body.local, sessionToOpen := if switching then None else t1.ws.sessionToOpen);
      WorkspaceFree(t1, ws);
      if switching {
        var u := ResetWorkspace(t1.(ws := ws), busy);
        ResetWorkspaceKeeps(t1.(ws := ws), busy);
        WorkspaceFree(u, u.ws.(open := false));
        if t1.ws.sessionToOpen.Some? {
          SelectKeeps(u.(ws := u.ws.(open := false)), t1.ws.sessionToOpen.value, busy);
        }
      }
    }
  }
}
