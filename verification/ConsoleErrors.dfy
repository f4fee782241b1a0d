/** When the console of desktop/src/app.rs shows that a request about a change or a copy failed, and when
    it reads a copy again for it. */
module ConsoleErrors {
  import opened Prelude
  import opened SessionCopy
  import opened ConsoleData
  import opened ConsoleState
  import opened ConsoleBrowse
  import opened ConsoleReceive
  import opened ConsoleLocal
  import opened ConsoleRun
  import opened ConsoleProperties
  import opened ConsoleRequests
  import opened ConsoleViews
  import opened ConsoleChanges
  import opened ConsoleCopies

  // ---------------------------------------------------------------- copies

  /** The event makes the console ask about copies, or say that it cannot. */
  predicate AboutToAsk(s: State, e: Event) {
    match e
    case Review(_) => !CopyActive(s.copy)
    case OpenSaved(_) => !CopyActive(s.copy)
    case Execute => s.copy.transfer.Some? && !CopyActive(s.copy) && s.copy.transfer.value.CanExecute()
    case PollTransfer => Watching(s) != []
    case _ => false
  }

  predicate AnswersCopy(s: State, e: Event) {
    e.Completion? && e.request in s.req.pending && ForCopies(s.req.pending[e.request])
  }

  /** The execution of a plan was answered, and neither settled nor refused. */
  predicate LeftOpen(s: State, e: Event, matches: Matching) {
    AnswersCopy(s, e) && Brought(s, e, matches) == None &&
    match s.req.pending[e.request]
    case PlanPending(plan, true) => !RefusesExecution(s, e, plan)
    case _ => false
  }

  /** Whether the last request about copies failed: it could not be sent, or its answer brought no plan. */
  predicate CopyFailed(s: State, input: Input, matches: Matching) {
    if AboutToAsk(s, input.event) then !s.ws.local || s.ws.slot != None || input.busy(s.req.nextId + 1)
    else if AnswersCopy(s, input.event) then Brought(s, input.event, matches) == None
    else !Switched(s, input.event) && s.copy.failed
  }

  /** Whether the copy shown is to be read again once the workspace window is open: its execution is of
      unknown outcome, or the workspace has been switched since it was read. */
  predicate CopyStale(s: State, e: Event, matches: Matching) {
    if AnswersCopy(s, e) then LeftOpen(s, e, matches) || (Brought(s, e, matches) == None && s.copy.needsRefresh)
    else if Switched(s, e) then s.copy.transfer.Some?
    else s.copy.needsRefresh
  }

  lemma AnswerMarks(s: State, id: nat, h: Http, busy: Queue, matches: Matching)
    requires Numbered(s.req) && CopiesTracked(s.req, s.copy)
    requires id in s.req.tasks && id in s.req.pending && ForCopies(s.req.pending[id])
    ensures var c, e := Receive(s, id, h, busy, matches).copy, Completion(id, h);
            && c.failed == (Brought(s, e, matches) == None)
            && c.needsRefresh == (LeftOpen(s, e, matches) || (Brought(s, e, matches) == None && s.copy.needsRefresh))
  {
    AnswerBrings(s, id, h, matches);
    assert s.copy.slot == Some(id);
    hide Numbered, CopiesTracked, Brought, RefusesExecution, PlanOf, ReplyTo;
  }

  lemma OtherAnswersMark(s: State, id: nat, h: Http, busy: Queue, matches: Matching)
    requires Numbered(s.req) && id in s.req.tasks && (id in s.req.pending ==> !ForCopies(s.req.pending[id]))
    ensures var c, switched := Receive(s, id, h, busy, matches).copy, Switched(s, Completion(id, h));
            && c.failed == (!switched && s.copy.failed)
            && c.needsRefresh == (if switched then s.copy.transfer.Some? else s.copy.needsRefresh)
  {
    hide Numbered, LoadPastHiddenSessions, MutationDone, AcceptDetail, AcceptSnapshot, AcceptPage, ReceiveChange,
         RefreshList, Select;
  }

  lemma RequestMarks(s: State, task: Task, p: Pending, busy: Queue)
    ensures var c := CopyRequest(s, task, p, busy).copy;
            && c.failed == (!s.ws.local || s.ws.slot != None || busy(s.req.nextId + 1))
            && c.needsRefresh == s.copy.needsRefresh
  {
  }

  lemma AskedMarks(s: State, e: Event, busy: Queue, matches: Matching)
    requires Numbered(s.req) && AboutCopies(e)
    ensures var c := Apply(s, e, busy, matches).copy;
            && c.failed == (if AboutToAsk(s, e) then !s.ws.local || s.ws.slot != None || busy(s.req.nextId + 1)
                            else s.copy.failed)
            && c.needsRefresh == s.copy.needsRefresh
  {
    var shown := if s.copy.transfer.Some? then s.copy.transfer.value.id else 0;
    hide Numbered, CopyRequest;
    match e
    case Review(review) => RequestMarks(s, ReviewTask(review), ReviewPending(review), busy);
    case OpenSaved(plan) => RequestMarks(s, ReadPlan(plan), PlanPending(plan, false), busy);
    case Execute => RequestMarks(s, ExecutePlan(shown), PlanPending(shown, true), busy);
    case PollTransfer => RequestMarks(s, ReadPlan(shown), PlanPending(shown, false), busy);
  }

  lemma CompletionMarks(s: State, input: Input, matches: Matching)
    requires Numbered(s.req) && CopiesTracked(s.req, s.copy)
    requires input.event.Completion? && input.event.request in s.req.tasks
    ensures var c := Receive(s, input.event.request, input.event.answer, input.busy, matches).copy;
            && (c.failed <==> CopyFailed(s, input, matches))
            && (c.needsRefresh <==> CopyStale(s, input.event, matches))
  {
    var id, h := input.event.request, input.event.answer;
    hide Numbered, CopiesTracked, Receive, Brought, LeftOpen, Switched;
    if AnswersCopy(s, input.event) {
      AnswerMarks(s, id, h, input.busy, matches);
    } else {
      OtherAnswersMark(s, id, h, input.busy, matches);
    }
  }

  lemma UserMarks(s: State, input: Input, matches: Matching)
    requires Numbered(s.req) && AboutCopies(input.event)
    ensures var c := Apply(s, input.event, input.busy, matches).copy;
            && (c.failed <==> CopyFailed(s, input, matches))
            && (c.needsRefresh <==> CopyStale(s, input.event, matches))
  {
    NotSwitched(s, input.event);
    AskedMarks(s, input.event, input.busy, matches);
    hide Numbered, Apply, Brought, LeftOpen, Switched, AboutToAsk;
  }

  lemma NothingMarks(s: State, input: Input, matches: Matching)
    requires !input.event.Completion? && !AboutCopies(input.event)
    ensures CopyFailed(s, input, matches) <==> s.copy.failed
    ensures CopyStale(s, input.event, matches) <==> s.copy.needsRefresh
  {
    NotSwitched(s, input.event);
    hide Brought, LeftOpen, Switched;
  }

  /** In every run, exactly when the last request about copies is shown as failed, and when the copy shown
      is to be read again. */
  lemma CopyMarked(states: seq<State>, inputs: seq<Input>, first: Queue, matches: Matching, k: nat)
    requires Run(states, inputs, first, matches) && k < |inputs|
    ensures states[k + 1].copy.failed <==> CopyFailed(states[k], inputs[k], matches)
    ensures states[k + 1].copy.needsRefresh <==> CopyStale(states[k], inputs[k].event, matches)
  {
    var s, t, e := states[k], states[k + 1], inputs[k].event;
    EveryStateValid(states, inputs, first, matches, k);
    Tracked(s);
    assert Follows(s, inputs[k], t, matches);
    hide Run, Valid, Numbered, Apply, Honest, Receive, CopiesTracked, SwitchQuiet, CopyFailed, CopyStale;
    if e.Completion? {
      FollowsReceive(s, inputs[k], t, matches);
      CompletionMarks(s, inputs[k], matches);
    } else if AboutCopies(e) {
      UserMarks(s, inputs[k], matches);
    } else {
      NothingMarks(s, inputs[k], matches);
      AsideLeaves(s, inputs[k], t, matches);
    }
  }

  lemma NotSwitched(s: State, e: Event)
    requires !e.Completion?
    ensures !Switched(s, e)
  {
  }

  // ---------------------------------------------------------------- changes

  /** Whether the last request about the current change failed: it could not be sent, or its answer reported
      no state of the change. */
  predicate ChangeFailed(s: State, input: Input)
    requires s.change.current.Some? || input.event.Begin?
  {
    match input.event
    case Begin(action) =>
      if Changing(s.change, action) != [] then input.busy(s.req.nextId + 1)
      else s.change.current.Some? && s.change.current.value.failed
    case PollChange =>
      if Polling(s) != [] then input.busy(s.req.nextId + 1) else s.change.current.value.failed
    case Completion(id, _) =>
      if id in s.req.pending && s.req.pending[id].ChangePending? then Report(s, input.event) == None
      else s.change.current.value.failed
    case _ => s.change.current.value.failed
  }

  lemma ReceiptMarks(s: State, id: nat, h: Http, busy: Queue, matches: Matching)
    requires Numbered(s.req) && ChangesTracked(s.req, s.change) && s.change.current.Some? && id in s.req.tasks
    requires id in s.req.pending && s.req.pending[id].ChangePending?
    ensures var t := Receive(s, id, h, busy, matches);
            t.change.current.Some? && (t.change.current.value.failed <==> Report(s, Completion(id, h)) == None)
  {
    hide Settled, MaybeAccepted, AnsweredUnrefused, ChangeSound, Submits, Numbered;
    assert s.req.pending[id] == ChangePending(s.change.generation, s.change.current.value.id);
    hide ChangesTracked;
    assert Local(s.req.tasks[id]) by {
      ChangeIsLocal(s.req, id);
    }
  }

  lemma ChangeIsLocal(q: Requests, id: nat)
    requires Numbered(q) && id in q.pending && id in q.tasks && q.pending[id].ChangePending?
    ensures Local(q.tasks[id])
  {
  }

  lemma OthersUnmarked(s: State, id: nat, h: Http, busy: Queue, matches: Matching)
    requires Numbered(s.req) && s.change.current.Some? && id in s.req.tasks
    requires id in s.req.pending ==> !s.req.pending[id].ChangePending?
    ensures var t := Receive(s, id, h, busy, matches);
            t.change.current.Some? ==> t.change.current.value.failed == s.change.current.value.failed
  {
    hide Numbered, LoadPastHiddenSessions, MutationDone, AcceptDetail, AcceptSnapshot, AcceptPage, ReceiveCopy,
         RefreshList, Select;
  }

  lemma AnswersMark(s: State, input: Input, matches: Matching)
    requires Numbered(s.req) && ChangesTracked(s.req, s.change) && s.change.current.Some?
    requires input.event.Completion? && input.event.request in s.req.tasks
    ensures var t := Receive(s, input.event.request, input.event.answer, input.busy, matches);
            t.change.current.Some? ==> (t.change.current.value.failed <==> ChangeFailed(s, input))
  {
    var id, h := input.event.request, input.event.answer;
    hide Numbered, ChangesTracked, Receive, Report;
    if id in s.req.pending && s.req.pending[id].ChangePending? {
      ReceiptMarks(s, id, h, input.busy, matches);
    } else {
      OthersUnmarked(s, id, h, input.busy, matches);
    }
  }

  lemma EventMarks(s: State, input: Input, matches: Matching)
    requires Numbered(s.req) && !input.event.Completion? && (s.change.current.Some? || input.event.Begin?)
    ensures var t := Apply(s, input.event, input.busy, matches);
            t.change.current.Some? ==> (t.change.current.value.failed <==> ChangeFailed(s, input))
  {
    hide Numbered, RefreshList, RefreshSelection, RefreshSnapshot, Navigate, Select, LoadPastHiddenSessions, ReviewCopy,
         ExecuteCopy, OpenSavedCopy, PollCopy, ToggleArchived, Mutate, CanSwitch;
  }

  /** In every run, exactly when the last request about the current change is shown as failed. */
  lemma ChangeMarked(states: seq<State>, inputs: seq<Input>, first: Queue, matches: Matching, k: nat)
    requires Run(states, inputs, first, matches) && k < |inputs|
    requires (states[k].change.current.Some? || inputs[k].event.Begin?) && states[k + 1].change.current.Some?
    ensures states[k + 1].change.current.value.failed <==> ChangeFailed(states[k], inputs[k])
  {
    var s, t, e := states[k], states[k + 1], inputs[k].event;
    EveryStateValid(states, inputs, first, matches, k);
    ValidNumbered(s);
    assert Follows(s, inputs[k], t, matches);
    hide Run, Valid, Numbered, Apply, Honest, Receive, ChangesTracked, ChangeFailed;
    if e.Completion? {
      FollowsReceive(s, inputs[k], t, matches);
      AnswersMark(s, inputs[k], matches);
    } else {
      EventMarks(s, inputs[k], matches);
    }
  }
}
