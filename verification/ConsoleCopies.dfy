/** Session copies in every run of the console of desktop/src/app.rs, said of what was sent and what the
    server answered. */
module ConsoleCopies {
  import opened Prelude
  import opened SessionCopy
  import opened ConsoleData
  import opened ConsoleState
  import opened ConsoleBrowse
  import opened ConsoleReceive
  import opened ConsoleLocal
  import opened ConsoleRun
  import opened ConsoleProperties
  import opened ConsoleChanges

  // ---------------------------------------------------------------- what an answer brings

  /** What the console demands of a plan by itself. */
  predicate Whole(plan: TransferPlan, matches: Matching) {
    && matches(DestinationInput(plan.destination.baseUrl, plan.destination.region), plan.destination)
    && plan.uploadedParts <= plan.totalParts && plan.sourceSessionId != ""
    && (plan.status == Complete ==> plan.destinationSessionId.Some? && plan.destinationSessionId.value != "")
  }

  /** The plan that the event brings: a successful answer to an awaited request about copies carries it, and
      it is the one that was asked about, or it is for the very review that was sent. */
  function Brought(s: State, e: Event, matches: Matching): Option<TransferPlan> {
    if e.Completion? && e.request in s.req.pending then
      match (s.req.pending[e.request], e.answer)
      case (PlanPending(id, _), Answer(status, Some(PlanBody(plan)))) =>
        if 200 <= status < 300 && Whole(plan, matches) && plan.id == id then Some(plan) else None
      case (ReviewPending(review), Answer(status, Some(PlanBody(plan)))) =>
        if && 200 <= status < 300 && Whole(plan, matches)
           && plan.sourceSessionId == review.source.id && plan.sourceModel == Some(review.source.model)
           && plan.destination == review.destination && plan.model == Some(review.model)
        then Some(plan) else None
      case _ => None
    else None
  }

  /** The event refuses the execution of this plan for good. */
  predicate RefusesExecution(s: State, e: Event, plan: nat) {
    && e.Completion? && e.request in s.req.pending && s.req.pending[e.request] == PlanPending(plan, true)
    && e.answer.Answer? && 400 <= e.answer.status < 500 && e.answer.status != 408
  }

  /** The event settles what became of the plan's execution. */
  predicate Resolves(s: State, e: Event, plan: nat, matches: Matching) {
    || (Brought(s, e, matches).Some? && Brought(s, e, matches).value.id == plan)
    || RefusesExecution(s, e, plan)
  }

  /** The plans of which an execution was sent in a step. */
  function Executed(q: Requests, r: Requests): set<nat> {
    set i | i in r.tasks && i !in q.tasks && r.tasks[i].ExecutePlan? :: r.tasks[i].plan
  }

  /** The plans with an execution of unknown outcome after the first k steps: sent, and not settled since. */
  function OpenPlans(states: seq<State>, inputs: seq<Input>, matches: Matching, k: nat): set<nat>
    requires k <= |inputs| && |states| == |inputs| + 1
  {
    if k == 0 then {}
    else
      var s, e := states[k - 1], inputs[k - 1].event;
      set plan | plan in OpenPlans(states, inputs, matches, k - 1) + Executed(s.req, states[k].req) &&
                 !Resolves(s, e, plan, matches)
  }

  // ---------------------------------------------------------------- copies of unknown outcome

  /** What the console makes of an answer to an awaited request about copies. */
  lemma AnswerBrings(s: State, id: nat, h: Http, matches: Matching)
    requires Numbered(s.req) && id in s.req.pending && ForCopies(s.req.pending[id])
    ensures var p, reply := s.req.pending[id], ReplyTo(s.req.tasks[id], h);
            && PlanOf(p, reply, matches) == Brought(s, Completion(id, h), matches)
            && (p.PlanPending? && p.execute ==> (reply.Rejected? <==> RefusesExecution(s, Completion(id, h), p.plan)))
  {
  }

  // ---------------------------------------------------------------- one step

  lemma Tracked(s: State)
    requires Valid(s)
    ensures Numbered(s.req) && CopiesTracked(s.req, s.copy) && SwitchQuiet(s.req, s.ws.slot, s.copy)
  {
    hide Numbered, CopiesTracked, SwitchQuiet, SelectionBounded, SlotsExact, Fenced, ListBounded, ListExact, Chained,
         ChangesTracked;
  }

  /** Where no request about a copy was sent no execution was. */
  lemma NoneExecuted(q: Requests, c: Copies, r: Requests, d: Copies)
    requires CopiesTracked(q, c) && CopiesTracked(r, d) && r.copies == q.copies
    ensures Executed(q, r) == {}
  {
  }

  /** What a step does to the plans with an execution of unknown outcome, and to the transfer shown. */
  predicate CopyNext(s: State, e: Event, t: State, matches: Matching) {
    && (forall plan :: plan in s.copy.open + Executed(s.req, t.req) ==>
          (plan in t.copy.open <==> !Resolves(s, e, plan, matches)))
    && t.copy.open <= s.copy.open + Executed(s.req, t.req)
    && t.copy.transfer == (if Brought(s, e, matches).Some? then Brought(s, e, matches) else s.copy.transfer)
    && (t.req.copies != s.req.copies ==> !s.copy.Active())
    && (!e.Execute? ==> Executed(s.req, t.req) == {})
  }

  lemma ReceiveNext(s: State, id: nat, h: Http, busy: Queue, matches: Matching)
    requires Valid(s) && Possible(s, Completion(id, h)) && Valid(Receive(s, id, h, busy, matches))
    ensures CopyNext(s, Completion(id, h), Receive(s, id, h, busy, matches), matches)
  {
    var t := Receive(s, id, h, busy, matches);
    Tracked(s);
    Tracked(t);
    hide Valid, Numbered, Honest, Brought, RefusesExecution;
    if id in s.req.pending && ForCopies(s.req.pending[id]) {
      AnswerBrings(s, id, h, matches);
      hide PlanOf;
      assert Executed(s.req, t.req) == {};
      BroughtIs(s, id, h, matches);
    } else {
      OthersAside(s, id, h, busy, matches);
      NoneExecuted(s.req, s.copy, t.req, t.copy);
    }
  }

  /** A plan brought for an identifier has it, and so has one refused. */
  lemma BroughtIs(s: State, id: nat, h: Http, matches: Matching)
    requires id in s.req.pending
    ensures var brought := Brought(s, Completion(id, h), matches);
            brought.Some? && s.req.pending[id].PlanPending? ==> brought.value.id == s.req.pending[id].plan
    ensures forall plan :: RefusesExecution(s, Completion(id, h), plan) ==> s.req.pending[id] == PlanPending(plan, true)
  {
  }

  lemma OthersAside(s: State, id: nat, h: Http, busy: Queue, matches: Matching)
    requires Numbered(s.req) && id in s.req.tasks && (id in s.req.pending ==> !ForCopies(s.req.pending[id]))
    requires SwitchQuiet(s.req, s.ws.slot, s.copy)
    ensures var t, e := Receive(s, id, h, busy, matches), Completion(id, h);
            && t.req.copies == s.req.copies && t.copy.open == s.copy.open && t.copy.transfer == s.copy.transfer
            && Brought(s, e, matches) == None && forall plan :: !Resolves(s, e, plan, matches)
  {
    hide Numbered, LoadPastHiddenSessions, MutationDone, AcceptDetail, AcceptSnapshot, AcceptPage, ReceiveChange,
         RefreshList, Select;
  }

  /** A request about copies that the console makes by itself. */
  lemma RequestNext(s: State, task: Task, p: Pending, busy: Queue)
    requires Numbered(s.req) && Fits(p, task) && ForCopies(p)
    ensures var t := CopyRequest(s, task, p, busy);
            && t.copy.transfer == s.copy.transfer && t.copy.open == s.copy.open + Executed(s.req, t.req)
            && (t.req.copies != s.req.copies ==> task.ExecutePlan? || task.ReviewTask?)
            && (!task.ExecutePlan? ==> Executed(s.req, t.req) == {})
  {
    hide Numbered;
    SentNumbered(s.req, task, p);
  }

  predicate AboutCopies(e: Event) {
    e.Review? || e.Execute? || e.OpenSaved? || e.PollTransfer?
  }

  /** A step that is neither an answer nor about copies. */
  lemma AsideLeaves(s: State, input: Input, t: State, matches: Matching)
    requires Follows(s, input, t, matches) && !input.event.Completion? && !AboutCopies(input.event)
    ensures t.copy == s.copy && t.req.copies == s.req.copies
  {
    hide Numbered, Honest, Receive;
    hide LoadPastHiddenSessions, RefreshList, RefreshSelection, Navigate, Select, RefreshSnapshot, ToggleArchived,
         Mutate, StartChange, RefreshChange, DismissChange, ReadRuntimeStatus, ConnectWorkspace, ReviewCopy,
         ExecuteCopy, OpenSavedCopy, PollCopy;
  }

  lemma AsideNext(s: State, input: Input, t: State, matches: Matching)
    requires Valid(s) && Valid(t) && Follows(s, input, t, matches)
    requires !input.event.Completion? && !AboutCopies(input.event)
    ensures CopyNext(s, input.event, t, matches)
  {
    Tracked(s);
    Tracked(t);
    hide Valid, CopiesTracked, SwitchQuiet, Follows, Executed;
    AsideLeaves(s, input, t, matches);
    NoneExecuted(s.req, s.copy, t.req, t.copy);
  }

  /** What the user or a poll asks about copies is one request, or none. */
  lemma AskedIs(s: State, input: Input, t: State, matches: Matching) returns (task: Task, p: Pending)
    requires Follows(s, input, t, matches) && AboutCopies(input.event)
    ensures ForCopies(p) && Fits(p, task)
    ensures t == s || t == CopyRequest(s, task, p, input.busy)
    ensures t != s && (task.ExecutePlan? || task.ReviewTask?) ==> !s.copy.Active()
    ensures task.ExecutePlan? ==> input.event.Execute?
  {
    hide Numbered, Honest, Receive, CopyRequest;
    var shown := if s.copy.transfer.Some? then s.copy.transfer.value.id else 0;
    match input.event
    case Review(review) => task, p := ReviewTask(review), ReviewPending(review);
    case OpenSaved(plan) => task, p := ReadPlan(plan), PlanPending(plan, false);
    case Execute => task, p := ExecutePlan(shown), PlanPending(shown, true);
    case PollTransfer => task, p := ReadPlan(shown), PlanPending(shown, false);
  }

  lemma AskedNext(s: State, input: Input, t: State, matches: Matching)
    requires Valid(s) && Follows(s, input, t, matches) && AboutCopies(input.event)
    ensures CopyNext(s, input.event, t, matches)
  {
    Tracked(s);
    hide Valid, Numbered, CopiesTracked, SwitchQuiet, Follows, CopyRequest;
    var task, p := AskedIs(s, input, t, matches);
    RequestNext(s, task, p, input.busy);
  }

  lemma StepNext(s: State, input: Input, t: State, matches: Matching)
    requires Valid(s) && Valid(t) && Follows(s, input, t, matches)
    ensures CopyNext(s, input.event, t, matches)
  {
    var e := input.event;
    hide Valid, Follows, CopyNext, Receive;
    if e.Completion? {
      FollowsReceive(s, input, t, matches);
      ReceiveNext(s, e.request, e.answer, input.busy, matches);
    } else if AboutCopies(e) {
      AskedNext(s, input, t, matches);
    } else {
      AsideNext(s, input, t, matches);
    }
  }

  // ---------------------------------------------------------------- copies of unknown outcome

  lemma RunNext(states: seq<State>, inputs: seq<Input>, first: Queue, matches: Matching, k: nat)
    requires Run(states, inputs, first, matches) && k < |inputs|
    ensures CopyNext(states[k], inputs[k].event, states[k + 1], matches)
    ensures CopiesTracked(states[k].req, states[k].copy) && CopiesTracked(states[k + 1].req, states[k + 1].copy)
  {
    EveryStateValid(states, inputs, first, matches, k);
    EveryStateValid(states, inputs, first, matches, k + 1);
    Tracked(states[k]);
    Tracked(states[k + 1]);
    hide Valid, Follows, CopyNext, CopiesTracked;
    StepNext(states[k], inputs[k], states[k + 1], matches);
  }

  /** The plans that the console takes for open are those whose execution was sent and not settled. */
  lemma {:induction false} OpenAre(
    states: seq<State>, inputs: seq<Input>, first: Queue, matches: Matching, k: nat)
    requires Run(states, inputs, first, matches) && k < |states|
    ensures states[k].copy.open == OpenPlans(states, inputs, matches, k)
  {
    hide Follows, Start, Resolves, CopiesTracked, Brought, Executed;
    if k == 0 {
      StartCopies(first);
    } else {
      OpenAre(states, inputs, first, matches, k - 1);
      RunNext(states, inputs, first, matches, k - 1);
    }
  }

  lemma StartCopies(first: Queue)
    ensures Start(first).copy == INIT.copy
  {
    hide RefreshList;
  }

  /** While the outcome of an execution is unknown the transfer shown is its plan, and no step sends an
      execution or a review; and the console is uncertain exactly if there is such a plan and all its
      executions were answered. */
  lemma UncertainCopy(states: seq<State>, inputs: seq<Input>, first: Queue, matches: Matching, k: nat)
    requires Run(states, inputs, first, matches) && k < |states|
    ensures var s, open := states[k], OpenPlans(states, inputs, matches, k);
            && (forall plan :: plan in open ==> s.copy.transfer.Some? && s.copy.transfer.value.id == plan)
            && (s.copy.uncertain <==>
                exists plan :: plan in open &&
                  forall r: nat :: r in s.req.tasks && s.req.tasks[r] == ExecutePlan(plan) ==>
                    AnswerTo(inputs, k, r).Some?)
    ensures OpenPlans(states, inputs, matches, k) != {} && k < |inputs| ==>
              forall r: nat :: r in states[k + 1].req.tasks && r !in states[k].req.tasks ==>
                !states[k + 1].req.tasks[r].ExecutePlan? && !states[k + 1].req.tasks[r].ReviewTask?
  {
    EveryStateValid(states, inputs, first, matches, k);
    Tracked(states[k]);
    OpenAre(states, inputs, first, matches, k);
    hide Valid, OpenPlans, SwitchQuiet, CopiesTracked, CopyNext;
    if k < |inputs| {
      RunNext(states, inputs, first, matches, k);
      QuietWhileOpen(states[k], inputs[k].event, states[k + 1], matches);
    }
    forall r: nat ensures r in states[k].req.completed <==> AnswerTo(inputs, k, r).Some? {
      SubmissionsAnswered(states, inputs, first, matches, k, r, 0);
    }
    hide Run, AnswerTo;
    UncertainIs(states[k].req, states[k].copy);
  }

  lemma QuietWhileOpen(s: State, e: Event, t: State, matches: Matching)
    requires CopiesTracked(s.req, s.copy) && CopiesTracked(t.req, t.copy) && CopyNext(s, e, t, matches)
    ensures s.copy.open != {} ==>
              forall r: nat :: r in t.req.tasks && r !in s.req.tasks ==>
                !t.req.tasks[r].ExecutePlan? && !t.req.tasks[r].ReviewTask?
  {
    hide Executed, Resolves, Brought;
    if s.copy.open != {} {
      var plan :| plan in s.copy.open;
    }
  }

  lemma UncertainIs(q: Requests, c: Copies)
    requires Numbered(q) && CopiesTracked(q, c)
    ensures c.uncertain <==>
              exists plan :: plan in c.open &&
                forall r: nat :: r in q.tasks && q.tasks[r] == ExecutePlan(plan) ==> r in q.completed
  {
    if c.uncertain {
      assert c.transfer.value.id in c.open;
    }
  }

  // ---------------------------------------------------------------- executions and plans

  /** An execution is sent exactly if the user asks for it in the local workspace while that is not being
      switched, nothing is asked or uncertain about copies, the plan shown is ready or failed and names
      both models, and the worker's queue has room. */
  lemma ExecutionSent(
    states: seq<State>, inputs: seq<Input>, first: Queue, matches: Matching, k: nat, plan: nat)
    requires Run(states, inputs, first, matches) && k < |inputs|
    ensures var s, shown := states[k], states[k].copy.transfer;
            plan in Executed(s.req, states[k + 1].req) <==>
            && inputs[k].event == Execute && !inputs[k].busy(s.req.nextId + 1)
            && s.ws.local && s.ws.slot == None && s.copy.slot == None && !s.copy.uncertain
            && shown.Some? && shown.value.id == plan && shown.value.status in {Ready, Failed}
            && shown.value.sourceModel.Some? && shown.value.sourceModel.value != ""
            && shown.value.model.Some? && shown.value.model.value != ""
  {
    var s, t := states[k], states[k + 1];
    EveryStateValid(states, inputs, first, matches, k);
    Tracked(s);
    RunNext(states, inputs, first, matches, k);
    assert Follows(s, inputs[k], t, matches);
    hide Run, Valid, CopiesTracked, SwitchQuiet, Numbered, Follows, Brought, Resolves, ExecuteCopy;
    if inputs[k].event.Execute? {
      FollowsExecute(s, inputs[k], t, matches);
      ExecuteSends(s, inputs[k].busy, plan);
    }
  }

  lemma ExecuteSends(s: State, busy: Queue, plan: nat)
    requires Numbered(s.req)
    ensures var shown := s.copy.transfer;
            plan in Executed(s.req, ExecuteCopy(s, busy).req) <==>
            && !busy(s.req.nextId + 1)
            && s.ws.local && s.ws.slot == None && s.copy.slot == None && !s.copy.uncertain
            && shown.Some? && shown.value.id == plan && shown.value.status in {Ready, Failed}
            && shown.value.sourceModel.Some? && shown.value.sourceModel.value != ""
            && shown.value.model.Some? && shown.value.model.value != ""
  {
    if s.copy.transfer.Some? {
      SentNumbered(s.req, ExecutePlan(s.copy.transfer.value.id), PlanPending(s.copy.transfer.value.id, true));
      assert s.req.nextId + 1 !in s.req.tasks;
    }
  }

  lemma FollowsExecute(s: State, input: Input, t: State, matches: Matching)
    requires Follows(s, input, t, matches) && input.event.Execute?
    ensures t == ExecuteCopy(s, input.busy)
  {
    hide ExecuteCopy;
  }

  /** The transfer shown changes only to a plan that an answer brings: it was asked for by its id, or it is
      the plan of the very review that the request carried. */
  lemma ReviewBinding(
    states: seq<State>, inputs: seq<Input>, first: Queue, matches: Matching, k: nat, plan: TransferPlan)
    requires Run(states, inputs, first, matches) && k < |inputs|
    requires states[k].copy.transfer != Some(plan) == states[k + 1].copy.transfer
    ensures Brought(states[k], inputs[k].event, matches) == Some(plan)
    ensures var r := inputs[k].event.request;
            r in states[k].req.tasks &&
              match states[k].req.tasks[r]
              case ReadPlan(id) => plan.id == id
              case ExecutePlan(id) => plan.id == id
              case ReviewTask(review) =>
                && plan.sourceSessionId == review.source.id && plan.sourceModel == Some(review.source.model)
                && plan.destination == review.destination && plan.model == Some(review.model)
              case _ => false
  {
    var s := states[k];
    EveryStateValid(states, inputs, first, matches, k);
    Tracked(s);
    RunNext(states, inputs, first, matches, k);
    hide Run, Valid, CopiesTracked, SwitchQuiet;
    assert Brought(s, inputs[k].event, matches) == Some(plan);
    assert Fits(s.req.pending[inputs[k].event.request], s.req.tasks[inputs[k].event.request]);
  }

  /** An answer that brings a plan settles the request: the plan is shown, and nothing is uncertain. */
  lemma PlanShown(states: seq<State>, inputs: seq<Input>, first: Queue, matches: Matching, k: nat)
    requires Run(states, inputs, first, matches) && k < |inputs|
    requires Brought(states[k], inputs[k].event, matches).Some?
    ensures states[k + 1].copy.transfer == Brought(states[k], inputs[k].event, matches)
    ensures states[k + 1].copy.slot == None && !states[k + 1].copy.uncertain && !states[k + 1].copy.failed
  {
    var s, t, e := states[k], states[k + 1], inputs[k].event;
    EveryStateValid(states, inputs, first, matches, k);
    Tracked(s);
    assert Follows(s, inputs[k], t, matches);
    hide Run, Valid, SwitchQuiet, Follows, Honest;
    FollowsReceive(s, inputs[k], t, matches);
    AnswerBrings(s, e.request, e.answer, matches);
    hide PlanOf, Numbered;
  }
}
