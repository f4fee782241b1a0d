/** Runtime changes in every run of the console of desktop/src/app.rs, said of what was sent and what the
    server answered. */
module ConsoleChanges {
  import opened Prelude
  import opened SessionCopy
  import opened ConsoleData
  import opened ConsoleState
  import opened ConsoleBrowse
  import opened ConsoleReceive
  import opened ConsoleLocal
  import opened ConsoleRun
  import opened ConsoleProperties
  import opened ConsoleRequests

  // ---------------------------------------------------------------- what was answered

  /** What the first k events answer to the request. */
  function AnswerTo(inputs: seq<Input>, k: nat, r: nat): Option<Http>
    requires k <= |inputs|
  {
    if k == 0 then None
    else
      match inputs[k - 1].event
      case Completion(id, h) => if id == r then Some(h) else AnswerTo(inputs, k - 1, r)
      case _ => AnswerTo(inputs, k - 1, r)
  }

  /** The request was refused for good: by a client error that is no timeout. */
  predicate Refused(inputs: seq<Input>, k: nat, r: nat)
    requires k <= |inputs|
  {
    match AnswerTo(inputs, k, r)
    case Some(Answer(status, _)) => 400 <= status < 500 && status != 408
    case _ => false
  }

  /** A step answers at most one request, and sends others under new numbers. */
  predicate Answers(q: Requests, e: Event, r: Requests) {
    && q.nextId <= r.nextId
    && (forall i :: i in q.tasks && i <= q.nextId ==> i in r.tasks && r.tasks[i] == q.tasks[i])
    && (forall i :: i in r.tasks && i <= q.nextId ==> i in q.tasks)
    && r.completed == (if e.Completion? then q.completed + {e.request} else q.completed)
    && r.rejected == (if e.Completion? && e.request in q.tasks && Local(q.tasks[e.request]) && Definitive(e.answer)
                      then q.rejected + {e.request} else q.rejected)
  }

  lemma TableAnswers(q: Requests, id: nat, h: Http)
    requires Numbered(q) && id in q.tasks
    ensures Answers(q, Completion(id, h), Answered(q, id, h)) && Numbered(Answered(q, id, h))
  {
  }

  lemma MoreAnswers(q: Requests, e: Event, r: Requests, t: Requests)
    requires Answers(q, e, r) && Extends(r, t)
    ensures Answers(q, e, t)
  {
  }

  lemma ReceiveAnswers(s: State, id: nat, h: Http, busy: Queue, matches: Matching)
    requires Numbered(s.req) && id in s.req.tasks
    ensures Answers(s.req, Completion(id, h), Receive(s, id, h, busy, matches).req)
  {
    TableAnswers(s.req, id, h);
    ReceiveIs(s, id, h, busy, matches);
    var r, t := Answered(s.req, id, h), Receive(s, id, h, busy, matches);
    hide Numbered, Answers, Answered, Receive, Accept, ReceiveWorkspace, Extends, Fits, ReplyTo;
    if t.req != r {
      if s.req.pending[id].WorkspacePending? {
        MoreAnswers(s.req, Completion(id, h), r, t.req);
      } else {
        BrowsingExtends(s, id, h, busy);
        MoreAnswers(s.req, Completion(id, h), r, t.req);
      }
    }
  }

  lemma BrowsingExtends(s: State, id: nat, h: Http, busy: Queue)
    requires Numbered(s.req) && id in s.req.tasks && id in s.req.pending && Browsing(s.req.pending[id])
    requires Fits(s.req.pending[id], s.req.tasks[id])
    ensures Extends(Answered(s.req, id, h), ReceiveBrowsing(s, id, h, busy).req)
  {
    hide Numbered, Answered, ReplyTo, LoadPastHiddenSessions, MutationDone, AcceptDetail, AcceptSnapshot, AcceptPage;
  }

  lemma StepAnswers(s: State, input: Input, t: State, matches: Matching)
    requires Follows(s, input, t, matches)
    ensures Answers(s.req, input.event, t.req)
  {
    hide Numbered, Honest, Receive, RefreshList, RefreshSelection, Navigate, Select, LoadPastHiddenSessions,
         RefreshSnapshot, ToggleArchived, Mutate, StartChange, RefreshChange, DismissChange, ReadRuntimeStatus,
         ReviewCopy, ExecuteCopy, OpenSavedCopy, PollCopy, ConnectWorkspace;
    if input.event.Completion? {
      FollowsReceive(s, input, t, matches);
      ReceiveAnswers(s, input.event.request, input.event.answer, input.busy, matches);
    }
  }

  /** The request is answered, and if it submits the change refused for good, as the events say. */
  predicate AnsweredSo(q: Requests, inputs: seq<Input>, k: nat, r: nat, x: nat)
    requires k <= |inputs|
  {
    && (r in q.completed <==> AnswerTo(inputs, k, r).Some?)
    && (Submits(q, r, x) ==> (r in q.rejected <==> Refused(inputs, k, r)))
  }

  lemma {:induction false} AnsweredInRuns(
    states: seq<State>, inputs: seq<Input>, first: Queue, matches: Matching, k: nat, r: nat, x: nat)
    requires Run(states, inputs, first, matches) && k < |states|
    ensures AnsweredSo(states[k].req, inputs, k, r, x)
  {
    hide Start, AnsweredSo, Follows;
    if k == 0 {
      AnsweredFirst(first, inputs, r, x);
    } else {
      AnsweredInRuns(states, inputs, first, matches, k - 1, r, x);
      EveryStateValid(states, inputs, first, matches, k - 1);
      EveryStateValid(states, inputs, first, matches, k);
      assert Follows(states[k - 1], inputs[k - 1], states[k], matches);
      hide Run, Valid;
      AnsweredNext(states[k - 1], inputs, k, states[k], matches, r, x);
    }
  }

  lemma AnsweredFirst(first: Queue, inputs: seq<Input>, r: nat, x: nat)
    ensures AnsweredSo(Start(first).req, inputs, 0, r, x)
  {
    StartAnswers(first);
    hide Start, Submits;
  }

  lemma AnsweredNext(s: State, inputs: seq<Input>, k: nat, t: State, matches: Matching, r: nat, x: nat)
    requires 0 < k <= |inputs| && Valid(s) && Valid(t) && Follows(s, inputs[k - 1], t, matches)
    requires AnsweredSo(s.req, inputs, k - 1, r, x)
    ensures AnsweredSo(t.req, inputs, k, r, x)
  {
    ValidNumbered(s);
    ValidNumbered(t);
    FollowsPossible(s, inputs[k - 1], t, matches);
    StepAnswers(s, inputs[k - 1], t, matches);
    hide Valid, Follows, Numbered, Answers, AnsweredSo;
    AnswerStep(s.req, inputs, k, t.req, r, x);
  }

  /** A submission counts as answered, and as refused, exactly if an event answered it so. */
  lemma SubmissionsAnswered(
    states: seq<State>, inputs: seq<Input>, first: Queue, matches: Matching, k: nat, r: nat, x: nat)
    requires Run(states, inputs, first, matches) && k < |states|
    ensures r in states[k].req.completed <==> AnswerTo(inputs, k, r).Some?
    ensures Submits(states[k].req, r, x) ==> (r in states[k].req.rejected <==> Refused(inputs, k, r))
  {
    AnsweredInRuns(states, inputs, first, matches, k, r, x);
    hide Run, Submits, Refused, AnswerTo;
  }

  lemma ValidNumbered(s: State)
    requires Valid(s)
    ensures Numbered(s.req) && ChangesTracked(s.req, s.change)
  {
  }

  lemma FollowsPossible(s: State, input: Input, t: State, matches: Matching)
    requires Follows(s, input, t, matches)
    ensures input.event.Completion? ==> input.event.request in s.req.tasks && input.event.request !in s.req.completed
  {
    hide Apply;
  }

  lemma StartAnswers(first: Queue)
    ensures var s := Start(first); s.req.completed == {} && s.req.rejected == {} && s.change == INIT.change
  {
    hide RefreshList;
  }

  lemma AnswerStep(q: Requests, inputs: seq<Input>, k: nat, t: Requests, r: nat, x: nat)
    requires 0 < k <= |inputs| && Numbered(q) && Numbered(t) && Answers(q, inputs[k - 1].event, t)
    requires inputs[k - 1].event.Completion? ==>
               inputs[k - 1].event.request in q.tasks && inputs[k - 1].event.request !in q.completed
    requires AnsweredSo(q, inputs, k - 1, r, x)
    ensures AnsweredSo(t, inputs, k, r, x)
  {
    var e := inputs[k - 1].event;
    if e.Completion? && e.request == r {
      assert AnswerTo(inputs, k, r) == Some(e.answer) && r !in q.rejected;
      assert Refused(inputs, k, r) <==> Definitive(e.answer);
    } else {
      assert AnswerTo(inputs, k, r) == AnswerTo(inputs, k - 1, r);
      assert r in t.tasks && r !in q.tasks ==> r !in q.completed && r !in q.rejected;
      assert Submits(t, r, x) && r in q.tasks ==> Submits(q, r, x);
    }
  }

  // ---------------------------------------------------------------- what was reported

  /** What the event reports: a successful answer to a current request about the current change that
      carries a receipt of this id and action. */
  function Report(s: State, e: Event): Option<(nat, ChangeState)> {
    if e.Completion? && e.request in s.req.pending then
      match (s.req.pending[e.request], e.answer)
      case (ChangePending(generation, x), Answer(status, Some(ReceiptBody(id, action, state)))) =>
        if && generation == s.change.generation && 200 <= status < 300
           && s.change.current.Some? && s.change.current.value.id == x == id && s.change.current.value.action == action
        then Some((x, state)) else None
      case _ => None
    else None
  }

  /** The last state that the first k events report of each change. */
  function Reports(states: seq<State>, inputs: seq<Input>, k: nat): map<nat, ChangeState>
    requires k <= |inputs| && |states| == |inputs| + 1
  {
    if k == 0 then map[]
    else
      var earlier, report := Reports(states, inputs, k - 1), Report(states[k - 1], inputs[k - 1].event);
      if report.None? then earlier else earlier[report.value.0 := report.value.1]
  }

  lemma ReportReceived(s: State, id: nat, h: Http, busy: Queue, matches: Matching)
    requires Numbered(s.req) && id in s.req.tasks
    ensures var report := Report(s, Completion(id, h));
            Receive(s, id, h, busy, matches).change.receipts ==
            if report.None? then s.change.receipts else s.change.receipts[report.value.0 := report.value.1]
  {
    hide LoadPastHiddenSessions, MutationDone, AcceptDetail, AcceptSnapshot, AcceptPage, ReceiveCopy, RefreshList,
         Select;
  }

  lemma ReportStep(s: State, input: Input, t: State, matches: Matching)
    requires Follows(s, input, t, matches)
    ensures var report := Report(s, input.event);
            t.change.receipts ==
            if report.None? then s.change.receipts else s.change.receipts[report.value.0 := report.value.1]
  {
    hide Numbered, Honest, Receive, RefreshList, RefreshSelection, Navigate, Select, LoadPastHiddenSessions,
         RefreshSnapshot, ToggleArchived, Mutate, ReviewCopy, ExecuteCopy, OpenSavedCopy, PollCopy;
    hide Submit;
    if input.event.Completion? {
      FollowsReceive(s, input, t, matches);
      ReportReceived(s, input.event.request, input.event.answer, input.busy, matches);
    }
  }

  /** The receipts that the console keeps are what the events reported, and nothing else. */
  lemma {:induction false} ReceiptsAreReports(
    states: seq<State>, inputs: seq<Input>, first: Queue, matches: Matching, k: nat)
    requires Run(states, inputs, first, matches) && k < |states|
    ensures states[k].change.receipts == Reports(states, inputs, k)
  {
    hide Follows, Start, Report;
    if k == 0 {
      StartAnswers(first);
    } else {
      ReceiptsAreReports(states, inputs, first, matches, k - 1);
      ReportStep(states[k - 1], inputs[k - 1], states[k], matches);
    }
  }

  // ---------------------------------------------------------------- which changes were begun

  /** The ids of the changes that were current since the last switch of the workspace. */
  function Begun(states: seq<State>, k: nat): set<nat>
    requires k < |states|
  {
    var now := states[k].change;
    (if k == 0 || states[k - 1].change.generation != now.generation then {} else Begun(states, k - 1)) +
    (if now.current.Some? then {now.current.value.id} else {})
  }

  /** What a step does to the changes begun. */
  predicate BegunNext(c: Changes, d: Changes) {
    d.begun == (if d.generation != c.generation then {} else c.begun) +
               (if d.current.Some? then {d.current.value.id} else {})
  }

  lemma BegunStep(s: State, input: Input, t: State, matches: Matching)
    requires Follows(s, input, t, matches) && (s.change.current.Some? ==> s.change.current.value.id in s.change.begun)
    ensures BegunNext(s.change, t.change)
  {
    hide Numbered, Honest, RefreshList, RefreshSelection, Navigate, Select, LoadPastHiddenSessions, MutationDone,
         AcceptDetail, AcceptSnapshot, AcceptPage, RefreshSnapshot, ToggleArchived, Mutate, ReviewCopy, ExecuteCopy,
         OpenSavedCopy, PollCopy, ReceiveCopy, Answered, ConnectWorkspace, Receipt;
    hide Submit;
  }

  lemma {:induction false} BegunAre(
    states: seq<State>, inputs: seq<Input>, first: Queue, matches: Matching, k: nat)
    requires Run(states, inputs, first, matches) && k < |states|
    ensures states[k].change.begun == Begun(states, k)
  {
    hide Follows, Start;
    if k == 0 {
      StartAnswers(first);
    } else {
      BegunAre(states, inputs, first, matches, k - 1);
      assert states[k - 1].change.current.Some? ==>
               states[k - 1].change.current.value.id in states[k - 1].change.begun;
      BegunStep(states[k - 1], inputs[k - 1], states[k], matches);
    }
  }

  // ---------------------------------------------------------------- the identity of a change

  /** Every submission of the change sent so far was refused for good. */
  ghost predicate NeverAccepted(states: seq<State>, inputs: seq<Input>, k: nat, x: nat)
    requires k <= |inputs| && |states| == |inputs| + 1
  {
    forall r: nat :: Submits(states[k].req, r, x) ==> Refused(inputs, k, r)
  }

  /** The change is over: last reported done, awaiting a restart, or broken; or never accepted. */
  ghost predicate Over(states: seq<State>, inputs: seq<Input>, k: nat, x: nat)
    requires k <= |inputs| && |states| == |inputs| + 1
  {
    || (x in Reports(states, inputs, k) && Reports(states, inputs, k)[x] in {Done, AwaitingRestart, Broken})
    || NeverAccepted(states, inputs, k, x)
  }

  /** What the invariants say of one state, in terms of the events that led to it. */
  lemma Told(states: seq<State>, inputs: seq<Input>, first: Queue, matches: Matching, k: nat)
    requires Run(states, inputs, first, matches) && k < |states|
    ensures ChangesTracked(states[k].req, states[k].change)
    ensures states[k].change.receipts == Reports(states, inputs, k) && states[k].change.begun == Begun(states, k)
    ensures forall x: nat :: MaybeAccepted(states[k].req, x) <==> !NeverAccepted(states, inputs, k, x)
    ensures forall r: nat, x: nat :: Submits(states[k].req, r, x) ==>
              && (r in states[k].req.completed <==> AnswerTo(inputs, k, r).Some?)
              && (r in states[k].req.rejected <==> Refused(inputs, k, r))
  {
    EveryStateValid(states, inputs, first, matches, k);
    ValidNumbered(states[k]);
    ReceiptsAreReports(states, inputs, first, matches, k);
    BegunAre(states, inputs, first, matches, k);
    hide Run, Valid, Numbered, ChangesTracked, Reports, Begun, AnswerTo, Refused, Submits;
    forall r: nat, x: nat
      ensures Submits(states[k].req, r, x) ==>
                && (r in states[k].req.completed <==> AnswerTo(inputs, k, r).Some?)
                && (r in states[k].req.rejected <==> Refused(inputs, k, r))
    {
      SubmissionsAnswered(states, inputs, first, matches, k, r, x);
    }
  }

  lemma SettledIsOver(states: seq<State>, inputs: seq<Input>, first: Queue, matches: Matching, k: nat, x: nat)
    requires Run(states, inputs, first, matches) && k < |states|
    ensures Settled(states[k].req, states[k].change, x) <==> Over(states, inputs, k, x)
  {
    hide Run, ChangesTracked, Reports, Begun, AnswerTo, Refused, Submits, MaybeAccepted, NeverAccepted;
    Told(states, inputs, first, matches, k);
  }

  /** In every state, what is shown of the current change follows from what was sent and answered: it is
      accepted in a state exactly if that is the last one reported of it; not accepted exactly if every
      submission was refused; and being submitted exactly if one submission awaits its answer and every
      other was refused. */
  lemma ChangeProgress(states: seq<State>, inputs: seq<Input>, first: Queue, matches: Matching, k: nat)
    requires Run(states, inputs, first, matches) && k < |states| && states[k].change.current.Some?
    ensures var c, reports := states[k].change.current.value, Reports(states, inputs, k);
            && (forall state :: c.progress == Accepted(state) <==> c.id in reports && reports[c.id] == state)
            && (c.progress.NotAccepted? <==> NeverAccepted(states, inputs, k, c.id))
            && (c.progress.Submitting? <==>
                && c.id !in reports
                && exists r: nat :: Submits(states[k].req, r, c.id) && AnswerTo(inputs, k, r).None? &&
                     forall other: nat :: Submits(states[k].req, other, c.id) ==>
                       other == r || Refused(inputs, k, other))
  {
    Told(states, inputs, first, matches, k);
    hide Run, Reports, Begun, AnswerTo, Refused, Submits;
    var q, c := states[k].req, states[k].change.current.value;
    if c.progress.Submitting? {
      EveryStateValid(states, inputs, first, matches, k);
    }
    if c.progress.Unconfirmed? || c.progress.Accepted? {
      var r: nat :| Submits(q, r, c.id) && r in q.completed && r !in q.rejected;
      assert MaybeAccepted(q, c.id);
    }
  }

  /** In every state, each change that was current since the last switch of the workspace is over unless it
      is the current one, and all submissions of the current one are of its action. */
  lemma ChangeIdentity(states: seq<State>, inputs: seq<Input>, first: Queue, matches: Matching, k: nat)
    requires Run(states, inputs, first, matches) && k < |states|
    ensures var q, c := states[k].req, states[k].change.current;
            && (forall x :: x in Begun(states, k) ==> Over(states, inputs, k, x) || (c.Some? && c.value.id == x))
            && (c.Some? ==> forall r: nat, action ::
                  r in q.tasks && q.tasks[r] == SubmitChange(c.value.id, action) ==> action == c.value.action)
  {
    Told(states, inputs, first, matches, k);
    var q, c := states[k].req, states[k].change.current;
    hide Run, Reports, Begun, MaybeAccepted, Over;
    forall x | x in Begun(states, k) ensures Over(states, inputs, k, x) || (c.Some? && c.value.id == x) {
      SettledIsOver(states, inputs, first, matches, k, x);
    }
    if c.Some? {
      forall r: nat, action | r in q.tasks && q.tasks[r] == SubmitChange(c.value.id, action)
        ensures action == c.value.action
      {
        assert action == Setup || action == Rollback;
        assert Submits(q, r, c.value.id);
      }
    }
  }

  /** Another change is current only after it was begun. */
  lemma OnlyBeginBegins(s: State, input: Input, t: State, matches: Matching)
    requires Follows(s, input, t, matches) && !input.event.Begin?
    ensures t.change.current.Some? ==>
              && s.change.current.Some?
              && t.change.current.value.id == s.change.current.value.id
              && t.change.current.value.action == s.change.current.value.action
  {
    hide Numbered, Honest, RefreshList, RefreshSelection, Navigate, Select, LoadPastHiddenSessions, MutationDone,
         AcceptDetail, AcceptSnapshot, AcceptPage, RefreshSnapshot, ToggleArchived, Mutate, ReviewCopy, ExecuteCopy,
         OpenSavedCopy, PollCopy, ReceiveCopy, Answered, ConnectWorkspace, Receipt;
    hide Submit;
  }

  /** Beginning a change renews the current one exactly if there is none or it is not active. */
  lemma BeginRenews(s: State, input: Input, t: State, matches: Matching)
    requires Follows(s, input, t, matches) && input.event.Begin?
    ensures t.change.current.Some?
    ensures var c, d := s.change.current, t.change.current.value;
            if c.Some? && c.value.Active() then d.id == c.value.id && d.action == c.value.action
            else d.id == s.change.next && d.action == input.event.action
  {
    hide Numbered, Honest, Submit;
  }

  lemma ActiveIsNotOver(states: seq<State>, inputs: seq<Input>, first: Queue, matches: Matching, k: nat)
    requires Run(states, inputs, first, matches) && k < |states| && states[k].change.current.Some?
    ensures var c := states[k].change.current.value; Over(states, inputs, k, c.id) <==> !c.Active()
  {
    EveryStateValid(states, inputs, first, matches, k);
    ValidNumbered(states[k]);
    hide Run, Over, Valid, ChangesTracked, Numbered;
    SettledIsOver(states, inputs, first, matches, k, states[k].change.current.value.id);
    ActiveIsUnsettled(states[k].req, states[k].change);
  }

  lemma ActiveIsUnsettled(q: Requests, c: Changes)
    requires Numbered(q) && ChangesTracked(q, c) && c.current.Some?
    ensures Settled(q, c, c.current.value.id) <==> !c.current.value.Active()
  {
    var change := c.current.value;
    if change.progress.Unconfirmed? || change.progress.Accepted? {
      var r: nat :| Submits(q, r, change.id) && r in q.completed && r !in q.rejected;
      assert MaybeAccepted(q, change.id);
    }
    if change.progress.Submitting? {
      assert Submits(q, change.pending.value, change.id);
    }
  }

  /** Another change becomes current exactly when one is begun while there is none or the current one is
      over. Then all that were begun since the last switch of the workspace are over, the new one is of
      the action asked for, and its id was in no submission before. */
  lemma NewChangeIdentity(states: seq<State>, inputs: seq<Input>, first: Queue, matches: Matching, k: nat)
    requires Run(states, inputs, first, matches) && k < |inputs|
    ensures var c, d := states[k].change.current, states[k + 1].change.current;
            && (d.Some? && (c.None? || d.value.id != c.value.id) <==>
                inputs[k].event.Begin? && (c.None? || Over(states, inputs, k, c.value.id)))
            && (d.Some? && (c.None? || d.value.id != c.value.id) ==>
                  && d.value.action == inputs[k].event.action
                  && (forall x :: x in Begun(states, k) ==> Over(states, inputs, k, x) && x != d.value.id)
                  && forall r: nat :: !Submits(states[k].req, r, d.value.id))
  {
    assert Follows(states[k], inputs[k], states[k + 1], matches);
    ChangeIdentity(states, inputs, first, matches, k);
    Told(states, inputs, first, matches, k);
    hide Run, Reports, AnswerTo, Refused, Submits, NeverAccepted, Over, Follows, Begun;
    var s, t := states[k], states[k + 1];
    if s.change.current.Some? {
      ActiveIsNotOver(states, inputs, first, matches, k);
    }
    if inputs[k].event.Begin? {
      BeginRenews(s, inputs[k], t, matches);
    } else {
      OnlyBeginBegins(s, inputs[k], t, matches);
    }
  }
}
