/** What holds in every run of the console of desktop/src/app.rs. */
module ConsoleProperties {
  import opened Prelude
  import opened SessionCopy
  import opened ConsoleData
  import opened ConsoleState
  import opened ConsoleBrowse
  import opened ConsoleReceive
  import opened ConsoleLocal
  import opened ConsoleRun

  // ---------------------------------------------------------------- every state is valid

  lemma StepKeeps(s: State, input: Input, t: State, matches: Matching)
    requires Valid(s) && Follows(s, input, t, matches)
    ensures Valid(t)
  {
    var busy := input.busy;
    hide Valid, Numbered, Navigate, Select, RefreshSelection, RefreshList, RefreshSnapshot, LoadPastHiddenSessions,
         ToggleArchived, Mutate, StartChange, RefreshChange, DismissChange, ReadRuntimeStatus, ReviewCopy, ExecuteCopy,
         OpenSavedCopy, PollCopy, ConnectWorkspace, Receive, Honest;
    match input.event
    case ToCollection(collection) => NavigateKeeps(s, collection, busy);
    case ToResource(id) => SelectKeeps(s, id, busy);
    case Reload =>
      ListRefreshed(s, busy);
      RefreshSelectionKeeps(RefreshList(s, false, busy), busy);
    case LoadMore => LoadMoreKeeps(s, busy);
    case LoadHidden => LoadPastKeeps(s, busy);
    case SwitchArchived => ToggleArchivedKeeps(s, busy);
    case PollSelection => RefreshSnapshotKeeps(s, busy);
    case Mutation(effect) => MutateKeeps(s, effect, busy);
    case Begin(action) => StartChangeKeeps(s, action, busy);
    case PollChange => RefreshChangeKeeps(s, busy);
    case Dismiss => DismissChangeKeeps(s);
    case PollStatus => ReadRuntimeStatusKeeps(s, busy);
    case Review(review) => ReviewCopyKeeps(s, review, busy);
    case Execute => ShownCopyKeeps(s, busy);
    case OpenSaved(plan) => OpenSavedCopyKeeps(s, plan, busy);
    case PollTransfer => ShownCopyKeeps(s, busy);
    case Window(open) => WorkspaceFree(s, s.ws.(open := open));
    case Connect(sessionToOpen) => ConnectWorkspaceKeeps(s, sessionToOpen, busy);
    case Completion(id, h) => ReceiveKeeps(s, id, h, busy, matches);
  }

  lemma LoadMoreKeeps(s: State, busy: Queue)
    requires Valid(s)
    ensures s.list.after.Some? ==> Valid(RefreshList(s, true, busy))
  {
    hide Valid, Unlisted, ListBounded, RefreshList;
    ValidUnlisted(s);
    if s.list.after.Some? {
      RefreshListKeeps(s, true, busy);
    }
  }

  lemma {:induction false} EveryStateValid(states: seq<State>, inputs: seq<Input>, first: Queue, matches: Matching,
                                           k: nat)
    requires Run(states, inputs, first, matches) && k < |states|
    ensures Valid(states[k])
  {
    hide Valid, Follows, Start;
    if k == 0 {
      StartIsValid(first);
    } else {
      EveryStateValid(states, inputs, first, matches, k - 1);
      StepKeeps(states[k - 1], inputs[k - 1], states[k], matches);
    }
  }

  lemma FollowsReceive(s: State, input: Input, t: State, matches: Matching)
    requires Follows(s, input, t, matches) && input.event.Completion?
    ensures Possible(s, input.event) && t == Receive(s, input.event.request, input.event.answer, input.busy, matches)
  {
    hide Receive, Honest;
  }

  // ---------------------------------------------------------------- the selection fence

  /** In every state of every run what is shown belongs to the selected id, and each slot names a
      request exactly when one of the current generation is outstanding. */
  lemma SelectionFence(states: seq<State>, inputs: seq<Input>, first: Queue, matches: Matching, k: nat)
    requires Run(states, inputs, first, matches) && k < |states|
    ensures var s := states[k];
            && (s.sel.resource.Some? ==> s.sel.id == Some(s.sel.resource.value.id))
            && (s.sel.snapshot.Some? ==> s.sel.id == Some(s.sel.snapshot.value.session.id))
            && (s.sel.credentialsOf.Some? ==> s.sel.credentialsOf == s.sel.id)
    ensures var s := states[k];
            forall i :: s.sel.snapshotPending == Some(i) <==>
                        i in s.req.pending && s.req.pending[i] == SnapshotPending(s.sel.generation)
    ensures var s := states[k];
            forall i :: s.sel.detailPending == Some(i) <==>
                        i in s.req.pending && s.req.pending[i] == DetailPending(s.sel.generation)
    ensures var s := states[k];
            forall i :: s.list.slot == Some(i) <==>
                        i in s.req.pending && s.req.pending[i].ListPending? &&
                          s.req.pending[i].generation == s.list.generation
  {
    EveryStateValid(states, inputs, first, matches, k);
    hide Run, Chained, ChangesTracked, CopiesTracked, SwitchQuiet;
  }

  /** What an answer to a browsing request does to what is shown. */
  predicate Shows(s: State, id: nat, h: Http, t: State)
    requires id in s.req.pending
  {
    var p := s.req.pending[id];
    && (ForSelection(p) && p.generation != s.sel.generation ==> t.sel == s.sel && t.list == s.list)
    && (p.ListPending? && p.generation != s.list.generation ==> t.sel == s.sel && t.list == s.list)
    && (h.Answer? && 200 <= h.status < 300 && h.body.Some? ==>
          && (p == SnapshotPending(s.sel.generation) && h.body.value.SnapshotBody? ==>
                && t.sel.snapshot == Some(h.body.value.snapshot) && t.sel.id == s.sel.id
                && t.sel.resource == Some(h.body.value.snapshot.session))
          && (p == DetailPending(s.sel.generation) && h.body.value.ResourceBody? ==>
                t.sel.resource == Some(h.body.value.resource) && t.sel.id == s.sel.id))
  }

  lemma ReceiveShows(s: State, id: nat, h: Http, busy: Queue, matches: Matching)
    requires Valid(s) && id in s.req.pending && Numbered(s.req) && id in s.req.tasks
    ensures Shows(s, id, h, Receive(s, id, h, busy, matches))
  {
    assert Freed(s.sel.snapshotPending, id) == s.sel.snapshotPending ||
           s.req.pending[id] == SnapshotPending(s.sel.generation) by {
      hide Fenced, Chained, ChangesTracked, CopiesTracked, SwitchQuiet, Numbered;
    }
    assert Freed(s.sel.detailPending, id) == s.sel.detailPending ||
           s.req.pending[id] == DetailPending(s.sel.generation) by {
      hide Fenced, Chained, ChangesTracked, CopiesTracked, SwitchQuiet, Numbered;
    }
    assert s.list.slot == Some(id) ==>
             s.req.pending[id].ListPending? && s.req.pending[id].generation == s.list.generation by {
      hide Fenced, Chained, ChangesTracked, CopiesTracked, SwitchQuiet, Numbered;
    }
    hide Valid, Numbered, MutationDone, LoadPastHiddenSessions, AcceptPage, ReceiveCopy, ReceiveChange,
         ReceiveWorkspace, Answered;
  }

  /** An answer to a browsing request changes what is shown exactly if it is current: an outdated one leaves
      the selection and the list as they are; a successful one with a snapshot, or with the resource, is
      what is shown then. */
  lemma AnswerShown(states: seq<State>, inputs: seq<Input>, first: Queue, matches: Matching, k: nat)
    requires Run(states, inputs, first, matches) && k < |inputs| && inputs[k].event.Completion?
    requires inputs[k].event.request in states[k].req.pending
    ensures Shows(states[k], inputs[k].event.request, inputs[k].event.answer, states[k + 1])
  {
    EveryStateValid(states, inputs, first, matches, k);
    assert Follows(states[k], inputs[k], states[k + 1], matches);
    FollowsReceive(states[k], inputs[k], states[k + 1], matches);
    hide Run, Follows, Valid, Receive, Shows, Honest;
    ReceiveShows(states[k], inputs[k].event.request, inputs[k].event.answer, inputs[k].busy, matches);
  }

  // ---------------------------------------------------------------- the page chain

  datatype Arrival = Arrival(append: bool, link: Link)

  /** The current page of Sessions that an event delivers. */
  function Arriving(s: State, e: Event): Option<Arrival>
    requires Numbered(s.req) && Possible(s, e)
  {
    if e.Completion? && e.request in s.req.pending && s.req.pending[e.request].ListPending? then
      var p, reply := s.req.pending[e.request], ReplyTo(s.req.tasks[e.request], e.answer);
      if p.generation == s.list.generation && s.list.collection.Sessions? && reply.Good? && reply.body.PageBody?
      then Some(Arrival(p.append, Link(s.req.tasks[e.request].after, reply.body.page))) else None
    else None
  }

  /** The pages of Sessions delivered in the first k steps since the last one that starts anew. */
  function Delivered(states: seq<State>, inputs: seq<Input>, first: Queue, matches: Matching, k: nat): seq<Link>
    requires Run(states, inputs, first, matches) && k < |states|
  {
    if k == 0 then []
    else
      assert Follows(states[k - 1], inputs[k - 1], states[k], matches);
      var earlier, arriving := Delivered(states, inputs, first, matches, k - 1),
        Arriving(states[k - 1], inputs[k - 1].event);
      if arriving.None? then earlier
      else (if arriving.value.append then earlier else []) + [arriving.value.link]
  }

  lemma ArrivalGrowsChain(s: State, input: Input, t: State, matches: Matching)
    requires Follows(s, input, t, matches)
    ensures var a := Arriving(s, input.event);
            t.list.chain == if a.None? then s.list.chain
                            else (if a.value.append then s.list.chain else []) + [a.value.link]
  {
    hide LoadPastHiddenSessions, MutationDone, AcceptDetail, AcceptSnapshot, RefreshList, RefreshSelection, Navigate,
         Select, RefreshSnapshot, ToggleArchived, Mutate, Answered, StartChange, RefreshChange, DismissChange,
         ReadRuntimeStatus, ReviewCopy, ExecuteCopy, OpenSavedCopy, PollCopy, ConnectWorkspace, ReceiveWorkspace,
         ReceiveChange, ReceiveCopy, Honest;
    hide UpsertAll, AddMissing, Retain;
  }

  lemma {:induction false} ChainIsDelivered(states: seq<State>, inputs: seq<Input>, first: Queue, matches: Matching,
                                            k: nat)
    requires Run(states, inputs, first, matches) && k < |states|
    ensures states[k].list.chain == Delivered(states, inputs, first, matches, k)
  {
    hide Apply, Arriving;
    if k > 0 {
      ChainIsDelivered(states, inputs, first, matches, k - 1);
      ArrivalGrowsChain(states[k - 1], inputs[k - 1], states[k], matches);
    }
  }

  lemma ArrivalIsAccepted(s: State, input: Input, t: State, matches: Matching)
    requires Follows(s, input, t, matches) && Arriving(s, input.event).Some?
    ensures var id, list := input.event.request, s.list.(slot := Freed(s.list.slot, input.event.request));
            var a := Arriving(s, input.event).value;
            t == LoadPastHiddenSessions(
              Taken(s, id, input.event.answer).(list := AcceptPage(list, a.append, a.link.page, a.link.cursor)),
                input.busy)
  {
    hide Numbered, LoadPastHiddenSessions, MutationDone, AcceptDetail, AcceptSnapshot, AcceptPage, Answered,
         ReceiveWorkspace, ReceiveChange, ReceiveCopy, Honest;
  }

  lemma ArrivalAccepted(s: State, input: Input, t: State, matches: Matching)
    requires Valid(s) && Follows(s, input, t, matches) && Arriving(s, input.event).Some?
    requires Ends(Arriving(s, input.event).value.link.page)
    ensures t.list.collection.Sessions? && t.list.after.None? && EndsChain(t.list)
  {
    var a, id := Arriving(s, input.event).value, input.event.request;
    CurrentAsks(s, id);
    assert Chained(s.list.(slot := Freed(s.list.slot, id))) by {
      hide Unbroken, DistinctIds;
    }
    assert DistinctIds(a.link.page.data);
    assert a.link.cursor == if a.append then s.list.after else None;
    ArrivalIsAccepted(s, input, t, matches);
    hide Valid, Follows, Arriving, Chained, EndsChain, Unbroken, DistinctIds, NextCursor, Ends, UpsertAll, Retain,
         RefreshList, Answered, Current;
    AcceptPageKeeps(s.list.(slot := Freed(s.list.slot, id)), a.append, a.link.page);
  }

  lemma LastInChain(list: Listing)
    requires EndsChain(list) && list.collection.Sessions? && list.after.None?
    ensures Ids(list.resources) == ChainIds(list.chain) && DistinctIds(list.resources) && Unbroken(list.chain)
  {
  }

  /** The event delivers a page of Sessions that says it is the last one. */
  predicate LastArrives(s: State, input: Input, t: State, matches: Matching) {
    && Follows(s, input, t, matches) && Arriving(s, input.event).Some?
    && Ends(Arriving(s, input.event).value.link.page)
  }

  /** When a page of Sessions arrives that is the last one, the list holds the ids of the pages
      delivered since the list was last begun, each once; and those pages form one unbroken chain of
      cursors, whatever came between them. */
  lemma PageChain(states: seq<State>, inputs: seq<Input>, first: Queue, matches: Matching, k: nat)
    ensures Run(states, inputs, first, matches) && k < |inputs| &&
            LastArrives(states[k], inputs[k], states[k + 1], matches) ==>
            var log, list := Delivered(states, inputs, first, matches, k + 1), states[k + 1].list;
            && list.collection.Sessions? && list.after.None?
            && Ids(list.resources) == ChainIds(log) && DistinctIds(list.resources)
            && log != [] && Unbroken(log) && log[|log| - 1] == Arriving(states[k], inputs[k].event).value.link
  {
    hide Valid, Follows, LastArrives, Unbroken, DistinctIds, Ids, ChainIds, NextCursor, Arriving, Delivered, Start;
    if Run(states, inputs, first, matches) && k < |inputs| &&
      LastArrives(states[k], inputs[k], states[k + 1], matches) {
      assert k + 1 < |states|;
      hide Run;
      EveryStateValid(states, inputs, first, matches, k);
      ChainIsDelivered(states, inputs, first, matches, k + 1);
      LastAccepted(states[k], inputs[k], states[k + 1], matches);
    }
  }

  lemma LastAccepted(s: State, input: Input, t: State, matches: Matching)
    requires Valid(s) && LastArrives(s, input, t, matches)
    ensures var list := t.list;
            && list.collection.Sessions? && list.after.None?
            && Ids(list.resources) == ChainIds(list.chain) && DistinctIds(list.resources)
            && list.chain != [] && Unbroken(list.chain) &&
               list.chain[|list.chain| - 1] == Arriving(s, input.event).value.link
  {
    hide Valid, Follows, Unbroken, DistinctIds, Ids, ChainIds, NextCursor, Arriving, EndsChain;
    ArrivalGrowsChain(s, input, t, matches);
    ArrivalAccepted(s, input, t, matches);
    LastInChain(t.list);
  }
}
