/** The console of desktop/src/app.rs as the object it is: methods that update its fields in place and
    loop where the source loops, each proved against the step function of its name. The source's fields
    are grouped in six records. */
module ConsoleObject {
  import opened Prelude
  import opened SessionCopy
  import opened ConsoleData
  import opened ConsoleState
  import opened ConsoleBrowse
  import opened ConsoleReceive
  import opened ConsoleLocal
  import opened ConsoleRun
  import opened ConsoleProperties

  /** A request's number and what came of it. */
  datatype Completed = Completed(id: nat, answer: Http)

  /** The server answers each request once, and as asked. */
  ghost predicate Deliverable(s: State, queue: seq<Completed>, busy: Queue, matches: Matching)
    decreases |queue|
  {
    && Numbered(s.req)
    && (queue != [] ==>
          && Possible(s, Completion(queue[0].id, queue[0].answer))
          && Deliverable(Receive(s, queue[0].id, queue[0].answer, busy, matches), queue[1..], busy, matches))
  }

  ghost function Drained(s: State, queue: seq<Completed>, busy: Queue, matches: Matching): State
    requires Deliverable(s, queue, busy, matches)
    decreases |queue|
  {
    if queue == [] then s
    else Drained(Receive(s, queue[0].id, queue[0].answer, busy, matches), queue[1..], busy, matches)
  }

  /** Draining the completions keeps the invariants, whatever their order. */
  lemma {:induction false} DrainKeeps(s: State, queue: seq<Completed>, busy: Queue, matches: Matching)
    requires Deliverable(s, queue, busy, matches) && Valid(s)
    ensures Valid(Drained(s, queue, busy, matches))
    decreases |queue|
  {
    hide Valid, Numbered, Receive, Honest;
    if queue != [] {
      ReceiveKeeps(s, queue[0].id, queue[0].answer, busy, matches);
      DrainKeeps(Receive(s, queue[0].id, queue[0].answer, busy, matches), queue[1..], busy, matches);
    }
  }

  lemma Awaited(s: State, queue: seq<Completed>, busy: Queue, matches: Matching)
    requires Deliverable(s, queue, busy, matches) && queue != []
    ensures Numbered(s.req) && queue[0].id in s.req.tasks
  {
  }

  lemma UpsertPast(rows: seq<Resource>, row: Resource, k: nat)
    requires k < |rows| && rows[k].id != row.id
    ensures rows[..k] + Upsert(rows[k..], row) == rows[..k + 1] + Upsert(rows[k + 1..], row)
  {
    hide Upsert;
    UpsertTail(rows[k..], row);
    assert rows[k..][1..] == rows[k + 1..];
    Moved(rows, k, Upsert(rows[k + 1..], row));
  }

  lemma Moved(rows: seq<Resource>, k: nat, rest: seq<Resource>)
    requires k < |rows|
    ensures rows[..k] + ([rows[k]] + rest) == rows[..k + 1] + rest
  {
  }

  lemma UpsertTail(rows: seq<Resource>, row: Resource)
    ensures rows != [] && rows[0].id != row.id ==> Upsert(rows, row) == [rows[0]] + Upsert(rows[1..], row)
  {
    hide Ids, DistinctIds;
  }

  lemma UpsertAt(rows: seq<Resource>, row: Resource, k: nat)
    requires k <= |rows| && (k < |rows| ==> rows[k].id == row.id)
    ensures rows[..k] + Upsert(rows[k..], row) == if k < |rows| then rows[k := row] else rows + [row]
  {
    hide Ids, DistinctIds;
    if k == |rows| {
      assert rows[k..] == [] && rows[..k] == rows;
    } else {
      assert rows[k..][1..] == rows[k + 1..];
    }
  }

  lemma RetainPast(rows: seq<Resource>, index: set<Id>, keep: bool, k: nat, kept: seq<Resource>)
    requires k < |rows|
    ensures kept + Retain(rows[k..], index, keep) ==
            (if (rows[k].id in index) == keep then kept + [rows[k]] else kept) + Retain(rows[k + 1..], index, keep)
  {
    hide Ids, DistinctIds;
    var rest := Retain(rows[k + 1..], index, keep);
    assert rows[k..][1..] == rows[k + 1..];
    assert kept + ([rows[k]] + rest) == kept + [rows[k]] + rest;
  }

  class ConsoleApp {
    /** Whether the worker's queue is full for each request number, and URL normalization: both given. */
    const busy: Queue
    const matches: Matching

    var requests: Requests
    var selection: Selection
    var listing: Listing
    var changes: Changes
    var copies: Copies
    var workspace: Workspace

    function View(): State
      reads this
    {
      State(requests, selection, listing, changes, copies, workspace)
    }

    // ---------------------------------------------------------------- browsing

    method Submit(task: Task, p: Pending) returns (id: Option<nat>)
      modifies `requests
      ensures (requests, id) == ConsoleState.Submit(old(requests), task, p, busy)
    {
      var next := requests.nextId + 1;
      requests := requests.(nextId := next);
      if busy(next) {
        return None;
      }
      requests := requests.(
        pending := requests.pending[next := p], tasks := requests.tasks[next := task],
        copies := if CopyTask(task) then requests.copies + {next} else requests.copies);
      return Some(next);
    }

    method ClearSelection()
      modifies `selection
      ensures View() == ConsoleBrowse.ClearSelection(old(View()))
    {
      selection := selection.(generation := selection.generation + 1, resource := None, id := None);
      selection := selection.(snapshot := None, credentialsOf := None);
      selection := selection.(detailPending := None, snapshotPending := None);
    }

    method RefreshList(append: bool)
      modifies `requests, `listing
      ensures View() == ConsoleBrowse.RefreshList(old(View()), append, busy)
    {
      listing := listing.(generation := listing.generation + 1);
      var slot := Submit(ListTask(listing.collection, if append then listing.after else None),
                         ListPending(listing.generation, append));
      listing := listing.(slot := slot);
    }

    method LoadPastHiddenSessions()
      modifies `requests, `listing
      ensures View() == ConsoleBrowse.LoadPastHiddenSessions(old(View()), busy)
    {
      if listing.collection.Sessions? && listing.after.Some? && listing.slot.None? {
        RefreshList(true);
      }
    }

    method RefreshSnapshot()
      modifies `requests, `selection
      ensures View() == ConsoleBrowse.RefreshSnapshot(old(View()), busy)
    {
      if selection.snapshotPending.Some? || selection.id.None? {
        return;
      }
      var slot := Submit(SnapshotTask(selection.id.value), SnapshotPending(selection.generation));
      selection := selection.(snapshotPending := slot);
    }

    method RefreshSelection()
      modifies `requests, `selection
      ensures View() == ConsoleBrowse.RefreshSelection(old(View()), busy)
    {
      if selection.id.None? {
        return;
      }
      if listing.collection.Sessions? {
        RefreshSnapshot();
      } else if selection.detailPending.None? {
        var slot := Submit(DetailTask(listing.collection, selection.id.value), DetailPending(selection.generation));
        selection := selection.(detailPending := slot);
      }
    }

    method RefreshCredentials()
      modifies `requests
      ensures View() == ConsoleBrowse.RefreshCredentials(old(View()), busy)
    {
      if selection.id.None? {
        return;
      }
      var _ := Submit(CredentialsTask(selection.id.value), CredentialsPending(selection.generation));
    }

    method Navigate(target: Collection)
      modifies `requests, `selection, `listing
      ensures View() == ConsoleBrowse.Navigate(old(View()), target, busy)
    {
      if listing.collection == target {
        return;
      }
      listing := listing.(collection := target, resources := [], after := None);
      ClearSelection();
      RefreshList(false);
    }

    method Select(id: Id)
      modifies `requests, `selection
      ensures View() == ConsoleBrowse.Select(old(View()), id, busy)
    {
      if selection.id == Some(id) {
        return;
      }
      ClearSelection();
      selection := selection.(id := Some(id));
      selection := selection.(resource := Find(listing.resources, id));
      RefreshSelection();
    }

    method ToggleArchived()
      modifies `requests, `selection, `listing, `workspace
      ensures View() == ConsoleBrowse.ToggleArchived(old(View()), busy)
    {
      workspace := workspace.(archivedSessions := !workspace.archivedSessions);
      ClearSelection();
      LoadPastHiddenSessions();
    }

    method Mutate(effect: Effect)
      modifies `requests, `workspace
      ensures View() == ConsoleBrowse.Mutate(old(View()), effect, busy)
    {
      if workspace.mutationPending.None? {
        var slot := Submit(MutationTask(effect), MutationPending(effect));
        workspace := workspace.(mutationPending := slot);
      }
    }

    // ---------------------------------------------------------------- pages

    /** Replaces the row with the new row's id, or appends it. */
    method UpsertRow(row: Resource)
      modifies `listing
      ensures listing == old(listing).(resources := Upsert(old(listing).resources, row))
    {
      hide Upsert, Ids, DistinctIds;
      var rows := listing.resources;
      var k := 0;
      while k < |rows| && rows[k].id != row.id
        invariant listing == old(listing) && 0 <= k <= |rows| && Upsert(rows, row) == rows[..k] + Upsert(rows[k..], row)
      {
        UpsertPast(rows, row, k);
        k := k + 1;
      }
      UpsertAt(rows, row, k);
      listing := listing.(resources := if k < |rows| then rows[k := row] else rows + [row]);
    }

    method UpsertRows(page: seq<Resource>)
      modifies `listing
      ensures listing == old(listing).(resources := UpsertAll(old(listing).resources, page))
    {
      for k := 0 to |page|
        invariant listing == old(listing).(resources := listing.resources)
        invariant UpsertAll(listing.resources, page[k..]) == UpsertAll(old(listing).resources, page)
      {
        assert page[k..][0] == page[k] && page[k..][1..] == page[k + 1..];
        UpsertRow(page[k]);
      }
    }

    method AddRows(page: seq<Resource>)
      modifies `listing
      ensures listing == old(listing).(resources := AddMissing(old(listing).resources, page))
    {
      for k := 0 to |page|
        invariant listing == old(listing).(resources := listing.resources)
        invariant AddMissing(listing.resources, page[k..]) == AddMissing(old(listing).resources, page)
      {
        assert page[k..][0] == page[k] && page[k..][1..] == page[k + 1..];
        if page[k].id !in Ids(listing.resources) {
          listing := listing.(resources := listing.resources + [page[k]]);
        }
      }
    }

    /** The rows with, or without, an id in the index. */
    method Filter(rows: seq<Resource>, index: set<Id>, keep: bool) returns (kept: seq<Resource>)
      ensures kept == Retain(rows, index, keep)
    {
      kept := [];
      for k := 0 to |rows|
        invariant kept + Retain(rows[k..], index, keep) == Retain(rows, index, keep)
      {
        hide Retain, Ids, DistinctIds;
        RetainPast(rows, index, keep, k, kept);
        if (rows[k].id in index) == keep {
          kept := kept + [rows[k]];
        }
      }
    }

    method TakePage(append: bool, page: Page, cursor: Option<Id>)
      modifies `listing
      ensures listing == AcceptPage(old(listing), append, page, cursor)
    {
      listing := listing.(after := NextCursor(page));
      if listing.collection.Sessions? {
        if !append {
          listing := listing.(sessionIndex := {}, chain := []);
        }
        listing := listing.(sessionIndex := listing.sessionIndex + Ids(page.data),
                            chain := listing.chain + [Link(cursor, page)]);
        if append {
          UpsertRows(page.data);
        } else {
          var kept := Filter(listing.resources, listing.sessionIndex, false);
          listing := listing.(resources := page.data + kept);
        }
        if listing.after.None? {
          var kept := Filter(listing.resources, listing.sessionIndex, true);
          listing := listing.(resources := kept);
        }
      } else if append {
        AddRows(page.data);
      } else {
        listing := listing.(resources := page.data);
      }
    }

    // ---------------------------------------------------------------- mutations

    method ReplaceRow(id: Id, body: Body)
      modifies `listing
      ensures View() == RowReplaced(old(View()), id, body)
    {
      if body.ResourceBody? {
        listing := listing.(resources := Replace(listing.resources, id, body.resource));
      }
    }

    /** After an edit its collection is shown, and the edited resource selected. */
    method EditDone(collection: Collection, id: Option<Id>)
      modifies `requests, `selection, `listing, `workspace
      ensures View() == Reopen(ConsoleReceive.Edit(old(View()), collection, busy), id, busy)
    {
      hide ConsoleBrowse.RefreshList, ConsoleBrowse.Navigate, ConsoleBrowse.Select, ConsoleBrowse.RefreshSelection;
      if collection.Sessions? {
        workspace := workspace.(archivedSessions := false);
      }
      if listing.collection != collection {
        Navigate(collection);
      } else {
        RefreshList(false);
      }
      if id.Some? {
        if selection.id == id {
          RefreshSelection();
        } else {
          Select(id.value);
        }
      }
    }

    method DeleteDone(collection: Collection, id: Id)
      modifies `requests, `selection, `listing
      ensures View() == ConsoleReceive.DeleteDone(old(View()), collection, id, busy)
    {
      hide ConsoleBrowse.RefreshList, ConsoleBrowse.ClearSelection;
      if listing.collection == collection {
        if selection.id == Some(id) {
          ClearSelection();
        }
        RefreshList(false);
      }
    }

    method ArchiveDone(id: Id, archived: bool, body: Body)
      modifies `requests, `selection, `listing
      ensures View() == ConsoleReceive.ArchiveDone(old(View()), id, archived, body, busy)
    {
      hide ConsoleBrowse.RefreshList, ConsoleBrowse.ClearSelection;
      if listing.collection.Sessions? {
        ReplaceRow(id, body);
        if selection.id == Some(id) && workspace.archivedSessions != archived {
          ClearSelection();
        }
        RefreshList(false);
      }
    }

    method RelabelDone(id: Id, body: Body)
      modifies `requests, `selection, `listing
      ensures View() == ConsoleReceive.RelabelDone(old(View()), id, body, busy)
    {
      hide ConsoleBrowse.RefreshList;
      if listing.collection.Sessions? {
        ReplaceRow(id, body);
        if body.ResourceBody? && selection.id == Some(id) {
          selection := selection.(generation := selection.generation + 1, snapshotPending := None,
                                  resource := Some(body.resource));
          if selection.snapshot.Some? {
            selection := selection.(snapshot := Some(selection.snapshot.value.(session := body.resource)));
          }
        }
        RefreshList(false);
      }
    }

    method MutationDone(effect: Effect, body: Body)
      modifies `requests, `selection, `listing, `workspace
      ensures View() == ConsoleReceive.MutationDone(old(View()), effect, body, busy)
    {
      hide ConsoleReceive.Edit, Reopen, ConsoleBrowse.RefreshSnapshot, ConsoleBrowse.RefreshCredentials,
           ConsoleReceive.DeleteDone, ConsoleReceive.ArchiveDone, ConsoleReceive.RelabelDone;
      match effect
      case Edited(collection, selectId) =>
        EditDone(collection, if selectId.Some? then selectId else BodyId(body));
      case Posted(sessionId) =>
        if selection.id == Some(sessionId) {
          RefreshSnapshot();
        }
      case Deleted(collection, id) => DeleteDone(collection, id);
      case Archived(id, archived) => ArchiveDone(id, archived, body);
      case Relabeled(id) => RelabelDone(id, body);
      case CredentialGone(vaultId) =>
        if listing.collection.Vaults? && selection.id == Some(vaultId) {
          RefreshCredentials();
        }
    }

    // ---------------------------------------------------------------- runtime changes

    method StartRuntimeChange(action: RuntimeAction)
      modifies `requests, `changes
      ensures View() == StartChange(old(View()), action, busy)
    {
      if changes.current.None? || !changes.current.value.Active() {
        changes := changes.(begun := changes.begun + {changes.next},
                            current := Some(RuntimeChange(changes.next, action, NotAccepted, None, false)));
        changes := changes.(next := changes.next + 1);
      }
      var change := changes.current.value;
      if change.action != action || !(change.progress.NotAccepted? || change.progress.Unconfirmed?) ||
        change.pending.Some? {
        return;
      }
      var slot := Submit(SubmitChange(change.id, action), ChangePending(changes.generation, change.id));
      if slot.Some? && change.progress.NotAccepted? {
        change := change.(progress := Submitting);
      }
      changes := changes.(current := Some(change.(pending := slot, failed := slot.None?)));
    }

    method RefreshRuntimeChange()
      modifies `requests, `changes
      ensures View() == RefreshChange(old(View()), busy)
    {
      if !workspace.local || workspace.slot.Some? || !Pollable(changes) {
        return;
      }
      var change := changes.current.value;
      var slot := Submit(ReadChange(change.id), ChangePending(changes.generation, change.id));
      changes := changes.(current := Some(change.(pending := slot, failed := slot.None?)));
    }

    method DismissRuntimeChange()
      modifies `changes
      ensures View() == DismissChange(old(View()))
    {
      if changes.current.Some? && changes.current.value.progress.NotAccepted? {
        changes := changes.(current := None);
      }
    }

    method RefreshRuntime()
      modifies `requests
      ensures View() == ReadRuntimeStatus(old(View()), busy)
    {
      var _ := Submit(ReadStatus, StatusPending(changes.generation));
    }

    method ReceiveLocal(id: nat, reply: Reply)
      modifies `changes
      ensures changes == ReceiveChange(old(changes), id, reply)
    {
      if changes.current.None? || changes.current.value.id != id {
        return;
      }
      var change := changes.current.value;
      if reply.Rejected? && change.progress.Submitting? {
        change := change.(progress := NotAccepted);
      }
      change := change.(pending := None);
      var receipt := Receipt(change, reply);
      if receipt.Some? {
        change := change.(progress := Accepted(receipt.value), failed := false);
        changes := changes.(receipts := changes.receipts[id := receipt.value]);
      } else {
        if change.progress.Submitting? {
          change := change.(progress := Unconfirmed);
        }
        change := change.(failed := true);
      }
      changes := changes.(current := Some(change));
    }

    // ---------------------------------------------------------------- session copies

    method CopyRequest(task: Task, p: Pending)
      modifies `requests, `copies
      ensures View() == ConsoleLocal.CopyRequest(old(View()), task, p, busy)
    {
      if !workspace.local || workspace.slot.Some? {
        copies := copies.(slot := None, failed := true);
        return;
      }
      var slot := Submit(task, p);
      copies := copies.(slot := slot, failed := slot.None?);
      if p.PlanPending? && p.execute && slot.Some? {
        copies := copies.(open := copies.open + {p.plan});
      }
    }

    /** The button that reviews what the draft holds. */
    method ReviewDraft(draft: CopyDraft)
      requires draft.Valid() && draft.matches == matches
      modifies `requests, `copies
      ensures View() ==
              if draft.Review().None? then old(View()) else ReviewCopy(old(View()), draft.Review().value, busy)
    {
      var review := draft.Review();
      if !copies.Active() && review.Some? {
        CopyRequest(ReviewTask(review.value), ReviewPending(review.value));
      }
    }

    method ExecuteTransfer()
      modifies `requests, `copies
      ensures View() == ExecuteCopy(old(View()), busy)
    {
      if !copies.Active() && copies.transfer.Some? && copies.transfer.value.CanExecute() {
        CopyRequest(ExecutePlan(copies.transfer.value.id), PlanPending(copies.transfer.value.id, true));
      }
    }

    method OpenSavedTransfer(plan: nat)
      modifies `requests, `copies
      ensures View() == OpenSavedCopy(old(View()), plan, busy)
    {
      if !copies.Active() {
        CopyRequest(ReadPlan(plan), PlanPending(plan, false));
      }
    }

    method PollTransfer()
      modifies `requests, `copies
      ensures View() == PollCopy(old(View()), busy)
    {
      if !workspace.local || workspace.slot.Some? {
        return;
      }
      if copies.slot.None? && copies.transfer.Some? {
        var plan := copies.transfer.value;
        if plan.status.Active() || copies.uncertain || (workspace.open && copies.needsRefresh) {
          CopyRequest(ReadPlan(plan.id), PlanPending(plan.id, false));
        }
      }
    }

    method ReceiveTransfer(id: nat, p: Pending, reply: Reply)
      modifies `copies
      ensures copies == ReceiveCopy(old(copies), id, p, reply, matches)
    {
      if copies.slot != Some(id) {
        return;
      }
      copies := copies.(slot := None);
      var plan := PlanOf(p, reply, matches);
      if plan.Some? {
        copies := copies.(transfer := plan, failed := false, needsRefresh := false);
        copies := copies.(uncertain := false, open := copies.open - {plan.value.id});
      } else {
        copies := copies.(failed := true);
        if p.PlanPending? && p.execute {
          if reply.Rejected? {
            copies := copies.(open := copies.open - {p.plan});
          } else {
            copies := copies.(uncertain := true, needsRefresh := true);
          }
        }
      }
    }

    // ---------------------------------------------------------------- switching

    method ConnectWorkspace(sessionToOpen: Option<Id>)
      modifies `requests, `workspace
      ensures View() == ConsoleLocal.ConnectWorkspace(old(View()), sessionToOpen, busy)
    {
      if CanSwitch(View()) {
        workspace := workspace.(sessionToOpen := None);
        var slot := Submit(WorkspaceTask(true), WorkspacePending(true));
        workspace := workspace.(slot := slot);
        workspace := workspace.(sessionToOpen := sessionToOpen);
      }
    }

    method ResetWorkspace()
      modifies this
      ensures View() == ConsoleLocal.ResetWorkspace(old(View()), busy)
    {
      changes := changes.(generation := changes.generation + 1, current := None, begun := {});
      copies := copies.(slot := None, failed := false, needsRefresh := copies.transfer.Some?);
      requests := requests.(pending := map[]);
      ClearSelection();
      listing := Listing(listing.generation + 1, None, Sessions, [], {}, None, listing.chain);
      workspace := workspace.(mutationPending := None, archivedSessions := false);
      RefreshList(false);
    }

    method ReceiveWorkspace(switching: bool, reply: Reply)
      modifies this
      ensures View() == ConsoleLocal.ReceiveWorkspace(old(View()), switching, reply, busy)
    {
      hide ConsoleLocal.ResetWorkspace, ConsoleBrowse.Select;
      workspace := workspace.(slot := None);
      if reply.Good? && reply.body.WorkspaceBody? {
        workspace := workspace.(local := reply.body.local);
        if switching {
          var target := workspace.sessionToOpen;
          workspace := workspace.(sessionToOpen := None);
          ResetWorkspace();
          workspace := workspace.(open := false);
          if target.Some? {
            Select(target.value);
          }
        }
      }
    }

    // ---------------------------------------------------------------- receiving

    /** A body for a current browsing request. */
    method Accept(task: Task, p: Pending, body: Body)
      requires Browsing(p) && Fits(p, task)
      modifies this
      ensures View() == ConsoleReceive.Accept(old(View()), task, p, body, busy)
    {
      hide ConsoleReceive.MutationDone, ConsoleBrowse.LoadPastHiddenSessions, ConsoleBrowse.RefreshCredentials,
           AcceptPage;
      match (p, body) {
        case (ListPending(_, append), PageBody(page)) =>
          TakePage(append, page, task.after);
          LoadPastHiddenSessions();
        case (DetailPending(_), ResourceBody(resource)) =>
          selection := selection.(resource := Some(resource));
          if listing.collection.Vaults? {
            RefreshCredentials();
          }
        case (SnapshotPending(_), SnapshotBody(snapshot)) =>
          selection := selection.(resource := Some(snapshot.session));
          listing := listing.(resources := Replace(listing.resources, snapshot.session.id, snapshot.session));
          selection := selection.(snapshot := Some(snapshot));
        case (CredentialsPending(_), CredentialsBody(vaultId)) =>
          selection := selection.(credentialsOf := Some(vaultId));
        case (MutationPending(effect), _) =>
          MutationDone(effect, body);
        case _ =>
      }
    }

    /** The request is off the table, and no slot names it. */
    method Release(id: nat, h: Http)
      requires id in requests.tasks
      modifies this
      ensures View() == Taken(old(View()), id, h)
    {
      requests := Answered(requests, id, h);
      if listing.slot == Some(id) {
        listing := listing.(slot := None);
      }
      if selection.detailPending == Some(id) {
        selection := selection.(detailPending := None);
      }
      if selection.snapshotPending == Some(id) {
        selection := selection.(snapshotPending := None);
      }
      if workspace.mutationPending == Some(id) {
        workspace := workspace.(mutationPending := None);
      }
    }

    method ReceiveOne(id: nat, h: Http)
      requires Numbered(requests) && id in requests.tasks
      modifies this
      ensures View() == ConsoleRun.Receive(old(View()), id, h, busy, matches)
    {
      hide Taken, ReceiveChange, ReceiveCopy, ConsoleLocal.ReceiveWorkspace, ConsoleReceive.Accept, Answered;
      if id !in requests.pending {
        requests := Answered(requests, id, h);
        return;
      }
      var p, task := requests.pending[id], requests.tasks[id];
      var current, reply := Current(View(), p), ReplyTo(task, h);
      Release(id, h);
      if !current {
        return;
      }
      if ForCopies(p) {
        ReceiveTransfer(id, p, reply);
      } else if p.ChangePending? {
        ReceiveLocal(p.change, reply);
      } else if p.WorkspacePending? {
        ReceiveWorkspace(p.switching, reply);
      } else if reply.Good? {
        Accept(task, p, reply.body);
      }
    }

    /** Drains the completions in the order in which they arrived. */
    method Receive(queue: seq<Completed>)
      requires Deliverable(View(), queue, busy, matches) && Valid(View())
      modifies this
      ensures View() == Drained(old(View()), queue, busy, matches) && Valid(View())
    {
      hide Valid, ConsoleRun.Receive, Possible, Numbered;
      DrainKeeps(View(), queue, busy, matches);
      for k := 0 to |queue|
        invariant Deliverable(View(), queue[k..], busy, matches)
        invariant Drained(View(), queue[k..], busy, matches) == Drained(old(View()), queue, busy, matches)
      {
        assert queue[k..][0] == queue[k] && queue[k..][1..] == queue[k + 1..];
        Awaited(View(), queue[k..], busy, matches);
        ReceiveOne(queue[k].id, queue[k].answer);
      }
    }

    // ---------------------------------------------------------------- steps

    /** The first frame asks for the first page and for the workspace. */
    constructor (busy: Queue, matches: Matching)
      ensures this.busy == busy && this.matches == matches
      ensures View() == Start(busy) && Valid(View())
    {
      hide ConsoleBrowse.RefreshList, ConsoleState.Submit, Valid;
      this.busy, this.matches := busy, matches;
      requests, selection, listing := INIT.req, INIT.sel, INIT.list;
      changes, copies, workspace := INIT.change, INIT.copy, INIT.ws;
      new;
      RefreshList(false);
      var slot := Submit(WorkspaceTask(false), WorkspacePending(false));
      workspace := workspace.(slot := slot);
      StartIsValid(busy);
    }

    /** Any event, in place: the state it leaves is the one the protocol prescribes, and it is valid. */
    method Perform(event: Event)
      requires Valid(View()) && Possible(View(), event)
      modifies this
      ensures View() == Apply(old(View()), event, busy, matches) && Valid(View())
    {
      Step(event);
      hide Valid, Apply, Possible;
      StepKeeps(old(View()), Input(event, busy), View(), matches);
    }

    method Step(event: Event)
      requires Numbered(requests) && Possible(View(), event)
      modifies this
      ensures View() == Apply(old(View()), event, busy, matches)
    {
      hide ConsoleBrowse.Navigate, ConsoleBrowse.Select, ConsoleBrowse.RefreshSelection, ConsoleBrowse.RefreshList,
           ConsoleBrowse.RefreshSnapshot, ConsoleBrowse.LoadPastHiddenSessions, ConsoleBrowse.ToggleArchived,
           ConsoleBrowse.Mutate, StartChange, RefreshChange, DismissChange, ReadRuntimeStatus, ConsoleLocal.CopyRequest,
           ExecuteCopy, OpenSavedCopy, PollCopy, ConsoleLocal.ConnectWorkspace, ConsoleRun.Receive, Numbered;
      match event
      case ToCollection(target) => Navigate(target);
      case ToResource(id) => Select(id);
      case Reload =>
        if listing.slot.None? {
          RefreshList(false);
          RefreshSelection();
        }
      case LoadMore =>
        if listing.slot.None? && listing.after.Some? {
          RefreshList(true);
        }
      case LoadHidden => LoadPastHiddenSessions();
      case SwitchArchived => ToggleArchived();
      case PollSelection =>
        if listing.collection.Sessions? && !workspace.open {
          RefreshSnapshot();
        }
      case Mutation(effect) => Mutate(effect);
      case Begin(action) => StartRuntimeChange(action);
      case PollChange => RefreshRuntimeChange();
      case Dismiss => DismissRuntimeChange();
      case PollStatus => RefreshRuntime();
      case Review(review) =>
        if !copies.Active() {
          CopyRequest(ReviewTask(review), ReviewPending(review));
        }
      case Execute => ExecuteTransfer();
      case OpenSaved(plan) => OpenSavedTransfer(plan);
      case PollTransfer => PollTransfer();
      case Window(open) => workspace := workspace.(open := open);
      case Connect(sessionToOpen) => ConnectWorkspace(sessionToOpen);
      case Completion(id, h) => ReceiveOne(id, h);
    }
  }
}
