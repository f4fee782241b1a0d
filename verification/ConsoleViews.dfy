/** What the console of desktop/src/app.rs shows after every event of every run: the collection, the
    resource selected and what is known of it, and the rows of the list. */
module ConsoleViews {
  import opened Prelude
  import opened SessionCopy
  import opened ConsoleData
  import opened ConsoleState
  import opened ConsoleBrowse
  import opened ConsoleReceive
  import opened ConsoleLocal
  import opened ConsoleRun
  import opened ConsoleProperties
  import opened ConsoleRequests

  /** What is open, beside the rows of the list; and the session to open after a switch. */
  datatype View = View(
    collection: Collection, id: Option<Id>, resource: Option<Resource>, snapshot: Option<Snapshot>,
    archived: bool, local: bool, open: bool, sessionToOpen: Option<Id>)
  {
    /** Nothing is selected. */
    function Closed(): View {
      this.(id := None, resource := None, snapshot := None)
    }

    /** Another resource is selected, of which the list's row is known. */
    function Opening(other: Id, rows: seq<Resource>): View {
      if id == Some(other) then this else this.(id := Some(other), resource := Find(rows, other), snapshot := None)
    }

    function Turning(other: Collection): View {
      if collection == other then this else Closed().(collection := other)
    }
  }

  function Shown(s: State): View {
    View(s.list.collection, s.sel.id, s.sel.resource, s.sel.snapshot, s.ws.archivedSessions, s.ws.local, s.ws.open,
         s.ws.sessionToOpen)
  }

  /** What is shown after a mutation was made. */
  function AfterMutation(v: View, rows: seq<Resource>, effect: Effect, body: Body): View {
    match effect
    case Edited(collection, selectId) =>
      var turned := v.Turning(collection).(archived := collection != Sessions && v.archived);
      (match Target(selectId, body)
       case None => turned
       case Some(id) => turned.Opening(id, if collection == v.collection then rows else []))
    case Deleted(collection, id) => if v.collection == collection && v.id == Some(id) then v.Closed() else v
    case Archived(id, archived) =>
      if v.collection == Sessions && v.id == Some(id) && v.archived != archived then v.Closed() else v
    case Relabeled(id) =>
      (match body
       case ResourceBody(resource) =>
         if v.collection == Sessions && v.id == Some(id)
         then v.(resource := Some(resource),
                 snapshot := match v.snapshot
                             case None => None
                             case Some(Snapshot(_, items)) => Some(Snapshot(resource, items)))
         else v
       case _ => v)
    case _ => v
  }

  /** What is shown after the event. */
  function After(s: State, e: Event): View {
    var v := Shown(s);
    match e
    case ToCollection(collection) => v.Turning(collection)
    case ToResource(id) => v.Opening(id, s.list.resources)
    case SwitchArchived => v.Closed().(archived := !v.archived)
    case Window(open) => v.(open := open)
    case Connect(id) => if Leavable(s) then v.(sessionToOpen := id) else v
    case Completion(_, _) =>
      (match Landed(s, e)
       case Some((DetailPending(generation), ResourceBody(resource))) =>
         if generation == s.sel.generation then v.(resource := Some(resource)) else v
       case Some((SnapshotPending(generation), SnapshotBody(snapshot))) =>
         if generation == s.sel.generation
         then v.(resource := Some(snapshot.session), snapshot := Some(snapshot)) else v
       case Some((MutationPending(effect), body)) => AfterMutation(v, s.list.resources, effect, body)
       case Some((WorkspacePending(false), WorkspaceBody(local))) => v.(local := local)
       case Some((WorkspacePending(true), WorkspaceBody(local))) =>
         View(Sessions, s.ws.sessionToOpen, None, None, false, local, false, None)
       case _ => v)
    case _ => v
  }

  /** The row took the place of the one with its id. */
  predicate Renewed(rows: seq<Resource>, row: Resource, after: seq<Resource>) {
    |after| == |rows| && forall i :: 0 <= i < |rows| ==> after[i] == if rows[i].id == row.id then row else rows[i]
  }

  /** What becomes of the rows when a mutation was made. */
  predicate RowsAfterMutation(now: Collection, rows: seq<Resource>, effect: Effect, body: Body, after: seq<Resource>) {
    match (effect, body)
    case (Edited(collection, _), _) => after == if collection == now then rows else []
    case (Archived(_, _), ResourceBody(row)) => if now == Sessions then Renewed(rows, row, after) else after == rows
    case (Relabeled(_), ResourceBody(row)) => if now == Sessions then Renewed(rows, row, after) else after == rows
    case _ => after == rows
  }

  /** What becomes of the rows, unless a page of them arrives. */
  predicate RowsAfter(s: State, e: Event, after: seq<Resource>) {
    var rows := s.list.resources;
    match e
    case ToCollection(collection) => after == if collection == s.list.collection then rows else []
    case Completion(_, _) =>
      (match Landed(s, e)
       case Some((ListPending(generation, _), PageBody(_))) => generation == s.list.generation || after == rows
       case Some((SnapshotPending(generation), SnapshotBody(snapshot))) =>
         if generation == s.sel.generation then Renewed(rows, snapshot.session, after) else after == rows
       case Some((MutationPending(effect), body)) => RowsAfterMutation(s.list.collection, rows, effect, body, after)
       case Some((WorkspacePending(true), WorkspaceBody(_))) => after == []
       case _ => after == rows)
    case _ => after == rows
  }

  // ---------------------------------------------------------------- asking shows nothing

  /** What is shown stays, and so do the rows. */
  predicate Still(s: State, t: State) {
    Shown(t) == Shown(s) && t.list.resources == s.list.resources
  }

  lemma ListStill(s: State, append: bool, busy: Queue)
    ensures Still(s, RefreshList(s, append, busy))
  {
    hide Submit;
  }

  lemma SelectionStill(s: State, busy: Queue)
    ensures Still(s, RefreshSnapshot(s, busy)) && Still(s, RefreshDetail(s, busy))
    ensures Still(s, RefreshSelection(s, busy)) && Still(s, RefreshCredentials(s, busy))
  {
    hide Submit;
  }

  lemma GoingOnStill(s: State, busy: Queue)
    ensures Still(s, LoadPastHiddenSessions(s, busy))
  {
    ListStill(s, true, busy);
    hide RefreshList;
  }

  lemma SelectShows(s: State, id: Id, busy: Queue)
    ensures var t := Select(s, id, busy);
            Shown(t) == Shown(s).Opening(id, s.list.resources) && t.list.resources == s.list.resources
  {
    SelectionStill(Chosen(s, id), busy);
    hide RefreshSelection;
  }

  lemma NavigateShows(s: State, collection: Collection, busy: Queue)
    ensures var t := Navigate(s, collection, busy);
            && Shown(t) == Shown(s).Turning(collection)
            && t.list.resources == (if collection == s.list.collection then s.list.resources else [])
  {
    ListStill(ClearSelection(Emptied(s, collection)), false, busy);
    hide RefreshList;
  }

  // ---------------------------------------------------------------- what mutations show

  lemma EditedShows(s: State, collection: Collection, selectId: Option<Id>, body: Body, busy: Queue)
    ensures var t := MutationDone(s, Edited(collection, selectId), body, busy);
            && Shown(t) == AfterMutation(Shown(s), s.list.resources, Edited(collection, selectId), body)
            && t.list.resources == (if collection == s.list.collection then s.list.resources else [])
  {
    var r := if collection.Sessions? then s.(ws := s.ws.(archivedSessions := false)) else s;
    var t, target := Edit(s, collection, busy), Target(selectId, body);
    NavigateShows(r, collection, busy);
    ListStill(r, false, busy);
    SelectionStill(t, busy);
    hide Navigate, RefreshList, RefreshSelection, Select;
    if target.Some? {
      SelectShows(t, target.value, busy);
    }
  }

  lemma ReplaceRenews(rows: seq<Resource>, id: Id, row: Resource)
    requires DistinctIds(rows) && row.id == id
    ensures Renewed(rows, row, Replace(rows, id, row))
  {
    if rows != [] {
      var rest := rows[1..];
      assert forall i :: 0 <= i < |rest| ==> rest[i] == rows[i + 1];
      if rows[0].id != id {
        ReplaceRenews(rest, id, row);
        assert Replace(rows, id, row) == [rows[0]] + Replace(rest, id, row);
      } else {
        assert Replace(rows, id, row) == [row] + rest;
      }
    }
  }

  lemma ArchivedShows(s: State, id: Id, archived: bool, body: Body, busy: Queue)
    requires DistinctIds(s.list.resources) && (body.ResourceBody? ==> body.resource.id == id)
    ensures var t := ArchiveDone(s, id, archived, body, busy);
            && Shown(t) == AfterMutation(Shown(s), s.list.resources, Archived(id, archived), body)
            && if body.ResourceBody? && s.list.collection == Sessions
               then Renewed(s.list.resources, body.resource, t.list.resources)
               else t.list.resources == s.list.resources
  {
    hide RefreshList, Replace, Renewed, DistinctIds;
    if body.ResourceBody? {
      ReplaceRenews(s.list.resources, id, body.resource);
    }
    var t := RowReplaced(s, id, body);
    ListStill(if t.sel.id == Some(id) && t.ws.archivedSessions != archived then ClearSelection(t) else t, false, busy);
  }

  lemma RelabeledShows(s: State, id: Id, body: Body, busy: Queue)
    requires DistinctIds(s.list.resources) && (body.ResourceBody? ==> body.resource.id == id)
    ensures var t := RelabelDone(s, id, body, busy);
            && Shown(t) == AfterMutation(Shown(s), s.list.resources, Relabeled(id), body)
            && if body.ResourceBody? && s.list.collection == Sessions
               then Renewed(s.list.resources, body.resource, t.list.resources)
               else t.list.resources == s.list.resources
  {
    hide RefreshList, Replace, Renewed, DistinctIds;
    if body.ResourceBody? {
      ReplaceRenews(s.list.resources, id, body.resource);
    }
    var t := RowReplaced(s, id, body);
    ListStill(if body.ResourceBody? && t.sel.id == Some(id) then t.(sel := Relabel(t.sel, body.resource)) else t,
              false, busy);
  }

  lemma OthersShow(s: State, effect: Effect, body: Body, busy: Queue)
    requires !effect.Edited? && DistinctIds(s.list.resources)
    requires (effect.Archived? || effect.Relabeled?) && body.ResourceBody? ==> body.resource.id == effect.id
    ensures var t := MutationDone(s, effect, body, busy);
            && Shown(t) == AfterMutation(Shown(s), s.list.resources, effect, body)
            && if (effect.Archived? || effect.Relabeled?) && body.ResourceBody? && s.list.collection == Sessions
               then Renewed(s.list.resources, body.resource, t.list.resources)
               else t.list.resources == s.list.resources
  {
    hide RefreshList, RefreshSnapshot, RefreshCredentials, Renewed, DistinctIds, ArchiveDone, RelabelDone;
    match effect
    case Posted(_) => SelectionStill(s, busy);
    case Deleted(_, id) => ListStill(if s.sel.id == Some(id) then ClearSelection(s) else s, false, busy);
    case Archived(id, archived) => ArchivedShows(s, id, archived, body, busy);
    case Relabeled(id) => RelabeledShows(s, id, body, busy);
    case CredentialGone(_) => SelectionStill(s, busy);
  }

  // ---------------------------------------------------------------- what answers show

  lemma MutationShows(s: State, t: State, effect: Effect, body: Body, busy: Queue)
    requires Shown(t) == Shown(s) && t.list.resources == s.list.resources && DistinctIds(s.list.resources)
    requires (effect.Archived? || effect.Relabeled?) && body.ResourceBody? ==> body.resource.id == effect.id
    ensures var u := MutationDone(t, effect, body, busy);
            && Shown(u) == AfterMutation(Shown(s), s.list.resources, effect, body)
            && RowsAfterMutation(s.list.collection, s.list.resources, effect, body, u.list.resources)
  {
    hide MutationDone, AfterMutation, Renewed, DistinctIds;
    match effect
    case Edited(collection, selectId) => EditedShows(t, collection, selectId, body, busy);
    case _ => OthersShow(t, effect, body, busy);
  }

  lemma AcceptShows(s: State, t: State, task: Task, p: Pending, body: Body, busy: Queue)
    requires Browsing(p) && Fits(p, task) && Still(s, t) && DistinctIds(s.list.resources)
    requires !p.MutationPending?
    ensures var u := Accept(t, task, p, body, busy);
            match (p, body)
            case (ListPending(_, _), PageBody(_)) => Shown(u) == Shown(s)
            case (DetailPending(_), ResourceBody(resource)) =>
              Shown(u) == Shown(s).(resource := Some(resource)) && u.list.resources == s.list.resources
            case (SnapshotPending(_), SnapshotBody(snapshot)) =>
              && Shown(u) == Shown(s).(resource := Some(snapshot.session), snapshot := Some(snapshot))
              && Renewed(s.list.resources, snapshot.session, u.list.resources)
            case _ => Still(s, u)
  {
    hide AcceptPage, LoadPastHiddenSessions, RefreshCredentials, Replace, Renewed, DistinctIds;
    match (p, body)
    case (ListPending(_, append), PageBody(page)) =>
      PageShows(t, append, page, task.after, busy);
    case (DetailPending(_), ResourceBody(resource)) =>
      SelectionStill(t.(sel := t.sel.(resource := Some(resource))), busy);
    case (SnapshotPending(_), SnapshotBody(snapshot)) =>
      ReplaceRenews(s.list.resources, snapshot.session.id, snapshot.session);
    case _ =>
  }

  lemma PageShows(t: State, append: bool, page: Page, cursor: Option<Id>, busy: Queue)
    ensures var u := t.(list := AcceptPage(t.list, append, page, cursor));
            Shown(LoadPastHiddenSessions(u, busy)) == Shown(t)
  {
    var u := t.(list := AcceptPage(t.list, append, page, cursor));
    GoingOnStill(u, busy);
    hide LoadPastHiddenSessions, UpsertAll, Retain, AddMissing, NextCursor;
  }

  /** Nothing changes upon an answer that is outdated or brings nothing. */
  lemma NothingShows(s: State, e: Event)
    requires e.Completion? && e.request in s.req.pending && Browsing(s.req.pending[e.request])
    requires Landed(s, e).None? || !Current(s, s.req.pending[e.request])
    ensures After(s, e) == Shown(s) && RowsAfter(s, e, s.list.resources)
  {
    hide Landed, Shown, AfterMutation, Renewed;
    assert Landed(s, e).Some? ==> Landed(s, e).value.0 == s.req.pending[e.request] by {
      LandedPending(s, e);
    }
  }

  lemma LandedPending(s: State, e: Event)
    ensures Landed(s, e).Some? ==> e.Completion? && e.request in s.req.pending &&
                                   Landed(s, e).value.0 == s.req.pending[e.request]
  {
  }

  lemma LandedMutation(s: State, e: Event, effect: Effect, body: Body, after: seq<Resource>)
    requires e.Completion? && Landed(s, e) == Some((MutationPending(effect), body))
    ensures After(s, e) == AfterMutation(Shown(s), s.list.resources, effect, body)
    ensures RowsAfter(s, e, after) <==>
            RowsAfterMutation(s.list.collection, s.list.resources, effect, body, after)
  {
    hide Landed, AfterMutation, RowsAfterMutation, Shown;
  }

  lemma MutationAccepted(s: State, id: nat, h: Http, body: Body, busy: Queue)
    requires id in s.req.pending && id in s.req.tasks && Honest(s.req.tasks[id], h)
    requires s.req.pending[id].MutationPending? && Fits(s.req.pending[id], s.req.tasks[id])
    requires DistinctIds(s.list.resources) && Landed(s, Completion(id, h)) == Some((s.req.pending[id], body))
    ensures var u, e := Accept(Taken(s, id, h), s.req.tasks[id], s.req.pending[id], body, busy), Completion(id, h);
            Shown(u) == After(s, e) && RowsAfter(s, e, u.list.resources)
  {
    var t, p, task := Taken(s, id, h), s.req.pending[id], s.req.tasks[id];
    assert Still(s, t);
    HonestRow(s, id, h, body);
    AcceptMutation(t, task, p, body, busy);
    hide Accept, Taken, Honest, Landed, AfterMutation, RowsAfterMutation, DistinctIds, MutationDone, Shown, After,
         RowsAfter;
    var u := MutationDone(t, p.effect, body, busy);
    MutationShows(s, t, p.effect, body, busy);
    LandedMutation(s, Completion(id, h), p.effect, body, u.list.resources);
  }

  lemma BodyAccepted(s: State, id: nat, h: Http, body: Body, busy: Queue)
    requires id in s.req.pending && id in s.req.tasks && Browsing(s.req.pending[id])
    requires !s.req.pending[id].MutationPending? && Fits(s.req.pending[id], s.req.tasks[id])
    requires DistinctIds(s.list.resources) && Landed(s, Completion(id, h)) == Some((s.req.pending[id], body))
    requires Current(s, s.req.pending[id])
    ensures var u, e := Accept(Taken(s, id, h), s.req.tasks[id], s.req.pending[id], body, busy), Completion(id, h);
            Shown(u) == After(s, e) && RowsAfter(s, e, u.list.resources)
  {
    var t, p, task := Taken(s, id, h), s.req.pending[id], s.req.tasks[id];
    assert Still(s, t);
    hide Accept, Taken, Landed, AfterMutation, Renewed, DistinctIds, Shown;
    AcceptShows(s, t, task, p, body, busy);
  }

  lemma BrowsingShows(s: State, id: nat, h: Http, busy: Queue)
    requires Numbered(s.req) && id in s.req.pending && id in s.req.tasks && Honest(s.req.tasks[id], h)
    requires Browsing(s.req.pending[id]) && Fits(s.req.pending[id], s.req.tasks[id]) && DistinctIds(s.list.resources)
    ensures var u, e := ReceiveBrowsing(s, id, h, busy), Completion(id, h);
            Shown(u) == After(s, e) && RowsAfter(s, e, u.list.resources)
  {
    LandedIs(s, id, h);
    var p, reply := s.req.pending[id], ReplyTo(s.req.tasks[id], h);
    assert Still(s, Taken(s, id, h));
    hide Numbered, Accept, Taken, Honest, ReplyTo, Landed, DistinctIds, After, RowsAfter;
    if Current(s, p) && reply.Good? {
      if p.MutationPending? {
        MutationAccepted(s, id, h, reply.body, busy);
      } else {
        BodyAccepted(s, id, h, reply.body, busy);
      }
    } else {
      NothingShows(s, Completion(id, h));
    }
  }

  lemma AcceptMutation(t: State, task: Task, p: Pending, body: Body, busy: Queue)
    requires p.MutationPending? && Fits(p, task)
    ensures Accept(t, task, p, body, busy) == MutationDone(t, p.effect, body, busy)
  {
    hide MutationDone;
  }

  lemma HonestRow(s: State, id: nat, h: Http, body: Body)
    requires id in s.req.pending && id in s.req.tasks && Honest(s.req.tasks[id], h)
    requires Landed(s, Completion(id, h)) == Some((s.req.pending[id], body)) && Fits(s.req.pending[id], s.req.tasks[id])
    ensures match s.req.pending[id]
            case MutationPending(Archived(row, _)) => body.ResourceBody? ==> body.resource.id == row
            case MutationPending(Relabeled(row)) => body.ResourceBody? ==> body.resource.id == row
            case _ => true
  {
  }

  /** After a switch nothing is listed, and the session to open is selected. */
  lemma SwitchShows(t: State, local: bool, busy: Queue)
    ensures var target := t.ws.sessionToOpen;
            var u := ResetWorkspace(t.(ws := t.ws.(slot := None, local := local, sessionToOpen := None)), busy);
            var v := u.(ws := u.ws.(open := false));
            var x := if target.Some? then Select(v, target.value, busy) else v;
            && Shown(x) == View(Sessions, target, None, None, false, local, false, None) && x.list.resources == []
  {
    var w := t.(ws := t.ws.(slot := None, local := local, sessionToOpen := None));
    var u := ResetWorkspace(w, busy);
    var v := u.(ws := u.ws.(open := false));
    ListStill(Blank(w), false, busy);
    hide RefreshList, Select;
    if t.ws.sessionToOpen.Some? {
      SelectShows(v, t.ws.sessionToOpen.value, busy);
    }
  }

  lemma LandedWorkspace(s: State, e: Event, switching: bool, body: Body, after: seq<Resource>)
    requires e.Completion? && Landed(s, e) == Some((WorkspacePending(switching), body))
    ensures After(s, e) ==
            if !body.WorkspaceBody? then Shown(s)
            else if switching then View(Sessions, s.ws.sessionToOpen, None, None, false, body.local, false, None)
            else Shown(s).(local := body.local)
    ensures RowsAfter(s, e, after) <==> after == if body.WorkspaceBody? && switching then [] else s.list.resources
  {
    hide Landed, Shown;
  }

  lemma NoneLanded(s: State, e: Event)
    requires e.Completion? && Landed(s, e).None?
    ensures After(s, e) == Shown(s) && RowsAfter(s, e, s.list.resources)
  {
    hide Landed, Shown;
  }

  lemma WorkspaceShows(s: State, id: nat, h: Http, busy: Queue)
    requires Numbered(s.req) && id in s.req.pending && id in s.req.tasks && s.req.pending[id].WorkspacePending?
    ensures var reply, e := ReplyTo(s.req.tasks[id], h), Completion(id, h);
            var u := ReceiveWorkspace(Taken(s, id, h), s.req.pending[id].switching, reply, busy);
            Shown(u) == After(s, e) && RowsAfter(s, e, u.list.resources)
  {
    LandedIs(s, id, h);
    var t, p, reply, e := Taken(s, id, h), s.req.pending[id], ReplyTo(s.req.tasks[id], h), Completion(id, h);
    assert Still(s, t) && t.ws.sessionToOpen == s.ws.sessionToOpen;
    hide Taken, Landed, ReplyTo, Select, ResetWorkspace, Numbered, After, RowsAfter;
    if reply.Good? {
      var u := ReceiveWorkspace(t, p.switching, reply, busy);
      LandedWorkspace(s, e, p.switching, reply.body, u.list.resources);
      if reply.body.WorkspaceBody? && p.switching {
        SwitchShows(t, reply.body.local, busy);
      }
    } else {
      NoneLanded(s, e);
    }
  }

  /** An answer about copies or a change, or to a forgotten request, shows nothing else. */
  lemma ElsewhereShows(s: State, id: nat, h: Http, busy: Queue, matches: Matching)
    requires Numbered(s.req) && id in s.req.tasks
    requires id in s.req.pending ==> ForCopies(s.req.pending[id]) || s.req.pending[id].ChangePending?
    ensures Still(s, Receive(s, id, h, busy, matches))
    ensures After(s, Completion(id, h)) == Shown(s) && RowsAfter(s, Completion(id, h), s.list.resources)
  {
    hide Numbered, ReceiveChange, ReceiveCopy, ReplyTo, Answered, AfterMutation, RowsAfterMutation;
  }

  lemma ReceiveShown(s: State, id: nat, h: Http, busy: Queue, matches: Matching)
    requires Numbered(s.req) && id in s.req.tasks && Honest(s.req.tasks[id], h) && DistinctIds(s.list.resources)
    ensures var t, e := Receive(s, id, h, busy, matches), Completion(id, h);
            Shown(t) == After(s, e) && RowsAfter(s, e, t.list.resources)
  {
    ReceiveIs(s, id, h, busy, matches);
    hide Numbered, Honest, Receive, ReceiveBrowsing, ReceiveWorkspace, ReplyTo, Fits, Taken, DistinctIds, After,
         RowsAfter;
    if id !in s.req.pending || ForCopies(s.req.pending[id]) || s.req.pending[id].ChangePending? {
      ElsewhereShows(s, id, h, busy, matches);
    } else if s.req.pending[id].WorkspacePending? {
      WorkspaceShows(s, id, h, busy);
    } else {
      BrowsingShows(s, id, h, busy);
    }
  }

  // ---------------------------------------------------------------- what the user and polls show

  lemma BrowsersShow(s: State, e: Event, busy: Queue, matches: Matching)
    requires Numbered(s.req)
    requires e.ToCollection? || e.ToResource? || e.Reload? || e.LoadMore? || e.LoadHidden? || e.SwitchArchived? ||
             e.PollSelection?
    ensures var t := Apply(s, e, busy, matches); Shown(t) == After(s, e) && RowsAfter(s, e, t.list.resources)
  {
    hide Numbered, RefreshList, RefreshSnapshot, RefreshSelection, Navigate, Select, LoadPastHiddenSessions;
    match e
    case ToCollection(collection) => NavigateShows(s, collection, busy);
    case ToResource(id) => SelectShows(s, id, busy);
    case Reload =>
      ListStill(s, false, busy);
      SelectionStill(RefreshList(s, false, busy), busy);
    case LoadMore => ListStill(s, true, busy);
    case LoadHidden => GoingOnStill(s, busy);
    case SwitchArchived =>
      GoingOnStill(ClearSelection(s.(ws := s.ws.(archivedSessions := !s.ws.archivedSessions))), busy);
    case PollSelection => SelectionStill(s, busy);
  }

  lemma OtherEventsShow(s: State, e: Event, busy: Queue, matches: Matching)
    requires Numbered(s.req) && !e.Completion?
    requires !(e.ToCollection? || e.ToResource? || e.Reload? || e.LoadMore? || e.LoadHidden? || e.SwitchArchived? ||
               e.PollSelection?)
    ensures var t := Apply(s, e, busy, matches); Shown(t) == After(s, e) && RowsAfter(s, e, t.list.resources)
  {
    hide Numbered, Submit, CopyDue, Pollable;
  }

  /** In every run, exactly what is shown after every event. */
  lemma ShownExactly(states: seq<State>, inputs: seq<Input>, first: Queue, matches: Matching, k: nat)
    requires Run(states, inputs, first, matches) && k < |inputs|
    ensures Shown(states[k + 1]) == After(states[k], inputs[k].event)
    ensures RowsAfter(states[k], inputs[k].event, states[k + 1].list.resources)
  {
    var s, t, e, busy := states[k], states[k + 1], inputs[k].event, inputs[k].busy;
    EveryStateValid(states, inputs, first, matches, k);
    assert Follows(s, inputs[k], t, matches);
    assert DistinctIds(s.list.resources) by {
      hide SelectionBounded, SlotsExact, Fenced, ListBounded, ListExact, ChangesTracked, CopiesTracked, SwitchQuiet;
    }
    hide Run, Valid, Numbered, Apply, Honest, After, RowsAfter, DistinctIds;
    match e
    case Completion(id, h) =>
      ReceiveShown(s, id, h, busy, matches);
      FollowsReceive(s, inputs[k], t, matches);
    case ToCollection(_) => BrowsersShow(s, e, busy, matches);
    case ToResource(_) => BrowsersShow(s, e, busy, matches);
    case Reload => BrowsersShow(s, e, busy, matches);
    case LoadMore => BrowsersShow(s, e, busy, matches);
    case LoadHidden => BrowsersShow(s, e, busy, matches);
    case SwitchArchived => BrowsersShow(s, e, busy, matches);
    case PollSelection => BrowsersShow(s, e, busy, matches);
    case _ => OtherEventsShow(s, e, busy, matches);
  }

  // ---------------------------------------------------------------- when a change is gone

  /** The workspace has been switched. */
  predicate Switched(s: State, e: Event) {
    match Landed(s, e)
    case Some((WorkspacePending(true), WorkspaceBody(_))) => true
    case _ => false
  }

  lemma ReceiveLeaves(s: State, id: nat, h: Http, busy: Queue, matches: Matching)
    requires Numbered(s.req) && id in s.req.tasks && s.change.current.Some?
    ensures Receive(s, id, h, busy, matches).change.current.None? <==> Switched(s, Completion(id, h))
  {
    hide Numbered, AcceptPage, LoadPastHiddenSessions, MutationDone, AcceptDetail, AcceptSnapshot, ReceiveCopy, Select,
         RefreshList, Receipt;
  }

  lemma EventLeaves(s: State, e: Event, busy: Queue, matches: Matching)
    requires Numbered(s.req) && !e.Completion? && s.change.current.Some?
    ensures Apply(s, e, busy, matches).change.current.None? <==>
            e.Dismiss? && s.change.current.value.progress == NotAccepted
  {
    hide Numbered, Submit, RefreshList, RefreshSelection, RefreshSnapshot, Navigate, Select, LoadPastHiddenSessions,
         ReviewCopy, ExecuteCopy, OpenSavedCopy, PollCopy, ToggleArchived, Mutate, CanSwitch;
  }

  /** In every run a change goes away exactly if it is dismissed, not having been accepted, or the workspace
      has been switched. */
  lemma ChangeGone(states: seq<State>, inputs: seq<Input>, first: Queue, matches: Matching, k: nat)
    requires Run(states, inputs, first, matches) && k < |inputs| && states[k].change.current.Some?
    ensures states[k + 1].change.current.None? <==>
            || (inputs[k].event.Dismiss? && states[k].change.current.value.progress == NotAccepted)
            || Switched(states[k], inputs[k].event)
  {
    var s, t, e, busy := states[k], states[k + 1], inputs[k].event, inputs[k].busy;
    assert Follows(s, inputs[k], t, matches);
    hide Run, Apply, Numbered, Honest;
    if e.Completion? {
      FollowsReceive(s, inputs[k], t, matches);
      ReceiveLeaves(s, e.request, e.answer, busy, matches);
    } else {
      EventLeaves(s, e, busy, matches);
    }
  }
}
