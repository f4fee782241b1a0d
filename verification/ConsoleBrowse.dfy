/** Browsing in the console of desktop/src/app.rs: selecting, navigating, and paging through lists. */
module ConsoleBrowse {
  import opened Prelude
  import opened SessionCopy
  import opened ConsoleData
  import opened ConsoleState

  // ---------------------------------------------------------------- steps

  function Cleared(sel: Selection): Selection {
    Selection(sel.generation + 1, None, None, None, None, None, None)
  }

  function ClearSelection(s: State): (t: State)
    ensures Aside(s, t)
  {
    s.(sel := Cleared(s.sel))
  }

  function RefreshList(s: State, append: bool, busy: Queue): (t: State)
    ensures Aside(s, t)
  {
    var generation := s.list.generation + 1;
    var r := Submit(s.req, ListTask(s.list.collection, if append then s.list.after else None),
                    ListPending(generation, append), busy);
    s.(req := r.0, list := s.list.(generation := generation, slot := r.1))
  }

  function LoadPastHiddenSessions(s: State, busy: Queue): (t: State)
    ensures Aside(s, t)
  {
    if s.list.collection.Sessions? && s.list.after.Some? && s.list.slot.None? then RefreshList(s, true, busy) else s
  }

  function RefreshSnapshot(s: State, busy: Queue): (t: State)
    ensures Aside(s, t)
  {
    if s.sel.snapshotPending.Some? || s.sel.id.None? then s
    else
      var r := Submit(s.req, SnapshotTask(s.sel.id.value), SnapshotPending(s.sel.generation), busy);
      s.(req := r.0, sel := s.sel.(snapshotPending := r.1))
  }

  function RefreshDetail(s: State, busy: Queue): (t: State)
    ensures Aside(s, t)
  {
    if s.sel.detailPending.Some? || s.sel.id.None? then s
    else
      var r := Submit(s.req, DetailTask(s.list.collection, s.sel.id.value), DetailPending(s.sel.generation), busy);
      s.(req := r.0, sel := s.sel.(detailPending := r.1))
  }

  function RefreshSelection(s: State, busy: Queue): (t: State)
    ensures Aside(s, t)
  {
    if s.list.collection.Sessions? then RefreshSnapshot(s, busy) else RefreshDetail(s, busy)
  }

  function RefreshCredentials(s: State, busy: Queue): (t: State)
    ensures Aside(s, t)
  {
    if s.sel.id.None? then s
    else s.(req := Submit(s.req, CredentialsTask(s.sel.id.value), CredentialsPending(s.sel.generation), busy).0)
  }

  function Emptied(s: State, target: Collection): State {
    s.(list := s.list.(collection := target, resources := [], after := None))
  }

  function Navigate(s: State, target: Collection, busy: Queue): (t: State)
    ensures Aside(s, t)
  {
    if s.list.collection == target then s else RefreshList(ClearSelection(Emptied(s, target)), false, busy)
  }

  function Chosen(s: State, id: Id): State {
    s.(sel := Cleared(s.sel).(id := Some(id), resource := Find(s.list.resources, id)))
  }

  function Select(s: State, id: Id, busy: Queue): (t: State)
    ensures Aside(s, t)
  {
    if s.sel.id == Some(id) then s else RefreshSelection(Chosen(s, id), busy)
  }

  function ToggleArchived(s: State, busy: Queue): (t: State)
    ensures Aside(s, t)
  {
    LoadPastHiddenSessions(ClearSelection(s.(ws := s.ws.(archivedSessions := !s.ws.archivedSessions))), busy)
  }

  /** The mutation buttons are enabled while no mutation is pending. */
  function Mutate(s: State, effect: Effect, busy: Queue): (t: State)
    ensures Aside(s, t)
  {
    if s.ws.mutationPending.Some? then s
    else
      var r := Submit(s.req, MutationTask(effect), MutationPending(effect), busy);
      s.(req := r.0, ws := s.ws.(mutationPending := r.1))
  }

  // ---------------------------------------------------------------- they keep the invariants

  lemma SelectionCleared(q: Requests, sel: Selection, id: Option<Id>, resource: Option<Resource>,
                         collection: Collection)
    requires Numbered(q) && SelectionBounded(q, sel.generation)
    requires resource.Some? ==> id == Some(resource.value.id)
    ensures var t := Cleared(sel).(id := id, resource := resource);
            SelectionBounded(q, t.generation) && SlotsExact(q, t, collection) && Fenced(t)
  {
  }

  lemma ReselectKeeps(s: State, id: Option<Id>, resource: Option<Resource>)
    requires Valid(s) && (resource.Some? ==> id == Some(resource.value.id))
    ensures Valid(s.(sel := Cleared(s.sel).(id := id, resource := resource)))
  {
    hide Numbered, SelectionBounded, SlotsExact, Fenced, ListBounded, ListExact, Chained, ChangesTracked, CopiesTracked,
         SwitchQuiet;
    SelectionCleared(s.req, s.sel, id, resource, s.list.collection);
  }

  /** A new page request outdates every earlier one. */
  lemma PageAsked(q: Requests, list: Listing, append: bool, busy: Queue)
    requires Numbered(q) && ListBounded(q, list.generation) && (append ==> list.after.Some?)
    ensures var r := Submit(q, ListTask(list.collection, if append then list.after else None),
                            ListPending(list.generation + 1, append), busy);
            && ListBounded(r.0, list.generation + 1)
            && ListExact(r.0, list.(generation := list.generation + 1, slot := r.1))
  {
  }

  /** The rest of the invariant, which a new page request leaves alone. */
  ghost predicate Unlisted(s: State) {
    && Numbered(s.req) && Selecting(s) && Fenced(s.sel) && Chained(s.list)
    && ChangesTracked(s.req, s.change) && CopiesTracked(s.req, s.copy) && SwitchQuiet(s.req, s.ws.slot, s.copy)
  }

  lemma ChainOnly(list: Listing, generation: nat, slot: Option<nat>)
    requires Chained(list)
    ensures Chained(list.(generation := generation, slot := slot))
  {
    hide Unbroken, DistinctIds;
  }

  lemma RefreshListKeeps(s: State, append: bool, busy: Queue)
    requires Unlisted(s) && ListBounded(s.req, s.list.generation) && (append ==> s.list.after.Some?)
    ensures Valid(RefreshList(s, append, busy))
  {
    hide Numbered, SelectionBounded, SlotsExact, Fenced, ListBounded, ListExact, Chained, ChangesTracked, CopiesTracked,
         SwitchQuiet;
    PageAsked(s.req, s.list, append, busy);
    var task, p := ListTask(s.list.collection, if append then s.list.after else None),
      ListPending(s.list.generation + 1, append);
    SubmitKeeps(s, task, p, busy);
    ChainOnly(s.list, s.list.generation + 1, Submit(s.req, task, p, busy).1);
  }

  lemma LoadPastKeeps(s: State, busy: Queue)
    requires Valid(s)
    ensures Valid(LoadPastHiddenSessions(s, busy))
  {
    hide Numbered, SelectionBounded, SlotsExact, Fenced, ListBounded, ListExact, Chained, ChangesTracked, CopiesTracked,
         SwitchQuiet;
    hide RefreshList;
    if s.list.collection.Sessions? && s.list.after.Some? && s.list.slot.None? {
      RefreshListKeeps(s, true, busy);
    }
  }

  /** A request for the selected resource that finds its slot free. */
  predicate Askable(sel: Selection, collection: Collection, task: Task, p: Pending) {
    && sel.id.Some?
    && match p
       case SnapshotPending(g) => g == sel.generation && task == SnapshotTask(sel.id.value) && sel.snapshotPending.None?
       case DetailPending(g) =>
         g == sel.generation && task == DetailTask(collection, sel.id.value) && sel.detailPending.None? &&
           !collection.Sessions?
       case CredentialsPending(g) => g == sel.generation && task == CredentialsTask(sel.id.value)
       case _ => false
  }

  function Asked(sel: Selection, p: Pending, id: Option<nat>): Selection {
    sel.(snapshotPending := if p.SnapshotPending? then id else sel.snapshotPending,
         detailPending := if p.DetailPending? then id else sel.detailPending)
  }

  lemma SnapshotSent(q: Requests, sel: Selection, collection: Collection, task: Task)
    requires Numbered(q) && SelectionBounded(q, sel.generation) && SlotsExact(q, sel, collection)
    requires Askable(sel, collection, task, SnapshotPending(sel.generation))
    ensures var p := SnapshotPending(sel.generation);
            var t := Asked(sel, p, Some(q.nextId + 1));
            SelectionBounded(Sent(q, task, p), t.generation) && SlotsExact(Sent(q, task, p), t, collection)
  {
    SentNumbered(q, task, SnapshotPending(sel.generation));
    hide Numbered;
  }

  lemma DetailSent(q: Requests, sel: Selection, collection: Collection, task: Task)
    requires Numbered(q) && SelectionBounded(q, sel.generation) && SlotsExact(q, sel, collection)
    requires Askable(sel, collection, task, DetailPending(sel.generation))
    ensures var p := DetailPending(sel.generation);
            var t := Asked(sel, p, Some(q.nextId + 1));
            SelectionBounded(Sent(q, task, p), t.generation) && SlotsExact(Sent(q, task, p), t, collection)
  {
    SentNumbered(q, task, DetailPending(sel.generation));
    hide Numbered;
  }

  lemma CredentialsSent(q: Requests, sel: Selection, collection: Collection, task: Task)
    requires Numbered(q) && SelectionBounded(q, sel.generation) && SlotsExact(q, sel, collection)
    requires Askable(sel, collection, task, CredentialsPending(sel.generation))
    ensures var p := CredentialsPending(sel.generation);
            var t := Asked(sel, p, Some(q.nextId + 1));
            SelectionBounded(Sent(q, task, p), t.generation) && SlotsExact(Sent(q, task, p), t, collection)
  {
    SentNumbered(q, task, CredentialsPending(sel.generation));
    hide Numbered;
  }

  lemma SelectionRefused(q: Requests, sel: Selection, collection: Collection, task: Task, p: Pending)
    requires SelectionBounded(q, sel.generation) && SlotsExact(q, sel, collection) && Askable(sel, collection, task, p)
    ensures var r, t := q.(nextId := q.nextId + 1), Asked(sel, p, None);
            SelectionBounded(r, t.generation) && SlotsExact(r, t, collection)
  {
  }

  lemma SelectionAsked(q: Requests, sel: Selection, collection: Collection, task: Task, p: Pending, busy: Queue)
    requires Numbered(q) && SelectionBounded(q, sel.generation) && SlotsExact(q, sel, collection)
    requires Askable(sel, collection, task, p)
    ensures var r := Submit(q, task, p, busy);
            var t := Asked(sel, p, r.1);
            SelectionBounded(r.0, t.generation) && SlotsExact(r.0, t, collection)
  {
    hide SlotsExact, SelectionBounded, Asked, Sent;
    if busy(q.nextId + 1) {
      SelectionRefused(q, sel, collection, task, p);
    } else {
      match p
      case SnapshotPending(_) => SnapshotSent(q, sel, collection, task);
      case DetailPending(_) => DetailSent(q, sel, collection, task);
      case CredentialsPending(_) => CredentialsSent(q, sel, collection, task);
    }
  }

  lemma SelectionAskedKeeps(s: State, task: Task, p: Pending, busy: Queue)
    requires Valid(s) && Askable(s.sel, s.list.collection, task, p)
    ensures var r := Submit(s.req, task, p, busy); Valid(s.(req := r.0, sel := Asked(s.sel, p, r.1)))
  {
    hide Numbered, SelectionBounded, SlotsExact, ListBounded, ListExact, Chained, ChangesTracked, CopiesTracked,
         SwitchQuiet;
    SelectionAsked(s.req, s.sel, s.list.collection, task, p, busy);
    SubmitKeeps(s, task, p, busy);
  }

  lemma RefreshSnapshotKeeps(s: State, busy: Queue)
    requires Valid(s)
    ensures Valid(RefreshSnapshot(s, busy)) && Valid(RefreshCredentials(s, busy))
  {
    hide Valid;
    if s.sel.id.Some? {
      if s.sel.snapshotPending.None? {
        SelectionAskedKeeps(s, SnapshotTask(s.sel.id.value), SnapshotPending(s.sel.generation), busy);
      }
      SelectionAskedKeeps(s, CredentialsTask(s.sel.id.value), CredentialsPending(s.sel.generation), busy);
    }
  }

  lemma RefreshSelectionKeeps(s: State, busy: Queue)
    requires Valid(s)
    ensures Valid(RefreshSelection(s, busy))
  {
    hide Valid;
    RefreshSnapshotKeeps(s, busy);
    if s.sel.id.Some? && s.sel.detailPending.None? && !s.list.collection.Sessions? {
      SelectionAskedKeeps(s, DetailTask(s.list.collection, s.sel.id.value), DetailPending(s.sel.generation), busy);
    }
  }

  lemma EmptiedKeeps(list: Listing, target: Collection)
    requires Chained(list)
    ensures Chained(list.(collection := target, resources := [], after := None))
  {
    hide Unbroken;
  }

  lemma NavigateKeeps(s: State, target: Collection, busy: Queue)
    requires Valid(s)
    ensures Valid(Navigate(s, target, busy))
  {
    hide Numbered, SelectionBounded, SlotsExact, Fenced, ListBounded, ListExact, Chained, ChangesTracked, CopiesTracked,
         SwitchQuiet;
    hide RefreshList;
    if s.list.collection != target {
      EmptiedKeeps(s.list, target);
      SelectionCleared(s.req, s.sel, None, None, target);
      RefreshListKeeps(ClearSelection(Emptied(s, target)), false, busy);
    }
  }

  lemma SelectKeeps(s: State, id: Id, busy: Queue)
    requires Valid(s)
    ensures Valid(Select(s, id, busy))
  {
    hide Valid, RefreshSelection;
    if s.sel.id != Some(id) {
      ReselectKeeps(s, Some(id), Find(s.list.resources, id));
      RefreshSelectionKeeps(Chosen(s, id), busy);
    }
  }

  lemma ClearSelectionKeeps(s: State)
    requires Valid(s)
    ensures Valid(ClearSelection(s))
  {
    hide Valid;
    ReselectKeeps(s, None, None);
  }

  /** What the workspace window remembers is free, but for the slot of its request. */
  lemma WorkspaceFree(s: State, ws: Workspace)
    requires Valid(s) && ws.slot == s.ws.slot
    ensures Valid(s.(ws := ws))
  {
    hide Numbered, SelectionBounded, SlotsExact, Fenced, ListBounded, ListExact, Chained, ChangesTracked, CopiesTracked,
         SwitchQuiet;
  }

  lemma ToggleArchivedKeeps(s: State, busy: Queue)
    requires Valid(s)
    ensures Valid(ToggleArchived(s, busy))
  {
    hide Valid, LoadPastHiddenSessions;
    var ws := s.ws.(archivedSessions := !s.ws.archivedSessions);
    WorkspaceFree(s, ws);
    ClearSelectionKeeps(s.(ws := ws));
    LoadPastKeeps(ClearSelection(s.(ws := ws)), busy);
  }

  lemma MutateKeeps(s: State, effect: Effect, busy: Queue)
    requires Valid(s)
    ensures Valid(Mutate(s, effect, busy))
  {
    hide Numbered, SelectionBounded, SlotsExact, Fenced, ListBounded, ListExact, Chained, ChangesTracked, CopiesTracked,
         SwitchQuiet;
    if s.ws.mutationPending.None? {
      SubmitKeeps(s, MutationTask(effect), MutationPending(effect), busy);
    }
  }
}
