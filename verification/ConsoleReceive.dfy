/** Completions of browsing requests in the console of desktop/src/app.rs. */
module ConsoleReceive {
  import opened Prelude
  import opened SessionCopy
  import opened ConsoleData
  import opened ConsoleState
  import opened ConsoleBrowse

  // ---------------------------------------------------------------- steps

  /** A request is answered: for good, if the server definitively refused it. */
  function Answered(q: Requests, id: nat, h: Http): Requests
    requires id in q.tasks
  {
    q.(pending := q.pending - {id}, completed := q.completed + {id},
       rejected := if Local(q.tasks[id]) && Definitive(h) then q.rejected + {id} else q.rejected)
  }

  function Freed(slot: Option<nat>, id: nat): Option<nat> {
    if slot == Some(id) then None else slot
  }

  /** The slots that name the request are free again. */
  function Taken(s: State, id: nat, h: Http): State
    requires id in s.req.tasks
  {
    s.(req := Answered(s.req, id, h),
       sel := s.sel.(detailPending := Freed(s.sel.detailPending, id),
                     snapshotPending := Freed(s.sel.snapshotPending, id)),
       list := s.list.(slot := Freed(s.list.slot, id)),
       ws := s.ws.(mutationPending := Freed(s.ws.mutationPending, id)))
  }

  function AcceptPage(list: Listing, append: bool, page: Page, cursor: Option<Id>): Listing {
    var after := NextCursor(page);
    if list.collection.Sessions? then
      var index := (if append then list.sessionIndex else {}) + Ids(page.data);
      var rows := if append then UpsertAll(list.resources, page.data)
                  else page.data + Retain(list.resources, index, false);
      list.(after := after, sessionIndex := index,
            resources := if after.None? then Retain(rows, index, true) else rows,
            chain := (if append then list.chain else []) + [Link(cursor, page)])
    else
      list.(after := after, resources := if append then AddMissing(list.resources, page.data) else page.data)
  }

  function AcceptDetail(s: State, resource: Resource, busy: Queue): (r: State)
    ensures Aside(s, r)
  {
    var t := s.(sel := s.sel.(resource := Some(resource)));
    if s.list.collection.Vaults? then RefreshCredentials(t, busy) else t
  }

  function AcceptSnapshot(s: State, snapshot: Snapshot): (r: State)
    ensures Aside(s, r)
  {
    s.(sel := s.sel.(resource := Some(snapshot.session), snapshot := Some(snapshot)),
       list := s.list.(resources := Replace(s.list.resources, snapshot.session.id, snapshot.session)))
  }

  function BodyId(body: Body): Option<Id> {
    if body.ResourceBody? then Some(body.resource.id) else None
  }

  function Edit(s: State, collection: Collection, busy: Queue): (r: State)
    ensures Aside(s, r)
  {
    var t := if collection.Sessions? then s.(ws := s.ws.(archivedSessions := false)) else s;
    if t.list.collection != collection then Navigate(t, collection, busy) else RefreshList(t, false, busy)
  }

  function Reopen(s: State, id: Option<Id>, busy: Queue): (r: State)
    ensures Aside(s, r)
  {
    if id.None? then s else if s.sel.id == id then RefreshSelection(s, busy) else Select(s, id.value, busy)
  }

  function Relabel(sel: Selection, resource: Resource): Selection {
    sel.(generation := sel.generation + 1, snapshotPending := None, resource := Some(resource),
         snapshot := if sel.snapshot.Some? then Some(sel.snapshot.value.(session := resource)) else None)
  }

  function RowReplaced(s: State, id: Id, body: Body): (r: State)
    ensures Aside(s, r)
  {
    if body.ResourceBody? then s.(list := s.list.(resources := Replace(s.list.resources, id, body.resource))) else s
  }

  function DeleteDone(s: State, collection: Collection, id: Id, busy: Queue): (r: State)
    ensures Aside(s, r)
  {
    if s.list.collection != collection then s
    else RefreshList(if s.sel.id == Some(id) then ClearSelection(s) else s, false, busy)
  }

  function ArchiveDone(s: State, id: Id, archived: bool, body: Body, busy: Queue): (r: State)
    ensures Aside(s, r)
  {
    if !s.list.collection.Sessions? then s
    else
      var t := RowReplaced(s, id, body);
      RefreshList(if t.sel.id == Some(id) && t.ws.archivedSessions != archived then ClearSelection(t) else t, false,
                  busy)
  }

  function RelabelDone(s: State, id: Id, body: Body, busy: Queue): (r: State)
    ensures Aside(s, r)
  {
    if !s.list.collection.Sessions? then s
    else
      var t := RowReplaced(s, id, body);
      RefreshList(if body.ResourceBody? && t.sel.id == Some(id) then t.(sel := Relabel(t.sel, body.resource)) else t,
                  false, busy)
  }

  /** `ConsoleApp::mutation_done`. */
  function MutationDone(s: State, effect: Effect, body: Body, busy: Queue): (r: State)
    ensures Aside(s, r)
  {
    match effect
    case Edited(collection, selectId) =>
      Reopen(Edit(s, collection, busy), if selectId.Some? then selectId else BodyId(body), busy)
    case Posted(sessionId) => if s.sel.id == Some(sessionId) then RefreshSnapshot(s, busy) else s
    case Deleted(collection, id) => DeleteDone(s, collection, id, busy)
    case Archived(id, archived) => ArchiveDone(s, id, archived, body, busy)
    case Relabeled(id) => RelabelDone(s, id, body, busy)
    case CredentialGone(vaultId) =>
      if s.list.collection.Vaults? && s.sel.id == Some(vaultId) then RefreshCredentials(s, busy) else s
  }

  predicate Browsing(p: Pending) {
    p.ListPending? || ForSelection(p) || p.MutationPending? || p.StatusPending?
  }

  predicate Current(s: State, p: Pending) {
    if p.ListPending? then p.generation == s.list.generation
    else if ForSelection(p) then p.generation == s.sel.generation
    else if p.ChangePending? || p.StatusPending? then p.generation == s.change.generation
    else true
  }

  /** What a body received for a current browsing request changes. */
  function Accept(s: State, task: Task, p: Pending, body: Body, busy: Queue): State
    requires Browsing(p) && Fits(p, task)
  {
    match (p, body)
    case (ListPending(_, append), PageBody(page)) =>
      LoadPastHiddenSessions(s.(list := AcceptPage(s.list, append, page, task.after)), busy)
    case (DetailPending(_), ResourceBody(resource)) => AcceptDetail(s, resource, busy)
    case (SnapshotPending(_), SnapshotBody(snapshot)) => AcceptSnapshot(s, snapshot)
    case (CredentialsPending(_), CredentialsBody(vaultId)) => s.(sel := s.sel.(credentialsOf := Some(vaultId)))
    case (MutationPending(effect), _) => MutationDone(s, effect, body, busy)
    case _ => s
  }

  /** `ConsoleApp::receive` for a browsing request. */
  function ReceiveBrowsing(s: State, id: nat, h: Http, busy: Queue): State
    requires Numbered(s.req) && id in s.req.pending && Browsing(s.req.pending[id])
  {
    var task, p := s.req.tasks[id], s.req.pending[id];
    var t, reply := Taken(s, id, h), ReplyTo(task, h);
    if Current(s, p) && reply.Good? then Accept(t, task, p, reply.body, busy) else t
  }

  // ---------------------------------------------------------------- a request is answered

  lemma AnsweredKeepsSelection(q: Requests, id: nat, h: Http, sel: Selection, collection: Collection)
    requires Numbered(q) && id in q.tasks && SelectionBounded(q, sel.generation) && SlotsExact(q, sel, collection)
    ensures var r := Answered(q, id, h);
            && Numbered(r) && SelectionBounded(r, sel.generation)
            && SlotsExact(r, sel.(detailPending := Freed(sel.detailPending, id),
                                  snapshotPending := Freed(sel.snapshotPending, id)), collection)
  {
  }

  lemma AnsweredKeepsList(q: Requests, id: nat, h: Http, list: Listing)
    requires Numbered(q) && id in q.tasks && ListBounded(q, list.generation) && ListExact(q, list)
    ensures ListBounded(Answered(q, id, h), list.generation)
    ensures ListExact(Answered(q, id, h), list.(slot := Freed(list.slot, id)))
  {
  }

  /** Rejections only leave fewer changes that may have been accepted. */
  lemma RejectionsSettle(q: Requests, r: Requests, x: nat)
    requires q.tasks == r.tasks && q.rejected <= r.rejected
    ensures MaybeAccepted(r, x) ==> MaybeAccepted(q, x)
  {
    if MaybeAccepted(r, x) {
      var i: nat :| Submits(r, i, x) && i !in r.rejected;
      assert Submits(q, i, x);
    }
  }

  lemma Unanswered(q: Requests, id: nat)
    requires Numbered(q) && id in q.pending
    ensures id in q.tasks && id !in q.completed
  {
  }

  lemma AnswersStay(q: Requests, r: Requests, x: nat)
    requires q.tasks == r.tasks && q.completed <= r.completed
    requires forall i :: i in r.rejected && i !in q.rejected ==> i !in q.completed
    ensures AnsweredUnrefused(q, x) ==> AnsweredUnrefused(r, x)
  {
    if AnsweredUnrefused(q, x) {
      var i: nat :| Submits(q, i, x) && i in q.completed && i !in q.rejected;
      assert Submits(r, i, x);
    }
  }

  lemma AnsweredKeepsChanges(q: Requests, id: nat, h: Http, c: Changes)
    requires Numbered(q) && id in q.tasks && id !in q.completed && ChangesTracked(q, c)
    requires id in q.pending ==> !q.pending[id].ChangePending?
    ensures ChangesTracked(Answered(q, id, h), c)
  {
    var r := Answered(q, id, h);
    forall x: nat
      ensures MaybeAccepted(r, x) ==> MaybeAccepted(q, x)
      ensures AnsweredUnrefused(q, x) ==> AnsweredUnrefused(r, x)
    {
      RejectionsSettle(q, r, x);
      AnswersStay(q, r, x);
    }
    assert forall i: nat, x: nat :: Submits(r, i, x) <==> Submits(q, i, x);
    hide MaybeAccepted, AnsweredUnrefused, Submits;
  }

  lemma AnsweredKeepsCopies(q: Requests, id: nat, h: Http, slot: Option<nat>, c: Copies)
    requires Numbered(q) && id in q.tasks && CopiesTracked(q, c) && SwitchQuiet(q, slot, c)
    requires id in q.pending ==> !ForCopies(q.pending[id]) && !q.pending[id].WorkspacePending?
    ensures CopiesTracked(Answered(q, id, h), c) && SwitchQuiet(Answered(q, id, h), slot, c)
  {
  }

  lemma TakenKeeps(s: State, id: nat, h: Http)
    requires Valid(s) && id in s.req.tasks && id !in s.req.completed
    requires id in s.req.pending ==> Browsing(s.req.pending[id])
    ensures Valid(Taken(s, id, h))
  {
    hide Numbered, SelectionBounded, SlotsExact, ListBounded, ListExact, ChangesTracked, CopiesTracked, SwitchQuiet,
         Answered;
    hide Unbroken, DistinctIds;
    AnsweredKeepsSelection(s.req, id, h, s.sel, s.list.collection);
    AnsweredKeepsList(s.req, id, h, s.list);
    AnsweredKeepsChanges(s.req, id, h, s.change);
    AnsweredKeepsCopies(s.req, id, h, s.ws.slot, s.copy);
  }

  // ---------------------------------------------------------------- what arrives is accepted

  /** The listed ids when the last page of Sessions arrives: those of the chain, each once. */
  predicate EndsChain(list: Listing) {
    list.collection.Sessions? && list.after.None? ==>
      Ids(list.resources) == ChainIds(list.chain) && DistinctIds(list.resources) && Unbroken(list.chain)
  }

  lemma FirstPage(page: Page)
    ensures Unbroken([Link(None, page)]) && ChainIds([Link(None, page)]) == Ids(page.data)
  {
    ChainGrows([], Link(None, page));
    assert [] + [Link(None, page)] == [Link(None, page)];
  }

  lemma PageRows(rows: seq<Resource>, page: seq<Resource>, index: set<Id>)
    requires DistinctIds(rows) && DistinctIds(page) && Ids(page) <= index
    ensures DistinctIds(page + Retain(rows, index, false))
    ensures Ids(page) <= Ids(page + Retain(rows, index, false))
  {
    hide DistinctIds, Ids;
    var kept := Retain(rows, index, false);
    assert Ids(page) !! Ids(kept);
    DistinctConcat(page, kept);
    IdsConcat(page, kept);
  }

  lemma AcceptPageKeeps(list: Listing, append: bool, page: Page)
    requires Chained(list) && DistinctIds(page.data) && (append ==> list.after.Some?)
    ensures var t := AcceptPage(list, append, page, if append then list.after else None);
            Chained(t) &&
              (t.collection.Sessions? ==>
               && EndsChain(t) && t.sessionIndex == ChainIds(t.chain)
               && if Ends(page) then t.after == None else Continues(page, t.after))
  {
    NextContinues(page);
    hide DistinctIds, Ids, Unbroken, NextCursor, ChainIds, Ends, Continues;
    var cursor := if append then list.after else None;
    if list.collection.Sessions? {
      if append {
        ChainGrows(list.chain, Link(cursor, page));
      } else {
        FirstPage(page);
        assert [] + [Link(cursor, page)] == [Link(cursor, page)] && {} + Ids(page.data) == Ids(page.data);
        PageRows(list.resources, page.data, Ids(page.data));
      }
    }
  }

  lemma PageAccepted(s: State, append: bool, page: Page, busy: Queue)
    requires Valid(s) && DistinctIds(page.data) && (append ==> s.list.after.Some?) && s.list.slot.None?
    ensures var list := AcceptPage(s.list, append, page, if append then s.list.after else None);
            Valid(LoadPastHiddenSessions(s.(list := list), busy))
  {
    var t := s.(list := AcceptPage(s.list, append, page, if append then s.list.after else None));
    AcceptPageKeeps(s.list, append, page);
    assert Valid(t) by {
      hide Numbered, SelectionBounded, SlotsExact, Fenced, ListBounded, Chained, ChangesTracked, CopiesTracked,
           SwitchQuiet;
      hide UpsertAll, Retain, AddMissing, Ids, DistinctIds, NextCursor;
    }
    hide Valid;
    LoadPastKeeps(t, busy);
  }

  /** What is shown is of the selected resource. */
  lemma ShownKeeps(s: State, sel: Selection)
    requires Valid(s) && Fenced(sel) && sel.generation == s.sel.generation && sel.id == s.sel.id
    requires sel.snapshotPending == s.sel.snapshotPending && sel.detailPending == s.sel.detailPending
    ensures Valid(s.(sel := sel))
  {
    hide Numbered, SelectionBounded, Fenced, ListBounded, ListExact, Chained, ChangesTracked, CopiesTracked,
         SwitchQuiet;
  }

  lemma RowKeeps(s: State, id: Id, row: Resource)
    requires Valid(s) && row.id == id
    ensures Valid(s.(list := s.list.(resources := Replace(s.list.resources, id, row))))
  {
    hide Numbered, SelectionBounded, SlotsExact, Fenced, ListBounded, ChangesTracked, CopiesTracked, SwitchQuiet;
    hide Unbroken, DistinctIds, Ids, Replace;
  }

  lemma SnapshotAccepted(s: State, snapshot: Snapshot)
    requires Valid(s) && s.sel.id == Some(snapshot.session.id)
    ensures Valid(AcceptSnapshot(s, snapshot))
  {
    var sel := s.sel.(resource := Some(snapshot.session), snapshot := Some(snapshot));
    assert Fenced(sel);
    hide Valid, Fenced;
    ShownKeeps(s, sel);
    RowKeeps(s.(sel := sel), snapshot.session.id, snapshot.session);
  }

  lemma DetailAccepted(s: State, resource: Resource, busy: Queue)
    requires Valid(s) && s.sel.id == Some(resource.id)
    ensures Valid(AcceptDetail(s, resource, busy))
  {
    var sel := s.sel.(resource := Some(resource));
    assert Fenced(sel);
    hide Valid, Fenced, RefreshCredentials;
    ShownKeeps(s, sel);
    RefreshSnapshotKeeps(s.(sel := sel), busy);
  }

  // ---------------------------------------------------------------- a mutation is done

  lemma ValidUnlisted(s: State)
    requires Valid(s)
    ensures Unlisted(s) && ListBounded(s.req, s.list.generation)
  {
    hide Numbered, SelectionBounded, SlotsExact, Fenced, ListBounded, ListExact, Chained, ChangesTracked, CopiesTracked,
         SwitchQuiet;
  }

  lemma ListRefreshed(s: State, busy: Queue)
    requires Valid(s)
    ensures Valid(RefreshList(s, false, busy))
  {
    hide Valid, Unlisted, ListBounded, RefreshList;
    ValidUnlisted(s);
    RefreshListKeeps(s, false, busy);
  }

  lemma EditKeeps(s: State, collection: Collection, id: Option<Id>, busy: Queue)
    requires Valid(s)
    ensures Valid(Reopen(Edit(s, collection, busy), id, busy))
  {
    hide Valid, Navigate, RefreshList, RefreshSelection, Select;
    var ws := s.ws.(archivedSessions := false);
    var t := if collection.Sessions? then s.(ws := ws) else s;
    WorkspaceFree(s, ws);
    NavigateKeeps(t, collection, busy);
    ListRefreshed(t, busy);
    var u := Edit(s, collection, busy);
    RefreshSelectionKeeps(u, busy);
    if id.Some? {
      SelectKeeps(u, id.value, busy);
    }
  }

  /** A relabeled session starts a new selection generation. */
  lemma RelabelKeeps(s: State, resource: Resource)
    requires Valid(s) && s.sel.id == Some(resource.id) && s.list.collection.Sessions?
    ensures Valid(s.(sel := Relabel(s.sel, resource)))
  {
    hide ListBounded, ListExact, Chained, ChangesTracked, CopiesTracked, SwitchQuiet;
  }

  lemma MutationDoneKeeps(s: State, effect: Effect, body: Body, busy: Queue)
    requires Valid(s)
    requires body.ResourceBody? && effect.Archived? ==> body.resource.id == effect.id
    requires body.ResourceBody? && effect.Relabeled? ==> body.resource.id == effect.id
    ensures Valid(MutationDone(s, effect, body, busy))
  {
    hide Valid, RefreshList, RefreshSnapshot, RefreshCredentials, ClearSelection, Edit, Reopen, Replace, Relabel;
    match effect
    case Edited(collection, selectId) =>
      EditKeeps(s, collection, if selectId.Some? then selectId else BodyId(body), busy);
    case Posted(_) =>
      RefreshSnapshotKeeps(s, busy);
    case Deleted(_, _) =>
      ClearSelectionKeeps(s);
      ListRefreshed(ClearSelection(s), busy);
      ListRefreshed(s, busy);
    case Archived(id, _) =>
      if body.ResourceBody? {
        RowKeeps(s, id, body.resource);
      }
      var t := RowReplaced(s, id, body);
      ClearSelectionKeeps(t);
      ListRefreshed(ClearSelection(t), busy);
      ListRefreshed(t, busy);
    case Relabeled(id) =>
      if body.ResourceBody? {
        RowKeeps(s, id, body.resource);
      }
      var t := RowReplaced(s, id, body);
      if s.list.collection.Sessions? {
        if body.ResourceBody? && t.sel.id == Some(id) {
          RelabelKeeps(t, body.resource);
          ListRefreshed(t.(sel := Relabel(t.sel, body.resource)), busy);
        }
        ListRefreshed(t, busy);
      }
    case CredentialGone(_) =>
      RefreshSnapshotKeeps(s, busy);
  }

  // ---------------------------------------------------------------- receiving

  /** A current request asked for what is selected and listed now. */
  lemma CurrentAsks(s: State, id: nat)
    requires Valid(s) && id in s.req.pending && Current(s, s.req.pending[id])
    ensures var p, task := s.req.pending[id], s.req.tasks[id];
            && (p.SnapshotPending? ==> s.sel.id.Some? && task == SnapshotTask(s.sel.id.value))
            && (p.DetailPending? ==> s.sel.id.Some? && task == DetailTask(s.list.collection, s.sel.id.value))
            && (p.CredentialsPending? ==> s.sel.id.Some? && task == CredentialsTask(s.sel.id.value))
            && (p.ListPending? ==>
                  && s.list.slot == Some(id) && (p.append ==> s.list.after.Some?)
                  && task == ListTask(s.list.collection, if p.append then s.list.after else None))
  {
    hide Fenced, Chained, ChangesTracked, CopiesTracked, SwitchQuiet, SelectionBounded, ListBounded;
  }

  lemma FencedNow(s: State)
    requires Valid(s)
    ensures Fenced(s.sel) && Numbered(s.req)
  {
    hide Numbered, SelectionBounded, SlotsExact, ListBounded, ListExact, Chained, ChangesTracked, CopiesTracked,
         SwitchQuiet;
  }

  lemma AcceptKeeps(s: State, id: nat, h: Http, body: Body, busy: Queue)
    requires Valid(s) && id in s.req.pending && Browsing(s.req.pending[id]) && Current(s, s.req.pending[id])
    requires Honest(s.req.tasks[id], h) && ReplyTo(s.req.tasks[id], h) == Good(body)
    ensures Valid(Accept(Taken(s, id, h), s.req.tasks[id], s.req.pending[id], body, busy))
  {
    var task, p, t := s.req.tasks[id], s.req.pending[id], Taken(s, id, h);
    CurrentAsks(s, id);
    TakenKeeps(s, id, h);
    assert h.Answer? && h.body == Some(body);
    hide Valid, Numbered, LoadPastHiddenSessions, AcceptPage, AcceptDetail, AcceptSnapshot, MutationDone, Answered;
    match p
    case ListPending(_, append) =>
      if body.PageBody? {
        PageAccepted(t, append, body.page, busy);
      }
    case DetailPending(_) =>
      if body.ResourceBody? {
        DetailAccepted(t, body.resource, busy);
      }
    case SnapshotPending(_) =>
      if body.SnapshotBody? {
        SnapshotAccepted(t, body.snapshot);
      }
    case CredentialsPending(_) =>
      if body.CredentialsBody? {
        FencedNow(t);
        ShownKeeps(t, t.sel.(credentialsOf := Some(body.vaultId)));
      }
    case MutationPending(effect) =>
      MutationDoneKeeps(t, effect, body, busy);
    case StatusPending(_) =>
  }

  lemma ReceiveBrowsingKeeps(s: State, id: nat, h: Http, busy: Queue)
    requires Valid(s) && id in s.req.pending && Browsing(s.req.pending[id]) && Honest(s.req.tasks[id], h)
    ensures Valid(ReceiveBrowsing(s, id, h, busy))
  {
    hide Valid, Accept, Taken;
    FencedNow(s);
    TakenKeeps(s, id, h);
    var reply := ReplyTo(s.req.tasks[id], h);
    if Current(s, s.req.pending[id]) && reply.Good? {
      AcceptKeeps(s, id, h, reply.body, busy);
    }
  }
}
