/** The values of the console's request protocol (desktop/src/app.rs, desktop/src/api.rs): requests,
    replies, and the lists of resources that pages build up. */
module ConsoleData {
  import opened Prelude
  import opened SessionCopy

  // ---------------------------------------------------------------- values

  type Id = string

  datatype Collection = Sessions | Agents | Templates | Vaults

  datatype Resource = Resource(id: Id, fields: string)

  datatype Snapshot = Snapshot(session: Resource, items: string)

  datatype Page = Page(data: seq<Resource>, hasMore: bool)

  datatype RuntimeAction = Setup | Rollback

  datatype ChangeState = Queued | Working | Done | AwaitingRestart | Broken {
    predicate Active() {
      Queued? || Working?
    }
  }

  datatype Progress = Submitting | Unconfirmed | NotAccepted | Accepted(state: ChangeState)

  datatype RuntimeChange = RuntimeChange(
    id: nat, action: RuntimeAction, progress: Progress, pending: Option<nat>, failed: bool)
  {
    predicate Active() {
      progress.Submitting? || progress.Unconfirmed? || (progress.Accepted? && progress.state.Active())
    }
  }

  datatype Effect =
    | Edited(collection: Collection, selectId: Option<Id>)
    | Posted(sessionId: Id)
    | Deleted(collection: Collection, id: Id)
    | Archived(id: Id, archived: bool)
    | Relabeled(id: Id)
    | CredentialGone(vaultId: Id)

  /** What a request asks of the server. */
  datatype Task =
    | ListTask(collection: Collection, after: Option<Id>)
    | DetailTask(collection: Collection, id: Id)
    | SnapshotTask(id: Id)
    | CredentialsTask(vaultId: Id)
    | MutationTask(effect: Effect)
    | WorkspaceTask(connecting: bool)
    | SubmitChange(change: nat, action: RuntimeAction)
    | ReadChange(change: nat)
    | ReadStatus
    | ReviewTask(review: CopyReview)
    | ReadPlan(plan: nat)
    | ExecutePlan(plan: nat)

  /** What the console remembers about a request until its completion. */
  datatype Pending =
    | ListPending(generation: nat, append: bool)
    | DetailPending(generation: nat)
    | SnapshotPending(generation: nat)
    | CredentialsPending(generation: nat)
    | MutationPending(effect: Effect)
    | WorkspacePending(switching: bool)
    | ChangePending(generation: nat, change: nat)
    | StatusPending(generation: nat)
    | ReviewPending(review: CopyReview)
    | PlanPending(plan: nat, execute: bool)

  /** The JSON bodies the console can read. */
  datatype Body =
    | PageBody(page: Page)
    | ResourceBody(resource: Resource)
    | SnapshotBody(snapshot: Snapshot)
    | CredentialsBody(vaultId: Id)
    | WorkspaceBody(local: bool)
    | ReceiptBody(change: nat, action: RuntimeAction, state: ChangeState)
    | PlanBody(plan: TransferPlan)
    | OtherBody

  /** What came of sending a request: no answer, or a status with a body if it could be read. */
  datatype Http = NoAnswer | Answer(status: nat, body: Option<Body>)

  datatype Reply = Good(body: Body) | Rejected(status: nat) | Bad

  predicate Success(status: nat) {
    200 <= status < 300
  }

  predicate ClientError(status: nat) {
    400 <= status < 500
  }

  /** The server refused the request for good: a client error other than a timeout. */
  predicate Definitive(h: Http) {
    h.Answer? && ClientError(h.status) && h.status != 408
  }

  /** How a worker turns an answer to a local request into a completion. */
  function LocalReply(h: Http): Reply {
    if h.NoAnswer? then Bad
    else if Success(h.status) then (if h.body.Some? then Good(h.body.value) else Bad)
    else if ClientError(h.status) && h.status != 408 then Rejected(h.status)
    else Bad
  }

  /** The other requests only succeed or fail. */
  function PlainReply(h: Http): Reply {
    if h.Answer? && Success(h.status) && h.body.Some? then Good(h.body.value) else Bad
  }

  predicate Local(task: Task) {
    task.SubmitChange? || task.ReadChange? || task.ReadStatus? || task.ReviewTask? || task.ReadPlan? ||
      task.ExecutePlan?
  }

  function ReplyTo(task: Task, h: Http): Reply {
    if Local(task) then LocalReply(h) else PlainReply(h)
  }

  // ---------------------------------------------------------------- collections of resources

  function Ids(rows: seq<Resource>): set<Id> {
    set i | 0 <= i < |rows| :: rows[i].id
  }

  predicate DistinctIds(rows: seq<Resource>) {
    forall i, j :: 0 <= i < j < |rows| ==> rows[i].id != rows[j].id
  }

  function NextCursor(page: Page): Option<Id> {
    if page.hasMore && page.data != [] then Some(page.data[|page.data| - 1].id) else None
  }

  /** Replaces the row with the new row's id, or appends it. */
  function Upsert(rows: seq<Resource>, row: Resource): (r: seq<Resource>)
    ensures Ids(r) == Ids(rows) + {row.id}
    ensures DistinctIds(rows) ==> DistinctIds(r)
  {
    if rows == [] then
      assert [row][0].id == row.id;
      [row]
    else if rows[0].id == row.id then
      IdsOfCons(rows[0], rows[1..]);
      IdsOfCons(row, rows[1..]);
      assert rows == [rows[0]] + rows[1..];
      assert forall i :: 0 <= i < |rows| ==> ([row] + rows[1..])[i].id == rows[i].id;
      [row] + rows[1..]
    else
      var rest := Upsert(rows[1..], row);
      IdsOfCons(rows[0], rows[1..]);
      IdsOfCons(rows[0], rest);
      assert rows == [rows[0]] + rows[1..];
      DistinctCons(rows[0], rows[1..]);
      DistinctCons(rows[0], rest);
      [rows[0]] + rest
  }

  lemma IdsOfCons(row: Resource, rows: seq<Resource>)
    ensures Ids([row] + rows) == {row.id} + Ids(rows)
  {
    var all := [row] + rows;
    assert all[0] == row && forall i :: 0 <= i < |rows| ==> all[i + 1] == rows[i];
  }

  function UpsertAll(rows: seq<Resource>, page: seq<Resource>): (r: seq<Resource>)
    ensures Ids(r) == Ids(rows) + Ids(page)
    ensures DistinctIds(rows) ==> DistinctIds(r)
    decreases page
  {
    if page == [] then rows
    else
      IdsOfCons(page[0], page[1..]);
      assert page == [page[0]] + page[1..];
      UpsertAll(Upsert(rows, page[0]), page[1..])
  }

  /** Outside Sessions a row already listed is kept as it is. */
  function AddMissing(rows: seq<Resource>, page: seq<Resource>): (r: seq<Resource>)
    ensures DistinctIds(rows) ==> DistinctIds(r)
    decreases page
  {
    if page == [] then rows
    else if page[0].id in Ids(rows) then AddMissing(rows, page[1..])
    else
      assert DistinctIds([page[0]]);
      assert DistinctIds(rows) ==> DistinctIds(rows + [page[0]]) by {
        if DistinctIds(rows) {
          DistinctConcat(rows, [page[0]]);
        }
      }
      AddMissing(rows + [page[0]], page[1..])
  }

  /** Puts the new row in the place of the row with this id, if there is one. */
  function Replace(rows: seq<Resource>, id: Id, row: Resource): (r: seq<Resource>)
    ensures row.id == id ==> Ids(r) == Ids(rows)
    ensures row.id == id && DistinctIds(rows) ==> DistinctIds(r)
  {
    if rows == [] then []
    else
      IdsOfCons(rows[0], rows[1..]);
      assert rows == [rows[0]] + rows[1..];
      DistinctCons(rows[0], rows[1..]);
      if rows[0].id == id then
        IdsOfCons(row, rows[1..]);
        DistinctCons(row, rows[1..]);
        [row] + rows[1..]
      else
        var rest := Replace(rows[1..], id, row);
        IdsOfCons(rows[0], rest);
        DistinctCons(rows[0], rest);
        [rows[0]] + rest
  }

  function Find(rows: seq<Resource>, id: Id): (r: Option<Resource>)
    ensures r.Some? ==> r.value.id == id && r.value in rows
    ensures r.None? ==> id !in Ids(rows)
  {
    if rows == [] then None
    else
      IdsOfCons(rows[0], rows[1..]);
      assert rows == [rows[0]] + rows[1..];
      if rows[0].id == id then Some(rows[0]) else Find(rows[1..], id)
  }

  /** The rows whose ids are in the index, or, with `keep` false, those that are not. */
  function Retain(rows: seq<Resource>, index: set<Id>, keep: bool): (r: seq<Resource>)
    ensures Ids(r) == set id | id in Ids(rows) && (id in index) == keep
    ensures DistinctIds(rows) ==> DistinctIds(r)
  {
    if rows == [] then []
    else
      var rest := Retain(rows[1..], index, keep);
      IdsOfCons(rows[0], rows[1..]);
      IdsOfCons(rows[0], rest);
      assert rows == [rows[0]] + rows[1..];
      DistinctCons(rows[0], rows[1..]);
      DistinctCons(rows[0], rest);
      if (rows[0].id in index) == keep then [rows[0]] + rest else rest
  }

  lemma DistinctCons(row: Resource, rows: seq<Resource>)
    ensures DistinctIds([row] + rows) <==> DistinctIds(rows) && row.id !in Ids(rows)
  {
    var all := [row] + rows;
    assert all[0] == row && forall i :: 0 <= i < |rows| ==> all[i + 1] == rows[i];
    if DistinctIds(all) {
      assert forall i :: 0 <= i < |rows| ==> rows[i].id == all[i + 1].id != row.id;
    } else if DistinctIds(rows) {
      assert forall i :: 0 <= i < |rows| ==> rows[i].id in Ids(rows);
    }
  }

  lemma DistinctConcat(a: seq<Resource>, b: seq<Resource>)
    requires DistinctIds(a) && DistinctIds(b) && Ids(a) !! Ids(b)
    ensures DistinctIds(a + b)
  {
    assert forall i :: 0 <= i < |a| ==> a[i].id in Ids(a);
    assert forall i :: 0 <= i < |b| ==> b[i].id in Ids(b);
  }

  lemma IdsConcat(a: seq<Resource>, b: seq<Resource>)
    ensures Ids(a + b) == Ids(a) + Ids(b)
  {
    assert forall i :: 0 <= i < |a| ==> (a + b)[i] == a[i];
    assert forall i :: 0 <= i < |b| ==> (a + b)[|a| + i] == b[i];
  }

  // ---------------------------------------------------------------- the page chain

  /** One accepted page of Sessions and the cursor its request carried. */
  datatype Link = Link(cursor: Option<Id>, page: Page)

  function ChainIds(chain: seq<Link>): set<Id> {
    if chain == [] then {} else ChainIds(chain[..|chain| - 1]) + Ids(chain[|chain| - 1].page.data)
  }

  /** There is more behind the page, and the cursor stands at its last row. */
  predicate Continues(page: Page, cursor: Option<Id>) {
    page.hasMore && page.data != [] && cursor == Some(page.data[|page.data| - 1].id)
  }

  /** The server says that nothing is behind the page, or gives no row to go on from. */
  predicate Ends(page: Page) {
    !page.hasMore || page.data == []
  }

  /** The first page was asked for without a cursor, each later one from the last row of the one before. */
  predicate Unbroken(chain: seq<Link>) {
    && (chain != [] ==> chain[0].cursor == None)
    && forall k :: 1 <= k < |chain| ==> Continues(chain[k - 1].page, chain[k].cursor)
  }

  lemma NextContinues(page: Page)
    ensures if Ends(page) then NextCursor(page) == None else Continues(page, NextCursor(page))
  {
  }

  lemma {:induction false} ChainGrows(chain: seq<Link>, link: Link)
    requires Unbroken(chain)
    requires chain == [] ==> link.cursor == None
    requires chain != [] ==> Continues(chain[|chain| - 1].page, link.cursor)
    ensures Unbroken(chain + [link]) && ChainIds(chain + [link]) == ChainIds(chain) + Ids(link.page.data)
  {
    var more := chain + [link];
    assert more[..|more| - 1] == chain && more[|more| - 1] == link;
    if chain != [] {
      assert more[0] == chain[0];
      forall k | 1 <= k < |more| ensures Continues(more[k - 1].page, more[k].cursor) {
        assert more[k - 1] == chain[k - 1];
        assert k < |chain| ==> more[k] == chain[k];
      }
    }
  }
}
