/** The files and cloud resources that setup and destroy of scripts/aws-quickstart.ts step through, and
    what every single step keeps. */
module QuickstartWorld {
  import opened Prelude
  import opened Teardown

  type Account = nat

  /** The credential secret of a deployment; an operator's own secret is not managed. */
  datatype SecretRef = SecretRef(id: nat, managed: bool)

  datatype Context = Context(deployment: Deployment, profile: Option<string>, secret: Option<SecretRef>)

  datatype Result = Ready(context: Context) | Destroyed

  /** The files (each written at once), the Terraform state, and the cloud: managed secrets by account,
      images with active MicroVMs, keys not pending deletion. `images` and `keys` record what the
      current deployment has ever made, and `home` the account that it made them in. */
  datatype World = World(
    result: Option<Result>, context: Option<Context>, checkpoint: Option<Checkpoint>, state: Option<Document>,
    secrets: map<nat, Account>, busy: set<Value>, liveKeys: set<Value>, images: set<Value>, keys: set<Value>,
    home: Account)

  /** The deployment that a destroy would read: the result's, or else the context's. */
  function Owner(w: World): Option<Context> {
    if w.result.None? then w.context else if w.result.value.Ready? then Some(w.result.value.context) else None
  }

  function Identified(state: Option<Document>, kind: string): set<Value> {
    if state.None? || !state.value.Values? || state.value.root.None? then {}
    else if ModuleResources(state.value.root.value).None? then {}
    else
      var ids := IdentifiersOf(ModuleResources(state.value.root.value).value, kind);
      set i | 0 <= i < |ids| :: ids[i]
  }

  /** The number of entries in the state; None where Terraform's output is malformed. */
  function EntryCount(state: Document): Option<nat> {
    match state
    case BadDocument => None
    case NoValues => Some(0)
    case Values(None) => Some(0)
    case Values(Some(root)) =>
      var resources := ModuleResources(root);
      if resources.None? then None else Some(|resources.value|)
  }

  predicate Empty(state: Option<Document>) {
    state.None? || EntryCount(state.value) == Some(0)
  }

  // ---------------------------------------------------------------- steps

  function RemoveCheckpoint(w: World): World {
    w.(checkpoint := None, images := {}, keys := {})
  }

  function RemoveResult(w: World): World {
    w.(result := None)
  }

  function WriteContext(w: World, context: Context): World {
    w.(context := Some(context))
  }

  function CreateSecret(w: World, id: nat, account: Account): World {
    w.(secrets := w.secrets[id := account])
  }

  /** Terraform records what it makes, in the account of the setup. */
  function Applied(w: World, state: Document, account: Account): World {
    w.(state := Some(state), home := account, images := w.images + Identified(Some(state), IMAGE),
       keys := w.keys + Identified(Some(state), KEY), liveKeys := w.liveKeys + Identified(Some(state), KEY))
  }

  /** The deployed backend runs MicroVMs of images that are deployed. */
  function Launched(w: World, images: set<Value>): World {
    w.(busy := w.busy + (images * Identified(w.state, IMAGE)))
  }

  function WriteReady(w: World, context: Context): World {
    w.(result := Some(Ready(context)))
  }

  function WriteCheckpoint(w: World, checkpoint: Checkpoint): World {
    w.(checkpoint := Some(checkpoint))
  }

  function Terminated(w: World, images: set<Value>): World {
    w.(busy := w.busy - images)
  }

  /** Terraform removed resources, and with them stopped MicroVMs and scheduled keys for deletion. */
  function Removed(w: World, state: Document, stopped: set<Value>, scheduled: set<Value>): World {
    w.(state := Some(state), busy := w.busy - stopped, liveKeys := w.liveKeys - scheduled)
  }

  function DeleteSecret(w: World, id: nat, account: Account): World {
    w.(secrets := if id in w.secrets && w.secrets[id] == account then w.secrets - {id} else w.secrets)
  }

  function WriteDestroyed(w: World): World {
    w.(result := Some(Destroyed))
  }

  /** Setup goes on after a destroyed deployment, or where no file of any deployment exists. */
  predicate SetupAllowed(w: World) {
    if w.result.Some? then w.result.value.Destroyed? else w.context.None? && w.state.None? && w.checkpoint.None?
  }

  // ---------------------------------------------------------------- invariants

  /** Every secret the quickstart made is named as managed by the record that destroy would read. */
  predicate NoOrphan(w: World) {
    forall id :: id in w.secrets ==> Owner(w).Some? && Owner(w).value.secret == Some(SecretRef(id, true))
  }

  predicate Known(made: set<Value>, shown: set<Value>, saved: Option<string>) {
    made <= shown + if saved.Some? then {Str(saved.value)} else {}
  }

  function SavedImage(w: World): Option<string> {
    if w.checkpoint.None? then None else w.checkpoint.value.targets.imageArn
  }

  function SavedKey(w: World): Option<string> {
    if w.checkpoint.None? then None else w.checkpoint.value.targets.kmsKeyId
  }

  /** No image or key ever made is forgotten: the state shows it or the checkpoint names it. */
  predicate Remembered(w: World) {
    && Known(w.images, Identified(w.state, IMAGE), SavedImage(w))
    && Known(w.keys, Identified(w.state, KEY), SavedKey(w))
  }

  /** Nothing that was made is left running. */
  predicate Gone(w: World) {
    Empty(w.state) && w.images !! w.busy && w.keys !! w.liveKeys
  }

  predicate Tidy(w: World) {
    && (w.checkpoint.Some? ==> w.state.Some?)
    && (w.state.None? ==> w.images == {} && w.keys == {} && (w.result.Some? ==> w.result.value.Destroyed?))
    && (w.checkpoint.Some? && Owner(w).Some? ==> w.checkpoint.value.deployment == Owner(w).value.deployment)
    && (w.context.None? ==> w.result.None? && w.state.None?)
  }

  /** What every step keeps of the teardown records. */
  predicate Kept(w: World) {
    Remembered(w) && Tidy(w) && (w.result == Some(Destroyed) ==> Empty(w.state))
  }

  // ---------------------------------------------------------------- the secret's account

  /** Some secret is not in this account. */
  predicate Elsewhere(w: World, account: Account) {
    exists id :: id in w.secrets && w.secrets[id] != account
  }

  /** Deleting the recorded secret leaves none exactly when it is deleted in the account it is in. */
  lemma DeletionReaches(w: World, secret: SecretRef, account: Account)
    requires NoOrphan(w) && Owner(w).Some? && Owner(w).value.secret == Some(secret) && secret.managed
    ensures DeleteSecret(w, secret.id, account).secrets == map[] <==> !Elsewhere(w, account)
  {
    if w.secrets != map[] {
      assert w.secrets.Keys != {};
      var id :| id in w.secrets;
      assert id == secret.id;
      assert w.secrets.Keys == {id};
    }
  }

  // ---------------------------------------------------------------- what is refuted

  const OLD := Context(Deployment("1", "r", "e"), None, Some(SecretRef(1, true)))
  const NEW := Context(Deployment("2", "r", "e"), None, Some(SecretRef(2, true)))
  const OWN := Context(Deployment("3", "r", "e"), None, Some(SecretRef(9, false)))
  const BLANK := World(None, None, None, None, map[], {}, {}, {}, {}, 0)

  /** Two setups that both start on a blank machine: the second's context forgets the first's secret.
      Nothing locks one out while the other runs. */
  lemma OverlappingSetupsOrphan()
    ensures var first := CreateSecret(WriteContext(RemoveResult(RemoveCheckpoint(BLANK)), OLD), 1, 0);
            var second := WriteContext(RemoveResult(RemoveCheckpoint(first)), NEW);
            SetupAllowed(BLANK) && NoOrphan(first) && !NoOrphan(second)
  {
    var first := CreateSecret(WriteContext(RemoveResult(RemoveCheckpoint(BLANK)), OLD), 1, 0);
    var second := WriteContext(RemoveResult(RemoveCheckpoint(first)), NEW);
    assert 1 in second.secrets;
  }

  /** A setup with an operator's own secret writes its context, a second setup writes its own and makes a
      secret, and then the first writes its context again: the one secret is forgotten. */
  lemma SecondContextOrphans()
    ensures var first := WriteContext(RemoveResult(RemoveCheckpoint(BLANK)), OWN);
            var second := CreateSecret(WriteContext(RemoveResult(RemoveCheckpoint(first)), NEW), 2, 0);
            SetupAllowed(BLANK) && NoOrphan(second) && !NoOrphan(WriteContext(second, OWN))
  {
    var first := WriteContext(RemoveResult(RemoveCheckpoint(BLANK)), OWN);
    var second := CreateSecret(WriteContext(RemoveResult(RemoveCheckpoint(first)), NEW), 2, 0);
    assert 2 in WriteContext(second, OWN).secrets;
  }

  /** A destroy with another account's credentials, by a profile or by none, finds no secret there, and
      still records the deployment as destroyed. */
  lemma ForeignDestroyOrphans()
    ensures var w := CreateSecret(WriteContext(BLANK, OLD), 1, 0);
            NoOrphan(w) && !NoOrphan(WriteDestroyed(DeleteSecret(w, 1, 7)))
  {
    var w := CreateSecret(WriteContext(BLANK, OLD), 1, 0);
    assert 1 in WriteDestroyed(DeleteSecret(w, 1, 7)).secrets;
  }
}
