/** Setup and destroy of scripts/aws-quickstart.ts as they step through files and cloud resources, each
    cut off after any number of steps. */
module Quickstart {
  import opened Prelude
  import opened Teardown
  import opened QuickstartWorld

  /** What a setup is asked for and what the outside does during it: the account that the profile, or
      without one the environment, denotes while it runs, the state Terraform leaves, the images that
      MicroVMs are launched of. */
  datatype SetupRun = SetupRun(
    deployment: Deployment, profile: Option<string>, account: Account, secret: Option<SecretRef>,
    applied: Document, launched: set<Value>)

  /** What the outside does during a destroy: the account that the profile asked for, or else the recorded
      one, or else the environment denotes while it runs, what is stopped and removed, and what another
      account than the deployment's answers when asked for active MicroVMs and for the key. */
  datatype DestroyRun = DestroyRun(
    account: Account, terminated: set<Value>, launched: set<Value>,
    left: Document, stopped: set<Value>, scheduled: set<Value>, showsActive: bool, showsLive: bool)

  datatype Outcome = Stopped | Finished

  /** Terraform apply only adds resources. */
  predicate Adds(before: Option<Document>, after: Document) {
    Identified(before, IMAGE) <= Identified(Some(after), IMAGE) &&
      Identified(before, KEY) <= Identified(Some(after), KEY)
  }

  /** Terraform destroy only removes resources. */
  predicate Removes(before: Option<Document>, after: Document) {
    Identified(Some(after), IMAGE) <= Identified(before, IMAGE) &&
      Identified(Some(after), KEY) <= Identified(before, KEY)
  }

  // ---------------------------------------------------------------- steps of setup

  lemma SetupStarts(w: World)
    requires Kept(w) && SetupAllowed(w)
    ensures Kept(RemoveCheckpoint(w))
    ensures var u := RemoveResult(RemoveCheckpoint(w));
            Kept(u) && u.result.None? && u.checkpoint.None? && u.state == w.state
  {
  }

  lemma CheckpointAside(w: World)
    requires Kept(w) && SetupAllowed(w)
    ensures RemoveCheckpoint(w).result == w.result && (w.result == Some(Destroyed) ==> Gone(RemoveCheckpoint(w)))
  {
  }

  lemma ContextKeeps(w: World, context: Context)
    requires Kept(w) && w.result.None? && w.checkpoint.None?
    ensures var u := WriteContext(w, context);
            Kept(u) && u.result == w.result && u.context == Some(context) && u.checkpoint.None? && u.state == w.state
  {
  }

  /** The teardown records say nothing of secrets. */
  lemma SecretsAside(w: World, u: World)
    requires Kept(w) && u.(secrets := w.secrets) == w
    ensures Kept(u) && u.result == w.result && u.context == w.context && u.checkpoint == w.checkpoint
    ensures u.state == w.state
  {
  }

  lemma CreateKeeps(w: World, id: nat, account: Account)
    requires Kept(w)
    ensures var u := CreateSecret(w, id, account);
            && Kept(u) && u.result == w.result && u.context == w.context && u.checkpoint == w.checkpoint
            && u.state == w.state
  {
    SecretsAside(w, CreateSecret(w, id, account));
  }

  lemma ApplyKeeps(w: World, state: Document, account: Account)
    requires Kept(w) && w.result.None? && w.context.Some? && Adds(w.state, state)
    ensures var u := Applied(w, state, account);
            Kept(u) && u.result == w.result && u.context == w.context && u.state.Some?
  {
    hide Identified, EntryCount;
  }

  lemma LaunchKeeps(w: World, images: set<Value>)
    requires Kept(w)
    ensures var u := Launched(w, images);
            Kept(u) && u.result == w.result && u.context == w.context && u.state == w.state && (Gone(w) ==> Gone(u))
  {
    assert Empty(w.state) ==> Identified(w.state, IMAGE) == {};
    hide Identified, EntryCount;
  }

  lemma ReadyKeeps(w: World)
    requires Kept(w) && w.result.None? && w.context.Some? && w.state.Some?
    ensures Kept(WriteReady(w, w.context.value))
  {
    hide Identified, EntryCount;
  }

  // ---------------------------------------------------------------- steps of destroy

  function One(target: Option<string>): set<Value> {
    if target.Some? then {Str(target.value)} else {}
  }

  lemma TargetsIdentified(state: Document)
    ensures TeardownTargets(state).Some? ==>
              var t := TeardownTargets(state).value;
              Identified(Some(state), IMAGE) == One(t.imageArn) && Identified(Some(state), KEY) == One(t.kmsKeyId)
  {
    if TeardownTargets(state).Some? && state.Values? && state.root.Some? {
      var t := TeardownTargets(state).value;
      var resources := ModuleResources(state.root.value).value;
      NoUndefined(resources, IMAGE);
      NoUndefined(resources, KEY);
      OneIdentified(IdentifiersOf(resources, IMAGE), t.imageArn);
      OneIdentified(IdentifiersOf(resources, KEY), t.kmsKeyId);
    }
  }

  lemma OneIdentified(values: seq<Value>, target: Option<string>)
    requires UniqueTarget(values) == Some(target) && Undefined !in values
    ensures (set i | 0 <= i < |values| :: values[i]) == One(target)
  {
    var all := set i | 0 <= i < |values| :: values[i];
    assert forall v :: v in all <==> v in values;
    UniqueTargetIs(values, target);
  }

  /** Everything the deployment ever made is named by the checkpoint. */
  predicate Covered(w: World) {
    w.checkpoint.Some? && w.images <= One(SavedImage(w)) && w.keys <= One(SavedKey(w))
      && Identified(w.state, IMAGE) <= One(SavedImage(w)) && Identified(w.state, KEY) <= One(SavedKey(w))
  }

  function SavedAs(checkpoint: Option<Checkpoint>): Option<Saved> {
    if checkpoint.None? then None else Some(Written(checkpoint.value))
  }

  /** The new checkpoint names whatever the old one named. */
  predicate Retains(before: Option<Checkpoint>, after: Option<Checkpoint>) {
    before.Some? ==>
      && after.Some?
      && (before.value.targets.imageArn.Some? ==> after.value.targets.imageArn == before.value.targets.imageArn)
      && (before.value.targets.kmsKeyId.Some? ==> after.value.targets.kmsKeyId == before.value.targets.kmsKeyId)
  }

  lemma CheckpointCovers(w: World, stored: Context, targets: Targets, checkpoint: Checkpoint)
    requires Kept(w) && Owner(w) == Some(stored) && w.state.Some? && w.result != Some(Destroyed)
    requires TeardownTargets(w.state.value) == Some(targets)
    requires SelectTeardown(stored.deployment, targets, SavedAs(w.checkpoint)) == Some(checkpoint)
    ensures var u := WriteCheckpoint(w, checkpoint); Covered(u) && Kept(u) && Retains(w.checkpoint, u.checkpoint)
    ensures checkpoint.deployment == stored.deployment
  {
    hide Identified, EntryCount, SelectTeardown, TeardownTargets;
    TargetsIdentified(w.state.value);
    if w.checkpoint.Some? {
      CheckpointMerges(stored.deployment, targets, w.checkpoint.value);
    } else {
      CheckpointStarts(stored.deployment, targets);
    }
    var u := WriteCheckpoint(w, checkpoint);
    assert Retains(w.checkpoint, u.checkpoint);
    assert One(targets.imageArn) <= One(SavedImage(u)) && One(targets.kmsKeyId) <= One(SavedKey(u));
    assert One(SavedImage(w)) <= One(SavedImage(u)) && One(SavedKey(w)) <= One(SavedKey(u));
  }

  lemma RemovedKeeps(w: World, state: Document, stopped: set<Value>, scheduled: set<Value>)
    requires Kept(w) && Covered(w) && w.state.Some? && w.result != Some(Destroyed) && Removes(w.state, state)
    ensures var u := Removed(w, state, stopped, scheduled); Kept(u) && Covered(u)
  {
    hide Identified, EntryCount;
  }

  lemma BusyKeeps(w: World, launched: set<Value>, terminated: set<Value>)
    requires Kept(w) && Covered(w) && w.state.Some? && w.result != Some(Destroyed)
    ensures Kept(Launched(w, launched)) && Covered(Launched(w, launched))
    ensures Kept(Terminated(w, terminated)) && Covered(Terminated(w, terminated))
  {
    hide Identified, EntryCount;
  }

  /** When the checks after Terraform pass, nothing the deployment ever made is left running. */
  lemma ChecksProveGone(w: World)
    requires Covered(w) && w.state.Some? && EntryCount(w.state.value) == Some(0)
    requires SavedImage(w).Some? ==> Str(SavedImage(w).value) !in w.busy
    requires SavedKey(w).Some? ==> Str(SavedKey(w).value) !in w.liveKeys
    ensures Gone(w)
  {
    hide Identified, EntryCount;
    NotIn(w.images, SavedImage(w), w.busy);
    NotIn(w.keys, SavedKey(w), w.liveKeys);
  }

  lemma NotIn(made: set<Value>, saved: Option<string>, running: set<Value>)
    requires made <= One(saved) && (saved.Some? ==> Str(saved.value) !in running)
    ensures made !! running
  {
  }

  lemma DestroyedKeeps(w: World)
    requires Kept(w) && Empty(w.state) && w.context.Some?
    ensures Kept(WriteDestroyed(w)) && (Gone(w) ==> Gone(WriteDestroyed(w)))
  {
    hide Identified, EntryCount;
  }

  /** `deleteManagedCodexAuthSecret`: a secret that is not found counts as deleted. */
  function SecretDeleted(w: World, stored: Context, account: Account): World {
    if stored.secret.Some? && stored.secret.value.managed then DeleteSecret(w, stored.secret.value.id, account) else w
  }

  lemma SecretDeletedReaches(w: World, stored: Context, account: Account)
    requires NoOrphan(w) && Owner(w) == Some(stored)
    ensures var u := SecretDeleted(w, stored, account);
            && NoOrphan(u) && u.(secrets := w.secrets) == w
            && (u.secrets == map[] <==> !Elsewhere(w, account))
  {
    if stored.secret.Some? && stored.secret.value.managed {
      DeletionReaches(w, stored.secret.value, account);
    } else {
      assert forall id :: id !in w.secrets;
      assert w.secrets == map[];
    }
  }

  // ---------------------------------------------------------------- the order of the steps

  /** One write of a file, or one call on the cloud, or what the outside does in its place. */
  datatype Step =
    | Skip
    | DropCheckpoint
    | DropResult
    | PutContext(context: Context)
    | MakeSecret(id: nat, account: Account)
    | Apply(made: Document, account: Account)
    | Run(images: set<Value>)
    | PutReady(context: Context)
    | PutCheckpoint(checkpoint: Checkpoint)
    | Stop(images: set<Value>)
    | Remove(left: Document, stopped: set<Value>, scheduled: set<Value>)
    | DropSecret(stored: Context, account: Account)
    | PutDestroyed

  function Do(w: World, step: Step): World {
    match step
    case Skip => w
    case DropCheckpoint => RemoveCheckpoint(w)
    case DropResult => RemoveResult(w)
    case PutContext(context) => WriteContext(w, context)
    case MakeSecret(id, account) => CreateSecret(w, id, account)
    case Apply(made, account) => Applied(w, made, account)
    case Run(images) => Launched(w, images)
    case PutReady(context) => WriteReady(w, context)
    case PutCheckpoint(checkpoint) => WriteCheckpoint(w, checkpoint)
    case Stop(images) => Terminated(w, images)
    case Remove(left, stopped, scheduled) => Removed(w, left, stopped, scheduled)
    case DropSecret(stored, account) => SecretDeleted(w, stored, account)
    case PutDestroyed => WriteDestroyed(w)
  }

  function DoAll(w: World, steps: seq<Step>): World {
    if steps == [] then w else Do(DoAll(w, steps[..|steps| - 1]), steps[|steps| - 1])
  }

  /** The steps of a plan that are done within a budget. */
  function Within(plan: seq<Step>, budget: nat): seq<Step> {
    if budget < |plan| then plan[..budget] else plan
  }

  lemma DoNext(w: World, plan: seq<Step>, k: nat)
    requires k < |plan|
    ensures DoAll(w, plan[..k + 1]) == Do(DoAll(w, plan[..k]), plan[k])
  {
    assert plan[..k + 1][..k] == plan[..k];
  }

  lemma DoNone(w: World, plan: seq<Step>)
    ensures DoAll(w, plan[..0]) == w && plan[..|plan|] == plan
  {
  }

  /** The steps of a setup, in order. The context is written once before the secret is made, and again once
      there is one, be it the operator's own. */
  function SetupSteps(run: SetupRun): (steps: seq<Step>)
    ensures |steps| == 8
  {
    var context := Context(run.deployment, run.profile, run.secret);
    [DropCheckpoint, DropResult, PutContext(context),
     if run.secret.Some? && run.secret.value.managed
     then MakeSecret(run.secret.value.id, run.account) else Skip,
     if run.secret.Some? then PutContext(context) else Skip,
     Apply(run.applied, run.account), Run(run.launched), PutReady(context)]
  }

  function SetupPlan(w: World, run: SetupRun): seq<Step> {
    if SetupAllowed(w) then SetupSteps(run) else []
  }

  /** What a destroy that read this record and checkpoint must account for, if it may go on where there
      is a state; `completed` says that the record is a result. */
  function Selected(state: Document, completed: bool, stored: Context, saved: Option<Checkpoint>): Option<Checkpoint> {
    var targets := TeardownTargets(state);
    var checkpoint :=
      if targets.Some? then SelectTeardown(stored.deployment, targets.value, SavedAs(saved)) else None;
    if checkpoint.Some? && completed
       && (checkpoint.value.targets.kmsKeyId.None? || checkpoint.value.targets.imageArn.None?)
    then None else checkpoint
  }

  function RemovalPlan(checkpoint: Checkpoint, run: DestroyRun): seq<Step> {
    [PutCheckpoint(checkpoint), if checkpoint.targets.imageArn.Some? then Stop(run.terminated) else Skip,
     Run(run.launched), Remove(run.left, run.stopped, run.scheduled)]
  }

  /** What the account of the run shows of an image: its active MicroVMs are in the deployment's. */
  predicate ShownActive(w: World, run: DestroyRun, image: string) {
    if run.account == w.home then Str(image) in w.busy else run.showsActive
  }

  predicate ShownLive(w: World, run: DestroyRun, key: string) {
    if run.account == w.home then Str(key) in w.liveKeys else run.showsLive
  }

  /** The checks after Terraform: an empty state, no active MicroVM, a key that is pending deletion, as the
      account of the run shows them. */
  predicate ChecksPass(w: World, run: DestroyRun, targets: Targets) {
    && Empty(w.state)
    && (targets.imageArn.Some? ==> !ShownActive(w, run, targets.imageArn.value))
    && (targets.kmsKeyId.Some? ==> !ShownLive(w, run, targets.kmsKeyId.value))
  }

  function Ending(stored: Context, run: DestroyRun): seq<Step> {
    [DropSecret(stored, run.account), PutDestroyed]
  }

  /** All steps of a destroy that finds no state, in order; none where it refuses. */
  function RecordSteps(completed: bool, stored: Context, saved: Option<Checkpoint>, run: DestroyRun): (steps: seq<Step>)
    ensures steps == [] || |steps| == 6
  {
    if completed || saved.Some? then [] else [Skip, Skip, Skip, Skip] + Ending(stored, run)
  }

  /** All steps of a destroy that finds a state, in order; none where it refuses. */
  function StateSteps(state: Document, completed: bool, stored: Context, saved: Option<Checkpoint>, run: DestroyRun)
    : (steps: seq<Step>)
    ensures steps == [] || (|steps| == 6 && steps[0].PutCheckpoint?)
  {
    var checkpoint := Selected(state, completed, stored, saved);
    if checkpoint.None? then [] else RemovalPlan(checkpoint.value, run) + Ending(stored, run)
  }

  /** All steps that a destroy may do, where nothing interferes. */
  function DestroySteps(w: World, run: DestroyRun): (steps: seq<Step>)
    ensures steps == [] || (|steps| == 6 && w.result != Some(Destroyed) && Owner(w).Some?)
    ensures steps != [] && w.state.Some? ==> steps[0].PutCheckpoint?
  {
    if w.result == Some(Destroyed) || Owner(w).None? then []
    else if w.state.None? then RecordSteps(w.result.Some?, Owner(w).value, w.checkpoint, run)
    else StateSteps(w.state.value, w.result.Some?, Owner(w).value, w.checkpoint, run)
  }

  /** The steps that it does then: only the removal where a check after it fails. */
  function DestroyPlan(w: World, run: DestroyRun): (plan: seq<Step>)
    ensures plan <= DestroySteps(w, run) && |plan| in {0, 4, 6}
  {
    var steps := DestroySteps(w, run);
    if steps != [] && w.state.Some? && !ChecksPass(DoAll(w, steps[..4]), run, steps[0].checkpoint.targets)
    then steps[..4] else steps
  }

  /** What each step of a setup does to a world that others may have changed since it was planned: its
      context is written twice if there is a secret, be it the operator's own. */
  lemma SetupMoves(w: World, run: SetupRun)
    ensures var steps, context := SetupSteps(run), Context(run.deployment, run.profile, run.secret);
            var made := Identified(Some(run.applied), KEY);
            && Do(w, steps[0]) == w.(checkpoint := None, images := {}, keys := {})
            && Do(w, steps[1]) == w.(result := None)
            && Do(w, steps[2]) == w.(context := Some(context))
            && (match run.secret
                case Some(SecretRef(id, true)) => Do(w, steps[3]) == w.(secrets := w.secrets[id := run.account])
                case _ => Do(w, steps[3]) == w)
            && Do(w, steps[4]) == (if run.secret == None then w else w.(context := Some(context)))
            && Do(w, steps[5]) == w.(state := Some(run.applied), home := run.account, keys := w.keys + made,
                                     liveKeys := w.liveKeys + made,
                                     images := w.images + Identified(Some(run.applied), IMAGE))
            && Do(w, steps[6]).(busy := w.busy) == w
            && Do(w, steps[7]) == w.(result := Some(Ready(context)))
  {
    hide Identified;
  }

  /** And what each step of a destroy does: the secret goes only where it is in the account of the run, and
      nothing but the last step touches the records. */
  lemma DestroyMoves(w: World, now: World, run: DestroyRun)
    requires DestroySteps(w, run) != []
    ensures var steps, secret := DestroySteps(w, run), Owner(w).value.secret;
            && (w.state == None ==>
                  Do(now, steps[0]) == now && Do(now, steps[1]) == now && Do(now, steps[2]) == now &&
                  Do(now, steps[3]) == now)
            && (w.state != None ==>
                  && Do(now, steps[0]).checkpoint != None
                  && Do(now, steps[0]).(checkpoint := now.checkpoint) == now
                  && Do(now, steps[1]).(busy := now.busy) == now && Do(now, steps[1]).busy <= now.busy
                  && Do(now, steps[2]).(busy := now.busy) == now && now.busy <= Do(now, steps[2]).busy
                  && Do(now, steps[3]) == now.(state := Some(run.left), busy := now.busy - run.stopped,
                                               liveKeys := now.liveKeys - run.scheduled))
            && (forall id :: id in Do(now, steps[4]).secrets <==>
                  id in now.secrets && (secret != Some(SecretRef(id, true)) || now.secrets[id] != run.account))
            && Do(now, steps[4]).(secrets := now.secrets) == now
            && Do(now, steps[5]) == now.(result := Some(Destroyed))
  {
    hide Selected, Identified, ChecksPass;
  }

  // ---------------------------------------------------------------- secrets, stage by stage

  /** The records and secrets after the first `n` steps of a setup. */
  predicate SetupStage(w: World, u: World, run: SetupRun, n: nat) {
    var context := Context(run.deployment, run.profile, run.secret);
    && u.result == (if n < 2 then w.result else if n < 8 then None else Some(Ready(context)))
    && u.context == (if n < 3 then w.context else Some(context))
    && u.secrets == (if n >= 4 && run.secret.Some? && run.secret.value.managed
                     then w.secrets[run.secret.value.id := run.account] else w.secrets)
  }

  lemma SetupStages(w: World, run: SetupRun, n: nat)
    requires n <= 8
    ensures SetupStage(w, DoAll(w, SetupSteps(run)[..n]), run, n)
  {
    hide DoAll;
    var steps := SetupSteps(run);
    if n == 0 {
      DoNone(w, steps);
    } else {
      SetupStages(w, run, n - 1);
      DoNext(w, steps, n - 1);
    }
  }

  /** The records and secrets after the first `n` steps of a destroy. */
  predicate DestroyStage(w: World, u: World, stored: Context, account: Account, n: nat) {
    && u.result == (if n < 6 then w.result else Some(Destroyed))
    && u.context == w.context
    && u.secrets == (if n < 5 then w.secrets else SecretDeleted(w, stored, account).secrets)
  }

  lemma DestroyStages(w: World, run: DestroyRun, n: nat)
    requires DestroySteps(w, run) != [] && n <= 6
    ensures var stored := Owner(w).value;
            DestroyStage(w, DoAll(w, DestroySteps(w, run)[..n]), stored, run.account, n)
  {
    hide DoAll, Selected;
    var steps := DestroySteps(w, run);
    if n == 0 {
      DoNone(w, steps);
    } else {
      DestroyStages(w, run, n - 1);
      DoNext(w, steps, n - 1);
    }
  }

  /** No setup, cut off anywhere, orphans a secret. */
  lemma SetupSecure(w: World, run: SetupRun, budget: nat)
    requires NoOrphan(w)
    ensures NoOrphan(DoAll(w, Within(SetupPlan(w, run), budget)))
  {
    hide DoAll;
    var plan := SetupPlan(w, run);
    if plan == [] {
      DoNone(w, plan);
    } else {
      assert forall id :: id !in w.secrets;
      var n := if budget < 8 then budget else 8;
      assert Within(plan, budget) == plan[..n];
      SetupStages(w, run, n);
    }
  }

  /** A destroy that gets to the end, in another account than the secret is in. */
  predicate Forsakes(w: World, run: DestroyRun, budget: nat) {
    |Within(DestroyPlan(w, run), budget)| == 6 && Elsewhere(w, run.account)
  }

  /** A destroy, cut off anywhere, orphans a secret exactly if it gets to the end in another account than
      the secret is in. */
  lemma DestroySecure(w: World, run: DestroyRun, budget: nat)
    requires NoOrphan(w)
    ensures NoOrphan(DoAll(w, Within(DestroyPlan(w, run), budget))) <==> !Forsakes(w, run, budget)
  {
    hide DoAll, DestroySteps, DestroyPlan;
    var plan, steps := DestroyPlan(w, run), DestroySteps(w, run);
    if plan == [] {
      DoNone(w, plan);
      assert Within(plan, budget) == plan[..0];
    } else {
      var n := if budget < |plan| then budget else |plan|;
      assert Within(plan, budget) == steps[..n];
      DestroyStages(w, run, n);
      StagesSecure(w, DoAll(w, steps[..n]), Owner(w).value, run.account, n);
    }
  }

  lemma StagesSecure(w: World, u: World, stored: Context, account: Account, n: nat)
    requires NoOrphan(w) && Owner(w) == Some(stored) && DestroyStage(w, u, stored, account, n) && n <= 6
    ensures NoOrphan(u) <==> n < 6 || !Elsewhere(w, account)
  {
    SecretDeletedReaches(w, stored, account);
    if n == 6 && u.secrets != map[] {
      assert u.secrets.Keys != {};
      var id :| id in u.secrets;
    }
  }

  // ---------------------------------------------------------------- when a destroy finishes

  /** The record of a deployment: of a completed setup, or of one that may not be. */
  predicate RecordIs(w: World, record: Context, completed: bool) {
    if completed then w.result == Some(Ready(record)) else w.result == None && w.context == Some(record)
  }

  /** The deployment is named, and these are all targets that the state shows or the checkpoint saved. */
  predicate Accounts(deployment: Deployment, shown: Targets, saved: Option<Checkpoint>, all: Targets) {
    && deployment.startedAt != "" && deployment.region != "" && deployment.environment != ""
    && (saved.Some? ==> saved.value.deployment == deployment)
    && var previous := if saved.Some? then saved.value.targets else Targets(None, None);
       && MergedIs(shown.imageArn, OptionalValue(previous.imageArn), all.imageArn)
       && MergedIs(shown.kmsKeyId, OptionalValue(previous.kmsKeyId), all.kmsKeyId)
  }

  ghost predicate Shows(state: Document, shown: Targets) {
    Readable(state) && TargetIs(state, IMAGE, shown.imageArn) && TargetIs(state, KEY, shown.kmsKeyId)
  }

  /** What is left is a state without any resource, and what was to be removed is gone, as far as the
      account of the run shows it. */
  ghost predicate Clears(w: World, run: DestroyRun, shown: Targets, all: Targets) {
    && Readable(run.left) && (forall r :: !Held(run.left, r))
    && (all.imageArn.Some? ==>
          var image := Str(all.imageArn.value);
          if run.account != w.home then !run.showsActive
          else || image in run.stopped
               || ((image !in w.busy || image in run.terminated) &&
                   (image !in run.launched || shown.imageArn != all.imageArn)))
    && (all.kmsKeyId.Some? ==>
          var key := Str(all.kmsKeyId.value);
          if run.account != w.home then !run.showsLive else key !in w.liveKeys || key in run.scheduled)
  }

  /** There is a record; where there is a state all targets are accounted for and go away, and a completed
      deployment has both; where there is none nothing was completed or begun to be removed. */
  ghost predicate CanFinish(w: World, run: DestroyRun) {
    exists record, completed :: RecordIs(w, record, completed) &&
      if w.state.None? then !completed && w.checkpoint.None?
      else exists shown, all ::
        && Shows(w.state.value, shown) && Accounts(record.deployment, shown, w.checkpoint, all)
        && (completed ==> all.imageArn.Some? && all.kmsKeyId.Some?)
        && Clears(w, run, shown, all)
  }

  lemma NothingHeld(state: Document)
    ensures EntryCount(state) == Some(0) <==> Readable(state) && forall r :: !Held(state, r)
  {
    hide ModuleResources, Readable, Held;
    ResourcesHeld(state);
    var resources := ResourcesOf(state);
    if resources.Some? && resources.value != [] {
      assert resources.value[0] in resources.value;
    }
  }

  /** The state, the MicroVMs and the keys when a destroy has removed what it can. */
  lemma RemovalLeaves(w: World, steps: seq<Step>, checkpoint: Checkpoint, run: DestroyRun)
    requires |steps| >= 4 && steps[..4] == RemovalPlan(checkpoint, run)
    ensures var u := DoAll(w, steps[..4]);
            && u.state == Some(run.left) && u.home == w.home && u.liveKeys == w.liveKeys - run.scheduled
            && u.busy == (if checkpoint.targets.imageArn.Some? then w.busy - run.terminated else w.busy) +
                         (run.launched * Identified(w.state, IMAGE)) - run.stopped
  {
    hide DoAll, Identified;
    var plan := RemovalPlan(checkpoint, run);
    assert forall k :: 0 <= k < 4 ==> steps[k] == plan[k];
    DoNone(w, steps);
    DoNext(w, steps, 0);
    DoNext(w, steps, 1);
    DoNext(w, steps, 2);
    DoNext(w, steps, 3);
  }

  lemma ChecksExactly(w: World, steps: seq<Step>, shown: Targets, checkpoint: Checkpoint, run: DestroyRun)
    requires |steps| >= 4 && steps[..4] == RemovalPlan(checkpoint, run)
    requires w.state.Some? && TeardownTargets(w.state.value) == Some(shown)
    ensures ChecksPass(DoAll(w, steps[..4]), run, checkpoint.targets) <==> Clears(w, run, shown, checkpoint.targets)
  {
    hide DoAll, Identified, EntryCount, TeardownTargets, Readable, Held;
    RemovalLeaves(w, steps, checkpoint, run);
    TargetsIdentified(w.state.value);
    NothingHeld(run.left);
  }

  lemma SelectedExactly(state: Document, completed: bool, stored: Context, saved: Option<Checkpoint>, c: Checkpoint)
    ensures Selected(state, completed, stored, saved) == Some(c) <==>
              && c.deployment == stored.deployment && TeardownTargets(state).Some?
              && (completed ==> c.targets.imageArn.Some? && c.targets.kmsKeyId.Some?)
              && Accounts(stored.deployment, TeardownTargets(state).value, saved, c.targets)
  {
    hide TeardownTargets, MergedIs, SelectTeardown;
    if TeardownTargets(state).Some? {
      CheckpointExactly(stored.deployment, TeardownTargets(state).value, SavedAs(saved), c);
      assert SavedAs(None) == None;
    }
  }

  /** A destroy has a plan that goes to the end exactly if it can finish. */
  lemma FinishesExactly(w: World, run: DestroyRun)
    requires w.result != Some(Destroyed)
    ensures |DestroyPlan(w, run)| == 6 <==> CanFinish(w, run)
  {
    hide Selected, ChecksPass, Clears, Accounts, TeardownTargets, DoAll, Shows;
    if CanFinish(w, run) {
      var record, completed :| RecordIs(w, record, completed) &&
        if w.state.None? then !completed && w.checkpoint.None?
        else exists shown, all ::
          && Shows(w.state.value, shown) && Accounts(record.deployment, shown, w.checkpoint, all)
          && (completed ==> all.imageArn.Some? && all.kmsKeyId.Some?)
          && Clears(w, run, shown, all);
      assert Owner(w) == Some(record) && completed == w.result.Some?;
      if w.state.Some? {
        var shown, all :|
          && Shows(w.state.value, shown) && Accounts(record.deployment, shown, w.checkpoint, all)
          && (completed ==> all.imageArn.Some? && all.kmsKeyId.Some?)
          && Clears(w, run, shown, all);
        ShowsTargets(w.state.value, shown);
        PlanExactly(w, run, record, shown, Checkpoint(record.deployment, all));
      }
    }
    if |DestroyPlan(w, run)| == 6 {
      var record, completed := Owner(w).value, w.result.Some?;
      assert RecordIs(w, record, completed);
      if w.state.Some? {
        var c := Selected(w.state.value, completed, record, w.checkpoint).value;
        SelectedExactly(w.state.value, completed, record, w.checkpoint, c);
        var shown := TeardownTargets(w.state.value).value;
        ShowsTargets(w.state.value, shown);
        PlanExactly(w, run, record, shown, c);
        assert Shows(w.state.value, shown) && Accounts(record.deployment, shown, w.checkpoint, c.targets);
      }
    }
  }

  lemma ShowsTargets(state: Document, shown: Targets)
    ensures TeardownTargets(state) == Some(shown) <==> Shows(state, shown)
  {
    hide TeardownTargets, Readable, TargetIs;
    TargetsAtAnyDepth(state, shown);
  }

  lemma PlanExactly(w: World, run: DestroyRun, record: Context, shown: Targets, c: Checkpoint)
    requires w.result != Some(Destroyed) && Owner(w) == Some(record) && w.state.Some?
    requires TeardownTargets(w.state.value) == Some(shown) && c.deployment == record.deployment
    requires Accounts(record.deployment, shown, w.checkpoint, c.targets)
    requires w.result.Some? ==> c.targets.imageArn.Some? && c.targets.kmsKeyId.Some?
    ensures |DestroyPlan(w, run)| == 6 <==> Clears(w, run, shown, c.targets)
  {
    hide Selected, ChecksPass, Clears, Accounts, TeardownTargets, DoAll;
    SelectedExactly(w.state.value, w.result.Some?, record, w.checkpoint, c);
    var steps := DestroySteps(w, run);
    assert steps == RemovalPlan(c, run) + Ending(record, run);
    assert steps[..4] == RemovalPlan(c, run);
    ChecksExactly(w, steps, shown, c, run);
  }

  // ---------------------------------------------------------------- what a finished command leaves

  /** No file of any deployment exists. */
  predicate Untouched(w: World) {
    w.result == None && w.context == None && w.state == None && w.checkpoint == None
  }

  /** A finished setup leaves its records, no checkpoint of an earlier deployment, what Terraform made in
      the account of the run, and, in that account, the secret that it was to make. */
  ghost predicate IsDeployed(w: World, run: SetupRun, u: World) {
    var context := Context(run.deployment, run.profile, run.secret);
    && u.result == Some(Ready(context)) && u.context == Some(context) && u.checkpoint == None
    && u.state == Some(run.applied) && u.home == run.account
    && forall id ::
         && (id in u.secrets <==> id in w.secrets || run.secret == Some(SecretRef(id, true)))
         && (run.secret == Some(SecretRef(id, true)) ==> u.secrets[id] == run.account)
  }

  /** A finished destroy leaves that result, and of the secrets none but the one that its record says is
      managed, where that is in the account of the run, is deleted. */
  ghost predicate IsTornDown(w: World, run: DestroyRun, u: World) {
    && u.result == Some(Destroyed) && (w.state.Some? ==> u.state == Some(run.left))
    && forall record, completed :: RecordIs(w, record, completed) ==>
         forall id :: id in u.secrets <==>
           id in w.secrets && !(record.secret == Some(SecretRef(id, true)) && w.secrets[id] == run.account)
  }

  lemma SetupDeploys(w: World, run: SetupRun)
    requires SetupAllowed(w)
    ensures IsDeployed(w, run, DoAll(w, SetupSteps(run)))
  {
    hide DoAll;
    var steps := SetupSteps(run);
    SetupStages(w, run, 8);
    DoNone(w, steps);
    DoNext(w, steps, 0);
    DoNext(w, steps, 1);
    DoNext(w, steps, 2);
    DoNext(w, steps, 3);
    DoNext(w, steps, 4);
    DoNext(w, steps, 5);
    DoNext(w, steps, 6);
    DoNext(w, steps, 7);
  }

  lemma SetupDone(w: World, run: SetupRun, budget: nat)
    ensures SetupAllowed(w) <==> w.result == Some(Destroyed) || Untouched(w)
    ensures SetupAllowed(w) && budget >= 8 ==> IsDeployed(w, run, DoAll(w, Within(SetupPlan(w, run), budget)))
  {
    hide IsDeployed, DoAll;
    if SetupAllowed(w) && budget >= 8 {
      SetupDeploys(w, run);
    }
  }

  lemma DestroyTearsDown(w: World, run: DestroyRun)
    requires |DestroyPlan(w, run)| == 6
    ensures IsTornDown(w, run, DoAll(w, DestroyPlan(w, run)))
  {
    hide DoAll, Selected, ChecksPass, Identified;
    var steps := DestroySteps(w, run);
    assert DestroyPlan(w, run) == steps && steps[..6] == steps;
    DestroyStages(w, run, 6);
    DoNone(w, steps);
    DoNext(w, steps, 0);
    DoNext(w, steps, 1);
    DoNext(w, steps, 2);
    DoNext(w, steps, 3);
    DoNext(w, steps, 4);
    DoNext(w, steps, 5);
  }

  // ---------------------------------------------------------------- checks in another account

  const KEY_RESOURCE := Resource(Managed, KEY, Some(Attributes(Undefined, Str("k"), Undefined)))

  /** A setup in account 0 was cut off when Terraform had made a key. */
  const KEY_MADE := World(
    None, Some(OLD), None, Some(Values(Some(Module([KEY_RESOURCE], [])))), map[], {}, {Str("k")}, {}, {Str("k")}, 0)

  /** In account 7 Terraform finds nothing and forgets the key, and there is no such key that is live. */
  const ELSEWHERE := DestroyRun(7, {}, {}, NoValues, {}, {}, false, false)

  lemma KeyTargets()
    ensures TeardownTargets(KEY_MADE.state.value) == Some(Targets(None, Some("k")))
  {
    var resources := [KEY_RESOURCE];
    assert resources[1..] == [] && resources + [] == resources;
    assert ModuleResources(Module(resources, [])) == Some(resources);
    assert |IMAGE| != |KEY| && IdentifierOf(KEY_RESOURCE) == Str("k");
    assert IdentifiersOf(resources[1..], IMAGE) == [] && IdentifiersOf(resources[1..], KEY) == [];
    assert IdentifiersOf(resources, IMAGE) == [] && IdentifiersOf(resources, KEY) == [Str("k")];
    UniqueTargetIs([], None);
    UniqueTargetIs([Str("k")], Some("k"));
  }

  lemma KeyPlan()
    ensures var checkpoint := Checkpoint(OLD.deployment, Targets(None, Some("k")));
            DestroySteps(KEY_MADE, ELSEWHERE) == RemovalPlan(checkpoint, ELSEWHERE) + Ending(OLD, ELSEWHERE)
  {
    KeyTargets();
    CheckpointStarts(OLD.deployment, Targets(None, Some("k")));
  }

  /** A destroy with another account's credentials drops the key from the state, finds no live one there,
      and records the deployment as destroyed while the key lives on. */
  lemma ForeignDestroyLeavesKey()
    ensures var u := DoAll(KEY_MADE, DestroyPlan(KEY_MADE, ELSEWHERE));
            u.result == Some(Destroyed) && !Gone(u)
  {
    var w, steps := KEY_MADE, DestroySteps(KEY_MADE, ELSEWHERE);
    KeyPlan();
    hide DoAll, DestroySteps;
    DoNone(w, steps);
    DoNext(w, steps, 0);
    DoNext(w, steps, 1);
    DoNext(w, steps, 2);
    DoNext(w, steps, 3);
    DoNext(w, steps, 4);
    DoNext(w, steps, 5);
    assert Str("k") in DoAll(w, steps[..6]).keys && Str("k") in DoAll(w, steps[..6]).liveKeys;
  }

  // ---------------------------------------------------------------- the commands

  /** A command, and after how many steps it is cut off; or what happens between commands: the backend
      runs MicroVMs, or Terraform removes resources that the checkpoint already names. */
  datatype Command =
    | SetUp(setup: SetupRun, budget: nat)
    | TearDown(destroy: DestroyRun, budget: nat)
    | Use(images: set<Value>)
    | Prune(left: Document, stopped: set<Value>, scheduled: set<Value>)

  /** What is recorded as destroyed is gone. */
  predicate Settled(w: World) {
    w.result == Some(Destroyed) ==> Gone(w)
  }

  class Deployer {
    var world: World

    constructor ()
      ensures world == BLANK && Kept(world) && NoOrphan(world) && Settled(world)
    {
      world := BLANK;
    }

    method Setup(run: SetupRun, budget: nat) returns (outcome: Outcome)
      requires Kept(world) && Adds(world.state, run.applied)
      modifies this
      ensures world == DoAll(old(world), Within(SetupPlan(old(world), run), budget))
      ensures Kept(world) && (NoOrphan(old(world)) ==> NoOrphan(world)) && (Settled(old(world)) ==> Settled(world))
      ensures outcome.Finished? <==> budget >= 8 && (old(world).result == Some(Destroyed) || Untouched(old(world)))
      ensures outcome.Finished? ==> IsDeployed(old(world), run, world)
      ensures old(world).result != Some(Destroyed) && !Untouched(old(world)) ==> world == old(world)
    {
      SetupDone(world, run, budget);
      hide IsDeployed, Untouched;
      hide Kept, NoOrphan, Gone, Adds, DoAll, SetupAllowed, Applied, Launched, WriteContext, RemoveCheckpoint,
           RemoveResult, CreateSecret, Identified, EntryCount;
      ghost var before, plan := world, SetupPlan(world, run);
      DoNone(before, plan);
      if NoOrphan(before) {
        SetupSecure(before, run, budget);
      }
      outcome := Stopped;
      if !SetupAllowed(world) || budget < 1 {
        assert Within(plan, budget) == plan[..0];
        return;
      }
      SetupStarts(world);
      CheckpointAside(world);
      DoNext(before, plan, 0);
      world := RemoveCheckpoint(world);
      if budget < 2 {
        return;
      }
      DoNext(before, plan, 1);
      world := RemoveResult(world);
      if budget < 3 {
        return;
      }
      var context := Context(run.deployment, run.profile, run.secret);
      ContextKeeps(world, context);
      DoNext(before, plan, 2);
      world := WriteContext(world, context);
      if budget < 4 {
        return;
      }
      DoNext(before, plan, 3);
      if run.secret.Some? && run.secret.value.managed {
        CreateKeeps(world, run.secret.value.id, run.account);
        world := CreateSecret(world, run.secret.value.id, run.account);
      }
      if budget < 5 {
        return;
      }
      DoNext(before, plan, 4);
      if run.secret.Some? {
        ContextKeeps(world, context);
        world := WriteContext(world, context);
      }
      outcome := Deploy(run, budget, context, before);
    }

    /** Terraform, the proof run and the result, once the records are written. */
    method Deploy(run: SetupRun, budget: nat, context: Context, ghost before: World) returns (outcome: Outcome)
      requires SetupAllowed(before) && world == DoAll(before, SetupSteps(run)[..5]) && budget >= 5
      requires Kept(world) && world.result.None? && world.context == Some(context) && Adds(world.state, run.applied)
      requires context == Context(run.deployment, run.profile, run.secret)
      modifies this
      ensures world == DoAll(before, Within(SetupPlan(before, run), budget))
      ensures Kept(world) && world.result != Some(Destroyed)
      ensures outcome.Finished? <==> budget >= 8
    {
      hide Kept, Adds, DoAll, SetupAllowed, Applied, Launched, Identified, EntryCount;
      ghost var plan := SetupPlan(before, run);
      DoNone(before, plan);
      outcome := Stopped;
      if budget < 6 {
        return;
      }
      ApplyKeeps(world, run.applied, run.account);
      DoNext(before, plan, 5);
      world := Applied(world, run.applied, run.account);
      if budget < 7 {
        return;
      }
      LaunchKeeps(world, run.launched);
      DoNext(before, plan, 6);
      world := Launched(world, run.launched);
      if budget < 8 {
        return;
      }
      ReadyKeeps(world);
      DoNext(before, plan, 7);
      world := WriteReady(world, context);
      outcome := Finished;
    }

    /** Terraform destroy only removes resources. */
    method Destroy(run: DestroyRun, budget: nat) returns (outcome: Outcome)
      requires Kept(world) && Removes(world.state, run.left)
      modifies this
      ensures world == DoAll(old(world), Within(DestroyPlan(old(world), run), budget))
      ensures Kept(world) && Retains(old(world).checkpoint, world.checkpoint)
      ensures world.state != old(world).state ==>
                && Identified(old(world).state, IMAGE) <= One(SavedImage(world))
                && Identified(old(world).state, KEY) <= One(SavedKey(world))
      ensures old(world).result != Some(Destroyed) && world.result == Some(Destroyed) &&
              (old(world).state.Some? ==> run.account == old(world).home) ==>
                Gone(world)
      ensures old(world).result == Some(Destroyed) ==> world == old(world)
      ensures NoOrphan(old(world)) ==> (NoOrphan(world) <==> !Forsakes(old(world), run, budget))
      ensures old(world).result != Some(Destroyed) ==>
                (outcome.Finished? <==> budget >= 6 && CanFinish(old(world), run))
      ensures old(world).result != Some(Destroyed) && outcome.Finished? ==> IsTornDown(old(world), run, world)
      ensures outcome.Finished? ==> world.result == Some(Destroyed)
    {
      if world.result != Some(Destroyed) {
        FinishesExactly(world, run);
        if |DestroyPlan(world, run)| == 6 && budget >= 6 {
          DestroyTearsDown(world, run);
        }
      }
      hide CanFinish, IsTornDown;
      hide Kept, NoOrphan, Identified, EntryCount, DoAll, Retains, Removes, Gone, Forsakes;
      if NoOrphan(world) {
        DestroySecure(world, run, budget);
      }
      RetainsSelf(world.checkpoint);
      outcome := Stopped;
      if world.result == Some(Destroyed) || Owner(world).None? {
        DoNone(world, []);
        return if world.result == Some(Destroyed) then Finished else Stopped;
      }
      var stored := Owner(world).value;
      if world.state.None? {
        outcome := DestroyRecord(run, budget, stored);
      } else {
        outcome := DestroyState(run, budget, stored);
      }
    }

    /** Destroy where Terraform left no state: only the secret and the record are to be dealt with. */
    method DestroyRecord(run: DestroyRun, budget: nat, stored: Context) returns (outcome: Outcome)
      requires Kept(world) && world.result != Some(Destroyed) && Owner(world) == Some(stored) && world.state.None?
      modifies this
      ensures world == DoAll(old(world), Within(DestroyPlan(old(world), run), budget))
      ensures Kept(world) && world.checkpoint == old(world).checkpoint && world.state == old(world).state
      ensures world.result == Some(Destroyed) ==> Gone(world)
      ensures outcome.Finished? <==> |Within(DestroyPlan(old(world), run), budget)| == 6
    {
      hide Kept, Gone, DoAll;
      ghost var before, plan := world, DestroyPlan(world, run);
      DoNone(before, plan);
      outcome := Stopped;
      if world.result.Some? || world.checkpoint.Some? {
        return;
      }
      FourSkips(before, plan);
      if budget < 5 {
        return;
      }
      NothingMade(world);
      DoNext(before, plan, 4);
      DoNext(before, plan, 5);
      outcome := Conclude(stored, run.account, budget >= 6);
    }

    /** Destroy where there is a state: checkpoint, removal and checks come first. */
    method DestroyState(run: DestroyRun, budget: nat, stored: Context) returns (outcome: Outcome)
      requires Kept(world) && world.result != Some(Destroyed) && Owner(world) == Some(stored) && world.state.Some?
      requires Removes(world.state, run.left)
      modifies this
      ensures world == DoAll(old(world), Within(DestroyPlan(old(world), run), budget))
      ensures Kept(world) && Retains(old(world).checkpoint, world.checkpoint)
      ensures world.state != old(world).state ==>
                && Identified(old(world).state, IMAGE) <= One(SavedImage(world))
                && Identified(old(world).state, KEY) <= One(SavedKey(world))
      ensures world.result == Some(Destroyed) && run.account == old(world).home ==> Gone(world)
      ensures outcome.Finished? <==> |Within(DestroyPlan(old(world), run), budget)| == 6
    {
      hide Kept, Identified, EntryCount, SelectTeardown, TeardownTargets, DoAll, Retains, Removes, Gone, ChecksPass,
           Covered;
      ghost var before, plan := world, DestroyPlan(world, run);
      DoNone(before, plan);
      RetainsSelf(world.checkpoint);
      outcome := Stopped;
      var targets := TeardownTargets(world.state.value);
      if targets.None? || budget < 1 {
        return;
      }
      var checkpoint := SelectTeardown(stored.deployment, targets.value, SavedAs(world.checkpoint));
      if checkpoint.None? {
        return;
      }
      var image, key := checkpoint.value.targets.imageArn, checkpoint.value.targets.kmsKeyId;
      if world.result.Some? && (key.None? || image.None?) {
        return;
      }
      RemoveAll(run, budget, stored, targets.value, checkpoint.value);
      PlansAgree(before, plan, RemovalPlan(checkpoint.value, run));
      if budget < 5 {
        return;
      }
      var passed := Check(run, checkpoint.value);
      if !passed {
        return;
      }
      NothingMade(world);
      DoNext(before, plan, 4);
      DoNext(before, plan, 5);
      outcome := Conclude(stored, run.account, budget >= 6);
    }

    /** One command, cut off where it is; what the outside makes impossible is skipped. */
    method Perform(c: Command)
      requires Kept(world)
      modifies this
      ensures world == After(old(world), c) && Kept(world)
      ensures c.TearDown? ==> Retains(old(world).checkpoint, world.checkpoint)
      ensures GoneAfter(old(world), c, world)
    {
      hide Kept, DoAll, SetupPlan, DestroyPlan, Covered, Retains, Removed, Launched, NoOrphan, Gone, Forsakes,
           Identified, Adds, Removes;
      RetainsSelf(world.checkpoint);
      if Possible(world, c) {
        match c
        case SetUp(run, budget) => var _ := Setup(run, budget);
        case TearDown(run, budget) => var _ := Destroy(run, budget);
        case Use(images) =>
          LaunchKeeps(world, images);
          world := Launched(world, images);
        case Prune(left, stopped, scheduled) =>
          RemovedKeeps(world, left, stopped, scheduled);
          RemovedAlike(world, left, stopped, scheduled);
          world := Removed(world, left, stopped, scheduled);
      }
    }

    /** The secret is deleted, and then the result written. */
    method Conclude(stored: Context, account: Account, written: bool) returns (outcome: Outcome)
      requires Kept(world) && Empty(world.state) && world.context.Some?
      modifies this
      ensures var u := SecretDeleted(old(world), stored, account); world == if written then WriteDestroyed(u) else u
      ensures Kept(world) && (Gone(old(world)) ==> Gone(world))
      ensures world.checkpoint == old(world).checkpoint && world.state == old(world).state
      ensures written ==> world.result == Some(Destroyed)
      ensures !written ==> world.result == old(world).result
      ensures outcome.Finished? <==> written
    {
      outcome := Stopped;
      SecretsAside(world, SecretDeleted(world, stored, account));
      world := SecretDeleted(world, stored, account);
      hide Kept, Gone, Empty;
      if written {
        DestroyedKeeps(world);
        world := WriteDestroyed(world);
        outcome := Finished;
      }
    }

    /** The checks after Terraform. In the deployment's account they prove that all is gone. */
    method Check(run: DestroyRun, checkpoint: Checkpoint) returns (passed: bool)
      requires Covered(world) && world.state == Some(run.left) && world.checkpoint == Some(checkpoint)
      ensures passed <==> ChecksPass(world, run, checkpoint.targets)
      ensures passed ==> Empty(world.state) && (run.account == world.home ==> Gone(world))
    {
      var image, key := checkpoint.targets.imageArn, checkpoint.targets.kmsKeyId;
      if EntryCount(run.left) != Some(0) {
        return false;
      }
      if image.Some? && ShownActive(world, run, image.value) {
        return false;
      }
      if key.Some? && ShownLive(world, run, key.value) {
        return false;
      }
      if run.account == world.home {
        ChecksProveGone(world);
      }
      return true;
    }

    /** Checkpoint, termination, and Terraform. */
    method RemoveAll(run: DestroyRun, budget: nat, stored: Context, targets: Targets, checkpoint: Checkpoint)
      requires Kept(world) && Removes(world.state, run.left) && budget >= 1
      requires world.result != Some(Destroyed) && Owner(world) == Some(stored) && world.state.Some?
      requires TeardownTargets(world.state.value) == Some(targets)
      requires SelectTeardown(stored.deployment, targets, SavedAs(world.checkpoint)) == Some(checkpoint)
      modifies this
      ensures world == DoAll(old(world), Within(RemovalPlan(checkpoint, run), budget))
      ensures Kept(world) && Covered(world) && world.checkpoint == Some(checkpoint)
      ensures Retains(old(world).checkpoint, world.checkpoint) && world.state.Some?
      ensures world.result == old(world).result && world.context == old(world).context
      ensures world.secrets == old(world).secrets && world.home == old(world).home
      ensures Identified(old(world).state, IMAGE) <= One(SavedImage(world))
      ensures Identified(old(world).state, KEY) <= One(SavedKey(world))
      ensures budget >= 4 ==> world.state == Some(run.left)
    {
      hide Kept, Identified, EntryCount, SelectTeardown, TeardownTargets, DoAll;
      ghost var before, plan := world, RemovalPlan(checkpoint, run);
      DoNone(before, plan);
      CheckpointCovers(world, stored, targets, checkpoint);
      TargetsIdentified(world.state.value);
      DoNext(before, plan, 0);
      world := WriteCheckpoint(world, checkpoint);
      if budget < 2 {
        return;
      }
      DoNext(before, plan, 1);
      if checkpoint.targets.imageArn.Some? {
        BusyKeeps(world, {}, run.terminated);
        world := Terminated(world, run.terminated);
      }
      if budget < 3 {
        return;
      }
      BusyKeeps(world, run.launched, {});
      DoNext(before, plan, 2);
      world := Launched(world, run.launched);
      if budget < 4 {
        return;
      }
      RemovedKeeps(world, run.left, run.stopped, run.scheduled);
      DoNext(before, plan, 3);
      world := Removed(world, run.left, run.stopped, run.scheduled);
    }
  }

  lemma RemovedAlike(w: World, left: Document, stopped: set<Value>, scheduled: set<Value>)
    ensures Removed(w, left, stopped, scheduled).result == w.result
  {
  }

  lemma PlansAgree(w: World, plan: seq<Step>, removal: seq<Step>)
    requires |plan| >= |removal| == 4 && plan[..4] == removal
    ensures forall k :: 0 <= k <= 4 ==> plan[..k] == Within(removal, k)
    ensures forall k :: k >= 4 ==> Within(removal, k) == removal
  {
  }

  lemma RetainsSelf(checkpoint: Option<Checkpoint>)
    ensures Retains(checkpoint, checkpoint)
  {
  }

  lemma FourSkips(w: World, plan: seq<Step>)
    requires |plan| >= 4 && forall k :: 0 <= k < 4 ==> plan[k] == Skip
    ensures forall k :: 0 <= k <= 4 ==> DoAll(w, plan[..k]) == w
  {
    hide DoAll;
    DoNone(w, plan);
    DoNext(w, plan, 0);
    DoNext(w, plan, 1);
    DoNext(w, plan, 2);
    DoNext(w, plan, 3);
  }

  lemma NothingMade(w: World)
    requires Kept(w)
    ensures (w.state.None? ==> Gone(w) && Empty(w.state)) && (Owner(w).Some? ==> w.context.Some?)
  {
  }

  // ---------------------------------------------------------------- one command after another

  /** What the outside may do during a command. */
  predicate Possible(w: World, c: Command) {
    match c
    case SetUp(run, _) => Adds(w.state, run.applied)
    case TearDown(run, _) => Removes(w.state, run.left)
    case Use(_) => true
    case Prune(left, _, _) => w.state.Some? && w.result != Some(Destroyed) && Covered(w) && Removes(w.state, left)
  }

  /** A destroy in another account than the deployment's images and keys are in, where there may be any. */
  predicate Foreign(w: World, c: Command) {
    c.TearDown? && w.state.Some? && c.destroy.account != w.home
  }

  /** What a destroy in the deployment's account records as destroyed is gone, and stays so. */
  predicate GoneAfter(w: World, c: Command, u: World) {
    u.result == Some(Destroyed) ==>
      if w.result == Some(Destroyed) then Gone(w) ==> Gone(u) else !Foreign(w, c) ==> Gone(u)
  }

  /** The world after a command; one that the outside makes impossible is skipped. */
  function After(w: World, c: Command): World {
    if !Possible(w, c) then w
    else
      match c
      case SetUp(run, budget) => DoAll(w, Within(SetupPlan(w, run), budget))
      case TearDown(run, budget) => DoAll(w, Within(DestroyPlan(w, run), budget))
      case Use(images) => Launched(w, images)
      case Prune(left, stopped, scheduled) => Removed(w, left, stopped, scheduled)
  }

  predicate Follow(worlds: seq<World>, commands: seq<Command>) {
    && |worlds| == |commands| + 1 && worlds[0] == BLANK
    && forall k :: 0 <= k < |commands| ==> worlds[k + 1] == After(worlds[k], commands[k])
  }

  /** This command is a destroy that gets to the end in another account than the secret is in. */
  predicate ForsakenBy(w: World, c: Command) {
    c.TearDown? && Possible(w, c) && Forsakes(w, c.destroy, c.budget)
  }

  lemma AfterSecure(w: World, c: Command)
    requires NoOrphan(w)
    ensures NoOrphan(After(w, c)) <==> !ForsakenBy(w, c)
  {
    hide DoAll, SetupPlan, DestroyPlan, Forsakes, Covered, Removes, Adds;
    match c
    case SetUp(run, budget) => SetupSecure(w, run, budget);
    case TearDown(run, budget) => DestroySecure(w, run, budget);
    case _ =>
  }

  /** Over any number of commands, each cut off anywhere and in any account, no secret is ever orphaned if
      and only if no destroy gets to the end in another account than the secret is in. */
  lemma {:induction false} OrphansOverLifetime(worlds: seq<World>, commands: seq<Command>)
    requires Follow(worlds, commands)
    ensures (forall k :: 0 <= k <= |commands| ==> NoOrphan(worlds[k])) <==>
            (forall k :: 0 <= k < |commands| ==> !ForsakenBy(worlds[k], commands[k]))
  {
    hide After, ForsakenBy, NoOrphan;
    if commands == [] {
      BlankSecure();
    } else {
      var n := |commands| - 1;
      assert forall k :: 0 <= k <= n ==> worlds[..n + 1][k] == worlds[k];
      assert forall k :: 0 <= k < n ==> commands[..n][k] == commands[k];
      OrphansOverLifetime(worlds[..n + 1], commands[..n]);
      assert (forall k :: 0 <= k <= n ==> NoOrphan(worlds[k])) <==>
             (forall k :: 0 <= k < n ==> !ForsakenBy(worlds[k], commands[k]));
      assert worlds[n + 1] == After(worlds[n], commands[n]);
      if NoOrphan(worlds[n]) {
        AfterSecure(worlds[n], commands[n]);
      }
    }
  }

  lemma BlankSecure()
    ensures NoOrphan(BLANK)
  {
  }

  /** Any number of commands one after another, each cut off anywhere and in any account: nothing made is
      forgotten, a destroy keeps every checkpointed identifier, and what a destroy in the deployment's
      account records as destroyed is gone and stays so. No secret is orphaned until a destroy gets to the
      end in another account than the secret is in. */
  method Lifetime(commands: seq<Command>) returns (d: Deployer, worlds: seq<World>)
    ensures fresh(d) && Follow(worlds, commands) && worlds[|commands|] == d.world
    ensures forall k :: 0 <= k <= |commands| ==> Remembered(worlds[k])
    ensures Recorded(worlds, commands)
    ensures (forall k :: 0 <= k <= |commands| ==> NoOrphan(worlds[k])) <==>
            (forall k :: 0 <= k < |commands| ==> !ForsakenBy(worlds[k], commands[k]))
  {
    d := new Deployer();
    worlds := [d.world];
    for n := 0 to |commands|
      invariant fresh(d) && Kept(d.world)
      invariant Follow(worlds, commands[..n]) && worlds[n] == d.world
      invariant forall k :: 0 <= k <= n ==> Kept(worlds[k])
      invariant Recorded(worlds, commands[..n])
    {
      hide Kept, Follow, After, Recorded, Retains, GoneAfter;
      d.Perform(commands[n]);
      FollowOn(worlds, commands[..n], d.world, commands[n]);
      assert commands[..n + 1] == commands[..n] + [commands[n]];
      worlds := worlds + [d.world];
    }
    assert commands[..|commands|] == commands;
    OrphansOverLifetime(worlds, commands);
  }

  /** Each destroy keeps every checkpointed identifier, and is right about what is gone. */
  predicate Recorded(worlds: seq<World>, commands: seq<Command>)
    requires |worlds| == |commands| + 1
  {
    forall k :: 0 <= k < |commands| ==>
      && (commands[k].TearDown? ==> Retains(worlds[k].checkpoint, worlds[k + 1].checkpoint))
      && GoneAfter(worlds[k], commands[k], worlds[k + 1])
  }

  lemma FollowOn(worlds: seq<World>, commands: seq<Command>, next: World, c: Command)
    requires Follow(worlds, commands) && Recorded(worlds, commands)
    requires var w := worlds[|commands|];
             next == After(w, c) && (c.TearDown? ==> Retains(w.checkpoint, next.checkpoint)) && GoneAfter(w, c, next)
    ensures Follow(worlds + [next], commands + [c]) && Recorded(worlds + [next], commands + [c])
  {
    hide After, Retains, GoneAfter;
  }
}
