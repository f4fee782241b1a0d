/** Setups and destroys of scripts/aws-quickstart.ts that overlap: nothing in the source keeps one out
    while another runs. A schedule is the order in which their steps fell; whether a secret is orphaned
    anywhere is decided by it alone, without looking at the files or the cloud. */
module QuickstartSchedule {
  import opened Prelude
  import opened Teardown
  import opened QuickstartWorld
  import opened Quickstart

  // ---------------------------------------------------------------- overlapping commands

  datatype Order = ToSetUp(setup: SetupRun) | ToTearDown(destroy: DestroyRun)

  /** The record that a destroy read: of a completed setup, or of one that may not be. */
  datatype Reading = Reading(stored: Context, completed: bool)

  /** What a command reads next, and what it has read; or that it has planned its steps. A setup reads the
      result and then, where there is none, whether there is a context, a state, a checkpoint. A destroy
      reads the result or else the context, then the checkpoint, whether there is a state, and what the
      state holds. */
  datatype Stage =
    | AtResult
    | AtContext
    | AtStateFile
    | AtCheckpointFile
    | AtCheckpoint(reading: Reading)
    | AtState(reading: Reading, saved: Option<Checkpoint>)
    | AtTargets(reading: Reading, saved: Option<Checkpoint>)
    | AtSteps

  /** A command that was begun. One that crashed is never resumed. */
  datatype Begun = Begun(order: Order, stage: Stage, plan: seq<Step>, done: nat)

  /** A step that was done, and the command that did it. */
  datatype Taken = Taken(command: nat, step: Step)

  /** Another command begins, one reads what it reads next or does its next step, or the backend or
      Terraform act between steps. */
  datatype Move = Begin(order: Order) | Go(command: nat) | Meanwhile(step: Step)

  datatype Play = Play(world: World, begun: seq<Begun>, schedule: seq<Taken>)

  function WithPlan(b: Begun, plan: seq<Step>): Begun {
    b.(stage := AtSteps, plan := plan)
  }

  function SetupReads(w: World, b: Begun): Begun
    requires b.order.ToSetUp?
  {
    var plan := SetupSteps(b.order.setup);
    match b.stage
    case AtResult =>
      if w.result.None? then b.(stage := AtContext) else WithPlan(b, if w.result.value.Destroyed? then plan else [])
    case AtContext => if w.context.None? then b.(stage := AtStateFile) else WithPlan(b, [])
    case AtStateFile => if w.state.None? then b.(stage := AtCheckpointFile) else WithPlan(b, [])
    case AtCheckpointFile => WithPlan(b, if w.checkpoint.None? then plan else [])
    case _ => WithPlan(b, [])
  }

  function DestroyReads(w: World, b: Begun): Begun
    requires b.order.ToTearDown?
  {
    var run := b.order.destroy;
    match b.stage
    case AtResult =>
      if w.result.None? then b.(stage := AtContext)
      else if w.result.value.Destroyed? then WithPlan(b, [])
      else b.(stage := AtCheckpoint(Reading(w.result.value.context, true)))
    case AtContext =>
      if w.context.None? then WithPlan(b, []) else b.(stage := AtCheckpoint(Reading(w.context.value, false)))
    case AtCheckpoint(r) => b.(stage := AtState(r, w.checkpoint))
    case AtState(r, saved) =>
      if w.state.None? then WithPlan(b, RecordSteps(r.completed, r.stored, saved, run))
      else b.(stage := AtTargets(r, saved))
    case AtTargets(r, saved) =>
      WithPlan(b, if w.state.None? then [] else StateSteps(w.state.value, r.completed, r.stored, saved, run))
    case _ => b
  }

  /** What a command makes of the next file that it reads. */
  function Reads(w: World, b: Begun): Begun {
    if b.order.ToSetUp? then SetupReads(w, b) else DestroyReads(w, b)
  }

  function ReadsOn(w: World, b: Begun, n: nat): Begun
    decreases n
  {
    if n == 0 || b.stage.AtSteps? then b else ReadsOn(w, Reads(w, b), n - 1)
  }

  /** The plan of a command that nothing interferes with. */
  function PlanAlone(w: World, order: Order): seq<Step> {
    if order.ToSetUp? then SetupPlan(w, order.setup) else DestroySteps(w, order.destroy)
  }

  /** A command during whose reading nothing changes makes the plan that it makes alone. */
  lemma ReadsAlone(w: World, order: Order)
    ensures ReadsOn(w, Begun(order, AtResult, [], 0), 5) == Begun(order, AtSteps, PlanAlone(w, order), 0)
  {
    hide SetupSteps, RecordSteps, StateSteps;
    var b0 := Begun(order, AtResult, [], 0);
    var b1 := Reads(w, b0);
    var b2 := Reads(w, b1);
    var b3 := Reads(w, b2);
    var b4 := Reads(w, b3);
    assert ReadsOn(w, b4, 1) == if b4.stage.AtSteps? then b4 else Reads(w, b4);
    assert ReadsOn(w, b3, 2) == if b3.stage.AtSteps? then b3 else ReadsOn(w, b4, 1);
    assert ReadsOn(w, b2, 3) == if b2.stage.AtSteps? then b2 else ReadsOn(w, b3, 2);
    assert ReadsOn(w, b1, 4) == if b1.stage.AtSteps? then b1 else ReadsOn(w, b2, 3);
  }

  /** A destroy that has removed what the state showed goes on only if its checks pass now. */
  predicate Fails(w: World, b: Begun) {
    && b.order.ToTearDown? && b.done == 4 && b.plan != [] && b.plan[0].PutCheckpoint?
    && !ChecksPass(w, b.order.destroy, b.plan[0].checkpoint.targets)
  }

  predicate CanGo(p: Play, command: nat) {
    command < |p.begun| && p.begun[command].stage.AtSteps? && p.begun[command].done < |p.begun[command].plan|
  }

  function NextStep(p: Play, command: nat): Step
    requires CanGo(p, command)
  {
    p.begun[command].plan[p.begun[command].done]
  }

  function Went(p: Play, command: nat): Play
    requires CanGo(p, command)
  {
    var b, step := p.begun[command], NextStep(p, command);
    Play(Do(p.world, step), p.begun[command := b.(done := b.done + 1)], p.schedule + [Taken(command, step)])
  }

  /** A command that does no more than it has done. */
  function Halted(b: Begun): Begun {
    if b.done <= |b.plan| then b.(plan := b.plan[..b.done]) else b
  }

  function Advanced(p: Play, command: nat, b: Begun): Play
    requires command < |p.begun|
  {
    p.(begun := p.begun[command := b])
  }

  function Next(p: Play, move: Move): Play {
    match move
    case Begin(order) => p.(begun := p.begun + [Begun(order, AtResult, [], 0)])
    case Go(command) =>
      if command >= |p.begun| then p
      else if !p.begun[command].stage.AtSteps? then Advanced(p, command, Reads(p.world, p.begun[command]))
      else if !CanGo(p, command) then p
      else if Fails(p.world, p.begun[command]) then Advanced(p, command, Halted(p.begun[command]))
      else Went(p, command)
    case Meanwhile(step) => if step.Run? || step.Remove? then p.(world := Do(p.world, step)) else p
  }

  // ---------------------------------------------------------------- one command undisturbed

  /** The command goes on, and nothing else happens. */
  function Goes(p: Play, command: nat, n: nat): Play
    decreases n
  {
    if n == 0 then p else Goes(Next(p, Go(command)), command, n - 1)
  }

  /** All that a command does that nothing interferes with. */
  function Alone(w: World, order: Order): seq<Step> {
    if order.ToSetUp? then SetupPlan(w, order.setup) else DestroyPlan(w, order.destroy)
  }

  /** The command has done the first steps of what it does alone. */
  predicate Under(p: Play, command: nat, w: World, order: Order) {
    && command < |p.begun|
    && var b, steps := p.begun[command], Alone(w, order);
       && b.order == order && b.stage.AtSteps? && b.done <= |steps|
       && (b.plan == PlanAlone(w, order) || b.plan == steps)
       && p.world == DoAll(w, steps[..b.done])
  }

  /** A destroy stops after the removal exactly where what it does alone ends there. */
  lemma StopsAlone(p: Play, command: nat, w: World, order: Order)
    requires Under(p, command, w, order) && CanGo(p, command)
    ensures Fails(p.world, p.begun[command]) <==> p.begun[command].done == |Alone(w, order)|
    ensures Fails(p.world, p.begun[command]) ==> Halted(p.begun[command]).plan == Alone(w, order)
  {
    hide Do, DoAll, SetupSteps, ChecksPass, RecordSteps, StateSteps;
    var b, steps, all := p.begun[command], Alone(w, order), PlanAlone(w, order);
    if order.ToTearDown? {
      assert steps <= all && steps[..4] == all[..4] by {
        assert steps == [] || |steps| >= 4;
      }
      assert all[0].PutCheckpoint? <==> w.state.Some? by {
        FirstStep(w, order.destroy);
      }
      assert b.done == 4 ==> p.world == DoAll(w, all[..4]);
    }
  }

  lemma FirstStep(w: World, run: DestroyRun)
    ensures var steps := DestroySteps(w, run); steps != [] ==> (steps[0].PutCheckpoint? <==> w.state.Some?)
  {
    hide Selected;
  }

  lemma UnderNext(p: Play, command: nat, w: World, order: Order)
    requires Under(p, command, w, order)
    ensures var q, done := Next(p, Go(command)), p.begun[command].done;
            && Under(q, command, w, order)
            && q.begun[command].done == if done < |Alone(w, order)| then done + 1 else done
  {
    hide Do, DoAll, Alone, PlanAlone, Fails;
    var b, steps, all := p.begun[command], Alone(w, order), PlanAlone(w, order);
    assert steps <= all by {
      AlonePrefix(w, order);
    }
    if CanGo(p, command) {
      StopsAlone(p, command, w, order);
      if b.done < |steps| {
        DoNext(w, steps, b.done);
        assert b.plan[b.done] == steps[b.done];
      }
    }
  }

  lemma AlonePrefix(w: World, order: Order)
    ensures Alone(w, order) <= PlanAlone(w, order)
  {
    hide DestroySteps, SetupPlan, ChecksPass, DoAll;
  }

  lemma {:induction false} UnderGoes(p: Play, command: nat, w: World, order: Order, n: nat)
    requires Under(p, command, w, order)
    ensures Goes(p, command, n).world == DoAll(w, Within(Alone(w, order), p.begun[command].done + n))
    decreases n
  {
    hide Alone, DoAll, Next, PlanAlone;
    var steps := Alone(w, order);
    if n == 0 {
      assert steps[..|steps|] == steps;
    } else {
      UnderNext(p, command, w, order);
      UnderGoes(Next(p, Go(command)), command, w, order, n - 1);
      assert steps[..|steps|] == steps;
    }
  }

  lemma {:induction false} GoesOn(p: Play, command: nat, m: nat, n: nat)
    ensures Goes(p, command, m + n) == Goes(Goes(p, command, m), command, n)
    decreases m
  {
    hide Next;
    if m > 0 {
      GoesOn(Next(p, Go(command)), command, m - 1, n);
    }
  }

  lemma {:induction false} ReadingGoes(p: Play, command: nat, n: nat) returns (r: nat)
    requires command < |p.begun| && ReadsOn(p.world, p.begun[command], n).stage.AtSteps?
    ensures r <= n && Goes(p, command, r) == Advanced(p, command, ReadsOn(p.world, p.begun[command], n))
    decreases n
  {
    hide Reads;
    if p.begun[command].stage.AtSteps? {
      r := 0;
    } else {
      r := ReadingGoes(Next(p, Go(command)), command, n - 1);
      r := r + 1;
    }
  }

  /** After r moves the command does, in n more, n steps of what it does alone. */
  predicate DoesAlone(p: Play, order: Order, r: nat, n: nat) {
    Goes(Next(p, Begin(order)), |p.begun|, r + n).world == DoAll(p.world, Within(Alone(p.world, order), n))
  }

  ghost predicate ReadsIn(p: Play, order: Order, r: nat) {
    r <= 5 && forall n: nat :: DoesAlone(p, order, r, n)
  }

  /** Whatever went before, a command that is begun now and not interfered with reads at most five times
      and then does, move by move, what it does alone. */
  lemma UndisturbedDoes(p: Play, order: Order)
    ensures exists r: nat :: ReadsIn(p, order, r)
  {
    hide Alone, PlanAlone, Reads, Goes, DoAll, Do;
    var q, c, b := Next(p, Begin(order)), |p.begun|, Begun(order, AtResult, [], 0);
    ReadsAlone(p.world, order);
    var r := ReadingGoes(q, c, 5);
    var u := Goes(q, c, r);
    assert u.begun[c] == Begun(order, AtSteps, PlanAlone(p.world, order), 0);
    DoNone(p.world, Alone(p.world, order));
    forall n: nat ensures DoesAlone(p, order, r, n) {
      GoesOn(q, c, r, n);
      UnderGoes(u, c, p.world, order, n);
    }
    assert ReadsIn(p, order, r);
  }

  /** Between steps the backend runs MicroVMs of deployed images, and Terraform removes resources; nothing
      else happens by itself. */
  lemma MeanwhileIs(p: Play, step: Step)
    ensures var q := Next(p, Meanwhile(step));
            && q.begun == p.begun && q.schedule == p.schedule
            && match step
               case Run(images) => q.world == p.world.(busy := p.world.busy + images * Identified(p.world.state, IMAGE))
               case Remove(left, stopped, scheduled) =>
                 q.world == p.world.(state := Some(left), busy := p.world.busy - stopped,
                                     liveKeys := p.world.liveKeys - scheduled)
               case _ => q == p
  {
    hide Identified;
  }

  /** What the moves lead to on a machine where nothing was ever set up. */
  function Played(moves: seq<Move>): Play {
    if moves == [] then Play(BLANK, [], [])
    else Next(Played(moves[..|moves| - 1]), moves[|moves| - 1])
  }

  /** The ids of the secrets that setups make are all different. */
  predicate DistinctIds(begun: seq<Begun>) {
    forall i, j :: 0 <= i < j < |begun| && MadeBy(begun[i].order).Some? ==>
      MadeBy(begun[i].order) != MadeBy(begun[j].order)
  }

  function MadeBy(order: Order): Option<nat> {
    if order.ToSetUp? && order.setup.secret.Some? && order.setup.secret.value.managed
    then Some(order.setup.secret.value.id) else None
  }

  // ---------------------------------------------------------------- what a schedule says

  /** Who wrote the result file last: nobody, or it was removed since; a setup; or a destroy. */
  datatype Writer = Nobody | Setter(command: nat) | Destroyer

  function ResultWriter(schedule: seq<Taken>): Writer {
    if schedule == [] then Nobody
    else
      var last := schedule[|schedule| - 1];
      match last.step
      case DropResult => Nobody
      case PutReady(_) => Setter(last.command)
      case PutDestroyed => Destroyer
      case _ => ResultWriter(schedule[..|schedule| - 1])
  }

  /** Which command wrote the context file last. */
  function ContextWriter(schedule: seq<Taken>): Option<nat> {
    if schedule == [] then None
    else
      var last := schedule[|schedule| - 1];
      if last.step.PutContext? then Some(last.command) else ContextWriter(schedule[..|schedule| - 1])
  }

  /** The record that a destroy would read was put by this command. */
  predicate InForce(schedule: seq<Taken>, command: nat) {
    match ResultWriter(schedule)
    case Nobody => ContextWriter(schedule) == Some(command)
    case Setter(setter) => setter == command
    case Destroyer => false
  }

  /** After these steps, this one takes effect against the record of that command: it writes another
      result, a context where there is no result, or drops the result over another's context. */
  predicate Displaces(past: seq<Taken>, t: Taken, command: nat) {
    match t.step
    case PutReady(_) => t.command != command
    case PutDestroyed => true
    case PutContext(_) => t.command != command && ResultWriter(past) == Nobody
    case DropResult => ContextWriter(past) != Some(command)
    case _ => false
  }

  /** The step deletes the secret that the other made: its id, in its account. */
  predicate Deletes(step: Step, made: Step) {
    step.DropSecret? && made.MakeSecret?
    && step.stored.secret == Some(SecretRef(made.id, true)) && step.account == made.account
  }

  predicate Makes(schedule: seq<Taken>, k: int) {
    0 <= k < |schedule| && schedule[k].step.MakeSecret?
  }

  /** The secret made by step `k` has been deleted since. */
  predicate Deleted(schedule: seq<Taken>, k: nat)
    requires k < |schedule|
  {
    exists d :: k < d < |schedule| && Deletes(schedule[d].step, schedule[k].step)
  }

  /** The condition on the order of steps: whenever a secret is made the record in force was put by the
      same setup, and until it is deleted, in its account, no step takes effect against that record. */
  predicate Orderly(schedule: seq<Taken>) {
    forall k {:trigger Makes(schedule, k)} :: 0 <= k < |schedule| && Makes(schedule, k) ==>
      && InForce(schedule[..k], schedule[k].command)
      && forall p :: k < p < |schedule| && !Deleted(schedule[..p], k) ==>
           !Displaces(schedule[..p], schedule[p], schedule[k].command)
  }

  // ---------------------------------------------------------------- one step more

  predicate Alive(schedule: seq<Taken>, k: int) {
    Makes(schedule, k) && !Deleted(schedule, k)
  }

  lemma AliveNext(schedule: seq<Taken>, t: Taken, k: int)
    ensures 0 <= k < |schedule| ==>
              (Alive(schedule + [t], k) <==> Alive(schedule, k) && !Deletes(t.step, schedule[k].step))
    ensures k == |schedule| ==> (Alive(schedule + [t], k) <==> t.step.MakeSecret?)
  {
    var more := schedule + [t];
    assert forall d :: 0 <= d < |schedule| ==> more[d] == schedule[d];
    if 0 <= k < |schedule| && Makes(schedule, k) {
      if Deleted(more, k) {
        var d :| k < d < |more| && Deletes(more[d].step, more[k].step);
      } else {
        assert !Deletes(more[|schedule|].step, more[k].step);
      }
    }
  }

  /** A step changes who is in force exactly as `Displaces` says. */
  lemma InForceNext(schedule: seq<Taken>, t: Taken, command: nat)
    requires InForce(schedule, command)
    ensures InForce(schedule + [t], command) <==> !Displaces(schedule, t, command)
  {
    assert (schedule + [t])[..|schedule|] == schedule;
  }

  lemma WritersNext(schedule: seq<Taken>, t: Taken)
    ensures ResultWriter(schedule + [t]) ==
            match t.step
            case DropResult => Nobody
            case PutReady(_) => Setter(t.command)
            case PutDestroyed => Destroyer
            case _ => ResultWriter(schedule)
    ensures ContextWriter(schedule + [t]) == if t.step.PutContext? then Some(t.command) else ContextWriter(schedule)
  {
    assert (schedule + [t])[..|schedule|] == schedule;
  }

  /** What the next step must be like for the schedule to stay orderly. */
  ghost predicate Fitting(schedule: seq<Taken>, t: Taken) {
    && (t.step.MakeSecret? ==> InForce(schedule, t.command))
    && forall k {:trigger Alive(schedule, k)} :: Alive(schedule, k) ==> !Displaces(schedule, t, schedule[k].command)
  }

  lemma OrderlyNext(schedule: seq<Taken>, t: Taken)
    ensures Orderly(schedule + [t]) <==> Orderly(schedule) && Fitting(schedule, t)
  {
    hide InForce, Displaces, Deleted;
    var more, n := schedule + [t], |schedule|;
    assert more[..n] == schedule && forall p :: 0 <= p < n ==> more[p] == schedule[p] && more[..p] == schedule[..p];
    assert forall k :: Makes(schedule, k) <==> Makes(more, k) && k < n;
    assert forall k :: Alive(schedule, k) <==> Makes(schedule, k) && !Deleted(schedule, k);
    if Orderly(more) {
      assert t.step.MakeSecret? ==> Makes(more, n);
    }
    if Orderly(schedule) && Fitting(schedule, t) {
      forall k, p | Makes(more, k) && k < p < |more| && !Deleted(more[..p], k)
        ensures !Displaces(more[..p], more[p], more[k].command)
      {
        if p < n {
          assert Makes(schedule, k) && more[..p] == schedule[..p];
        } else {
          assert Alive(schedule, k);
        }
      }
    }
  }

  // ---------------------------------------------------------------- schedules and worlds

  /** What a step says of the command that did it. */
  predicate Fits(step: Step, order: Order) {
    match step
    case PutContext(context) => order.ToSetUp? && context == ContextOf(order.setup)
    case PutReady(context) => order.ToSetUp? && context == ContextOf(order.setup)
    case MakeSecret(id, account) => MadeBy(order) == Some(id) && account == order.setup.account
    case DropResult => order.ToSetUp?
    case _ => true
  }

  function ContextOf(run: SetupRun): Context {
    Context(run.deployment, run.profile, run.secret)
  }

  /** The files are what the last writers made them, and the secrets are those made and not deleted. */
  predicate Records(w: World, schedule: seq<Taken>, begun: seq<Begun>) {
    && (match ResultWriter(schedule)
        case Nobody => w.result.None?
        case Setter(c) => c < |begun| && begun[c].order.ToSetUp? &&
          w.result == Some(Ready(ContextOf(begun[c].order.setup)))
        case Destroyer => w.result == Some(Destroyed))
    && (match ContextWriter(schedule)
        case None => w.context.None?
        case Some(c) => c < |begun| && begun[c].order.ToSetUp? && w.context == Some(ContextOf(begun[c].order.setup)))
  }

  ghost predicate Holds(w: World, schedule: seq<Taken>, id: nat) {
    id in w.secrets <==> exists k {:trigger Alive(schedule, k)} :: Alive(schedule, k) && schedule[k].step.id == id
  }

  ghost predicate Secrets(w: World, schedule: seq<Taken>) {
    && (forall id :: Holds(w, schedule, id))
    && forall k {:trigger Alive(schedule, k)} :: Alive(schedule, k) ==>
         schedule[k].step.id in w.secrets && w.secrets[schedule[k].step.id] == schedule[k].step.account
  }

  predicate AllFit(schedule: seq<Taken>, begun: seq<Begun>) {
    forall n :: 0 <= n < |schedule| ==>
      schedule[n].command < |begun| && Fits(schedule[n].step, begun[schedule[n].command].order)
  }

  lemma RecordsNext(w: World, schedule: seq<Taken>, begun: seq<Begun>, t: Taken)
    requires Records(w, schedule, begun) && t.command < |begun| && Fits(t.step, begun[t.command].order)
    ensures Records(Do(w, t.step), schedule + [t], begun)
  {
    WritersNext(schedule, t);
    hide ResultWriter, ContextWriter;
  }

  /** No secret with this id was made before. */
  ghost predicate New(schedule: seq<Taken>, step: Step) {
    step.MakeSecret? ==> forall k {:trigger Makes(schedule, k)} :: Makes(schedule, k) ==> schedule[k].step.id != step.id
  }

  lemma SecretsNext(w: World, schedule: seq<Taken>, t: Taken)
    requires Secrets(w, schedule) && New(schedule, t.step)
    requires forall j, k :: Makes(schedule, j) && Makes(schedule, k) && schedule[j].step.id == schedule[k].step.id ==>
               j == k
    ensures Secrets(Do(w, t.step), schedule + [t])
  {
    var u, more, n := Do(w, t.step), schedule + [t], |schedule|;
    forall k
      ensures 0 <= k < n ==>
                more[k] == schedule[k] && (Alive(more, k) <==> Alive(schedule, k) && !Deletes(t.step, schedule[k].step))
      ensures k == n ==> (Alive(more, k) <==> t.step.MakeSecret?)
      ensures k < 0 || k > n ==> !Alive(more, k)
    {
      AliveNext(schedule, t, k);
    }
    forall id ensures Holds(u, more, id) {
      assert Holds(w, schedule, id);
      if id in u.secrets {
        if t.step.MakeSecret? && t.step.id == id {
          assert Alive(more, n) && more[n].step.id == id;
        } else {
          var k :| Alive(schedule, k) && schedule[k].step.id == id;
          assert Alive(more, k) && more[k].step.id == id;
        }
      }
    }
  }

  /** A living secret is named by the record that a destroy would read exactly if its setup put that. */
  lemma NamedInForce(w: World, schedule: seq<Taken>, begun: seq<Begun>, k: int)
    requires Records(w, schedule, begun) && AllFit(schedule, begun) && DistinctIds(begun) &&
             Makes(schedule, k)
    ensures InForce(schedule, schedule[k].command) <==>
            Owner(w).Some? && Owner(w).value.secret == Some(SecretRef(schedule[k].step.id, true))
  {
    var c, id := schedule[k].command, schedule[k].step.id;
    assert MadeBy(begun[c].order) == Some(id);
    hide ResultWriter, ContextWriter;
  }

  lemma NoOrphanMeans(w: World, schedule: seq<Taken>, begun: seq<Begun>)
    requires Records(w, schedule, begun) && Secrets(w, schedule) && AllFit(schedule, begun) &&
             DistinctIds(begun)
    ensures NoOrphan(w) <==> forall k :: Alive(schedule, k) ==> InForce(schedule, schedule[k].command)
  {
    forall k | Alive(schedule, k)
      ensures InForce(schedule, schedule[k].command) <==>
              Owner(w).Some? && Owner(w).value.secret == Some(SecretRef(schedule[k].step.id, true))
    {
      NamedInForce(w, schedule, begun, k);
    }
    hide Records, Alive, InForce, Owner;
    forall id | id in w.secrets ensures exists k :: Alive(schedule, k) && schedule[k].step.id == id {
      assert Holds(w, schedule, id);
    }
  }

  // ---------------------------------------------------------------- what every play keeps

  /** A begun command has no plan yet, or still the one it made. */
  predicate Planned(b: Begun) {
    b.done <= |b.plan| && (!b.stage.AtSteps? ==> b.plan == []) &&
    match b.order
    case ToSetUp(run) => b.plan == [] || b.plan == SetupSteps(run)
    case ToTearDown(_) => forall n :: 0 <= n < |b.plan| ==> OfDestroy(b.plan[n])
  }

  predicate OfDestroy(step: Step) {
    !step.PutContext? && !step.PutReady? && !step.MakeSecret? && !step.DropResult?
  }

  /** A secret that was made, was made by the fourth step of its setup. */
  ghost predicate MadeOnce(schedule: seq<Taken>, begun: seq<Begun>) {
    && (forall k {:trigger Makes(schedule, k)} :: Makes(schedule, k) ==>
          schedule[k].command < |begun| && begun[schedule[k].command].done > 3)
    && forall j, k {:trigger Makes(schedule, j), Makes(schedule, k)} ::
         Makes(schedule, j) && Makes(schedule, k) && schedule[j].command == schedule[k].command ==> j == k
  }

  ghost predicate Sound(p: Play) {
    && (forall c :: 0 <= c < |p.begun| ==> Planned(p.begun[c]))
    && AllFit(p.schedule, p.begun) && MadeOnce(p.schedule, p.begun)
    && Records(p.world, p.schedule, p.begun) && Secrets(p.world, p.schedule)
  }

  lemma ReadsPlanned(w: World, b: Begun)
    requires Planned(b) && !b.stage.AtSteps?
    ensures var c := Reads(w, b); Planned(c) && c.order == b.order && c.done == b.done
  {
    hide Selected;
  }

  lemma HaltedPlanned(w: World, b: Begun)
    requires Planned(b) && Fails(w, b)
    ensures var c := Halted(b); Planned(c) && c.order == b.order && c.done == b.done
  {
    hide ChecksPass;
  }

  lemma StepFits(b: Begun)
    requires Planned(b) && b.done < |b.plan|
    ensures Fits(b.plan[b.done], b.order)
    ensures b.plan[b.done].MakeSecret? ==> b.done == 3
  {
  }

  lemma BeginSound(p: Play, order: Order)
    requires Sound(p)
    ensures Sound(Next(p, Begin(order)))
  {
    hide Alive, Secrets, Fits, SetupSteps, ResultWriter, ContextWriter, Makes;
    var q := Next(p, Begin(order));
    assert Planned(q.begun[|p.begun|]);
    hide Planned;
    assert forall c :: 0 <= c < |p.begun| ==> q.begun[c] == p.begun[c];
    SoundAlike(p, q);
  }

  /** Sound is what has the same world and schedule, with the same commands as far and planned. */
  lemma SoundAlike(p: Play, q: Play)
    requires Sound(p) && q.world == p.world && q.schedule == p.schedule && |q.begun| >= |p.begun|
    requires forall c :: 0 <= c < |q.begun| ==> Planned(q.begun[c])
    requires forall c :: 0 <= c < |p.begun| ==>
               q.begun[c].order == p.begun[c].order && q.begun[c].done == p.begun[c].done
    ensures Sound(q)
  {
    hide Alive, Secrets, Fits, ResultWriter, ContextWriter, Planned;
    forall n | 0 <= n < |p.schedule|
      ensures var c := p.schedule[n].command;
              c < |p.begun| && q.begun[c].order == p.begun[c].order && q.begun[c].done == p.begun[c].done
    {
      assert Fits(p.schedule[n].step, p.begun[p.schedule[n].command].order);
    }
    assert forall k :: Makes(q.schedule, k) ==> 0 <= k < |q.schedule|;
    assert MadeOnce(q.schedule, q.begun);
    assert Records(q.world, q.schedule, q.begun);
    assert Secrets(q.world, q.schedule);
  }

  lemma AdvancedSound(p: Play, command: nat, b: Begun)
    requires Sound(p) && command < |p.begun| && Planned(b)
    requires b.order == p.begun[command].order && b.done == p.begun[command].done
    ensures Sound(Advanced(p, command, b))
  {
    hide AllFit, MadeOnce, Records, Secrets, Planned;
    SoundAlike(p, Advanced(p, command, b));
  }

  lemma MeanwhileSound(p: Play, step: Step)
    requires Sound(p)
    ensures Sound(Next(p, Meanwhile(step)))
  {
    hide Alive, AllFit, MadeOnce, Planned, ResultWriter, ContextWriter, ContextOf;
    var q := Next(p, Meanwhile(step));
    assert q.world.secrets == p.world.secrets;
    assert forall id :: Holds(p.world, p.schedule, id) ==> Holds(q.world, q.schedule, id);
    assert Records(q.world, q.schedule, q.begun) && Secrets(q.world, q.schedule);
  }

  lemma GoSound(p: Play, command: nat)
    requires Sound(p) && CanGo(p, command) && DistinctIds(p.begun)
    ensures Sound(Went(p, command))
  {
    var t, q := Taken(command, NextStep(p, command)), Went(p, command);
    StepFits(p.begun[command]);
    OnceMore(p, command);
    RecordsNext(p.world, p.schedule, p.begun, t);
    SecretsNext(p.world, p.schedule, t);
    hide Fits, Do, Secrets, Alive, MadeOnce, ResultWriter, ContextWriter, ContextOf, OfDestroy, SetupSteps;
    assert Records(q.world, q.schedule, q.begun);
  }

  lemma OnceMore(p: Play, command: nat)
    requires Sound(p) && CanGo(p, command) && DistinctIds(p.begun)
    ensures MadeOnce(Went(p, command).schedule, Went(p, command).begun) && New(p.schedule, NextStep(p, command))
    ensures var s := p.schedule;
            forall j, k :: Makes(s, j) && Makes(s, k) && s[j].step.id == s[k].step.id ==> j == k
  {
    hide Records, Secrets, Do;
    StepFits(p.begun[command]);
    var s, more := p.schedule, Went(p, command).schedule;
    assert forall k :: 0 <= k < |s| ==> more[k] == s[k];
    assert forall k :: Makes(more, k) ==> Makes(s, k) || (k == |s| && NextStep(p, command).MakeSecret?);
  }

  // ---------------------------------------------------------------- exactly when a secret is orphaned

  lemma NextDistinct(p: Play, move: Move)
    requires DistinctIds(Next(p, move).begun)
    ensures DistinctIds(p.begun)
  {
    var q := Next(p, move);
    assert forall i :: 0 <= i < |p.begun| ==> q.begun[i].order == p.begun[i].order;
  }

  lemma SoundPlanned(p: Play, command: nat)
    requires Sound(p) && command < |p.begun|
    ensures Planned(p.begun[command])
  {
  }

  lemma NextExactly(p: Play, move: Move)
    requires Sound(p) && DistinctIds(Next(p, move).begun)
    ensures Sound(Next(p, move))
    ensures var q := Next(p, move);
            && (NoOrphan(p.world) && Orderly(p.schedule) ==> (NoOrphan(q.world) <==> Orderly(q.schedule)))
            && (Orderly(q.schedule) ==> Orderly(p.schedule))
  {
    NextDistinct(p, move);
    hide Sound, Orderly, NoOrphan, Do, Reads, Halted, Fails, Planned, DistinctIds, Fitting;
    match move
    case Begin(order) =>
      BeginSound(p, order);
    case Meanwhile(step) =>
      MeanwhileSound(p, step);
      if step.Run? || step.Remove? {
        SameRecords(p.world, step);
      }
    case Go(command) =>
      if command < |p.begun| && !p.begun[command].stage.AtSteps? {
        SoundPlanned(p, command);
        ReadsPlanned(p.world, p.begun[command]);
        AdvancedSound(p, command, Reads(p.world, p.begun[command]));
      } else if CanGo(p, command) && Fails(p.world, p.begun[command]) {
        SoundPlanned(p, command);
        HaltedPlanned(p.world, p.begun[command]);
        AdvancedSound(p, command, Halted(p.begun[command]));
      } else if CanGo(p, command) {
        GoSound(p, command);
        if NoOrphan(p.world) {
          GoExactly(p, command);
        }
        OrderlyNext(p.schedule, Taken(command, NextStep(p, command)));
      }
  }

  lemma SameRecords(w: World, step: Step)
    requires step.Run? || step.Remove?
    ensures NoOrphan(Do(w, step)) <==> NoOrphan(w)
  {
  }

  lemma GoExactly(p: Play, command: nat)
    requires Sound(p) && CanGo(p, command) && DistinctIds(p.begun) && Sound(Went(p, command))
    requires NoOrphan(p.world)
    ensures NoOrphan(Went(p, command).world) <==> Fitting(p.schedule, Taken(command, NextStep(p, command)))
  {
    var q, s, t := Went(p, command), p.schedule, Taken(command, NextStep(p, command));
    NoOrphanMeans(p.world, s, p.begun);
    NoOrphanMeans(q.world, q.schedule, q.begun);
    InForceAfter(s, t);
  }

  /** All living secrets stay in force exactly if the step fits. */
  lemma InForceAfter(s: seq<Taken>, t: Taken)
    requires forall k :: Alive(s, k) ==> InForce(s, s[k].command)
    ensures (forall k :: Alive(s + [t], k) ==> InForce(s + [t], (s + [t])[k].command)) <==> Fitting(s, t)
  {
    var more, n := s + [t], |s|;
    forall k
      ensures 0 <= k < n ==> more[k] == s[k] && (Alive(more, k) <==> Alive(s, k) && !Deletes(t.step, s[k].step))
      ensures k == n ==> (Alive(more, k) <==> t.step.MakeSecret?)
      ensures Alive(s, k) ==> (InForce(more, s[k].command) <==> !Displaces(s, t, s[k].command))
    {
      AliveNext(s, t, k);
      if Alive(s, k) {
        InForceNext(s, t, s[k].command);
      }
    }
    WritersNext(s, t);
    hide ResultWriter, ContextWriter, Alive;
    assert t.step.MakeSecret? ==> (InForce(more, t.command) <==> InForce(s, t.command));
    assert more[n] == t;
  }

  lemma NothingPlayed()
    ensures var p := Played([]); Sound(p) && NoOrphan(p.world) && Orderly(p.schedule)
  {
    hide Deleted, Planned, Fits, InForce, Displaces;
    assert forall k :: !Makes([], k);
    var p := Played([]);
    hide Makes;
    assert Records(p.world, [], []) && Secrets(p.world, []) && AllFit([], []) && MadeOnce([], []);
  }

  lemma PlayedNext(moves: seq<Move>)
    requires moves != []
    ensures var m := |moves| - 1;
            moves[..|moves|] == moves &&
              Played(moves) == Next(Played(moves[..m]), moves[m])
  {
  }

  /** No secret is orphaned after any number of the moves, where any command may crash. */
  predicate NeverOrphans(moves: seq<Move>) {
    forall n :: 0 <= n <= |moves| ==> NoOrphan(Played(moves[..n]).world)
  }

  lemma NeverNext(moves: seq<Move>)
    requires moves != []
    ensures NeverOrphans(moves) <==>
            NeverOrphans(moves[..|moves| - 1]) && NoOrphan(Played(moves).world)
    ensures NeverOrphans(moves[..|moves| - 1]) ==> NoOrphan(Played(moves[..|moves| - 1]).world)
  {
    hide NoOrphan, Played;
    var m := |moves| - 1;
    assert moves[..m + 1] == moves;
    forall n | 0 <= n <= m ensures moves[..m][..n] == moves[..n] {
    }
    if NeverOrphans(moves[..m]) {
      assert NoOrphan(Played(moves[..m][..m]).world);
    }
    if NeverOrphans(moves) {
      assert NoOrphan(Played(moves[..m + 1]).world);
      forall n | 0 <= n <= m ensures NoOrphan(Played(moves[..m][..n]).world) {
        assert NoOrphan(Played(moves[..n]).world);
      }
    }
  }

  /** However setups and destroys overlap, and wherever any of them crash: no secret is orphaned at any
      point if and only if the order in which their steps fell is orderly. */
  lemma {:induction false} OrphansExactly(moves: seq<Move>)
    requires DistinctIds(Played(moves).begun)
    ensures Sound(Played(moves))
    ensures NeverOrphans(moves) <==> Orderly(Played(moves).schedule)
  {
    if moves == [] {
      NothingPlayed();
    } else {
      PlayedNext(moves);
      hide Sound, Orderly, NoOrphan, Next, Played, DistinctIds, NeverOrphans;
      var before, move := moves[..|moves| - 1], moves[|moves| - 1];
      NextDistinct(Played(before), move);
      OrphansExactly(before);
      NextExactly(Played(before), move);
      NeverNext(moves);
    }
  }

  // ---------------------------------------------------------------- two setups

  /** While its secret lives the setup that made it is in force. */
  lemma {:induction false} LivingInForce(schedule: seq<Taken>, k: nat, n: nat)
    requires Orderly(schedule) && Makes(schedule, k) && k <= n <= |schedule|
    requires k < n ==> !Deleted(schedule[..n], k)
    ensures InForce(schedule[..n], schedule[k].command)
  {
    if n > k {
      var past, t := schedule[..n - 1], schedule[n - 1];
      assert schedule[..n] == past + [t];
      if n - 1 > k {
        assert forall d :: k < d < n - 1 ==> schedule[..n][d] == past[d];
        assert !Deleted(past, k);
      }
      LivingInForce(schedule, k, n - 1);
      assert !Displaces(past, t, schedule[k].command);
      InForceNext(past, t, schedule[k].command);
    }
  }

  /** Two setups that both make a secret always orphan one, in whatever order their steps fall, unless a
      destroy deletes the first secret, in its account, before the second is made. */
  lemma SecondSecretOrphans(moves: seq<Move>, j: nat, k: nat)
    requires var s := Played(moves).schedule;
             Makes(s, j) && Makes(s, k) && j < k && s[j].command != s[k].command && !Deleted(s[..k], j)
    requires DistinctIds(Played(moves).begun)
    ensures !NeverOrphans(moves)
  {
    hide NeverOrphans, Played, InForce, Deleted;
    OrphansExactly(moves);
    var s := Played(moves).schedule;
    if Orderly(s) {
      LivingInForce(s, j, k);
      assert InForce(s[..k], s[k].command);
      OneInForce(s[..k], s[j].command, s[k].command);
    }
  }

  lemma OneInForce(schedule: seq<Taken>, a: nat, b: nat)
    requires InForce(schedule, a) && InForce(schedule, b)
    ensures a == b
  {
  }

  // ---------------------------------------------------------------- commands that do not overlap

  /** No command goes on after another has begun. */
  predicate Sequential(moves: seq<Move>) {
    forall n :: 0 <= n < |moves| && moves[n].Go? ==> moves[n].command + 1 >= |Played(moves[..n]).begun|
  }

  /** Every destroy that deletes a secret does so in the account that the secret was made in. */
  predicate AtHome(schedule: seq<Taken>) {
    forall d, k {:trigger Makes(schedule, k), schedule[d]} ::
      0 <= k < d < |schedule| && Makes(schedule, k) && Names(schedule[d].step, schedule[k].step) ==>
      Deletes(schedule[d].step, schedule[k].step)
  }

  /** The step is the deletion of the secret that the other made, in whatever account. */
  predicate Names(step: Step, made: Step) {
    step.DropSecret? && made.MakeSecret? && step.stored.secret == Some(SecretRef(made.id, true))
  }

  predicate Quiet(step: Step) {
    step.Skip? || step.PutCheckpoint? || step.Stop? || step.Run? || step.Remove?
  }

  /** How far a setup has come, read off records and secrets. */
  predicate SetupAt(w: World, run: SetupRun, n: nat) {
    && (n <= 3 ==> w.secrets == map[])
    && (2 <= n < 8 ==> w.result.None?) && (n >= 8 ==> w.result == Some(Ready(ContextOf(run))))
    && (n >= 3 ==> w.context == Some(ContextOf(run)))
    && forall id :: id in w.secrets ==> MadeBy(ToSetUp(run)) == Some(id)
  }

  predicate SetupLast(w: World, run: SetupRun, b: Begun) {
    match b.stage
    case AtResult => true
    case AtContext => w.result.None?
    case AtStateFile => w.result.None? && w.context.None?
    case AtCheckpointFile => w.result.None? && w.context.None?
    case _ => b.plan == [] || (b.plan == SetupSteps(run) && SetupAt(w, run, b.done))
  }

  /** How far a destroy has come with its steps. */
  predicate DestroyAt(w: World, plan: seq<Step>, n: nat) {
    && 4 <= |plan| <= 6 && (forall n :: 0 <= n < 4 ==> Quiet(plan[n]))
    && (|plan| > 4 ==> |plan| == 6 && plan[4].DropSecret? && plan[5].PutDestroyed?)
    && (|plan| == 6 ==> (n <= 5 ==> Owner(w) == Some(plan[4].stored)) && (n >= 5 ==> w.secrets == map[]))
  }

  predicate DestroyLast(w: World, b: Begun) {
    match b.stage
    case AtResult => true
    case AtContext => w.result.None?
    case AtCheckpoint(r) => Owner(w) == Some(r.stored)
    case AtState(r, _) => Owner(w) == Some(r.stored)
    case AtTargets(r, _) => Owner(w) == Some(r.stored)
    case _ => b.plan == [] || DestroyAt(w, b.plan, b.done)
  }

  /** The last command has come as far as the records say. */
  predicate Last(w: World, b: Begun) {
    (!b.stage.AtSteps? ==> b.done == 0) &&
    match b.order
    case ToSetUp(run) => SetupLast(w, run, b)
    case ToTearDown(_) => DestroyLast(w, b)
  }

  predicate InOrder(p: Play) {
    NoOrphan(p.world) && (p.begun != [] ==> Last(p.world, p.begun[|p.begun| - 1]))
  }

  lemma SetupReadsOn(w: World, b: Begun)
    requires NoOrphan(w) && Last(w, b) && b.order.ToSetUp? && !b.stage.AtSteps?
    ensures Last(w, Reads(w, b))
  {
    if Owner(w).None? {
      assert forall id :: id !in w.secrets;
      assert w.secrets == map[];
    }
  }

  lemma DestroyReadsOn(w: World, b: Begun)
    requires Last(w, b) && b.order.ToTearDown? && !b.stage.AtSteps?
    ensures Last(w, Reads(w, b))
  {
    hide Selected;
  }

  lemma SetupGoes(w: World, run: SetupRun, b: Begun)
    requires NoOrphan(w) && SetupLast(w, run, b) && b.stage.AtSteps? && b.done < |b.plan|
    ensures var u := Do(w, b.plan[b.done]); SetupLast(u, run, b.(done := b.done + 1)) && NoOrphan(u)
  {
  }

  lemma DestroyGoes(w: World, b: Begun)
    requires NoOrphan(w) && DestroyLast(w, b) && b.stage.AtSteps? && b.done < |b.plan|
    requires b.plan[b.done].DropSecret? ==> !Elsewhere(w, b.plan[b.done].account)
    ensures var u := Do(w, b.plan[b.done]); DestroyLast(u, b.(done := b.done + 1)) && NoOrphan(u)
  {
    if b.done == 4 {
      SecretDeletedReaches(w, b.plan[4].stored, b.plan[4].account);
    } else if b.done < 4 {
      assert Quiet(b.plan[b.done]);
    }
  }

  /** A deletion at home finds the secret, if there is one. */
  lemma NoneElsewhere(p: Play, t: Taken)
    requires Sound(p) && NoOrphan(p.world) && AtHome(p.schedule + [t])
    requires t.step.DropSecret? && Owner(p.world) == Some(t.step.stored)
    ensures !Elsewhere(p.world, t.step.account)
  {
    hide Records, AllFit, MadeOnce, Planned, Deleted;
    var w, s := p.world, p.schedule;
    forall id | id in w.secrets ensures w.secrets[id] == t.step.account {
      assert Holds(w, s, id);
      var k :| Alive(s, k) && s[k].step.id == id;
      assert (s + [t])[k] == s[k] && (s + [t])[|s|] == t && Makes(s + [t], k);
      assert Names(t.step, s[k].step);
    }
  }

  lemma LastGoes(p: Play, command: nat)
    requires Sound(p) && InOrder(p) && CanGo(p, command) && command == |p.begun| - 1
    requires AtHome(p.schedule + [Taken(command, NextStep(p, command))])
    ensures InOrder(Went(p, command))
  {
    var b, t := p.begun[command], Taken(command, NextStep(p, command));
    hide Do, NoOrphan, Sound, AtHome, SetupAt;
    match b.order
    case ToSetUp(run) => SetupGoes(p.world, run, b);
    case ToTearDown(_) =>
      if t.step.DropSecret? {
        DropsOwner(p.world, b);
        NoneElsewhere(p, t);
      }
      DestroyGoes(p.world, b);
  }

  lemma DropsOwner(w: World, b: Begun)
    requires DestroyLast(w, b) && b.stage.AtSteps? && b.done < |b.plan| && b.plan[b.done].DropSecret?
    ensures Owner(w) == Some(b.plan[b.done].stored)
  {
    assert b.done < 4 ==> Quiet(b.plan[b.done]);
  }

  lemma LastHalts(w: World, b: Begun)
    requires Last(w, b) && Fails(w, b) && b.stage.AtSteps? && b.done <= |b.plan|
    ensures Last(w, Halted(b))
  {
    hide ChecksPass;
  }

  lemma LastOf(p: Play)
    requires InOrder(p) && p.begun != []
    ensures NoOrphan(p.world) && Last(p.world, p.begun[|p.begun| - 1])
  {
  }

  lemma AdvancedInOrder(p: Play, command: nat, b: Begun)
    requires InOrder(p) && command == |p.begun| - 1 && Last(p.world, b)
    ensures InOrder(Advanced(p, command, b))
  {
    hide Last;
  }

  lemma BetweenInOrder(p: Play, move: Move)
    requires InOrder(p) && !move.Go?
    ensures InOrder(Next(p, move))
  {
  }

  lemma NextInOrder(p: Play, move: Move)
    requires Sound(p) && InOrder(p) && AtHome(Next(p, move).schedule)
    requires move.Go? ==> move.command + 1 >= |p.begun|
    ensures InOrder(Next(p, move))
  {
    hide Do, NoOrphan, Sound, AtHome, InOrder, Last, Reads, Halted, Fails;
    match move
    case Begin(_) => BetweenInOrder(p, move);
    case Meanwhile(_) => BetweenInOrder(p, move);
    case Go(command) =>
      if command < |p.begun| {
        var b := p.begun[command];
        LastOf(p);
        if !b.stage.AtSteps? {
          if b.order.ToSetUp? {
            SetupReadsOn(p.world, b);
          } else {
            DestroyReadsOn(p.world, b);
          }
          AdvancedInOrder(p, command, Reads(p.world, b));
        } else if CanGo(p, command) && Fails(p.world, b) {
          LastHalts(p.world, b);
          AdvancedInOrder(p, command, Halted(b));
        } else if CanGo(p, command) {
          LastGoes(p, command);
        }
      }
  }

  /** Commands that do not overlap, each cut off anywhere and in any account, orphan nothing if destroys
      delete secrets in the accounts they are in: the order of their steps is orderly. */
  lemma {:induction false} SequentialIsOrderly(moves: seq<Move>)
    requires Sequential(moves) && AtHome(Played(moves).schedule) && DistinctIds(Played(moves).begun)
    ensures InOrder(Played(moves)) && NeverOrphans(moves) && Orderly(Played(moves).schedule)
  {
    hide Sequential, AtHome, InOrder, NoOrphan, Next, Played, DistinctIds, NeverOrphans, Orderly, Sound;
    OrphansExactly(moves);
    if moves == [] {
      NothingPlayed();
      NothingInOrder();
    } else {
      var m := |moves| - 1;
      PlayedNext(moves);
      SequentialBefore(moves);
      NextDistinct(Played(moves[..m]), moves[m]);
      SequentialIsOrderly(moves[..m]);
      OrphansExactly(moves[..m]);
      NextInOrder(Played(moves[..m]), moves[m]);
      InOrderSecure(Played(moves));
      NeverNext(moves);
    }
  }

  lemma NothingInOrder()
    ensures InOrder(Played([])) && NeverOrphans([])
  {
    hide Sound, Orderly, NoOrphan;
    NothingPlayed();
    var none: seq<Move> := [];
    assert none[..0] == none;
  }

  lemma InOrderSecure(p: Play)
    requires InOrder(p)
    ensures NoOrphan(p.world)
  {
  }

  lemma SequentialBefore(moves: seq<Move>)
    requires moves != [] && Sequential(moves) && AtHome(Played(moves).schedule)
    ensures var m := |moves| - 1;
            && Sequential(moves[..m]) && AtHome(Played(moves[..m]).schedule)
            && (moves[m].Go? ==> moves[m].command + 1 >= |Played(moves[..m]).begun|)
  {
    hide Played, Next;
    var m := |moves| - 1;
    forall n | 0 <= n < m ensures moves[..m][n] == moves[n] && moves[..m][..n] == moves[..n] {
    }
    PlayedNext(moves);
    ScheduleGrows(Played(moves[..m]), moves[m]);
    HomeBefore(Played(moves[..m]).schedule, Played(moves).schedule);
  }

  lemma HomeBefore(a: seq<Taken>, b: seq<Taken>)
    requires a <= b && AtHome(b)
    ensures AtHome(a)
  {
    hide Names, Deletes;
    assert forall k :: 0 <= k < |a| ==> a[k] == b[k] && (Makes(a, k) <==> Makes(b, k));
  }

  lemma ScheduleGrows(p: Play, move: Move)
    ensures p.schedule <= Next(p, move).schedule
  {
    hide Do, Reads, Fails;
  }
}
