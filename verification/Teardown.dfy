/** The pure part of teardown in scripts/aws-quickstart.ts: which image and key a destroy must account for. */
module Teardown {
  import opened Prelude

  /** A parsed JSON value, as far as identifiers are concerned. */
  datatype Value = Undefined | Null | Str(text: string) | Other

  datatype Mode = Managed | Data | BadMode

  datatype Attributes = Attributes(imageArn: Value, keyId: Value, id: Value)

  /** A resource of the Terraform state; None stands for values that are no object. */
  datatype Resource = Resource(mode: Mode, kind: string, values: Option<Attributes>)

  datatype Module = Module(resources: seq<Resource>, children: seq<Module>) | BadModule

  /** What `terraform show` printed: nothing valid, no values yet, or values with a root module or none. */
  datatype Document = BadDocument | NoValues | Values(root: Option<Module>)

  datatype Targets = Targets(imageArn: Option<string>, kmsKeyId: Option<string>)

  datatype Deployment = Deployment(startedAt: string, region: string, environment: string)

  datatype Checkpoint = Checkpoint(deployment: Deployment, targets: Targets)

  datatype SavedTargets = SavedTargets(imageArn: Value, kmsKeyId: Value)

  /** A teardown file as read back; None stands for parts that are no object. */
  datatype Saved = BadSaved | Saved(version: int, deployment: Option<Deployment>, targets: Option<SavedTargets>)

  const IMAGE := "awscc_lambda_microvm_image"
  const KEY := "aws_kms_key"

  // ---------------------------------------------------------------- resources at any depth

  /** All resources, a module's own before its children's; None where the source throws. */
  function ModuleResources(m: Module): Option<seq<Resource>> {
    match m
    case BadModule => None
    case Module(resources, children) =>
      var inner := ChildResources(children);
      if (exists i :: 0 <= i < |resources| && resources[i].mode.BadMode?) || inner.None? then None
      else Some(resources + inner.value)
  }

  function ChildResources(modules: seq<Module>): Option<seq<Resource>> {
    if modules == [] then Some([])
    else
      var first, rest := ModuleResources(modules[0]), ChildResources(modules[1..]);
      if first.None? || rest.None? then None else Some(first.value + rest.value)
  }

  /** The resource belongs to the module or to one nested in it, at any depth. */
  predicate Holds(m: Module, r: Resource) {
    m.Module? && (r in m.resources || exists i :: 0 <= i < |m.children| && Holds(m.children[i], r))
  }

  /** Every module and every resource in it is well formed. */
  predicate WellFormed(m: Module) {
    && m.Module?
    && (forall i :: 0 <= i < |m.resources| ==> !m.resources[i].mode.BadMode?)
    && forall i :: 0 <= i < |m.children| ==> WellFormed(m.children[i])
  }

  /** The walk finds exactly the resources held at any depth, and throws exactly on a malformed tree. */
  lemma {:induction false} ResourcesAtAnyDepth(m: Module)
    ensures ModuleResources(m).Some? <==> WellFormed(m)
    ensures ModuleResources(m).Some? ==> forall r :: r in ModuleResources(m).value <==> Holds(m, r)
    decreases m, 1
  {
    if m.Module? {
      ChildrenAtAnyDepth(m.children);
    }
  }

  lemma {:induction false} ChildrenAtAnyDepth(modules: seq<Module>)
    ensures ChildResources(modules).Some? <==> forall i :: 0 <= i < |modules| ==> WellFormed(modules[i])
    ensures ChildResources(modules).Some? ==>
              forall r :: r in ChildResources(modules).value <==> exists i :: 0 <= i < |modules| && Holds(modules[i], r)
    decreases modules, 0
  {
    if modules != [] {
      var rest := modules[1..];
      ResourcesAtAnyDepth(modules[0]);
      ChildrenAtAnyDepth(rest);
      hide ModuleResources, WellFormed, Holds;
      assert forall i :: 0 <= i < |rest| ==> rest[i] == modules[i + 1];
      assert forall i :: 0 < i < |modules| ==> modules[i] == rest[i - 1];
    }
  }

  // ---------------------------------------------------------------- one identifier

  const SPACES := {' ', '\t', '\n', '\r', '\U{B}', '\U{C}', '\U{A0}', '\U{1680}', '\U{2028}', '\U{2029}', '\U{202F}',
                   '\U{205F}', '\U{3000}', '\U{FEFF}'}

  predicate Space(c: char) {
    c in SPACES || '\U{2000}' <= c <= '\U{200A}'
  }

  predicate Identifier(text: string) {
    text != "" && forall i :: 0 <= i < |text| ==> !Space(text[i])
  }

  /** What `\s` matches in ECMAScript: the controls from 9 to 13, the blank, the byte order mark, and the
      separators of Unicode. */
  predicate WhiteSpace(code: int) {
    || 9 <= code <= 13 || code == 0x20 || code == 0xA0 || code == 0x1680 || 0x2000 <= code <= 0x200A
    || code == 0x2028 || code == 0x2029 || code == 0x202F || code == 0x205F || code == 0x3000 || code == 0xFEFF
  }

  /** An identifier is any text but the empty one that holds no white space. */
  lemma NoWhiteSpace(text: string)
    ensures Identifier(text) <==> text != "" && forall c :: c in text ==> !WhiteSpace(c as int)
  {
    forall c: char ensures Space(c) <==> WhiteSpace(c as int) {
    }
    hide Space, WhiteSpace;
    if Identifier(text) {
      forall c | c in text ensures !Space(c) {
      }
    }
    if !Identifier(text) && text != "" {
      var i :| 0 <= i < |text| && Space(text[i]);
      assert text[i] in text;
    }
  }

  function Identifiers(values: seq<Value>): Option<seq<string>> {
    if values == [] then Some([])
    else
      var rest := Identifiers(values[1..]);
      match values[0]
      case Undefined => rest
      case Str(text) => if Identifier(text) && rest.Some? then Some([text] + rest.value) else None
      case _ => None
  }

  /** `uniqueTeardownTarget`: the one identifier among the values, or none; None where the source throws. */
  function UniqueTarget(values: seq<Value>): Option<Option<string>> {
    var ids := Identifiers(values);
    if ids.None? then None
    else if |set i | 0 <= i < |ids.value| :: ids.value[i]| > 1 then None
    else Some(if ids.value == [] then None else Some(ids.value[0]))
  }

  predicate Agrees(v: Value, target: Option<string>) {
    v.Undefined? || (v.Str? && Identifier(v.text) && target == Some(v.text))
  }

  lemma {:induction false} IdentifiersAre(values: seq<Value>)
    ensures Identifiers(values).Some? <==> forall i :: 0 <= i < |values| ==>
              values[i].Undefined? || (values[i].Str? && Identifier(values[i].text))
    ensures Identifiers(values).Some? ==> forall t :: t in Identifiers(values).value <==> Str(t) in values
  {
    if values != [] {
      IdentifiersAre(values[1..]);
      assert values == [values[0]] + values[1..];
    }
  }

  lemma SingletonSet(s: set<string>, x: string)
    requires x in s
    ensures |s| > 1 <==> exists y :: y in s && y != x
  {
    assert |s - {x}| == |s| - 1;
    if |s| > 1 {
      var y :| y in s - {x};
    } else {
      assert s - {x} == {};
      assert forall y :: y in s ==> y !in s - {x} ==> y == x;
    }
  }

  /** The target is x exactly when every value given is that valid identifier and one is given. */
  lemma UniqueTargetIs(values: seq<Value>, target: Option<string>)
    ensures UniqueTarget(values) == Some(target) <==>
              (forall i :: 0 <= i < |values| ==> Agrees(values[i], target)) &&
                (target.Some? ==> Str(target.value) in values)
  {
    IdentifiersAre(values);
    var ids := Identifiers(values);
    if ids.Some? {
      var all := set i | 0 <= i < |ids.value| :: ids.value[i];
      assert forall t :: t in all <==> t in ids.value;
      if ids.value != [] {
        SingletonSet(all, ids.value[0]);
        assert Str(ids.value[0]) in values;
      } else {
        assert all == {};
      }
    }
  }

  // ---------------------------------------------------------------- the targets of a state

  /** JavaScript's `??`. */
  function Coalesce(a: Value, b: Value): Value {
    if a.Undefined? || a.Null? then b else a
  }

  /** The identifier of an image or key resource; anything but a nonempty string makes the source throw. */
  function IdentifierOf(r: Resource): Value {
    if r.values.None? then Other
    else
      var v := Coalesce(if r.kind == IMAGE then r.values.value.imageArn else r.values.value.keyId, r.values.value.id);
      if v.Str? then v else Other
  }

  function IdentifiersOf(resources: seq<Resource>, kind: string): seq<Value> {
    if resources == [] then []
    else (if resources[0].mode.Managed? && resources[0].kind == kind then [IdentifierOf(resources[0])] else []) +
         IdentifiersOf(resources[1..], kind)
  }

  /** `terraformTeardownTargets`; None where the source throws. */
  function TeardownTargets(state: Document): Option<Targets> {
    match state
    case BadDocument => None
    case NoValues => Some(Targets(None, None))
    case Values(root) =>
      var resources := if root.None? then Some([]) else ModuleResources(root.value);
      if resources.None? then None
      else
        var image, key := UniqueTarget(IdentifiersOf(resources.value, IMAGE)),
          UniqueTarget(IdentifiersOf(resources.value, KEY));
        if image.None? || key.None? then None else Some(Targets(image.value, key.value))
  }

  /** The state is a document, and every module and resource in it is well formed. */
  predicate Readable(state: Document) {
    !state.BadDocument? && (state.Values? && state.root.Some? ==> WellFormed(state.root.value))
  }

  /** The state holds the resource, at any depth. */
  predicate Held(state: Document, r: Resource) {
    state.Values? && state.root.Some? && Holds(state.root.value, r)
  }

  /** The resource is identified by this text: the ARN of an image, the id of a key, or, where that is
      missing or null, the resource's own id. */
  predicate IdentifiedBy(r: Resource, text: string) {
    && r.values.Some?
    && var own := if r.kind == "awscc_lambda_microvm_image" then r.values.value.imageArn else r.values.value.keyId;
       own == Str(text) || ((own == Undefined || own == Null) && r.values.value.id == Str(text))
  }

  /** Every managed resource of this kind is identified by the target, a proper identifier; and there is
      such a resource if there is a target. */
  ghost predicate TargetIs(state: Document, kind: string, target: Option<string>) {
    && (forall r :: Held(state, r) && r.mode == Managed && r.kind == kind ==>
          target.Some? && IdentifiedBy(r, target.value))
    && (target.Some? ==>
          && Identifier(target.value)
          && exists r :: Held(state, r) && r.mode == Managed && r.kind == kind)
  }

  lemma {:induction false} IdentifiersOfAre(resources: seq<Resource>, kind: string, id: Value)
    ensures id in IdentifiersOf(resources, kind) <==>
            exists r :: r in resources && r.mode.Managed? && r.kind == kind && IdentifierOf(r) == id
  {
    if resources != [] {
      IdentifiersOfAre(resources[1..], kind, id);
      assert resources == [resources[0]] + resources[1..];
    }
  }

  lemma {:induction false} NoUndefined(resources: seq<Resource>, kind: string)
    ensures Undefined !in IdentifiersOf(resources, kind)
  {
    if resources != [] {
      NoUndefined(resources[1..], kind);
    }
  }

  function ResourcesOf(state: Document): Option<seq<Resource>> {
    match state
    case BadDocument => None
    case NoValues => Some([])
    case Values(root) => if root.None? then Some([]) else ModuleResources(root.value)
  }

  lemma ResourcesHeld(state: Document)
    ensures ResourcesOf(state).Some? <==> Readable(state)
    ensures ResourcesOf(state).Some? ==> forall r :: r in ResourcesOf(state).value <==> Held(state, r)
  {
    if state.Values? && state.root.Some? {
      ResourcesAtAnyDepth(state.root.value);
    }
  }

  lemma IdentifierIs(r: Resource, text: string)
    ensures IdentifierOf(r) == Str(text) <==> IdentifiedBy(r, text)
  {
  }

  lemma TargetOfKind(state: Document, resources: seq<Resource>, kind: string, target: Option<string>)
    requires forall r :: r in resources <==> Held(state, r)
    ensures UniqueTarget(IdentifiersOf(resources, kind)) == Some(target) <==> TargetIs(state, kind, target)
  {
    var ids := IdentifiersOf(resources, kind);
    NoUndefined(resources, kind);
    UniqueTargetIs(ids, target);
    hide IdentifierOf, IdentifiersOf, UniqueTarget, Identifier, Held, IdentifiedBy;
    forall id ensures id in ids <==>
                      exists r :: r in resources && r.mode.Managed? && r.kind == kind && IdentifierOf(r) == id {
      IdentifiersOfAre(resources, kind, id);
    }
    if target.Some? {
      forall r ensures IdentifierOf(r) == Str(target.value) <==> IdentifiedBy(r, target.value) {
        IdentifierIs(r, target.value);
      }
    }
    assert (forall i :: 0 <= i < |ids| ==> Agrees(ids[i], target)) <==> forall id :: id in ids ==> Agrees(id, target);
    forall r | Held(state, r) && r.mode == Managed && r.kind == kind ensures IdentifierOf(r) in ids {
    }
  }

  /** The targets of a state are these exactly if it is readable and, at any depth, every managed image
      and every managed key is identified by its target. */
  lemma TargetsAtAnyDepth(state: Document, targets: Targets)
    ensures TeardownTargets(state) == Some(targets) <==>
              && Readable(state)
              && TargetIs(state, "awscc_lambda_microvm_image", targets.imageArn)
              && TargetIs(state, "aws_kms_key", targets.kmsKeyId)
  {
    UniqueTargetIs([], None);
    hide UniqueTarget, TargetIs, ModuleResources, Readable, Held;
    ResourcesHeld(state);
    var resources := ResourcesOf(state);
    if resources.Some? {
      TargetOfKind(state, resources.value, IMAGE, targets.imageArn);
      TargetOfKind(state, resources.value, KEY, targets.kmsKeyId);
    }
  }

  // ---------------------------------------------------------------- the checkpoint

  function OptionalValue(target: Option<string>): Value {
    if target.None? then Undefined else Str(target.value)
  }

  predicate Named(d: Deployment) {
    d.startedAt != "" && d.region != "" && d.environment != ""
  }

  /** `selectQuickstartTeardown`; None where the source throws. */
  function SelectTeardown(stored: Deployment, current: Targets, saved: Option<Saved>): Option<Checkpoint> {
    if !Named(stored) then None
    else if saved.Some? &&
            (saved.value.BadSaved? || saved.value.version != 1 || saved.value.deployment != Some(stored) ||
                            saved.value.targets.None?) then None
    else
      var previous := if saved.Some? then saved.value.targets.value else SavedTargets(Undefined, Undefined);
      var image := UniqueTarget([OptionalValue(current.imageArn), previous.imageArn]);
      var key := UniqueTarget([OptionalValue(current.kmsKeyId), previous.kmsKeyId]);
      if image.None? || key.None? then None else Some(Checkpoint(stored, Targets(image.value, key.value)))
  }

  /** A checkpoint as it is read back. */
  function Written(c: Checkpoint): Saved {
    Saved(1, Some(c.deployment),
          Some(SavedTargets(OptionalValue(c.targets.imageArn), OptionalValue(c.targets.kmsKeyId))))
  }

  predicate ValidTarget(target: Option<string>) {
    target.Some? ==> Identifier(target.value)
  }

  predicate ValidTargets(t: Targets) {
    ValidTarget(t.imageArn) && ValidTarget(t.kmsKeyId)
  }

  predicate Compatible(a: Option<string>, b: Option<string>) {
    a.Some? && b.Some? ==> a == b
  }

  function Either(a: Option<string>, b: Option<string>): Option<string> {
    if a.Some? then a else b
  }

  lemma MergeTargets(a: Option<string>, b: Option<string>)
    ensures UniqueTarget([OptionalValue(a), OptionalValue(b)]) ==
            if ValidTarget(a) && ValidTarget(b) && Compatible(a, b) then Some(Either(a, b)) else None
  {
    var values := [OptionalValue(a), OptionalValue(b)];
    var merged := UniqueTarget(values);
    assert values[0] == OptionalValue(a) && values[1] == OptionalValue(b);
    assert a.Some? ==> Str(a.value) in values;
    assert b.Some? ==> Str(b.value) in values;
    UniqueTargetIs(values, Either(a, b));
    if merged.Some? {
      UniqueTargetIs(values, merged.value);
    }
  }

  /** The merged target is what the state shows and what was saved, as far as either says anything. */
  predicate MergedIs(current: Option<string>, previous: Value, merged: Option<string>) {
    && (current.Some? ==> merged == current)
    && (previous == Undefined || (merged.Some? && previous == Str(merged.value)))
    && (merged.Some? ==> Identifier(merged.value) && (current == merged || previous == Str(merged.value)))
  }

  lemma MergesExactly(current: Option<string>, previous: Value, merged: Option<string>)
    ensures UniqueTarget([OptionalValue(current), previous]) == Some(merged) <==> MergedIs(current, previous, merged)
  {
    var values := [OptionalValue(current), previous];
    assert values[0] == OptionalValue(current) && values[1] == previous;
    UniqueTargetIs(values, merged);
  }

  /** Whatever was read back as the earlier checkpoint: the source goes on with this one exactly if the
      deployment is named, the earlier one is of this version and deployment, and each target of this one
      is what the state shows and what the earlier one saved. */
  lemma CheckpointExactly(stored: Deployment, current: Targets, saved: Option<Saved>, checkpoint: Checkpoint)
    ensures SelectTeardown(stored, current, saved) == Some(checkpoint) <==>
              && checkpoint.deployment == stored
              && stored.startedAt != "" && stored.region != "" && stored.environment != ""
              && match saved
                 case None =>
                   && MergedIs(current.imageArn, Undefined, checkpoint.targets.imageArn)
                   && MergedIs(current.kmsKeyId, Undefined, checkpoint.targets.kmsKeyId)
                 case Some(Saved(1, Some(deployment), Some(previous))) =>
                   && deployment == stored
                   && MergedIs(current.imageArn, previous.imageArn, checkpoint.targets.imageArn)
                   && MergedIs(current.kmsKeyId, previous.kmsKeyId, checkpoint.targets.kmsKeyId)
                 case _ => false
  {
    hide UniqueTarget;
    var previous := if saved.Some? && saved.value.Saved? && saved.value.targets.Some?
                    then saved.value.targets.value else SavedTargets(Undefined, Undefined);
    MergesExactly(current.imageArn, previous.imageArn, checkpoint.targets.imageArn);
    MergesExactly(current.kmsKeyId, previous.kmsKeyId, checkpoint.targets.kmsKeyId);
  }

  /** Another attempt merges what the state still shows with what earlier attempts saved, and it
      refuses exactly when the two disagree, are malformed, or belong to different deployments. */
  lemma CheckpointMerges(stored: Deployment, current: Targets, saved: Checkpoint)
    ensures var merged := SelectTeardown(stored, current, Some(Written(saved)));
            && (merged.Some? <==>
                  && Named(stored) && saved.deployment == stored && ValidTargets(current) && ValidTargets(saved.targets)
                  && Compatible(current.imageArn, saved.targets.imageArn) &&
                     Compatible(current.kmsKeyId, saved.targets.kmsKeyId))
            && (merged.Some? ==>
                  merged.value == Checkpoint(stored, Targets(Either(current.imageArn, saved.targets.imageArn),
                                                             Either(current.kmsKeyId, saved.targets.kmsKeyId))))
  {
    MergeTargets(current.imageArn, saved.targets.imageArn);
    MergeTargets(current.kmsKeyId, saved.targets.kmsKeyId);
  }

  lemma CheckpointStarts(stored: Deployment, current: Targets)
    ensures SelectTeardown(stored, current, None) ==
            if Named(stored) && ValidTargets(current) then Some(Checkpoint(stored, current)) else None
  {
    MergeTargets(current.imageArn, None);
    MergeTargets(current.kmsKeyId, None);
  }
}
