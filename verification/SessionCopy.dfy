/** Session copies of desktop/src/session_copy.rs: plans, reviews, and the draft a review comes from. */
module SessionCopy {
  import opened Prelude

  datatype DestinationInput = DestinationInput(endpoint: string, region: string)

  datatype Destination = Destination(baseUrl: string, region: string)

  /** Whether an entered endpoint denotes a destination: URL normalization, taken as given. */
  type Matching = (DestinationInput, Destination) -> bool

  datatype CopySource = CopySource(id: string, model: string)

  datatype CopyReview = CopyReview(source: CopySource, destination: Destination, model: string)

  datatype CopyStatus = Preparing | Ready | Uploading | Importing | Complete | Failed {
    predicate Active() {
      Preparing? || Uploading? || Importing?
    }
  }

  datatype TransferPlan = TransferPlan(
    id: nat, sourceSessionId: string, destination: Destination, status: CopyStatus,
    uploadedParts: nat, totalParts: nat, destinationSessionId: Option<string>,
    sourceModel: Option<string>, model: Option<string>)
  {
    predicate MatchesReview(review: CopyReview) {
      && sourceSessionId == review.source.id
      && sourceModel == Some(review.source.model)
      && destination == review.destination
      && model == Some(review.model)
    }

    predicate CanExecute() {
      && (status.Ready? || status.Failed?)
      && sourceModel.Some? && sourceModel.value != ""
      && model.Some? && model.value != ""
    }

    /** A plan the console accepts, for the id it asked about if it asked about one. */
    predicate Acceptable(expected: Option<nat>, matches: Matching) {
      && (expected.Some? ==> expected.value == id)
      && matches(DestinationInput(destination.baseUrl, destination.region), destination)
      && uploadedParts <= totalParts
      && sourceSessionId != ""
      && (status.Complete? ==> destinationSessionId.Some? && destinationSessionId.value != "")
    }
  }

  /** A plan fixes the review it was made for. */
  lemma ReviewOfPlan(plan: TransferPlan, a: CopyReview, b: CopyReview)
    requires plan.MatchesReview(a) && plan.MatchesReview(b)
    ensures a == b
  {
    assert a.source == b.source;
  }

  datatype DestinationModels = DestinationModels(destination: Destination, models: seq<string>)

  /** The draft of a copy. Requests carry increasing numbers; replies may come late or not at all. */
  class CopyDraft {
    const matches: Matching
    var source: Option<CopySource>
    var destination: DestinationInput
    var catalog: Option<seq<string>>
    var model: string
    var pending: Option<nat>
    var failed: bool
    var resolved: Option<Destination>

    /** The destination each catalog request was sent for, and the request that the catalog answers. */
    ghost var asked: map<nat, DestinationInput>
    ghost var answers: map<nat, DestinationModels>
    ghost var origin: Option<nat>

    /** The catalog held is the server's answer to a request for the current destination. */
    ghost predicate Valid()
      reads this
    {
      && (pending.Some? ==> pending.value in asked && asked[pending.value] == destination)
      && (catalog.Some? <==> resolved.Some?) && (catalog.Some? <==> origin.Some?)
      && (catalog.Some? ==>
            && origin.value in asked && asked[origin.value] == destination
            && origin.value in answers && answers[origin.value] == DestinationModels(resolved.value, catalog.value)
            && matches(destination, resolved.value) && catalog.value != [])
    }

    constructor (matches: Matching)
      ensures Valid() && this.matches == matches && asked == map[] && Review() == None
    {
      this.matches := matches;
      source, destination, catalog, model := None, DestinationInput("", ""), None, "";
      pending, failed, resolved := None, false, None;
      asked, answers, origin := map[], map[], None;
    }

    method Sync(source: Option<CopySource>, destination: DestinationInput)
      requires Valid()
      modifies this
      ensures Valid() && asked == old(asked) && answers == old(answers)
      ensures this.source == source && this.destination == destination
      ensures destination == old(this.destination) ==>
                pending == old(pending) && catalog == old(catalog) && resolved == old(resolved) && failed == old(failed)
      ensures destination != old(this.destination) ==>
                pending == None && catalog == None && resolved == None && !failed
      ensures model == if (source, destination) == (old(this.source), old(this.destination)) then old(model) else ""
    {
      if this.destination != destination {
        this.destination := destination;
        catalog := None;
        resolved := None;
        model := "";
        pending := None;
        failed := false;
        origin := None;
      }
      if this.source != source {
        this.source := source;
        model := "";
      }
    }

    method Choose(model: string)
      requires Valid()
      modifies this`model
      ensures Valid() && this.model == model
    {
      this.model := model;
    }

    /** A catalog request: numbered freshly, or refused. */
    method Request(id: Option<nat>)
      requires Valid() && (id.Some? ==> id.value !in asked)
      modifies this`pending, this`failed, this`asked
      ensures Valid() && pending == id && failed == id.None?
      ensures asked == if id.Some? then old(asked)[id.value := destination] else old(asked)
    {
      pending := id;
      failed := id.None?;
      if id.Some? {
        asked := asked[id.value := destination];
      }
    }

    predicate Accepts(reply: Option<DestinationModels>)
      reads this
    {
      reply.Some? && matches(destination, reply.value.destination) && reply.value.models != []
    }

    /** A reply; None stands for an error or an unreadable body. Any but the awaited one is ignored. */
    method Finish(id: nat, reply: Option<DestinationModels>)
      requires Valid() && id in asked
      modifies this
      ensures Valid() && asked == old(asked) && source == old(source) && destination == old(destination)
      ensures old(pending) != Some(id) ==>
                pending == old(pending) && catalog == old(catalog) && resolved == old(resolved) &&
                model == old(model) && failed == old(failed)
      ensures old(pending) == Some(id) ==> pending == None && failed == !old(Accepts(reply))
      ensures old(pending) == Some(id) && !old(Accepts(reply)) ==>
                catalog == old(catalog) && resolved == old(resolved) && model == old(model)
      ensures old(pending) == Some(id) && old(Accepts(reply)) ==>
                && catalog == Some(reply.value.models) && resolved == Some(reply.value.destination)
                && model == if old(model) == "" && source.Some? && source.value.model in reply.value.models
                            then source.value.model else old(model)
    {
      if pending != Some(id) {
        return;
      }
      pending := None;
      if Accepts(reply) {
        var result := reply.value;
        if model == "" && source.Some? && source.value.model in result.models {
          model := source.value.model;
        }
        catalog := Some(result.models);
        resolved := Some(result.destination);
        failed := false;
        answers := answers[id := result];
        origin := Some(id);
      } else {
        failed := true;
      }
    }

    function Review(): (r: Option<CopyReview>)
      reads this
      ensures r.Some? ==>
                && pending.None? && !failed && source == Some(r.value.source)
                && matches(destination, r.value.destination) && resolved == Some(r.value.destination)
                && catalog.Some? && r.value.model in catalog.value && r.value.model == model
    {
      if pending.Some? || failed then None
      else if source.None? || resolved.None? || catalog.None? then None
      else if !matches(destination, resolved.value) || model !in catalog.value then None
      else Some(CopyReview(source.value, resolved.value, model))
    }
  }

  /** A review binds the current source, a destination that matches the one entered now, and a model
      from the catalog that the server gave for it; and there is one exactly when nothing is awaited
      or failed and such a model is chosen. */
  lemma ReviewIsCurrent(draft: CopyDraft)
    requires draft.Valid()
    ensures draft.Review().Some? <==>
              draft.pending.None? && !draft.failed && draft.source.Some? &&
              draft.catalog.Some? && draft.model in draft.catalog.value
    ensures draft.Review().Some? ==>
              var r, from := draft.Review().value, draft.origin;
              && draft.source == Some(r.source)
              && draft.matches(draft.destination, r.destination)
              && from.Some? && from.value in draft.asked && draft.asked[from.value] == draft.destination
              && from.value in draft.answers && draft.answers[from.value].destination == r.destination
              && r.model in draft.answers[from.value].models && r.model == draft.model
  {
    if draft.catalog.Some? {
      assert draft.matches(draft.destination, draft.resolved.value);
    }
  }
}
