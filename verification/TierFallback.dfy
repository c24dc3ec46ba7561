/** Fallback among the models of one tier. */
module TierFallback {
  import opened Basics

  type Confidence = c: real | 0.0 <= c <= 1.0 witness 0.0

  datatype Model = Model(id: string, healthy: bool, enabled: bool)

  /** A provider's answer, reduced to what the gateway looks at: `extracted` is the explicit or
      heuristic confidence, the flags say which of the escalation checks the content would fail. */
  datatype Response = Response(content: string, empty: bool, refusal: bool, unparseable: bool, extracted: Confidence)

  datatype Served = Served(response: Response, modelId: string)

  function Filter(models: seq<Model>, id: string, matching: bool): seq<Model> {
    if models == [] then []
    else (if (models[0].id == id) == matching then [models[0]] else []) + Filter(models[1..], id, matching)
  }

  /** The order in which models are tried; the empty identifier means that none is preferred. */
  function Ordered(models: seq<Model>, target: string): seq<Model> {
    if target == "" then models else Filter(models, target, true) + Filter(models, target, false)
  }

  /** `calls[i]` is what the provider answers to the i-th model in that order; a missing entry is a failed call. */
  function Answer(calls: seq<Option<Response>>, i: nat): Option<Response> {
    if i < |calls| then calls[i] else None
  }

  predicate Serves(ordered: seq<Model>, registry: set<string>, calls: seq<Option<Response>>, i: nat)
    requires i < |ordered|
  {
    ordered[i].healthy && ordered[i].enabled && ordered[i].id in registry && Answer(calls, i).Some?
  }

  ghost predicate IsFirstServing(ordered: seq<Model>, registry: set<string>, calls: seq<Option<Response>>, i: nat) {
    i < |ordered| && Serves(ordered, registry, calls, i) && forall j: nat :: j < i ==> !Serves(ordered, registry, calls, j)
  }

  function TryFrom(ordered: seq<Model>, registry: set<string>, calls: seq<Option<Response>>, i: nat): Option<Served>
    requires i <= |ordered|
    decreases |ordered| - i
  {
    if i == |ordered| then None
    else if Serves(ordered, registry, calls, i) then Some(Served(Answer(calls, i).value, ordered[i].id))
    else TryFrom(ordered, registry, calls, i + 1)
  }

  function TryTier(models: seq<Model>, target: string, registry: set<string>, calls: seq<Option<Response>>): Option<Served> {
    TryFrom(Ordered(models, target), registry, calls, 0)
  }

  method TryTierModels(models: seq<Model>, target: string, registry: set<string>, calls: seq<Option<Response>>)
    returns (served: Option<Served>)
    ensures served == TryTier(models, target, registry, calls)
  {
    var ordered := models;
    if target != "" {
      ordered := Filter(models, target, true) + Filter(models, target, false);
    }
    for i := 0 to |ordered|
      invariant TryFrom(ordered, registry, calls, 0) == TryFrom(ordered, registry, calls, i)
    {
      if !ordered[i].healthy || !ordered[i].enabled {
        continue;
      }
      if ordered[i].id !in registry {
        continue;
      }
      if Answer(calls, i).Some? {
        return Some(Served(Answer(calls, i).value, ordered[i].id));
      }
    }
    served := None;
  }

  /** A model that is healthy, enabled and registered is called, and the call is answered. */
  predicate Responds(model: Model, registry: set<string>, calls: seq<Option<Response>>, i: nat) {
    model.healthy && model.enabled && model.id in registry && i < |calls| && calls[i].Some?
  }

  /** The tier's answer is that of the first model, in trial order, that responds, under that model's
      identifier; the tier fails exactly when no model responds. */
  lemma TierAnswersWithFirstServing(models: seq<Model>, target: string, registry: set<string>, calls: seq<Option<Response>>)
    ensures var ordered, served := Ordered(models, target), TryTier(models, target, registry, calls);
            && (served.None? <==> forall i: nat :: i < |ordered| ==> !Responds(ordered[i], registry, calls, i))
            && (forall i: nat :: i < |ordered| && Responds(ordered[i], registry, calls, i)
                                 && (forall j: nat :: j < i ==> !Responds(ordered[j], registry, calls, j)) ==>
                 served == Some(Served(calls[i].value, ordered[i].id)))
  {
    var ordered := Ordered(models, target);
    assert forall i: nat :: i < |ordered| ==> (Serves(ordered, registry, calls, i) <==> Responds(ordered[i], registry, calls, i));
    TryFromFindsFirst(ordered, registry, calls, 0);
    forall i: nat | i < |ordered| && Responds(ordered[i], registry, calls, i)
                    && (forall j: nat :: j < i ==> !Responds(ordered[j], registry, calls, j))
      ensures IsFirstServing(ordered, registry, calls, i)
    {}
  }

  lemma {:induction false} TryFromFindsFirst(ordered: seq<Model>, registry: set<string>, calls: seq<Option<Response>>, from: nat)
    requires from <= |ordered| && forall j: nat :: j < from ==> !Serves(ordered, registry, calls, j)
    ensures TryFrom(ordered, registry, calls, from).None? <==> forall i: nat :: i < |ordered| ==> !Serves(ordered, registry, calls, i)
    ensures forall i: nat :: IsFirstServing(ordered, registry, calls, i) ==>
              TryFrom(ordered, registry, calls, from) == Some(Served(Answer(calls, i).value, ordered[i].id))
    decreases |ordered| - from
  {
    if from < |ordered| && !Serves(ordered, registry, calls, from) {
      TryFromFindsFirst(ordered, registry, calls, from + 1);
    }
  }

  lemma {:induction false} FilterSplits(models: seq<Model>, id: string)
    ensures multiset(Filter(models, id, true)) + multiset(Filter(models, id, false)) == multiset(models)
    ensures forall m :: m in Filter(models, id, true) ==> m.id == id
    ensures forall m :: m in Filter(models, id, false) ==> m.id != id
  {
    if models != [] {
      FilterSplits(models[1..], id);
      assert models == [models[0]] + models[1..];
    }
  }

  lemma FilterInFront(first: Model, rest: seq<Model>, id: string, matching: bool)
    ensures Filter([first] + rest, id, matching) == (if (first.id == id) == matching then [first] else []) + Filter(rest, id, matching)
  {
    assert ([first] + rest)[1..] == rest;
  }

  /** Filtering respects the order of the models. */
  lemma {:induction false} FilterOfParts(a: seq<Model>, b: seq<Model>, id: string, matching: bool)
    ensures Filter(a + b, id, matching) == Filter(a, id, matching) + Filter(b, id, matching)
  {
    if a == [] {
      assert a + b == b;
    } else {
      FilterOfParts(a[1..], b, id, matching);
      FilterInFront(a[0], a[1..] + b, id, matching);
      FilterInFront(a[0], a[1..], id, matching);
      HeadInFront(a, b);
      ConcatAssociates(if (a[0].id == id) == matching then [a[0]] else [], Filter(a[1..], id, matching), Filter(b, id, matching));
    }
  }

  /** Preferring a model loses and adds none, and tries every copy of it before anything else. */
  lemma PreferenceOnlyReorders(models: seq<Model>, target: string)
    ensures multiset(Ordered(models, target)) == multiset(models)
    ensures target == "" ==> Ordered(models, target) == models
    ensures target != "" ==>
              forall i, j :: 0 <= i < j < |Ordered(models, target)| && Ordered(models, target)[j].id == target
                ==> Ordered(models, target)[i].id == target
  {
    FilterSplits(models, target);
    var preferred, others := Filter(models, target, true), Filter(models, target, false);
    assert multiset(preferred + others) == multiset(preferred) + multiset(others);
    assert forall j :: |preferred| <= j < |preferred + others| ==> (preferred + others)[j] in others;
  }
}
