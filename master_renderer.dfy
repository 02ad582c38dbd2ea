/**
 * The game's master renderer: entities are collected per textured model and
 * terrains in a list during a frame; a render draws every bucket, then every
 * terrain, and empties both collections for the next frame. The GL state,
 * shaders and matrices are not modelled; a draw is recorded as the entity or
 * terrain it draws.
 */
module Rendering {
  /** A textured model, compared by identity as the HashMap key. */
  datatype TexturedModel = TexturedModel(id: nat)

  /** An entity and the model it is drawn with (its pose is not modelled). */
  datatype Entity = Entity(id: nat, model: TexturedModel)

  datatype Terrain = Terrain(id: nat)

  type Buckets = map<TexturedModel, seq<Entity>>

  /** entities.get(model), with a missing list read as an empty one. */
  function Bucket(entities: Buckets, model: TexturedModel): seq<Entity> {
    if model in entities then entities[model] else []
  }

  /** Every bucket holds only entities of its own model. */
  predicate WellKeyed(entities: Buckets) {
    forall model, e :: model in entities && e in entities[model] ==> e.model == model
  }

  /** processEntity on the map: the entity is appended to its model's list. */
  function Submit(entities: Buckets, e: Entity): (r: Buckets)
    ensures r.Keys == entities.Keys + {e.model}
  {
    entities[e.model := Bucket(entities, e.model) + [e]]
  }

  /** A sequence of processEntity calls. */
  function SubmitAll(entities: Buckets, es: seq<Entity>): Buckets {
    if |es| == 0 then entities else Submit(SubmitAll(entities, es[..|es| - 1]), es[|es| - 1])
  }

  /** The entities of es drawn with model, in the order of es. */
  function OfModel(es: seq<Entity>, model: TexturedModel): seq<Entity> {
    if |es| == 0 then []
    else OfModel(es[..|es| - 1], model) + (if es[|es| - 1].model == model then [es[|es| - 1]] else [])
  }

  /** The models of the entities in es. */
  function Models(es: seq<Entity>): set<TexturedModel> {
    set e | e in es :: e.model
  }

  /** A key order of the map: every key exactly once, as keySet() hands them out. */
  predicate KeyOrder(order: seq<TexturedModel>, keys: set<TexturedModel>) {
    (forall i, j :: 0 <= i < j < |order| ==> order[i] != order[j])
    && (forall model :: model in order ==> model in keys)
    && (forall model :: model in keys ==> model in order)
  }

  /** What the entity renderer draws: each bucket of order in turn, each in
      list order. */
  function EntityDraws(entities: Buckets, order: seq<TexturedModel>): seq<Entity> {
    if |order| == 0 then []
    else EntityDraws(entities, order[..|order| - 1]) + Bucket(entities, order[|order| - 1])
  }

  // ----- processEntity -----

  /** Submitting keeps every bucket to its own model. */
  lemma SubmitKeepsWellKeyed(entities: Buckets, e: Entity)
    requires WellKeyed(entities)
    ensures WellKeyed(Submit(entities, e))
  {
  }

  /** After a run of submissions, a bucket holds what it held before followed
      by the submitted entities of its model, in submission order; buckets of
      models not submitted are unchanged. */
  lemma {:induction false} SubmitAllBuckets(entities: Buckets, es: seq<Entity>, model: TexturedModel)
    ensures Bucket(SubmitAll(entities, es), model) == Bucket(entities, model) + OfModel(es, model)
  {
    if |es| > 0 {
      var front := es[..|es| - 1];
      SubmitAllBuckets(entities, front, model);
    }
  }

  /** A run of submissions adds exactly the submitted models as keys. */
  lemma {:induction false} SubmitAllKeys(entities: Buckets, es: seq<Entity>)
    ensures SubmitAll(entities, es).Keys == entities.Keys + Models(es)
  {
    if |es| > 0 {
      var front := es[..|es| - 1];
      SubmitAllKeys(entities, front);
      assert es == front + [es[|es| - 1]];
      assert Models(es) == Models(front) + {es[|es| - 1].model};
    }
  }

  // ----- render -----

  /** Filtering distributes over concatenation. */
  lemma {:induction false} OfModelAppend(a: seq<Entity>, b: seq<Entity>, model: TexturedModel)
    ensures OfModel(a + b, model) == OfModel(a, model) + OfModel(b, model)
  {
    if |b| > 0 {
      var front := b[..|b| - 1];
      assert (a + b)[..|a + b| - 1] == a + front;
      OfModelAppend(a, front, model);
    } else {
      assert a + b == a;
    }
  }

  /** A bucket filtered by its own model is the whole bucket. */
  lemma {:induction false} OfModelOfOwnBucket(bucket: seq<Entity>, model: TexturedModel)
    requires forall i :: 0 <= i < |bucket| ==> bucket[i].model == model
    ensures OfModel(bucket, model) == bucket
  {
    if |bucket| > 0 {
      var front := bucket[..|bucket| - 1];
      assert forall i :: 0 <= i < |front| ==> front[i] == bucket[i];
      OfModelOfOwnBucket(front, model);
      assert bucket == front + [bucket[|bucket| - 1]];
    }
  }

  /** A bucket filtered by another model is empty. */
  lemma {:induction false} OfModelOfOtherBucket(bucket: seq<Entity>, own: TexturedModel, model: TexturedModel)
    requires own != model && forall i :: 0 <= i < |bucket| ==> bucket[i].model == own
    ensures OfModel(bucket, model) == []
  {
    if |bucket| > 0 {
      var front := bucket[..|bucket| - 1];
      assert forall i :: 0 <= i < |front| ==> front[i] == bucket[i];
      OfModelOfOtherBucket(front, own, model);
    }
  }

  /** The entities of a bucket carry its model. */
  lemma BucketModels(entities: Buckets, model: TexturedModel)
    requires WellKeyed(entities)
    ensures forall i :: 0 <= i < |Bucket(entities, model)| ==> Bucket(entities, model)[i].model == model
  {
    if model in entities {
      forall i | 0 <= i < |entities[model]|
        ensures entities[model][i].model == model
      {
        assert entities[model][i] in entities[model];
      }
    }
  }

  /** Within a frame the entities of one model are drawn in their bucket's
      order, whatever order the models are visited in. */
  lemma {:induction false} DrawsKeepBucketOrder(entities: Buckets, order: seq<TexturedModel>, model: TexturedModel)
    requires WellKeyed(entities)
    requires forall i, j :: 0 <= i < j < |order| ==> order[i] != order[j]
    ensures OfModel(EntityDraws(entities, order), model) == if model in order then Bucket(entities, model) else []
  {
    if |order| > 0 {
      var front, last := order[..|order| - 1], order[|order| - 1];
      DrawsKeepBucketOrder(entities, front, model);
      OfModelAppend(EntityDraws(entities, front), Bucket(entities, last), model);
      BucketModels(entities, last);
      if last == model {
        OfModelOfOwnBucket(Bucket(entities, last), model);
        LastKeyIsNew(order);
      } else {
        OfModelOfOtherBucket(Bucket(entities, last), last, model);
        assert model in order <==> model in front;
      }
    }
  }

  /** The draws of submitted entities, as filters of the submissions. */
  function DrawsOf(es: seq<Entity>, order: seq<TexturedModel>): seq<Entity> {
    if |order| == 0 then [] else DrawsOf(es, order[..|order| - 1]) + OfModel(es, order[|order| - 1])
  }

  lemma {:induction false} EntityDrawsOfSubmissions(es: seq<Entity>, order: seq<TexturedModel>)
    ensures EntityDraws(SubmitAll(map[], es), order) == DrawsOf(es, order)
  {
    if |order| > 0 {
      EntityDrawsOfSubmissions(es, order[..|order| - 1]);
      SubmitAllBuckets(map[], es, order[|order| - 1]);
    }
  }

  /** In a key order the last key does not occur before it. */
  lemma LastKeyIsNew(order: seq<TexturedModel>)
    requires |order| > 0
    requires forall i, j :: 0 <= i < j < |order| ==> order[i] != order[j]
    ensures order[|order| - 1] !in order[..|order| - 1]
  {
  }

  /** Filtering one more entity. */
  lemma OfModelSnoc(es: seq<Entity>, e: Entity, model: TexturedModel)
    ensures OfModel(es + [e], model) == OfModel(es, model) + if e.model == model then [e] else []
  {
    assert (es + [e])[..|es|] == es;
  }

  /** Membership in a key order split into its front and last key. */
  lemma InOrder(order: seq<TexturedModel>, model: TexturedModel)
    requires |order| > 0
    ensures model in order <==> model in order[..|order| - 1] || model == order[|order| - 1]
  {
    assert order == order[..|order| - 1] + [order[|order| - 1]];
  }

  /** One more submission adds the entity to the draws once if its model is
      visited, and not at all otherwise. */
  lemma {:induction false} DrawsOfSnoc(es: seq<Entity>, e: Entity, order: seq<TexturedModel>)
    requires forall i, j :: 0 <= i < j < |order| ==> order[i] != order[j]
    ensures multiset(DrawsOf(es + [e], order))
      == multiset(DrawsOf(es, order)) + (if e.model in order then multiset{e} else multiset{})
  {
    if |order| > 0 {
      var front, last := order[..|order| - 1], order[|order| - 1];
      DrawsOfSnoc(es, e, front);
      LastKeyIsNew(order);
      OfModelSnoc(es, e, last);
      InOrder(order, e.model);
      assert DrawsOf(es + [e], order) == DrawsOf(es + [e], front) + OfModel(es + [e], last);
      assert DrawsOf(es, order) == DrawsOf(es, front) + OfModel(es, last);
      AddedOnce(multiset(DrawsOf(es, front)), multiset(DrawsOf(es + [e], front)),
                multiset(OfModel(es, last)), multiset(OfModel(es + [e], last)),
                e, e.model in front, e.model == last);
    }
  }

  /** Adding e on at most one of two sides adds it once to their sum. */
  lemma AddedOnce(x: multiset<Entity>, x': multiset<Entity>, y: multiset<Entity>, y': multiset<Entity>,
                  e: Entity, inX: bool, inY: bool)
    requires !(inX && inY)
    requires x' == x + (if inX then multiset{e} else multiset{})
    requires y' == y + (if inY then multiset{e} else multiset{})
    ensures x' + y' == x + y + (if inX || inY then multiset{e} else multiset{})
  {
  }

  /** Without submissions nothing is drawn. */
  lemma {:induction false} NothingDrawn(order: seq<TexturedModel>)
    ensures DrawsOf([], order) == []
  {
    if |order| > 0 {
      NothingDrawn(order[..|order| - 1]);
    }
  }

  /** The submissions whose model is visited. */
  function Visited(es: seq<Entity>, order: seq<TexturedModel>): seq<Entity> {
    if |es| == 0 then []
    else Visited(es[..|es| - 1], order) + (if es[|es| - 1].model in order then [es[|es| - 1]] else [])
  }

  lemma {:induction false} DrawsOfIsVisited(es: seq<Entity>, order: seq<TexturedModel>)
    requires forall i, j :: 0 <= i < j < |order| ==> order[i] != order[j]
    ensures multiset(DrawsOf(es, order)) == multiset(Visited(es, order))
  {
    if |es| == 0 {
      NothingDrawn(order);
    } else {
      var front, e := es[..|es| - 1], es[|es| - 1];
      DrawsOfIsVisited(front, order);
      assert es == front + [e];
      DrawsOfSnoc(front, e, order);
      assert Visited(es, order) == Visited(front, order) + (if e.model in order then [e] else []);
    }
  }

  lemma {:induction false} VisitedAll(es: seq<Entity>, order: seq<TexturedModel>)
    requires forall e :: e in es ==> e.model in order
    ensures Visited(es, order) == es
  {
    if |es| > 0 {
      var front := es[..|es| - 1];
      assert forall e :: e in front ==> e in es;
      VisitedAll(front, order);
      assert es[|es| - 1] in es;
    }
  }

  /** Each entity submitted during a frame is drawn exactly once by that
      frame's render, whatever order the map hands its keys out in. */
  lemma SubmissionsDrawnOnce(es: seq<Entity>, order: seq<TexturedModel>)
    requires KeyOrder(order, SubmitAll(map[], es).Keys)
    ensures multiset(EntityDraws(SubmitAll(map[], es), order)) == multiset(es)
  {
    EntityDrawsOfSubmissions(es, order);
    DrawsOfIsVisited(es, order);
    SubmitAllKeys(map[], es);
    forall e | e in es
      ensures e.model in order
    {
      assert e.model in Models(es);
    }
    VisitedAll(es, order);
  }

  /** The renderer with its per-frame collections and the wireframe flag. */
  class MasterRenderer {
    var wireframeMode: bool
    var entities: Buckets
    var terrains: seq<Terrain>

    predicate Valid()
      reads this
    {
      WellKeyed(entities)
    }

    constructor ()
      ensures Valid()
      ensures !wireframeMode && entities == map[] && terrains == []
    {
      wireframeMode := false;
      entities := map[];
      terrains := [];
    }

    /** Appends the entity to the list of its model, creating the list on
        first use. */
    method ProcessEntity(entity: Entity)
      requires Valid()
      modifies this
      ensures Valid()
      ensures entities == Submit(old(entities), entity)
      ensures terrains == old(terrains) && wireframeMode == old(wireframeMode)
    {
      var model := entity.model;
      var list := if model in entities then entities[model] else [];
      list := list + [entity];
      entities := entities[model := list];
      SubmitKeepsWellKeyed(old(entities), entity);
    }

    method ProcessTerrain(terrain: Terrain)
      modifies this
      ensures terrains == old(terrains) + [terrain]
      ensures entities == old(entities) && wireframeMode == old(wireframeMode)
    {
      terrains := terrains + [terrain];
    }

    /** A frame: the entity renderer walks the buckets in the given key order,
        the terrain renderer walks the terrains, then both are cleared. */
    method Render(order: seq<TexturedModel>) returns (drawnEntities: seq<Entity>, drawnTerrains: seq<Terrain>)
      requires Valid()
      requires KeyOrder(order, entities.Keys)
      modifies this
      ensures Valid()
      ensures drawnEntities == EntityDraws(old(entities), order)
      ensures drawnTerrains == old(terrains)
      ensures entities == map[] && terrains == [] && wireframeMode == old(wireframeMode)
    {
      drawnEntities := [];
      var i := 0;
      while i < |order|
        invariant 0 <= i <= |order|
        invariant drawnEntities == EntityDraws(entities, order[..i])
      {
        var model := order[i];
        var toRender := entities[model];
        var j := 0;
        while j < |toRender|
          invariant 0 <= j <= |toRender|
          invariant drawnEntities == EntityDraws(entities, order[..i]) + toRender[..j]
        {
          drawnEntities := drawnEntities + [toRender[j]];
          j := j + 1;
        }
        assert order[..i + 1][..i] == order[..i];
        assert toRender[..j] == toRender;
        i := i + 1;
      }
      assert order[..|order|] == order;
      drawnTerrains := [];
      var k := 0;
      while k < |terrains|
        invariant 0 <= k <= |terrains|
        invariant drawnTerrains == terrains[..k]
      {
        drawnTerrains := drawnTerrains + [terrains[k]];
        k := k + 1;
      }
      assert terrains[..k] == terrains;
      terrains := [];
      entities := map[];
    }

    method SetWireframeMode(wireframeMode: bool)
      modifies this
      ensures IsWireframeMode() == wireframeMode
      ensures entities == old(entities) && terrains == old(terrains)
    {
      this.wireframeMode := wireframeMode;
    }

    function IsWireframeMode(): (mode: bool)
      reads this
    {
      wireframeMode
    }
  }
}
