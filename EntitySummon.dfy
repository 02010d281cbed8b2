/**
  The per-owner summon factory. It prepares summoned entities, asks the
  owner's map to add them, tracks the guids of those the map has added, and
  raises OnSummon / OnUnsummon as guids are tracked and untracked. The map,
  the entity factory and the entities themselves are collaborators: the model
  records what the factory asks of them (`mapRequests`) and lets the map call
  back through `OnAddedToMap`.
*/
module EntitySummon {
  import opened Base

  /** A position or rotation; the factory only passes these along. */
  datatype Vector3 = Vector3(x: real, y: real, z: real)

  /** A creature or object template; `entityType` picks the kind of entity it makes. */
  datatype EntityTemplate = EntityTemplate(id: nat, entityType: nat)

  /** The entity that owns the summons, and the map it is on. */
  datatype Owner = Owner(guid: uint32, mapId: nat)

  /** A summoned entity as the factory hands it to the map. */
  datatype SummonedEntity = SummonedEntity(
    entityType: nat, template: EntityTemplate, rotation: Vector3, summonerGuid: uint32)

  /** What the factory asks of the owner's map. */
  datatype MapRequest =
    | AddToMap(mapId: nat, entity: SummonedEntity, position: Vector3, callback: nat)
    | RemoveFromMap(guid: uint32)

  /** What the factory's listeners observe, in order. */
  datatype Event =
    | Summoned(guid: uint32)     // OnSummon
    | Unsummoned(guid: uint32)   // OnUnsummon
    | CallerAdd(guid: uint32)    // the add callback given to Summon

  /** The OnUnsummon events raised for `guids`, one each, in order. */
  function UnsummonEvents(guids: seq<uint32>): seq<Event>
  {
    if guids == [] then [] else UnsummonEvents(guids[..|guids| - 1]) + [Unsummoned(guids[|guids| - 1])]
  }

  /** The removal requests `Unsummon` makes for `guids`, skipping those no longer on the map. */
  function Removals(guids: seq<uint32>, onMap: set<uint32>): (r: seq<MapRequest>)
    ensures |r| <= |guids|
    ensures forall k :: 0 <= k < |r| ==> r[k].RemoveFromMap? && r[k].guid in onMap && r[k].guid in guids
    ensures forall g :: g in guids && g in onMap ==> RemoveFromMap(g) in r
  {
    if guids == [] then []
    else
      var last := guids[|guids| - 1];
      Removals(guids[..|guids| - 1], onMap) + (if last in onMap then [RemoveFromMap(last)] else [])
  }

  /** Unsummoning one more guid extends both traces by that guid's entries. */
  lemma UnsummonStep(events: seq<Event>, requests: seq<MapRequest>, order: seq<uint32>, guid: uint32, onMap: set<uint32>)
    ensures events + UnsummonEvents(order) + [Unsummoned(guid)] == events + UnsummonEvents(order + [guid])
    ensures requests + Removals(order, onMap) + (if guid in onMap then [RemoveFromMap(guid)] else [])
            == requests + Removals(order + [guid], onMap)
  {
    assert (order + [guid])[..|order|] == order;
  }

  /** `total` is split into the guids still to visit and those visited, in `order`. */
  ghost predicate Partitioned(total: set<uint32>, remaining: set<uint32>, visited: set<uint32>, order: seq<uint32>)
  {
    && remaining !! visited && remaining + visited == total
    && Elements(order) == visited
    && |order| + |remaining| == |total|
  }

  /** The guids occurring in `order`. */
  ghost function Elements(order: seq<uint32>): set<uint32>
  {
    if order == [] then {} else Elements(order[..|order| - 1]) + {order[|order| - 1]}
  }

  lemma {:induction false} ElementsMembership(order: seq<uint32>)
    ensures forall g :: g in Elements(order) <==> g in order
  {
    if order != [] {
      ElementsMembership(order[..|order| - 1]);
      assert order == order[..|order| - 1] + [order[|order| - 1]];
    }
  }

  lemma PartitionStep(total: set<uint32>, remaining: set<uint32>, visited: set<uint32>, order: seq<uint32>, guid: uint32)
    requires Partitioned(total, remaining, visited, order) && guid in remaining
    ensures Partitioned(total, remaining - {guid}, visited + {guid}, order + [guid])
  {
    assert |remaining - {guid}| == |remaining| - 1;
    assert (order + [guid])[..|order|] == order;
  }

  lemma PartitionDone(total: set<uint32>, visited: set<uint32>, order: seq<uint32>)
    requires Partitioned(total, {}, visited, order)
    ensures |order| == |total| && forall g :: g in order <==> g in total
  {
    ElementsMembership(order);
  }

  class EntitySummonFactory {
    /** Set once by `Initialise`; `None` stands for a null owner. */
    var owner: Option<Owner>
    /** Guids of summons the map has added and nobody has untracked since. */
    var summonGuids: set<uint32>
    /** For each callback handed to the map (by position): whether the caller gave its own add callback. */
    var callbacks: seq<bool>
    /** Everything listeners have observed. */
    var events: seq<Event>
    /** Everything asked of the map. */
    var mapRequests: seq<MapRequest>
    /** Every guid the map has reported through an add callback. */
    ghost var added: set<uint32>

    ghost predicate Valid()
      reads this
    {
      && (owner.None? ==> summonGuids == {} && callbacks == [])
      && summonGuids <= added
    }

    constructor ()
      ensures Valid()
      ensures owner.None? && summonGuids == {} && callbacks == [] && events == [] && mapRequests == []
    {
      owner := None;
      summonGuids := {};
      callbacks := [];
      events := [];
      mapRequests := [];
      added := {};
    }

    /** The number of summons tracked: the distinct guids, of which there are at most 2^32. */
    function SummonCount(): (n: nat)
      reads this
      ensures n == |summonGuids| && n <= TWO_TO_THE_32
    {
      Uint32SetCardinality(summonGuids);
      |summonGuids|
    }

    /**
      Sets the owner. Fails (InvalidOperationException) when an owner is already
      set, and then changes nothing.
    */
    method Initialise(newOwner: Option<Owner>) returns (thrown: bool)
      requires Valid()
      modifies this
      ensures Valid()
      ensures thrown <==> old(owner).Some?
      ensures owner == (if thrown then old(owner) else newOwner)
      ensures summonGuids == old(summonGuids) && callbacks == old(callbacks)
      ensures events == old(events) && mapRequests == old(mapRequests) && added == old(added)
    {
      if owner.Some? {
        return true;
      }
      owner := newOwner;
      thrown := false;
    }

    /**
      Summons an entity of the template's own type at `position` with `rotation`;
      `hasAdd` says whether the caller passes an add callback. Nothing is tracked
      yet: that waits for the map to call back. `None` stands for the
      NullReferenceException raised when no owner is set, before any request.
    */
    method Summon(template: EntityTemplate, position: Vector3, rotation: Vector3, hasAdd: bool)
      returns (entity: Option<SummonedEntity>)
      requires Valid()
      modifies this
      ensures Valid()
      ensures owner == old(owner) && summonGuids == old(summonGuids) && events == old(events) && added == old(added)
      ensures entity.Some? <==> owner.Some?
      ensures entity.Some? ==> entity.value == SummonedEntity(template.entityType, template, rotation, owner.value.guid)
      ensures entity.Some? ==>
                && mapRequests == old(mapRequests) + [AddToMap(owner.value.mapId, entity.value, position, |old(callbacks)|)]
                && callbacks == old(callbacks) + [hasAdd]
      ensures entity.None? ==> mapRequests == old(mapRequests) && callbacks == old(callbacks)
    {
      entity := SummonOfType(template.entityType, template, position, rotation, hasAdd);
    }

    /** `Summon<T>`: as `Summon`, for an entity of the given type. */
    method SummonOfType(entityType: nat, template: EntityTemplate, position: Vector3, rotation: Vector3, hasAdd: bool)
      returns (entity: Option<SummonedEntity>)
      requires Valid()
      modifies this
      ensures Valid()
      ensures owner == old(owner) && summonGuids == old(summonGuids) && events == old(events) && added == old(added)
      ensures entity.Some? <==> owner.Some?
      ensures entity.Some? ==> entity.value == SummonedEntity(entityType, template, rotation, owner.value.guid)
      ensures entity.Some? ==>
                && mapRequests == old(mapRequests) + [AddToMap(owner.value.mapId, entity.value, position, |old(callbacks)|)]
                && callbacks == old(callbacks) + [hasAdd]
      ensures entity.None? ==> mapRequests == old(mapRequests) && callbacks == old(callbacks)
    {
      if owner.None? {
        return None;
      }
      var e := SummonedEntity(entityType, template, rotation, owner.value.guid);
      mapRequests := mapRequests + [AddToMap(owner.value.mapId, e, position, |callbacks|)];
      callbacks := callbacks + [hasAdd];
      entity := Some(e);
    }

    /**
      The map has added a summoned entity under `guid` and calls the callback it
      was given: the guid is tracked first, then the caller's own add callback runs.
    */
    method OnAddedToMap(callback: nat, guid: uint32)
      requires Valid() && callback < |callbacks|
      modifies this
      ensures Valid()
      ensures owner == old(owner) && callbacks == old(callbacks) && mapRequests == old(mapRequests)
      ensures added == old(added) + {guid}
      ensures summonGuids == old(summonGuids) + {guid}
      ensures events == old(events) + [Summoned(guid)] + (if callbacks[callback] then [CallerAdd(guid)] else [])
    {
      added := added + {guid};
      TrackSummon(guid);
      if callbacks[callback] {
        events := events + [CallerAdd(guid)];
      }
    }

    /** Tracks `guid` and raises OnSummon, even if it was tracked already. */
    method TrackSummon(guid: uint32)
      requires Valid() && owner.Some? && guid in added
      modifies this
      ensures Valid()
      ensures summonGuids == old(summonGuids) + {guid}
      ensures SummonCount() == old(SummonCount()) + (if guid in old(summonGuids) then 0 else 1)
      ensures events == old(events) + [Summoned(guid)]
      ensures owner == old(owner) && callbacks == old(callbacks) && mapRequests == old(mapRequests) && added == old(added)
    {
      ghost var before := summonGuids;
      summonGuids := summonGuids + {guid};
      assert guid in before ==> summonGuids == before;
      events := events + [Summoned(guid)];
    }

    /** Stops tracking `guid` and raises OnUnsummon, whether or not it was tracked. */
    method UntrackSummon(guid: uint32)
      requires Valid()
      modifies this
      ensures Valid()
      ensures summonGuids == old(summonGuids) - {guid}
      ensures events == old(events) + [Unsummoned(guid)]
      ensures owner == old(owner) && callbacks == old(callbacks) && mapRequests == old(mapRequests) && added == old(added)
    {
      summonGuids := summonGuids - {guid};
      events := events + [Unsummoned(guid)];
    }

    /**
      Unsummons a tracked summon: untracks it, then asks the map to remove it if
      the map still has it (`onMap` is the set of guids the owner's map resolves).
      An untracked guid changes nothing.
    */
    method Unsummon(guid: uint32, onMap: set<uint32>)
      requires Valid()
      modifies this
      ensures Valid()
      ensures guid !in old(summonGuids) ==>
                summonGuids == old(summonGuids) && events == old(events) && mapRequests == old(mapRequests)
      ensures guid in old(summonGuids) ==>
                && summonGuids == old(summonGuids) - {guid}
                && events == old(events) + [Unsummoned(guid)]
                && mapRequests == old(mapRequests) + (if guid in onMap then [RemoveFromMap(guid)] else [])
      ensures owner == old(owner) && callbacks == old(callbacks) && added == old(added)
    {
      if guid !in summonGuids {
        return;
      }
      UntrackSummon(guid);
      if guid !in onMap {
        return;
      }
      mapRequests := mapRequests + [RemoveFromMap(guid)];
    }

    /**
      Unsummons every tracked summon, in the set's enumeration order (`order`),
      and leaves nothing tracked.
    */
    method UnsummonAll(onMap: set<uint32>) returns (ghost order: seq<uint32>)
      requires Valid()
      modifies this
      ensures Valid()
      ensures summonGuids == {}
      ensures |order| == |old(summonGuids)|
      ensures forall g :: g in order <==> g in old(summonGuids)
      ensures events == old(events) + UnsummonEvents(order)
      ensures mapRequests == old(mapRequests) + Removals(order, onMap)
      ensures owner == old(owner) && callbacks == old(callbacks) && added == old(added)
    {
      var remaining := summonGuids;
      ghost var visited: set<uint32> := {};
      order := [];
      while remaining != {}
        invariant Valid()
        invariant summonGuids == remaining
        invariant Partitioned(old(summonGuids), remaining, visited, order)
        invariant events == old(events) + UnsummonEvents(order)
        invariant mapRequests == old(mapRequests) + Removals(order, onMap)
        invariant owner == old(owner) && callbacks == old(callbacks) && added == old(added)
        decreases |remaining|
      {
        var guid :| guid in remaining;
        ghost var eventsBefore, requestsBefore := events, mapRequests;
        Unsummon(guid, onMap);
        assert events == eventsBefore + [Unsummoned(guid)];
        assert mapRequests == requestsBefore + (if guid in onMap then [RemoveFromMap(guid)] else []);
        UnsummonStep(old(events), old(mapRequests), order, guid, onMap);
        PartitionStep(old(summonGuids), remaining, visited, order, guid);
        remaining := remaining - {guid};
        visited := visited + {guid};
        order := order + [guid];
      }
      PartitionDone(old(summonGuids), visited, order);
      summonGuids := {};
    }
  }
}
