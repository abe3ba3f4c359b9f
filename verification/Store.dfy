/** The contest store: two singletons, a hash map of hash maps, an event log and an event count. */
module Store {
  import opened Types
  import opened Collections

  // ---- The store's objects as a value ----

  datatype Objects = Objects(
    contest: Option<ContestRecord>,
    state: Option<StateRecord>,
    collections: map<ObjectType, map<string, ContestObject>>)

  const NO_OBJECTS := Objects(None, None, map[])

  function CollectionOf(o: Objects, t: ObjectType): map<string, ContestObject> {
    if t in o.collections then o.collections[t] else map[]
  }

  /** What a lookup by type and id finds. For a singleton type the id plays no role. */
  function Find(o: Objects, t: ObjectType, id: string): Option<ContestObject> {
    if t == ContestType then o.contest
    else if t == StateType then o.state
    else if id in CollectionOf(o, t) then Some(CollectionOf(o, t)[id])
    else None
  }

  /** For any other type it is the object in the collection of the type, under the id. */
  lemma FindInCollection(o: Objects, t: ObjectType, id: string)
    requires t != ContestType && t != StateType
    ensures Find(o, t, id) ==
            if t in o.collections && id in o.collections[t] then Some(o.collections[t][id]) else None
    ensures Find(o, ContestType, id) == o.contest && Find(o, StateType, id) == o.state
  {
  }

  /** Objects by their own id; the last of several with one id stays. */
  function ById(objs: seq<ContestObject>): map<string, ContestObject> {
    if objs == [] then map[]
    else ById(objs[..|objs| - 1])[objs[|objs| - 1].id := objs[|objs| - 1]]
  }

  // ---- Effects ----

  /** What a successful event does to the objects. */
  datatype Effect =
    | Nothing
    | Put(t: ObjectType, id: string, obj: ContestObject)
    | Erase(t: ObjectType, id: string)
    | Replace(t: ObjectType, objs: seq<ContestObject>)

  /** A singleton slot takes only an object of its own kind. */
  predicate Accepted(e: Effect) {
    e.Put? ==> (e.t == ContestType ==> e.obj.body.Contest?) && (e.t == StateType ==> e.obj.body.State?)
  }

  function Perform(o: Objects, e: Effect): Objects
    requires Accepted(e)
  {
    match e
    case Nothing => o
    case Put(t, id, obj) =>
      if t == ContestType then o.(contest := Some(obj))
      else if t == StateType then o.(state := Some(obj))
      else o.(collections := o.collections[t := CollectionOf(o, t)[id := obj]])
    case Erase(t, id) =>
      if t == ContestType then o.(contest := None)
      else if t == StateType then o.(state := None)
      else if id in CollectionOf(o, t) then o.(collections := o.collections[t := CollectionOf(o, t) - {id}])
      else o
    case Replace(t, objs) => o.(collections := o.collections[t := ById(objs)])
  }

  // ---- The class ----

  datatype StoreValue = StoreValue(objects: Objects, eventLog: seq<RawEvent>, eventCount: nat)

  /** `objs` lists the values of a collection, one per key, in some order. */
  ghost predicate Lists(objs: seq<ContestObject>, c: map<string, ContestObject>) {
    exists keys: seq<string> :: Enumerates(keys, c.Keys) && ListsBy(objs, c, keys)
  }

  ghost predicate ListsBy(objs: seq<ContestObject>, c: map<string, ContestObject>, keys: seq<string>) {
    |keys| == |objs| && forall i | 0 <= i < |keys| :: keys[i] in c && objs[i] == c[keys[i]]
  }

  class ContestStore {
    var contest: Option<ContestRecord>
    var state: Option<StateRecord>
    var collections: map<ObjectType, map<string, ContestObject>>
    var eventLog: seq<RawEvent>
    var eventCount: nat

    function Value(): StoreValue
      reads this
    {
      StoreValue(Objects(contest, state, collections), eventLog, eventCount)
    }

    constructor ()
      ensures Value() == StoreValue(NO_OBJECTS, [], 0)
    {
      contest, state, collections, eventLog, eventCount := None, None, map[], [], 0;
    }

    method GetObject(t: ObjectType, id: string) returns (r: Result<ContestObject, Status>)
      ensures r == match Find(Value().objects, t, id) case Some(o) => Ok(o) case None => Err(NotFound)
    {
      if t == ContestType {
        if contest.Some? { return Ok(contest.value); }
        return Err(NotFound);
      }
      if t == StateType {
        if state.Some? { return Ok(state.value); }
        return Err(NotFound);
      }
      if t !in collections {
        return Err(NotFound);
      }
      if id !in collections[t] {
        return Err(NotFound);
      }
      return Ok(collections[t][id]);
    }

    /** The singleton of a singleton type, if there is one; otherwise walks the hash map of the type in whatever
        order it has. */
    method ListObjects(t: ObjectType) returns (r: seq<ContestObject>)
      ensures t == ContestType ==> r == match contest case Some(c) => [c] case None => []
      ensures t == StateType ==> r == match state case Some(s) => [s] case None => []
      ensures !IsSingleton(t) ==> Lists(r, CollectionOf(Value().objects, t))
    {
      r := [];
      if t == ContestType {
        if contest.Some? { r := [contest.value]; }
        return;
      }
      if t == StateType {
        if state.Some? { r := [state.value]; }
        return;
      }
      ghost var c := CollectionOf(Value().objects, t);
      ghost var keys: seq<string> := [];
      if t in collections {
        var todo := collections[t].Keys;
        while todo != {}
          invariant todo <= c.Keys
          invariant Enumerates(keys, c.Keys - todo) && ListsBy(r, c, keys)
        {
          var key :| key in todo;
          EnumeratesOneMore(keys, c.Keys - todo, c.Keys - (todo - {key}), key);
          todo := todo - {key};
          r, keys := r + [collections[t][key]], keys + [key];
        }
        assert c.Keys - {} == c.Keys;
      }
      assert Enumerates(keys, c.Keys) && ListsBy(r, c, keys);
    }

    method CreateCheckpoint() returns (index: nat)
      ensures index == |Value().eventLog|
    {
      index := |eventLog|;
    }

    /** Truncates the log and clears the objects; bringing them back by replay is the caller's business. */
    method Rollback(index: nat) returns (status: Status)
      modifies this
      ensures index > |old(Value()).eventLog| ==> status == InvalidArgument && Value() == old(Value())
      ensures index <= |old(Value()).eventLog| ==>
              status == Good && Value() == StoreValue(NO_OBJECTS, old(Value()).eventLog[..index], 0)
    {
      if index > |eventLog| {
        return InvalidArgument;
      }
      var saved := eventLog[..index];
      contest, state, collections, eventCount := None, None, map[], 0;
      eventLog := saved;
      return Good;
    }

    method ApplyUpsert(t: ObjectType, id: string, obj: ContestObject) returns (status: Status)
      modifies this
      ensures !Accepted(Put(t, id, obj)) ==> status == Internal && Value() == old(Value())
      ensures Accepted(Put(t, id, obj)) ==>
              status == Good && Value() == Counted(old(Value()), Put(t, id, obj))
    {
      if t == ContestType {
        if !obj.body.Contest? {
          return Internal;
        }
        contest := Some(obj);
      } else if t == StateType {
        if !obj.body.State? {
          return Internal;
        }
        state := Some(obj);
      } else {
        if t !in collections {
          collections := collections[t := map[]];
        }
        collections := collections[t := collections[t][id := obj]];
        assert collections[t] == CollectionOf(old(Value()).objects, t)[id := obj];
        assert collections == old(collections)[t := CollectionOf(old(Value()).objects, t)[id := obj]];
      }
      eventCount := eventCount + 1;
      return Good;
    }

    method ApplyDelete(t: ObjectType, id: string) returns (status: Status)
      modifies this
      ensures status == Good && Value() == Counted(old(Value()), Erase(t, id))
    {
      if t == ContestType || t == StateType {
        if t == ContestType {
          contest := None;
        } else {
          state := None;
        }
        eventCount := eventCount + 1;
        return Good;
      }
      if t !in collections || id !in collections[t] {
        eventCount := eventCount + 1;
        return Good;
      }
      collections := collections[t := collections[t] - {id}];
      eventCount := eventCount + 1;
      return Good;
    }

    method ApplyCollectionReplace(t: ObjectType, objs: seq<ContestObject>) returns (status: Status)
      modifies this
      ensures status == Good && Value() == Counted(old(Value()), Replace(t, objs))
    {
      var coll: map<string, ContestObject> := map[];
      for i := 0 to |objs|
        invariant coll == ById(objs[..i])
      {
        assert objs[..i + 1][..i] == objs[..i];
        coll := coll[objs[i].id := objs[i]];
      }
      assert objs[..|objs|] == objs;
      collections := collections[t := coll];
      eventCount := eventCount + 1;
      return Good;
    }

    method ApplySingletonUpdate(t: ObjectType, obj: ContestObject) returns (status: Status)
      modifies this
      ensures !Accepted(Put(t, obj.id, obj)) ==> status == Internal && Value() == old(Value())
      ensures Accepted(Put(t, obj.id, obj)) ==>
              status == Good && Value() == Counted(old(Value()), Put(t, obj.id, obj))
    {
      status := ApplyUpsert(t, obj.id, obj);
    }

    method RecordEvent(e: RawEvent)
      modifies this
      ensures Value() == old(Value()).(eventLog := old(Value()).eventLog + [e])
    {
      eventLog := eventLog + [e];
    }
  }

  /** An effect that is performed also counts as an event of the store. */
  function Counted(v: StoreValue, e: Effect): StoreValue
    requires Accepted(e)
  {
    v.(objects := Perform(v.objects, e), eventCount := v.eventCount + 1)
  }

  // ---- Keys and ids ----

  /** Every object that a lookup by type and id finds has that id. */
  ghost predicate ProperKeys(o: Objects) {
    forall t, id | !IsSingleton(t) && id in CollectionOf(o, t) :: CollectionOf(o, t)[id].id == id
  }

  /** An upsert that stores its object under the object's own id. */
  predicate ProperEffect(e: Effect) {
    e.Put? && !IsSingleton(e.t) ==> e.obj.id == e.id
  }

  lemma {:induction false} ByIdIsProper(objs: seq<ContestObject>)
    ensures forall id | id in ById(objs) :: ById(objs)[id].id == id
  {
    if objs != [] {
      ByIdIsProper(objs[..|objs| - 1]);
    }
  }

  lemma PerformKeepsProperKeys(o: Objects, e: Effect)
    requires Accepted(e) && ProperEffect(e) && ProperKeys(o)
    ensures ProperKeys(Perform(o, e))
  {
    hide ById;
    if e.Replace? {
      ByIdIsProper(e.objs);
    }
    forall t, id | !IsSingleton(t) && id in CollectionOf(Perform(o, e), t)
      ensures CollectionOf(Perform(o, e), t)[id].id == id
    {
      assert id in CollectionOf(o, t) ==> CollectionOf(o, t)[id].id == id;
    }
  }

  // ---- Last writer wins ----

  /** What effect `e` leaves under a key: None if it does not touch the key. */
  function Write(e: Effect, t: ObjectType, id: string): Option<Option<ContestObject>> {
    match e
    case Nothing => None
    case Put(u, i, obj) => if u == t && (IsSingleton(t) || i == id) then Some(Some(obj)) else None
    case Erase(u, i) => if u == t && (IsSingleton(t) || i == id) then Some(None) else None
    case Replace(u, objs) => if u == t && !IsSingleton(t) then Some(LastWithId(objs, id)) else None
  }

  /** Scanning an array backwards for an id. */
  function LastWithId(objs: seq<ContestObject>, id: string): Option<ContestObject> {
    if objs == [] then None
    else if objs[|objs| - 1].id == id then Some(objs[|objs| - 1])
    else LastWithId(objs[..|objs| - 1], id)
  }

  lemma {:induction false} ByIdIsLast(objs: seq<ContestObject>, id: string)
    ensures (if id in ById(objs) then Some(ById(objs)[id]) else None) == LastWithId(objs, id)
  {
    if objs != [] {
      ByIdIsLast(objs[..|objs| - 1], id);
    }
  }

  /** One effect decides the keys it touches and leaves every other key alone. */
  lemma PerformWrites(o: Objects, e: Effect, t: ObjectType, id: string)
    requires Accepted(e)
    ensures Find(Perform(o, e), t, id) == Write(e, t, id).GetOr(Find(o, t, id))
  {
    if e == Nothing || e.t != t {
      OtherTypeKept(o, e, t, id);
    } else {
      OwnTypeWritten(o, e, id);
    }
  }

  lemma OtherTypeKept(o: Objects, e: Effect, t: ObjectType, id: string)
    requires Accepted(e) && (e == Nothing || e.t != t)
    ensures Find(Perform(o, e), t, id) == Find(o, t, id)
  {
    if e != Nothing {
      hide Perform, Find, Slot;
      OtherSlotsUntouched(o, e, t);
      SameSlotFinds(Perform(o, e), o, t, id);
    }
  }

  lemma SameSlotFinds(x: Objects, y: Objects, t: ObjectType, id: string)
    requires Slot(x, t) == Slot(y, t)
    requires (t == ContestType ==> x.contest == y.contest) && (t == StateType ==> x.state == y.state)
    ensures Find(x, t, id) == Find(y, t, id)
  {
    assert CollectionOf(x, t) == CollectionOf(y, t);
  }

  lemma OwnTypeWritten(o: Objects, e: Effect, id: string)
    requires Accepted(e) && e != Nothing
    ensures Find(Perform(o, e), e.t, id) == Write(e, e.t, id).GetOr(Find(o, e.t, id))
  {
    hide ById, LastWithId;
    if e.Replace? {
      ByIdIsLast(e.objs, id);
    }
  }

  // ---- Independent effects ----

  /** Effects whose order can matter: one type, and one key of it, a whole-collection replace, or a singleton slot. */
  predicate Dependent(a: Effect, b: Effect) {
    && a != Nothing && b != Nothing
    && a.t == b.t
    && (IsSingleton(a.t) || a.Replace? || b.Replace? || a.id == b.id)
  }

  /** The collection stored under a type, if any. */
  function Slot(o: Objects, t: ObjectType): Option<map<string, ContestObject>> {
    if t in o.collections then Some(o.collections[t]) else None
  }

  lemma OtherSlotsUntouched(o: Objects, e: Effect, u: ObjectType)
    requires Accepted(e) && e != Nothing && u != e.t
    ensures Slot(Perform(o, e), u) == Slot(o, u)
    ensures u == ContestType ==> Perform(o, e).contest == o.contest
    ensures u == StateType ==> Perform(o, e).state == o.state
  {
  }

  lemma OwnSlotDecides(o: Objects, o': Objects, e: Effect)
    requires Accepted(e) && e != Nothing && Slot(o, e.t) == Slot(o', e.t)
    ensures Slot(Perform(o, e), e.t) == Slot(Perform(o', e), e.t)
    ensures e.t == ContestType && o.contest == o'.contest ==> Perform(o, e).contest == Perform(o', e).contest
    ensures e.t == StateType && o.state == o'.state ==> Perform(o, e).state == Perform(o', e).state
  {
    assert CollectionOf(o, e.t) == CollectionOf(o', e.t);
  }

  lemma SameSlots(x: Objects, y: Objects)
    requires x.contest == y.contest && x.state == y.state && forall u :: Slot(x, u) == Slot(y, u)
    ensures x == y
  {
    forall u
      ensures u in x.collections <==> u in y.collections
      ensures u in x.collections ==> x.collections[u] == y.collections[u]
    {
      assert Slot(x, u) == Slot(y, u);
    }
    assert x.collections == y.collections;
  }

  lemma DifferentTypesCommuteAt(o: Objects, a: Effect, b: Effect)
    requires Accepted(a) && Accepted(b) && a != Nothing && b != Nothing && a.t != b.t
    ensures
      var x, y := Perform(Perform(o, a), b), Perform(Perform(o, b), a);
      Slot(x, a.t) == Slot(y, a.t)
      && (a.t == ContestType ==> x.contest == y.contest) && (a.t == StateType ==> x.state == y.state)
  {
    OtherSlotsUntouched(Perform(o, a), b, a.t);
    OtherSlotsUntouched(o, b, a.t);
    OwnSlotDecides(o, Perform(o, b), a);
  }

  lemma ThirdSlotUntouched(o: Objects, a: Effect, b: Effect, u: ObjectType)
    requires Accepted(a) && Accepted(b) && a != Nothing && b != Nothing && u != a.t && u != b.t
    ensures
      var x, y := Perform(Perform(o, a), b), Perform(Perform(o, b), a);
      Slot(x, u) == Slot(y, u)
      && (u == ContestType ==> x.contest == y.contest) && (u == StateType ==> x.state == y.state)
  {
    hide Perform, Slot;
    OtherSlotsUntouched(o, a, u);
    OtherSlotsUntouched(Perform(o, a), b, u);
    OtherSlotsUntouched(o, b, u);
    OtherSlotsUntouched(Perform(o, b), a, u);
  }

  lemma DifferentTypesCommute(o: Objects, a: Effect, b: Effect)
    requires Accepted(a) && Accepted(b) && a != Nothing && b != Nothing && a.t != b.t
    ensures Perform(Perform(o, a), b) == Perform(Perform(o, b), a)
  {
    hide Perform;
    var x, y := Perform(Perform(o, a), b), Perform(Perform(o, b), a);
    DifferentTypesCommuteAt(o, a, b);
    DifferentTypesCommuteAt(o, b, a);
    forall u | u != a.t && u != b.t
      ensures Slot(x, u) == Slot(y, u)
    {
      ThirdSlotUntouched(o, a, b, u);
    }
    if a.t != ContestType && b.t != ContestType {
      ThirdSlotUntouched(o, a, b, ContestType);
    }
    if a.t != StateType && b.t != StateType {
      ThirdSlotUntouched(o, a, b, StateType);
    }
    SameSlots(x, y);
  }

  /** Independent effects commute. */
  lemma IndependentCommute(o: Objects, a: Effect, b: Effect)
    requires Accepted(a) && Accepted(b) && !Dependent(a, b)
    ensures Perform(Perform(o, a), b) == Perform(Perform(o, b), a)
  {
    if a != Nothing && b != Nothing {
      if a.t != b.t {
        DifferentTypesCommute(o, a, b);
      } else {
        SameTypeCommute(o, a, b);
      }
    }
  }

  /** What an effect on one key does to the collection under its type; an erase does not even create an empty one. */
  function OnSlot(slot: Option<map<string, ContestObject>>, e: Effect): Option<map<string, ContestObject>>
    requires e.Put? || e.Erase?
  {
    if e.Put? then Some(slot.GetOr(map[])[e.id := e.obj])
    else if slot.None? then None
    else Some(slot.value - {e.id})
  }

  lemma OneKeySlot(o: Objects, e: Effect)
    requires Accepted(e) && (e.Put? || e.Erase?) && !IsSingleton(e.t)
    ensures Slot(Perform(o, e), e.t) == OnSlot(Slot(o, e.t), e)
  {
    var c := CollectionOf(o, e.t);
    assert e.id !in c ==> c - {e.id} == c;
  }

  lemma DifferentKeysCommute(slot: Option<map<string, ContestObject>>, a: Effect, b: Effect)
    requires (a.Put? || a.Erase?) && (b.Put? || b.Erase?) && a.id != b.id
    ensures OnSlot(OnSlot(slot, a), b) == OnSlot(OnSlot(slot, b), a)
  {
    var x, y := OnSlot(OnSlot(slot, a), b), OnSlot(OnSlot(slot, b), a);
    assert x.Some? ==> x.value == y.value;
  }

  lemma SameTypeSlot(o: Objects, a: Effect, b: Effect)
    requires Accepted(a) && Accepted(b) && a != Nothing && b != Nothing && a.t == b.t && !Dependent(a, b)
    ensures Slot(Perform(Perform(o, a), b), a.t) == Slot(Perform(Perform(o, b), a), a.t)
  {
    hide Perform, Slot, OnSlot;
    OneKeySlot(o, a);
    OneKeySlot(o, b);
    OneKeySlot(Perform(o, a), b);
    OneKeySlot(Perform(o, b), a);
    DifferentKeysCommute(Slot(o, a.t), a, b);
  }

  lemma SameTypeCommute(o: Objects, a: Effect, b: Effect)
    requires Accepted(a) && Accepted(b) && a != Nothing && b != Nothing && a.t == b.t && !Dependent(a, b)
    ensures Perform(Perform(o, a), b) == Perform(Perform(o, b), a)
  {
    hide Perform;
    SameTypeSlot(o, a, b);
    forall u | u != a.t
      ensures Slot(Perform(Perform(o, a), b), u) == Slot(Perform(Perform(o, b), a), u)
    {
      ThirdSlotUntouched(o, a, b, u);
    }
    ThirdSlotUntouched(o, a, b, ContestType);
    ThirdSlotUntouched(o, a, b, StateType);
    SameSlots(Perform(Perform(o, a), b), Perform(Perform(o, b), a));
  }
}
