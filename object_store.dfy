/** `SimObjectStoreProviderImpl`: a bidirectional index between integer ids and
    objects, kept in two maps, with ids drawn from a counter that only grows. */
module ObjectStore {
  import opened Objects
  import opened Collections

  /** The id `addObject` would report for an object missing from the id map. */
  const INVALID_ID: int := -1

  /** `m` maps different keys to different values. */
  ghost predicate Injective<K, V>(m: map<K, V>)
  {
    forall a, b :: a in m && b in m && a != b ==> m[a] != m[b]
  }

  /** An injective map has as many values as keys. */
  lemma {:induction false} InjectiveValuesCount<K, V>(m: map<K, V>)
    requires Injective(m)
    ensures |m.Values| == |m.Keys|
    decreases |m.Keys|
  {
    if m.Keys != {} {
      assert (forall k :: k !in m.Keys) ==> m.Keys == {};
      var k :| k in m.Keys;
      var m' := m - {k};
      assert m'.Keys == m.Keys - {k};
      assert m'.Values == m.Values - {m[k]} by {
        forall v | v in m.Values
          ensures v in m'.Values <==> v != m[k]
        {
          assert (forall k' :: k' in m ==> m[k'] != v) ==> v !in m.Values;
          var k' :| k' in m && m[k'] == v;
          if v != m[k] {
            assert k' != k && k' in m';
          }
        }
      }
      InjectiveValuesCount(m');
    }
  }

  class SimObjectStore {
    /** `nextIdAtomic`: the id the next new object receives. */
    var nextId: int
    var idObjectMap: map<int, SimObject>
    var objectIdMap: map<SimObject, int>
    /** Every id handed out so far. */
    ghost var issued: set<int>

    /** The two maps are exact inverses, and only issued ids are bound. */
    ghost predicate Valid()
      reads this
    {
      && 0 <= nextId
      && (forall i :: i in issued <==> 0 <= i < nextId)
      && idObjectMap.Keys <= issued
      && (forall id :: id in idObjectMap ==>
            idObjectMap[id] in objectIdMap && objectIdMap[idObjectMap[id]] == id)
      && (forall o :: o in objectIdMap ==>
            objectIdMap[o] in idObjectMap && idObjectMap[objectIdMap[o]] == o)
    }

    constructor ()
      ensures Valid()
      ensures nextId == 0 && idObjectMap == map[] && objectIdMap == map[]
    {
      nextId := 0;
      idObjectMap := map[];
      objectIdMap := map[];
      issued := {};
    }

    /** `getObject`: the object bound to `id`, or `VOID`. */
    function GetObject(id: int): (r: Lookup)
      reads this
      ensures r.Found? <==> id in idObjectMap
      ensures r.Found? ==> r.obj == idObjectMap[id]
      ensures Valid() && r.Found? ==> r.obj in objectIdMap && objectIdMap[r.obj] == id
    {
      if id in idObjectMap then Found(idObjectMap[id]) else Void
    }

    /** The `get` operator. */
    function Get(id: int): (r: Lookup)
      reads this
      ensures r == GetObject(id)
    {
      if id in idObjectMap then Found(idObjectMap[id]) else Void
    }

    /** The `contains` operator: `idObjectMap.containsValue`. In a valid store it holds
        exactly for the registered objects, and `getObject` of the object's id finds it. */
    function Contains(o: SimObject): (r: bool)
      reads this
      ensures Valid() ==> (r <==> o in objectIdMap)
      ensures Valid() && r ==> GetObject(objectIdMap[o]) == Found(o)
    {
      RegisteredAreValues();
      o in idObjectMap.Values
    }

    /** In a valid store the objects with an id are exactly the values of the id map. */
    lemma RegisteredAreValues()
      ensures Valid() ==> objectIdMap.Keys == idObjectMap.Values
    {
      if Valid() {
        forall o | o in idObjectMap.Values
          ensures o in objectIdMap
        {
          assert (forall id :: id in idObjectMap ==> idObjectMap[id] != o) ==> o !in idObjectMap.Values;
          var id :| id in idObjectMap && idObjectMap[id] == o;
        }
      }
    }

    /** `size`: the number of bound ids. */
    function Size(): (n: nat)
      reads this
      ensures n == 0 <==> idObjectMap == map[]
      ensures forall id :: id in idObjectMap ==> n > 0
    {
      |idObjectMap|
    }

    /** In a valid store the size is also the number of registered objects. */
    lemma SizeIsObjectCount()
      requires Valid()
      ensures Size() == |objectIdMap| == |idObjectMap.Values|
    {
      RegisteredAreValues();
      forall a, b | a in idObjectMap && b in idObjectMap && a != b
        ensures idObjectMap[a] != idObjectMap[b]
      {
        assert objectIdMap[idObjectMap[a]] == a && objectIdMap[idObjectMap[b]] == b;
      }
      InjectiveValuesCount(idObjectMap);
    }

    method AddObject(o: SimObject) returns (id: int)
      requires Valid()
      modifies this
      ensures Valid()
      ensures old(Contains(o)) ==>
        && id == old(objectIdMap[o]) && id != INVALID_ID
        && nextId == old(nextId) && issued == old(issued)
        && idObjectMap == old(idObjectMap) && objectIdMap == old(objectIdMap)
      ensures !old(Contains(o)) ==>
        && id == old(nextId) && id !in old(issued)
        && (forall j :: j in old(issued) ==> j < id)
        && nextId == old(nextId) + 1 && issued == old(issued) + {id}
        && idObjectMap == old(idObjectMap)[id := o] && objectIdMap == old(objectIdMap)[o := id]
        && Size() == old(Size()) + 1
      ensures GetObject(id) == Found(o)
    {
      if o in idObjectMap.Values {
        id := if o in objectIdMap then objectIdMap[o] else INVALID_ID;
      } else {
        id := nextId;
        nextId := nextId + 1;
        issued := issued + {id};
        objectIdMap := objectIdMap[o := id];
        idObjectMap := idObjectMap[id := o];
      }
    }

    method RemoveObject(id: int) returns (r: Lookup)
      requires Valid()
      modifies this
      ensures Valid()
      ensures r == old(GetObject(id))
      ensures GetObject(id) == Void
      ensures nextId == old(nextId) && issued == old(issued)
      ensures r.Found? ==>
        && idObjectMap == old(idObjectMap) - {id} && objectIdMap == old(objectIdMap) - {r.obj}
        && Size() == old(Size()) - 1
      ensures r.Void? ==> idObjectMap == old(idObjectMap) && objectIdMap == old(objectIdMap)
    {
      if id in idObjectMap {
        var obj := idObjectMap[id];
        idObjectMap := idObjectMap - {id};
        objectIdMap := objectIdMap - {obj};
        assert idObjectMap.Keys == old(idObjectMap).Keys - {id};
        r := Found(obj);
      } else {
        r := Void;
      }
    }

    /** `clearAll`: both maps empty; the id counter is not reset. */
    method ClearAll()
      requires Valid()
      modifies this
      ensures Valid()
      ensures idObjectMap == map[] && objectIdMap == map[] && Size() == 0
      ensures nextId == old(nextId) && issued == old(issued)
    {
      objectIdMap := map[];
      idObjectMap := map[];
    }

    /** `iterator`: every bound object once, in some order (one per entry of the id map). */
    method Iterator() returns (s: seq<SimObject>)
      ensures |s| == |idObjectMap.Keys|
      ensures forall o :: o in s <==> o in idObjectMap.Values
      ensures Valid() ==> NoDuplicates(s)
    {
      var rest := idObjectMap.Keys;
      ghost var done: set<int> := {};
      s := [];
      while rest != {}
        invariant rest !! done && rest + done == idObjectMap.Keys
        invariant |s| == |done|
        invariant forall o :: o in s <==> exists id :: id in done && idObjectMap[id] == o
        invariant Valid() ==> NoDuplicates(s)
        decreases rest
      {
        assert (forall id :: id !in rest) ==> rest == {};
        var id :| id in rest;
        var o := idObjectMap[id];
        assert Valid() ==> o !in s;
        s := s + [o];
        rest := rest - {id};
        done := done + {id};
      }
      forall o | o in idObjectMap.Values
        ensures o in s
      {
        assert (forall id :: id in idObjectMap ==> idObjectMap[id] != o) ==> o !in idObjectMap.Values;
        var id :| id in idObjectMap && idObjectMap[id] == o;
        assert id in done;
      }
    }
  }
}
