/** Id-keyed reconciliation shared by the mirror's five entity collections and
    its training queues: upsert every listed record by id, then drop every id
    the list does not mention. */
module IdMap {

  /** The ids a list of records carries. */
  function Ids<T>(list: seq<T>, key: T -> int): set<int> {
    set i | 0 <= i < |list| :: key(list[i])
  }

  /** `i` is the position of the last record of `list` whose id is `id`. */
  ghost predicate IsLast<T>(list: seq<T>, key: T -> int, id: int, i: int) {
    && 0 <= i < |list|
    && key(list[i]) == id
    && forall j :: i < j < |list| ==> key(list[j]) != id
  }

  /** Position of the last record with id `id`, or -1 when no record has it. */
  function LastIndexOf<T>(list: seq<T>, key: T -> int, id: int): (i: int)
    ensures -1 <= i < |list|
    ensures i >= 0 ==> IsLast(list, key, id, i)
    ensures i == -1 <==> id !in Ids(list, key)
    decreases |list|
  {
    if |list| == 0 then -1
    else if key(list[|list| - 1]) == id then |list| - 1
    else
      var i := LastIndexOf(list[..|list| - 1], key, id);
      assert forall j :: 0 <= j < |list| - 1 ==> list[..|list| - 1][j] == list[j];
      assert i == -1 ==> forall j :: 0 <= j < |list| ==> key(list[j]) != id;
      i
  }

  /** Only one position can be the last one with a given id. */
  lemma LastIsUnique<T>(list: seq<T>, key: T -> int, id: int, i: int)
    requires IsLast(list, key, id, i)
    ensures LastIndexOf(list, key, id) == i
  {
    var k := LastIndexOf(list, key, id);
    assert id in Ids(list, key);
    assert k >= 0;
  }

  /** The record a well-formed list says `id` maps to: the last one with that id. */
  function Latest<T>(list: seq<T>, key: T -> int, id: int): T
    requires id in Ids(list, key)
  {
    list[LastIndexOf(list, key, id)]
  }

  /** A map mirrors a list when it holds exactly the list's ids, each bound to
      the last record listed with it. */
  ghost predicate Mirrors<T>(m: map<int, T>, list: seq<T>, key: T -> int) {
    && m.Keys == Ids(list, key)
    && forall id :: id in m ==> m[id] == Latest(list, key, id)
  }

  /** Two maps that mirror the same list are equal. */
  lemma MirrorsIsUnique<T>(m1: map<int, T>, m2: map<int, T>, list: seq<T>, key: T -> int)
    requires Mirrors(m1, list, key) && Mirrors(m2, list, key)
    ensures m1 == m2
  {
    assert m1.Keys == m2.Keys;
    assert forall id :: id in m1 ==> m1[id] == m2[id];
  }

  /** `dict[key(r)] = r` for every record `r` of `list`, front to back. */
  function Upsert<T>(m: map<int, T>, list: seq<T>, key: T -> int): (r: map<int, T>)
    ensures r.Keys == m.Keys + Ids(list, key)
    ensures forall id :: id in Ids(list, key) ==> r[id] == Latest(list, key, id)
    ensures forall id :: id in m && id !in Ids(list, key) ==> r[id] == m[id]
    decreases |list|
  {
    if |list| == 0 then m
    else
      var head := list[0];
      var tail := list[1..];
      var r := Upsert(m[key(head) := head], tail, key);
      UnconsFacts(list, key);
      r
  }

  /** How the ids and latest records of a non-empty list relate to those of
      its tail: a record later in the list wins over the head. */
  lemma UnconsFacts<T>(list: seq<T>, key: T -> int)
    requires |list| > 0
    ensures Ids(list, key) == {key(list[0])} + Ids(list[1..], key)
    ensures forall id :: id in Ids(list[1..], key) ==> Latest(list, key, id) == Latest(list[1..], key, id)
    ensures key(list[0]) !in Ids(list[1..], key) ==> Latest(list, key, key(list[0])) == list[0]
  {
    var head := list[0];
    var tail := list[1..];
    assert Ids(list, key) == {key(head)} + Ids(tail, key) by {
      assert forall j :: 0 < j < |list| ==> list[j] == tail[j - 1];
      assert forall j :: 0 <= j < |tail| ==> tail[j] == list[j + 1];
    }
    forall id | id in Ids(tail, key)
      ensures Latest(list, key, id) == Latest(tail, key, id)
    {
      var k := LastIndexOf(tail, key, id);
      assert list[k + 1] == tail[k];
      LastIsUnique(list, key, id, k + 1);
    }
    if key(head) !in Ids(tail, key) {
      forall j | 0 < j < |list|
        ensures key(list[j]) != key(head)
      {
        assert list[j] == tail[j - 1];
      }
      LastIsUnique(list, key, key(head), 0);
    }
  }

  /** The whole per-collection step of `ApplySnapshot`: upsert, then remove
      every id absent from the new list. Afterwards the map mirrors the list,
      whatever it held before. */
  function Reconcile<T>(m: map<int, T>, list: seq<T>, key: T -> int): (r: map<int, T>)
    ensures Mirrors(r, list, key)
    ensures forall id :: id in m && id !in Ids(list, key) ==> id !in r
  {
    var upserted := Upsert(m, list, key);
    var present := Ids(list, key);
    map id | id in upserted && id in present :: upserted[id]
  }

  /** The result of reconciling does not depend on what the map held before. */
  lemma ReconcileForgetsPrior<T>(m1: map<int, T>, m2: map<int, T>, list: seq<T>, key: T -> int)
    ensures Reconcile(m1, list, key) == Reconcile(m2, list, key)
  {
    MirrorsIsUnique(Reconcile(m1, list, key), Reconcile(m2, list, key), list, key);
  }

  /** Apply `f` to the entry for `id` if there is one (an in-place mutation of
      the stored object); every other entry and the key set stay as they were. */
  function Adjust<T>(m: map<int, T>, id: int, f: T -> T): (r: map<int, T>)
    ensures r.Keys == m.Keys
    ensures id in m ==> r[id] == f(m[id])
    ensures forall k :: k in m && k != id ==> r[k] == m[k]
  {
    if id in m then m[id := f(m[id])] else m
  }

  /** The entries whose record satisfies `keep`, under the same ids. */
  function Filter<T>(m: map<int, T>, keep: T -> bool): (r: map<int, T>)
    ensures forall id :: id in r <==> id in m && keep(m[id])
    ensures forall id :: id in r ==> r[id] == m[id]
  {
    map id | id in m && keep(m[id]) :: m[id]
  }

  /** A non-empty set has an element to pick. */
  lemma NonEmptyHasElement<T>(s: set<T>)
    requires s != {}
    ensures exists x :: x in s
  {
    if forall x :: x !in s {
      assert false;
    }
  }
}
