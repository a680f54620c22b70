/** The device services both screens share: the persistent key-value
    store and the alert dialog. */
module Platform {
  import opened Wrappers

  /** Storage keys. */
  const DriverNameKey := "driverName"
  const DriverVehicleKey := "driverVehicleNumber"
  const DriverContactKey := "driverContact"

  lemma DriverKeysDistinct()
    ensures DriverNameKey != DriverVehicleKey && DriverNameKey != DriverContactKey
    ensures DriverVehicleKey != DriverContactKey
  {
  }

  /** A dialog with a title and a message. */
  datatype Alert = Alert(title: string, message: string)

  /** The keys a sequence of writes touches. */
  function PairKeys(pairs: seq<(string, string)>): (r: set<string>)
    ensures forall k :: k in r <==> exists j :: 0 <= j < |pairs| && pairs[j].0 == k
  {
    if pairs == [] then {} else
      var rest := PairKeys(pairs[1..]);
      assert forall j :: 0 < j < |pairs| ==> pairs[j] == pairs[1..][j - 1];
      {pairs[0].0} + rest
  }

  /** The map after writing the pairs in order: a later pair for the same
      key wins, and keys no pair names keep their values. */
  function SetAll(m: map<string, string>, pairs: seq<(string, string)>): (r: map<string, string>)
    ensures r.Keys == m.Keys + PairKeys(pairs)
    ensures forall k :: k in m && k !in PairKeys(pairs) ==> r[k] == m[k]
    ensures forall i :: 0 <= i < |pairs| && (forall j :: i < j < |pairs| ==> pairs[j].0 != pairs[i].0) ==>
      r[pairs[i].0] == pairs[i].1
    decreases |pairs|
  {
    if pairs == [] then m
    else
      var rest := pairs[1..];
      assert forall i :: 0 < i < |pairs| ==> pairs[i] == rest[i - 1];
      SetAll(m[pairs[0].0 := pairs[0].1], rest)
  }

  lemma SetAllThree(m: map<string, string>, a: string, x: string, b: string, y: string, c: string, z: string)
    ensures SetAll(m, [(a, x), (b, y), (c, z)]) == m[a := x][b := y][c := z]
  {
    var ps := [(a, x), (b, y), (c, z)];
    assert ps[1..] == [(b, y), (c, z)] && ps[1..][1..] == [(c, z)] && ps[1..][1..][1..] == [];
    assert SetAll(m, ps) == SetAll(m[a := x], ps[1..]);
    assert SetAll(m[a := x], ps[1..]) == SetAll(m[a := x][b := y], ps[1..][1..]);
    assert SetAll(m[a := x][b := y], ps[1..][1..]) == SetAll(m[a := x][b := y][c := z], []);
  }

  /** The persistent string-keyed, string-valued store. */
  class KeyValueStore {
    var entries: map<string, string>

    constructor (initial: map<string, string>)
      ensures entries == initial
    {
      entries := initial;
    }

    /** `getItem`: the stored string, or `null` for a key never written. */
    function GetItem(key: string): (v: Option<string>)
      reads this
      ensures v.Some? <==> key in entries
      ensures v.Some? ==> v.value == entries[key]
    {
      if key in entries then Some(entries[key]) else None
    }

    /** `multiSet`: writes every pair, in order. */
    method MultiSet(pairs: seq<(string, string)>)
      modifies this
      ensures entries == SetAll(old(entries), pairs)
      ensures forall i :: 0 <= i < |pairs| && (forall j :: i < j < |pairs| ==> pairs[j].0 != pairs[i].0) ==>
        GetItem(pairs[i].0) == Some(pairs[i].1)
      ensures forall k :: k !in PairKeys(pairs) ==> GetItem(k) == old(GetItem(k))
    {
      entries := SetAll(entries, pairs);
    }
  }
}
