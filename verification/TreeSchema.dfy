/** TreeSchema: the ordered keys of a tree, and the step from a dictionary to an insertion key. */
module TreeSchema {
  import opened Pmem
  import opened PersistentPtr
  import opened TreeSpec

  ghost predicate Distinct(keys: seq<Name>) {
    forall i, j | 0 <= i < j < |keys| :: keys[i] != keys[j]
  }

  ghost function KeySet(keys: seq<Name>): set<Name> { set k | k in keys }

  /** The dictionary laid out in the order of the keys. */
  ghost function PathOf(keys: seq<Name>, d: Dict): (p: Path)
    requires forall k | k in keys :: k in d
    ensures |p| == |keys|
    ensures forall i | 0 <= i < |keys| :: p[i] == Pair(keys[i], d[keys[i]])
  {
    seq(|keys|, i requires 0 <= i < |keys| => Pair(keys[i], d[keys[i]]))
  }

  ghost predicate Accepts(keys: seq<Name>, d: Dict) {
    |d| == |keys| && forall k | k in keys :: k in d
  }

  class Schema {
    var keys: seq<Name>

    /** `init`, from the list that the JSON parser yields. */
    constructor (list: seq<Name>)
      ensures keys == list
    {
      keys := [];
      new;
      for i := 0 to |list|
        invariant keys == list[..i]
      {
        keys := keys + [list[i]];
      }
      assert list[..|list|] == list;
    }

    method ProcessInsertKey(inkey: Dict) returns (st: Outcome, key: Path)
      ensures st == if Accepts(keys, inkey) then Done else UserError
      ensures st == Done ==> key == PathOf(keys, inkey)
    {
      key := [];
      if |inkey| != |keys| {
        return UserError, [];
      }
      for i := 0 to |keys|
        invariant |key| == i
        invariant forall j | 0 <= j < i :: keys[j] in inkey && key[j] == Pair(keys[j], inkey[keys[j]])
      {
        if keys[i] !in inkey {
          return UserError, [];
        }
        key := key + [Pair(keys[i], inkey[keys[i]])];
      }
      st := Done;
    }
  }

  lemma {:induction false} KeySetSize(keys: seq<Name>)
    ensures |KeySet(keys)| <= |keys|
    ensures |KeySet(keys)| == |keys| <==> Distinct(keys)
    decreases |keys|
  {
    if keys == [] {
      assert KeySet(keys) == {};
    } else {
      var n := |keys| - 1;
      var rest := keys[..n];
      KeySetSize(rest);
      assert keys == rest + [keys[n]];
      assert KeySet(keys) == KeySet(rest) + {keys[n]};
      if keys[n] in rest {
        var i :| 0 <= i < |rest| && rest[i] == keys[n];
        assert keys[i] == keys[n];
        assert KeySet(keys) == KeySet(rest);
      } else if Distinct(rest) {
        assert Distinct(keys);
      } else {
        var i, j :| 0 <= i < j < |rest| && rest[i] == rest[j];
        assert keys[i] == keys[j];
      }
    }
  }

  lemma {:induction false} SubsetOfSameSize(a: set<Name>, b: set<Name>)
    requires a <= b && |a| == |b|
    ensures a == b
  {
    assert b == a + (b - a);
    assert |b| == |a| + |b - a|;
  }

  /** A schema accepts exactly the dictionaries over its keys, if and only if no key is
      repeated. With a repeated key even a dictionary of exactly its keys is refused. */
  lemma {:induction false} AcceptsItsKeysIff(keys: seq<Name>)
    ensures (forall d: Dict :: Accepts(keys, d) <==> d.Keys == KeySet(keys)) <==> Distinct(keys)
  {
    KeySetSize(keys);
    if Distinct(keys) {
      forall d: Dict ensures Accepts(keys, d) <==> d.Keys == KeySet(keys) {
        DistinctAccepts(keys, d);
      }
    } else {
      var d: Dict := map k | k in KeySet(keys) :: "";
      assert d.Keys == KeySet(keys) && |d| == |d.Keys|;
      assert !Accepts(keys, d);
    }
  }

  lemma {:induction false} DistinctAccepts(keys: seq<Name>, d: Dict)
    requires Distinct(keys)
    ensures Accepts(keys, d) <==> d.Keys == KeySet(keys)
  {
    KeySetSize(keys);
    assert |d| == |d.Keys|;
    if Accepts(keys, d) {
      SubsetOfSameSize(KeySet(keys), d.Keys);
    }
  }

  /** Such a schema also lets a stranger in: the key "b" is not one of its keys. */
  lemma {:induction false} RepeatedKeyAcceptsStranger()
    ensures exists keys: seq<Name>, d: Dict :: Accepts(keys, d) && !(d.Keys <= KeySet(keys))
  {
    var keys: seq<Name> := ["a", "a"];
    var d: Dict := map["a" := "1", "b" := "2"];
    assert d.Keys == {"a", "b"} && |d| == |d.Keys| == 2;
    assert Accepts(keys, d);
    assert "b" in d.Keys && "b" !in KeySet(keys);
  }
}
