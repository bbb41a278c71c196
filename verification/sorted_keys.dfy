/** Deterministic enumeration of a finite set of integer keys in ascending
    order, and the fresh key a table would allocate next. */
module SortedKeys {

  /** m is the least element of keys. */
  predicate IsLeast(m: int, keys: set<int>) {
    m in keys && forall j :: j in keys ==> m <= j
  }

  /** A non-empty set has a member. This lemma exists only to justify the
      choice `var x :| x in keys` in `LeastExists`, which the verifier does
      not establish from `keys != {}` alone. */
  lemma HasMember(keys: set<int>)
    requires keys != {}
    ensures exists k :: k in keys
  {
    if forall k :: k !in keys {
      assert false;
    }
  }

  /** Every finite, non-empty set of integers has a least element. */
  lemma {:induction false} LeastExists(keys: set<int>)
    requires keys != {}
    ensures exists m :: IsLeast(m, keys)
    decreases keys
  {
    HasMember(keys);
    var x :| x in keys;
    var rest := keys - {x};
    if rest == {} {
      assert keys == {x};
      assert IsLeast(x, keys);
    } else {
      LeastExists(rest);
      var m :| IsLeast(m, rest);
      var least := if x <= m then x else m;
      forall j | j in keys
        ensures least <= j
      {
        if j != x {
          assert j in rest;
        }
      }
      assert IsLeast(least, keys);
    }
  }

  predicate StrictlyIncreasing(s: seq<int>) {
    forall i, j :: 0 <= i < j < |s| ==> s[i] < s[j]
  }

  /** The keys, each exactly once, smallest first. */
  function Ascending(keys: set<int>): (r: seq<int>)
    ensures StrictlyIncreasing(r)
    ensures forall k :: k in r <==> k in keys
    ensures |r| == |keys|
    decreases keys
  {
    if keys == {} then []
    else
      LeastExists(keys);
      var m :| IsLeast(m, keys);
      [m] + Ascending(keys - {m})
  }

  /** A positive key that is not in use: one more than the largest key, or 1
      when there is none (or when every key is below 1). */
  function FreshKey(keys: set<int>): (k: int)
    ensures k > 0
    ensures k !in keys
    ensures forall j :: j in keys ==> j < k
  {
    var r := Ascending(keys);
    if |r| == 0 || r[|r| - 1] < 1 then 1 else r[|r| - 1] + 1
  }
}
