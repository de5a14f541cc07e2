/** Ascending iteration over the keys of a B-tree map. */
module Ordered {
  import opened Lists

  ghost predicate StrictlyAscending(s: seq<nat>) {
    forall i, j :: 0 <= i < j < |s| ==> s[i] < s[j]
  }

  lemma {:induction false} LeastExists(s: set<nat>) returns (m: nat)
    requires s != {}
    ensures m in s
    ensures forall y :: y in s ==> m <= y
  {
    var x :| x in s;
    m := x;
    if s - {x} != {} {
      var least := LeastExists(s - {x});
      m := if x <= least then x else least;
    }
    forall y | y in s ensures m <= y {
      assert y == x || y in s - {x};
    }
  }

  ghost function Least(s: set<nat>): (m: nat)
    requires s != {}
    ensures m in s
    ensures forall y :: y in s ==> m <= y
  {
    assert exists m :: m in s && forall y :: y in s ==> m <= y by {
      var m := LeastExists(s);
    }
    var m :| m in s && forall y :: y in s ==> m <= y;
    m
  }

  /** `r` lists the elements of `s` in ascending order. */
  ghost predicate Enumerates(r: seq<nat>, s: set<nat>) {
    && StrictlyAscending(r)
    && (forall x :: x in r <==> x in s)
    && |r| == |s|
  }

  lemma {:induction false} EnumerationExists(s: set<nat>) returns (r: seq<nat>)
    ensures Enumerates(r, s)
  {
    if s == {} {
      r := [];
    } else {
      var m := Least(s);
      var rest := EnumerationExists(s - {m});
      r := [m] + rest;
      assert forall x :: x in s <==> x == m || x in rest;
      assert forall k :: 0 <= k < |rest| ==> rest[k] in s;
    }
  }

  /** The elements of a finite set in ascending order. */
  ghost function Ascending(s: set<nat>): (r: seq<nat>)
    ensures Enumerates(r, s)
  {
    assert exists r :: Enumerates(r, s) by {
      var r := EnumerationExists(s);
    }
    var r :| Enumerates(r, s);
    r
  }

  function Itself(): nat -> nat {
    (x: nat) => x
  }

  /** Only one ascending list has a given set of elements. */
  lemma AscendingIs(r: seq<nat>, s: set<nat>)
    requires StrictlyAscending(r) && forall x :: x in r <==> x in s
    ensures r == Ascending(s)
  {
    RisingIsUnique(r, Ascending(s), Itself());
  }

  predicate IsLeast(s: set<nat>, m: nat) {
    m in s && forall y :: y in s ==> m <= y
  }

  lemma NothingAscends()
    ensures StrictlyAscending([])
  {
  }

  lemma AscendsOneMore(r: seq<nat>, m: nat)
    requires StrictlyAscending(r) && forall x :: x in r ==> x < m
    ensures StrictlyAscending(r + [m])
  {
    assert forall k :: 0 <= k < |r| ==> r[k] in r;
  }

  /** What iterating over the keys of a B-tree yields. */
  method AscendingKeys(s: set<nat>) returns (r: seq<nat>)
    ensures r == Ascending(s)
  {
    hide StrictlyAscending, Enumerates;
    NothingAscends();
    r := [];
    var rest := s;
    while rest != {}
      invariant rest <= s && StrictlyAscending(r)
      invariant forall x :: x in s <==> x in rest || x in r
      invariant forall x, y :: x in r && y in rest ==> x < y
      decreases rest
    {
      assert exists m :: m in rest && IsLeast(rest, m) by {
        var m := LeastExists(rest);
        assert IsLeast(rest, m);
      }
      var m :| m in rest && IsLeast(rest, m);
      AscendsOneMore(r, m);
      r, rest := r + [m], rest - {m};
    }
    AscendingIs(r, s);
  }

  /** The part of a map at the first `i` listed keys. */
  function Restrict<K(==), V>(m: map<K, V>, keys: seq<K>, i: nat): map<K, V>
    requires i <= |keys|
  {
    if i == 0 then map[]
    else if keys[i - 1] in m then Restrict(m, keys, i - 1)[keys[i - 1] := m[keys[i - 1]]]
    else Restrict(m, keys, i - 1)
  }

  lemma {:induction false} RestrictEntries<K(!new), V>(m: map<K, V>, keys: seq<K>, i: nat)
    requires i <= |keys|
    ensures forall k :: k in Restrict(m, keys, i) <==> k in m && exists j :: 0 <= j < i && keys[j] == k
    ensures forall k :: k in Restrict(m, keys, i) ==> Restrict(m, keys, i)[k] == m[k]
  {
    if i > 0 {
      RestrictEntries(m, keys, i - 1);
    }
  }

  lemma RestrictToAll<K(!new), V>(m: map<K, V>, keys: seq<K>)
    requires forall k :: k in m ==> k in keys
    ensures Restrict(m, keys, |keys|) == m
  {
    RestrictEntries(m, keys, |keys|);
  }

  lemma NextIsNew<V>(m: map<nat, V>, keys: seq<nat>, i: nat)
    requires i < |keys| && StrictlyAscending(keys)
    ensures keys[i] !in Restrict(m, keys, i)
  {
    RestrictEntries(m, keys, i);
  }
}
