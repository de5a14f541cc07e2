/** Filtering lists, and lists that rise by a key. */
module Lists {

  /** `Vec::retain` on the first `i` elements. */
  function RetainUpTo<T>(s: seq<T>, keep: T -> bool, i: nat): seq<T>
    requires i <= |s|
  {
    if i == 0 then [] else RetainUpTo(s, keep, i - 1) + if keep(s[i - 1]) then [s[i - 1]] else []
  }

  function Retain<T>(s: seq<T>, keep: T -> bool): seq<T> {
    RetainUpTo(s, keep, |s|)
  }

  lemma {:induction false} RetainMembers<T(!new)>(s: seq<T>, keep: T -> bool, i: nat)
    requires i <= |s|
    ensures forall x :: x in RetainUpTo(s, keep, i) <==> keep(x) && exists j :: 0 <= j < i && s[j] == x
  {
    if i > 0 {
      RetainMembers(s, keep, i - 1);
    }
  }

  ghost predicate Rising<T(!new)>(s: seq<T>, key: T -> nat) {
    forall a, b :: 0 <= a < b < |s| ==> key(s[a]) < key(s[b])
  }

  lemma {:induction false} RetainRises<T(!new)>(s: seq<T>, keep: T -> bool, key: T -> nat, i: nat)
    requires i <= |s| && Rising(s, key)
    ensures Rising(RetainUpTo(s, keep, i), key)
  {
    if i > 0 {
      RetainRises(s, keep, key, i - 1);
      RetainMembers(s, keep, i - 1);
      var earlier := RetainUpTo(s, keep, i - 1);
      forall a | 0 <= a < |earlier| ensures key(earlier[a]) < key(s[i - 1]) {
        assert earlier[a] in earlier;
      }
    }
  }

  lemma RisingConcat<T(!new)>(a: seq<T>, b: seq<T>, key: T -> nat)
    requires Rising(a, key) && Rising(b, key)
    requires forall x, y :: x in a && y in b ==> key(x) < key(y)
    ensures Rising(a + b, key)
  {
    forall i, j | 0 <= i < j < |a + b| ensures key((a + b)[i]) < key((a + b)[j]) {
      if i < |a| <= j {
        assert a[i] in a && b[j - |a|] in b;
      }
    }
  }

  /** Two rising lists with the same elements are the same list. */
  lemma {:induction false} RisingIsUnique<T(!new)>(a: seq<T>, b: seq<T>, key: T -> nat)
    requires Rising(a, key) && Rising(b, key)
    requires forall x :: x in a <==> x in b
    ensures a == b
  {
    hide Rising;
    EmptyTogether(a, b);
    EmptyTogether(b, a);
    if a != [] {
      SameHead(a, b, key);
      RisingTail(a, key);
      RisingTail(b, key);
      RisingIsUnique(a[1..], b[1..], key);
      assert a == [a[0]] + a[1..] && b == [b[0]] + b[1..];
    }
  }

  lemma SameHead<T(!new)>(a: seq<T>, b: seq<T>, key: T -> nat)
    requires Rising(a, key) && Rising(b, key) && a != [] && b != []
    requires forall x :: x in a <==> x in b
    ensures a[0] == b[0]
  {
    assert a[0] in b && b[0] in a;
    var i :| 0 <= i < |b| && b[i] == a[0];
    var j :| 0 <= j < |a| && a[j] == b[0];
  }

  lemma EmptyTogether<T(!new)>(a: seq<T>, b: seq<T>)
    requires forall x :: x in b ==> x in a
    ensures a == [] ==> b == []
  {
    if b != [] {
      assert b[0] in a;
    }
  }

  lemma RisingTail<T(!new)>(a: seq<T>, key: T -> nat)
    requires a != [] && Rising(a, key)
    ensures Rising(a[1..], key)
    ensures forall x :: x in a[1..] <==> x in a && x != a[0]
  {
    assert a == [a[0]] + a[1..];
    forall k | 0 <= k < |a| - 1 ensures a[1..][k] != a[0] {
      assert key(a[0]) < key(a[k + 1]);
    }
  }

  lemma {:induction false} RetainAll<T>(s: seq<T>, keep: T -> bool, i: nat)
    requires i <= |s| && forall x :: x in s ==> keep(x)
    ensures RetainUpTo(s, keep, i) == s[..i]
  {
    if i > 0 {
      RetainAll(s, keep, i - 1);
      assert s[i - 1] in s;
    }
  }

  lemma NothingRises<T(!new)>(key: T -> nat)
    ensures Rising([], key)
  {
  }

  lemma OneRises<T(!new)>(x: T, key: T -> nat)
    ensures Rising([x], key)
  {
  }
}
