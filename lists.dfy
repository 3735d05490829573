/** Python list behaviour the board manager relies on: membership guards,
    `list.index` and `list.remove`. */
module Lists {

  /** No element occurs twice: the discipline of labels, projects and sprint member lists. */
  predicate NoDup<T(==)>(s: seq<T>) {
    forall i, j :: 0 <= i < j < |s| ==> s[i] != s[j]
  }

  /** `s.index(x)`: the position of the first occurrence of `x`. */
  function IndexOf<T(==)>(s: seq<T>, x: T): (k: nat)
    requires x in s
    ensures k < |s| && s[k] == x && x !in s[..k]
  {
    if s[0] == x then 0 else 1 + IndexOf(s[1..], x)
  }

  /** `s.remove(x)` behind an `if x in s` guard: the first occurrence of `x`
      is dropped, every other element keeps its place relative to the rest. */
  function RemoveFirst<T(==)>(s: seq<T>, x: T): (r: seq<T>)
    ensures x in s ==> r == s[..IndexOf(s, x)] + s[IndexOf(s, x) + 1..]
    ensures x !in s ==> r == s
  {
    if s == [] then []
    else if s[0] == x then s[1..]
    else
      var rest := RemoveFirst(s[1..], x);
      assert x in s ==> [s[0]] + s[1..][..IndexOf(s[1..], x)] == s[..IndexOf(s, x)];
      [s[0]] + rest
  }

  /** Removing one occurrence takes exactly one copy of `x` out of the multiset. */
  lemma RemoveFirstMultiset<T>(s: seq<T>, x: T)
    requires x in s
    ensures multiset(RemoveFirst(s, x)) == multiset(s) - multiset{x}
  {
    var k := IndexOf(s, x);
    assert s == s[..k] + [s[k]] + s[k + 1..];
  }

  /** Element by element, removal shifts everything after the removed position one place left. */
  lemma RemoveFirstAt<T>(s: seq<T>, x: T)
    requires x in s
    ensures |RemoveFirst(s, x)| == |s| - 1
    ensures forall i :: 0 <= i < IndexOf(s, x) ==> RemoveFirst(s, x)[i] == s[i]
    ensures forall i :: IndexOf(s, x) <= i < |s| - 1 ==> RemoveFirst(s, x)[i] == s[i + 1]
  {
    var k := IndexOf(s, x);
    var r := RemoveFirst(s, x);
    var front, back := s[..k], s[k + 1..];
    assert r == front + back;
    forall i | 0 <= i < k ensures r[i] == s[i] {
      assert r[i] == front[i];
    }
    forall i | k <= i < |s| - 1 ensures r[i] == s[i + 1] {
      assert r[i] == back[i - k];
    }
  }

  /** On a list without duplicates, removal keeps it duplicate-free. */
  lemma RemoveFirstKeepsNoDup<T>(s: seq<T>, x: T)
    requires NoDup(s)
    ensures NoDup(RemoveFirst(s, x))
  {
    if x in s {
      var k := IndexOf(s, x);
      RemoveFirstAt(s, x);
      var r := RemoveFirst(s, x);
      forall i, j | 0 <= i < j < |r| ensures r[i] != r[j] {
        var i', j' := if i < k then i else i + 1, if j < k then j else j + 1;
        assert r[i] == s[i'] && r[j] == s[j'] && i' < j';
      }
    }
  }

  /** On a list without duplicates, removal takes out exactly `x`: afterwards
      `x` is absent and every other element remains. */
  lemma RemoveFirstMembers<T>(s: seq<T>, x: T)
    requires NoDup(s)
    ensures forall y :: y in RemoveFirst(s, x) <==> y in s && y != x
  {
    if x in s {
      var k := IndexOf(s, x);
      RemoveFirstAt(s, x);
      var r := RemoveFirst(s, x);
      forall y ensures y in r <==> y in s && y != x {
        if y in r {
          var i :| 0 <= i < |r| && r[i] == y;
          var i' := if i < k then i else i + 1;
          assert s[i'] == y && i' != k;
        }
        if y in s && y != x {
          var i :| 0 <= i < |s| && s[i] == y;
          var i' := if i < k then i else i - 1;
          assert r[i'] == y;
        }
      }
    }
  }

  /** Appending an element that is absent keeps a list duplicate-free. */
  lemma AppendNoDup<T>(s: seq<T>, x: T)
    requires NoDup(s) && x !in s
    ensures NoDup(s + [x])
  {
  }
}
