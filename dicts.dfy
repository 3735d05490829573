/** Python dictionaries with integer keys, as the board manager uses them for
    `Board.issues` and `Board.sprints`: a map together with the order in which
    its keys were first inserted, which is the order `.values()` and `.items()`
    report. */
module Dicts {
  import opened Lists

  datatype RawDict<V> = RawDict(keys: seq<int>, entries: map<int, V>)

  /** The keys are listed once each, and exactly the keys of the map are listed. */
  ghost predicate IsDict<V>(d: RawDict<V>) {
    && NoDup(d.keys)
    && (forall k :: k in d.entries <==> k in d.keys)
    && (forall i :: 0 <= i < |d.keys| ==> d.keys[i] in d.entries)
  }

  type Dict<V> = d: RawDict<V> | IsDict(d) witness RawDict([], map[])

  /** `{}` */
  function Empty<V>(): Dict<V> {
    RawDict([], map[])
  }

  /** `d[k] = v`: a key already present keeps its position, a new key goes last. */
  function Put<V>(d: Dict<V>, k: int, v: V): Dict<V> {
    if k in d.entries then RawDict(d.keys, d.entries[k := v])
    else
      AppendNoDup(d.keys, k);
      RawDict(d.keys + [k], d.entries[k := v])
  }

  /** `d.pop(k, None)`: removes `k` when present; the other keys keep their order. */
  function Pop<V>(d: Dict<V>, k: int): Dict<V> {
    RemoveFirstKeepsNoDup(d.keys, k);
    RemoveFirstMembers(d.keys, k);
    RawDict(RemoveFirst(d.keys, k), d.entries - {k})
  }

  /** `list(d.values())` */
  function Values<V>(d: Dict<V>): seq<V> {
    seq(|d.keys|, i requires 0 <= i < |d.keys| => d.entries[d.keys[i]])
  }

  /** `{k: f(v) for k, v in d.items()}`: the same keys in the same order. */
  function MapValues<V, W>(d: Dict<V>, f: V -> W): Dict<W> {
    RawDict(d.keys, map k | k in d.entries :: f(d.entries[k]))
  }

  /** Assigning to a key that is present replaces its value in place: `.values()`
      changes at that key's position only. */
  lemma PutExisting<V>(d: Dict<V>, k: int, v: V)
    requires k in d.entries
    ensures Put(d, k, v).keys == d.keys
    ensures Values(Put(d, k, v)) == Values(d)[IndexOf(d.keys, k) := v]
  {
    var i := IndexOf(d.keys, k);
    var r := Put(d, k, v);
    forall j | 0 <= j < |d.keys| ensures Values(r)[j] == Values(d)[i := v][j] {
      if j != i {
        assert d.keys[j] != k;
      }
    }
  }

  /** Assigning a key its own value again changes nothing. */
  lemma PutSame<V>(d: Dict<V>, k: int)
    requires k in d.entries
    ensures Put(d, k, d.entries[k]) == d
  {
    assert d.entries[k := d.entries[k]] == d.entries;
  }

  /** Assigning to a new key appends it: `.values()` gains `v` at the end. */
  lemma PutNew<V>(d: Dict<V>, k: int, v: V)
    requires k !in d.entries
    ensures Put(d, k, v).keys == d.keys + [k]
    ensures Values(Put(d, k, v)) == Values(d) + [v]
  {
    var r := Put(d, k, v);
    forall j | 0 <= j < |r.keys| ensures Values(r)[j] == (Values(d) + [v])[j] {
      if j < |d.keys| {
        assert d.keys[j] != k;
      }
    }
  }

  /** Popping a present key drops its value from `.values()` and keeps the
      relative order of all the others; popping an absent key changes nothing. */
  lemma PopValues<V>(d: Dict<V>, k: int)
    ensures k !in d.entries ==> Pop(d, k) == d
    ensures k in d.entries ==>
      var i := IndexOf(d.keys, k);
      Values(Pop(d, k)) == Values(d)[..i] + Values(d)[i + 1..]
  {
    if k in d.entries {
      PopPresentValues(d, k);
    } else {
      assert d.entries - {k} == d.entries;
    }
  }

  lemma PopPresentValues<V>(d: Dict<V>, k: int)
    requires k in d.entries
    ensures var i := IndexOf(d.keys, k);
      Values(Pop(d, k)) == Values(d)[..i] + Values(d)[i + 1..]
  {
    var i := IndexOf(d.keys, k);
    var r := Pop(d, k);
    var vd := Values(d);
    var target := vd[..i] + vd[i + 1..];
    RemoveFirstAt(d.keys, k);
    forall j | 0 <= j < |r.keys| ensures Values(r)[j] == target[j] {
      var src := if j < i then j else j + 1;
      SkipAt(vd, i, j);
      assert r.keys[j] == d.keys[src];
      assert d.keys[src] != k by {
        assert d.keys[i] == k && src != i;
      }
    }
  }

  /** Position `j` of `s` without its `i`-th element. */
  lemma SkipAt<T>(s: seq<T>, i: nat, j: nat)
    requires i < |s| && j < |s| - 1
    ensures |s[..i] + s[i + 1..]| == |s| - 1
    ensures (s[..i] + s[i + 1..])[j] == s[if j < i then j else j + 1]
  {
  }
}
