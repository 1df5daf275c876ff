/**
 * Python's built-in `dict` with string keys: a finite map that also remembers
 * the order in which its keys were first inserted.  Assigning to an existing
 * key keeps its position; `pop` removes the key and keeps the order of the rest.
 */
module PyDict {

  predicate Distinct(s: seq<string>) {
    forall i, j :: 0 <= i < j < |s| ==> s[i] != s[j]
  }

  datatype Dict<V> = Dict(keys: seq<string>, entries: map<string, V>) {
    ghost predicate Valid() {
      && Distinct(keys)
      && (forall k :: k in entries <==> k in keys)
    }
  }

  function Empty<V>(): (d: Dict<V>)
    ensures d.Valid() && d.keys == [] && d.entries == map[]
  {
    Dict([], map[])
  }

  /** `d[k] = v` */
  function Put<V>(d: Dict<V>, k: string, v: V): (r: Dict<V>)
    requires d.Valid()
    ensures r.Valid()
  {
    if k in d.entries then Dict(d.keys, d.entries[k := v])
    else Dict(d.keys + [k], d.entries[k := v])
  }

  /** The sequence `s` without the occurrences of `k`, order kept. */
  function RemoveKey(s: seq<string>, k: string): (r: seq<string>)
    ensures forall x :: x in r <==> x in s && x != k
    ensures Distinct(s) ==> Distinct(r)
  {
    if s == [] then []
    else
      var rest := RemoveKey(s[1..], k);
      if s[0] == k then rest
      else
        assert Distinct(s) ==> Distinct(s[1..]) by {
          if Distinct(s) {
            forall i, j | 0 <= i < j < |s[1..]| ensures s[1..][i] != s[1..][j] {
              assert s[i + 1] != s[j + 1];
            }
          }
        }
        assert Distinct(s) ==> Distinct([s[0]] + rest) by {
          if Distinct(s) { DistinctCons(s[0], rest); }
        }
        [s[0]] + rest
  }

  lemma DistinctCons(x: string, r: seq<string>)
    requires x !in r && Distinct(r)
    ensures Distinct([x] + r)
  {
    forall i, j | 0 <= i < j < |[x] + r| ensures ([x] + r)[i] != ([x] + r)[j] {
      if i > 0 { assert ([x] + r)[i] == r[i - 1]; }
      assert ([x] + r)[j] == r[j - 1];
    }
  }

  /** A prefix of distinct strings is distinct, and the next string is not in it. */
  lemma DistinctPrefix(s: seq<string>, n: nat)
    requires Distinct(s) && n < |s|
    ensures Distinct(s[..n]) && s[n] !in s[..n]
  {
    forall i, j | 0 <= i < j < n ensures s[..n][i] != s[..n][j] {
      assert s[i] != s[j];
    }
    forall i | 0 <= i < n ensures s[..n][i] != s[n] {
      assert s[i] != s[n];
    }
  }

  /** `d.pop(k, None)` */
  function Pop<V>(d: Dict<V>, k: string): (r: Dict<V>)
    requires d.Valid()
    ensures r.Valid()
  {
    Dict(RemoveKey(d.keys, k), d.entries - {k})
  }

  /** `list(d.values())` */
  function Values<V>(d: Dict<V>): (vs: seq<V>)
    requires d.Valid()
    ensures |vs| == |d.keys|
    ensures forall i :: 0 <= i < |vs| ==> vs[i] == d.entries[d.keys[i]]
  {
    seq(|d.keys|, i requires 0 <= i < |d.keys| => d.entries[d.keys[i]])
  }

  /** Removing a key that is absent leaves the key order as it was. */
  lemma {:induction false} RemoveAbsentKey(s: seq<string>, k: string)
    requires k !in s
    ensures RemoveKey(s, k) == s
  {
    if s != [] {
      RemoveAbsentKey(s[1..], k);
      assert s == [s[0]] + s[1..];
    }
  }

  /** In a sequence without repetitions, removing a present key shortens it by exactly one. */
  lemma {:induction false} RemovePresentKey(s: seq<string>, k: string)
    requires Distinct(s) && k in s
    ensures |RemoveKey(s, k)| == |s| - 1
  {
    if s[0] == k {
      RemoveAbsentKey(s[1..], k);
    } else {
      assert k in s[1..] by {
        var j :| 0 <= j < |s| && s[j] == k;
        assert j > 0 && s[1..][j - 1] == k;
      }
      assert Distinct(s[1..]) by {
        forall i, j | 0 <= i < j < |s[1..]| ensures s[1..][i] != s[1..][j] {
          assert s[i + 1] != s[j + 1];
        }
      }
      RemovePresentKey(s[1..], k);
    }
  }

  /** Removing the key at position i of a sequence without repetitions keeps the others in order. */
  lemma {:induction false} RemoveKeyAt(s: seq<string>, i: nat)
    requires Distinct(s) && i < |s|
    ensures RemoveKey(s, s[i]) == s[..i] + s[i + 1..]
  {
    if i == 0 {
      assert s[0] !in s[1..] by {
        forall j | 0 <= j < |s[1..]| ensures s[1..][j] != s[0] {
          assert s[j + 1] != s[0];
        }
      }
      RemoveAbsentKey(s[1..], s[0]);
    } else {
      assert s[0] != s[i];
      assert Distinct(s[1..]) by {
        forall a, b | 0 <= a < b < |s[1..]| ensures s[1..][a] != s[1..][b] {
          assert s[a + 1] != s[b + 1];
        }
      }
      assert s[1..][i - 1] == s[i];
      RemoveKeyAt(s[1..], i - 1);
      assert s[..i] == [s[0]] + s[1..][..i - 1];
      assert s[i + 1..] == s[1..][i..];
    }
  }

  /**
   * `pop(k, None)` removes k and nothing else: the size drops by one exactly
   * when k was present, every other entry is kept, the other keys keep their
   * order, and popping again changes nothing.
   */
  lemma PopSemantics<V>(d: Dict<V>, k: string)
    requires d.Valid()
    ensures k !in Pop(d, k).entries
    ensures forall x :: x != k && x in d.entries ==> x in Pop(d, k).entries && Pop(d, k).entries[x] == d.entries[x]
    ensures |Pop(d, k).keys| == if k in d.entries then |d.keys| - 1 else |d.keys|
    ensures Pop(Pop(d, k), k) == Pop(d, k)
    ensures k !in d.entries ==> Pop(d, k).keys == d.keys
    ensures forall i :: 0 <= i < |d.keys| && d.keys[i] == k ==> Pop(d, k).keys == d.keys[..i] + d.keys[i + 1..]
  {
    if k in d.entries {
      RemovePresentKey(d.keys, k);
      forall i | 0 <= i < |d.keys| && d.keys[i] == k ensures Pop(d, k).keys == d.keys[..i] + d.keys[i + 1..] {
        RemoveKeyAt(d.keys, i);
      }
    } else {
      RemoveAbsentKey(d.keys, k);
    }
    RemoveAbsentKey(RemoveKey(d.keys, k), k);
  }

  /** Assigning to the key at position i replaces the i-th value and nothing else. */
  lemma ValuesPutExisting<V>(d: Dict<V>, i: nat, v: V)
    requires d.Valid() && i < |d.keys|
    ensures Put(d, d.keys[i], v).keys == d.keys
    ensures Values(Put(d, d.keys[i], v)) == Values(d)[i := v]
  {
    var r := Put(d, d.keys[i], v);
    forall j | 0 <= j < |d.keys| ensures Values(r)[j] == Values(d)[i := v][j] {
      if j != i { assert d.keys[j] != d.keys[i]; }
    }
  }

  /** Assigning to a new key appends its value. */
  lemma ValuesPutNew<V>(d: Dict<V>, k: string, v: V)
    requires d.Valid() && k !in d.entries
    ensures Put(d, k, v).keys == d.keys + [k]
    ensures Values(Put(d, k, v)) == Values(d) + [v]
  {
    var r := Put(d, k, v);
    forall j | 0 <= j < |d.keys| ensures Values(r)[j] == (Values(d) + [v])[j] {
      assert d.keys[j] in d.entries;
    }
  }
}
