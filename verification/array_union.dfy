/** PHP's array union operator `$m + $d`, which both serializers use to put
    their metadata in front of the normalized data. */
module ArrayUnion {
  import opened Results
  import opened Php

  /** The entries of `d` whose key is not among `ks`, in their order in `d`
      (see AbsentMembers, AbsentKeepsOrder, GetAbsent). */
  function Absent(d: PhpArray, ks: seq<Key>): PhpArray
  {
    if d == [] then []
    else if d[0].key in ks then Absent(d[1..], ks)
    else [d[0]] + Absent(d[1..], ks)
  }

  lemma {:induction false} AbsentMembers(d: PhpArray, ks: seq<Key>)
    ensures forall e :: e in Absent(d, ks) <==> e in d && e.key !in ks
  {
    if d != [] {
      AbsentMembers(d[1..], ks);
      assert d == [d[0]] + d[1..];
    }
  }

  lemma {:induction false} AbsentKeepsOrder(d: PhpArray, ks: seq<Key>)
    ensures Subsequence(Absent(d, ks), d)
  {
    if d != [] {
      AbsentKeepsOrder(d[1..], ks);
      var t := Absent(d[1..], ks);
      if d[0].key !in ks {
        assert ([d[0]] + t)[1..] == t;
      }
    }
  }

  lemma {:induction false} GetAbsent(d: PhpArray, ks: seq<Key>, k: Key)
    ensures Get(Absent(d, ks), k) == if k in ks then None else Get(d, k)
  {
    if d != [] {
      GetAbsent(d[1..], ks, k);
      var t := Absent(d[1..], ks);
      if d[0].key !in ks {
        assert ([d[0]] + t)[1..] == t;
      }
    }
  }

  lemma {:induction false} AbsentKeepsUniqueKeys(d: PhpArray, ks: seq<Key>)
    requires UniqueKeys(d)
    ensures UniqueKeys(Absent(d, ks))
  {
    if d != [] {
      AbsentKeepsUniqueKeys(d[1..], ks);
      var t := Absent(d[1..], ks);
      if d[0].key !in ks {
        AbsentMembers(d[1..], ks);
        var r := [d[0]] + t;
        forall i, j | 0 <= i < j < |r| ensures r[i].key != r[j].key {
          if i == 0 {
            assert r[j] == t[j - 1];
            assert r[j] in d[1..];
          } else {
            assert r[i] == t[i - 1] && r[j] == t[j - 1];
          }
        }
      }
    }
  }

  /** Reading from a concatenation finds the left part's entry first. */
  lemma {:induction false} GetAppend(a: PhpArray, b: PhpArray, k: Key)
    ensures Get(a + b, k) == if k in Keys(a) then Get(a, k) else Get(b, k)
  {
    if a != [] {
      assert (a + b)[1..] == a[1..] + b;
      GetAppend(a[1..], b, k);
    } else {
      assert a + b == b;
    }
  }

  /** `$m + $d`: every entry of `m`, in order, followed by the entries of `d`
      whose key `m` does not hold, in their order in `d`. On a shared key the
      value from `m` is kept and the one from `d` is dropped. */
  function Union(m: PhpArray, d: PhpArray): (r: PhpArray)
    ensures |m| <= |r| && r[..|m|] == m
    ensures forall e :: e in r[|m|..] <==> e in d && e.key !in Keys(m)
    ensures Subsequence(r[|m|..], d)
    ensures forall k :: Get(r, k) == if k in Keys(m) then Get(m, k) else Get(d, k)
  {
    var t := Absent(d, Keys(m));
    assert (m + t)[..|m|] == m && (m + t)[|m|..] == t;
    AbsentMembers(d, Keys(m));
    AbsentKeepsOrder(d, Keys(m));
    assert forall k :: Get(m + t, k) == if k in Keys(m) then Get(m, k) else Get(d, k) by {
      forall k ensures Get(m + t, k) == if k in Keys(m) then Get(m, k) else Get(d, k) {
        GetAppend(m, t, k);
        GetAbsent(d, Keys(m), k);
      }
    }
    m + t
  }

  /** The union of two arrays without repeated keys has no repeated key. */
  lemma UnionKeepsUniqueKeys(m: PhpArray, d: PhpArray)
    requires UniqueKeys(m) && UniqueKeys(d)
    ensures UniqueKeys(Union(m, d))
  {
    var r := Union(m, d);
    var t := r[|m|..];
    AbsentKeepsUniqueKeys(d, Keys(m));
    forall i, j | 0 <= i < j < |r| ensures r[i].key != r[j].key {
      if j >= |m| {
        assert r[j] == t[j - |m|];
        if i < |m| {
          assert r[i].key in Keys(m);
          assert r[j] in t;
        } else {
          assert r[i] == t[i - |m|];
        }
      }
    }
  }

  /** A one-entry left operand: the entry comes first and replaces any entry
      of `d` under the same key; the rest of `d` follows unchanged. */
  lemma {:induction false} UnionWithSingle(e: Entry, d: PhpArray)
    ensures Union([e], d) == [e] + Unset(d, e.key)
  {
    assert Keys([e]) == [e.key];
    AbsentOneKey(d, e.key);
  }

  lemma {:induction false} AbsentOneKey(d: PhpArray, k: Key)
    ensures Absent(d, [k]) == Unset(d, k)
  {
    if d != [] {
      AbsentOneKey(d[1..], k);
    }
  }

  /** Removing the entries under a set of keys, one entry appended at a time. */
  lemma {:induction false} AbsentSnoc(d: PhpArray, x: Entry, ks: seq<Key>)
    ensures Absent(d + [x], ks) == Absent(d, ks) + (if x.key in ks then [] else [x])
  {
    if d != [] {
      assert (d + [x])[1..] == d[1..] + [x];
      AbsentSnoc(d[1..], x, ks);
      if d[0].key !in ks {
        assert [d[0]] + (Absent(d[1..], ks) + (if x.key in ks then [] else [x]))
            == ([d[0]] + Absent(d[1..], ks)) + (if x.key in ks then [] else [x]);
      }
    } else {
      assert d + [x] == [x];
      assert ([x])[1..] == [];
    }
  }

  lemma {:induction false} KeysAppend(a: PhpArray, b: PhpArray)
    ensures Keys(a + b) == Keys(a) + Keys(b)
  {
    forall i | 0 <= i < |a + b|
      ensures Keys(a + b)[i] == (Keys(a) + Keys(b))[i]
    {
      if i < |a| {
        assert (a + b)[i] == a[i];
      } else {
        assert (a + b)[i] == b[i - |a|];
      }
    }
  }

  /** One step of merging in order: the next entry `e`, whose key the
      entries already merged do not repeat, is added exactly when its key is
      not in the left operand. */
  lemma MergeStep(m: PhpArray, p: PhpArray, e: Entry, r: PhpArray)
    requires e.key !in Keys(p)
    requires r == m + Absent(p, Keys(m))
    ensures (if e.key in Keys(r) then r else r + [e]) == m + Absent(p + [e], Keys(m))
  {
    var t := Absent(p, Keys(m));
    AbsentSnoc(p, e, Keys(m));
    assert e.key in Keys(r) <==> e.key in Keys(m) by {
      KeysAppend(m, t);
      AbsentLacksKey(p, Keys(m), e.key);
    }
    if e.key in Keys(m) {
      assert t + [] == t;
    } else {
      assert r + [e] == m + (t + [e]);
    }
  }

  lemma AbsentLacksKey(p: PhpArray, ks: seq<Key>, k: Key)
    requires k !in Keys(p)
    ensures k !in Keys(Absent(p, ks))
  {
    var t := Absent(p, ks);
    AbsentMembers(p, ks);
    forall j | 0 <= j < |t| ensures t[j].key != k {
      assert t[j] in p;
    }
  }

  lemma MergeInvariantStep(m: PhpArray, d: PhpArray, i: nat, r: PhpArray)
    requires UniqueKeys(d) && i < |d|
    requires r == m + Absent(d[..i], Keys(m))
    ensures (if d[i].key in Keys(r) then r else r + [d[i]]) == m + Absent(d[..i + 1], Keys(m))
  {
    PrefixLacksNext(d, i);
    MergeStep(m, d[..i], d[i], r);
    assert d[..i + 1] == d[..i] + [d[i]];
  }

  lemma PrefixLacksNext(d: PhpArray, i: nat)
    requires UniqueKeys(d) && i < |d|
    ensures d[i].key !in Keys(d[..i])
  {
  }

  /** The union computed the way the PHP engine does it: start from `m` and
      add each entry of `d`, in order, unless its key is already present. */
  method MergeArrays(m: PhpArray, d: PhpArray) returns (r: PhpArray)
    requires UniqueKeys(d)
    ensures r == Union(m, d)
  {
    r := m;
    var i := 0;
    while i < |d|
      invariant 0 <= i <= |d|
      invariant r == m + Absent(d[..i], Keys(m))
    {
      MergeInvariantStep(m, d, i, r);
      if d[i].key !in Keys(r) {
        r := r + [d[i]];
      }
      i := i + 1;
    }
    assert d[..|d|] == d;
  }
}
