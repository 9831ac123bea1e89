/** The slice of PHP's value model the serializers depend on: values that are
    or are not arrays, ordered arrays keyed by integers or strings, the
    `isset`/`unset`/assignment operations on them, and boolean conversion. */
module Php {
  import opened Results

  /** A PHP array key. */
  datatype Key = IntKey(i: int) | StrKey(s: string)

  /** A PHP value. Objects are opaque and only carry an identity. */
  datatype Value =
    | Null
    | Bool(b: bool)
    | Int(i: int)
    | Str(s: string)
    | Arr(entries: seq<Entry>)
    | Obj(id: nat)

  datatype Entry = Entry(key: Key, value: Value)

  /** A PHP array: an ordered sequence of key/value entries. Arrays built by
      PHP never repeat a key (see UniqueKeys); lookups take the first match. */
  type PhpArray = seq<Entry>

  /** The keys of an array, in iteration order. */
  function Keys(a: PhpArray): (ks: seq<Key>)
    ensures |ks| == |a|
    ensures forall i :: 0 <= i < |a| ==> ks[i] == a[i].key
  {
    if a == [] then [] else [a[0].key] + Keys(a[1..])
  }

  predicate UniqueKeys(a: PhpArray) {
    forall i, j :: 0 <= i < j < |a| ==> a[i].key != a[j].key
  }

  /** `s` is obtained from `t` by dropping elements, keeping the order of the rest. */
  predicate Subsequence<T(==)>(s: seq<T>, t: seq<T>)
    decreases |t|
  {
    if s == [] then true
    else if t == [] then false
    else (s[0] == t[0] && Subsequence(s[1..], t[1..])) || Subsequence(s, t[1..])
  }

  lemma {:induction false} SubsequenceOfItself<T>(s: seq<T>)
    ensures Subsequence(s, s)
  {
    if s != [] {
      SubsequenceOfItself(s[1..]);
    }
  }

  /** Reading `$a[$k]`: the value stored under `k`, if any. */
  function Get(a: PhpArray, k: Key): (r: Option<Value>)
    ensures r.Some? <==> k in Keys(a)
    ensures r.Some? ==> Entry(k, r.value) in a
  {
    if a == [] then None
    else if a[0].key == k then Some(a[0].value)
    else Get(a[1..], k)
  }

  /** `isset($a[$k])`: the key is present and does not hold null. */
  predicate Isset(a: PhpArray, k: Key) {
    Get(a, k).Some? && !Get(a, k).value.Null?
  }

  /** `unset($a[$k])`: removes the entry under `k`, leaving every other entry
      where it was. */
  function Unset(a: PhpArray, k: Key): (r: PhpArray)
    ensures forall e :: e in r <==> e in a && e.key != k
    ensures Subsequence(r, a)
    ensures forall j :: Get(r, j) == if j == k then None else Get(a, j)
    ensures k !in Keys(a) ==> r == a
    ensures UniqueKeys(a) ==> UniqueKeys(r)
  {
    if a == [] then []
    else if a[0].key == k then Unset(a[1..], k)
    else [a[0]] + Unset(a[1..], k)
  }

  /** `$a[$k] = $v`: overwrites the entry under `k` in place, or appends a new
      entry at the end when `k` is absent (see AssignKeepsKeys, AssignAppends). */
  function Assign(a: PhpArray, k: Key, v: Value): (r: PhpArray)
    ensures Get(r, k) == Some(v)
    ensures forall j :: j != k ==> Get(r, j) == Get(a, j)
  {
    if a == [] then [Entry(k, v)]
    else if a[0].key == k then [Entry(k, v)] + a[1..]
    else
      var t := Assign(a[1..], k, v);
      assert ([a[0]] + t)[1..] == t;
      [a[0]] + t
  }

  /** Assigning to a key that is already present changes no key or position. */
  lemma {:induction false} AssignKeepsKeys(a: PhpArray, k: Key, v: Value)
    requires k in Keys(a)
    ensures Keys(Assign(a, k, v)) == Keys(a)
  {
    if a[0].key != k {
      var t := Assign(a[1..], k, v);
      AssignKeepsKeys(a[1..], k, v);
      assert Assign(a, k, v) == [a[0]] + t;
      assert ([a[0]] + t)[1..] == t;
    }
  }

  /** Assigning to an absent key appends one entry at the end. */
  lemma {:induction false} AssignAppends(a: PhpArray, k: Key, v: Value)
    requires k !in Keys(a)
    ensures Assign(a, k, v) == a + [Entry(k, v)]
  {
    if a != [] {
      assert a[0].key != k && k !in Keys(a[1..]) by {
        assert Keys(a) == [a[0].key] + Keys(a[1..]);
      }
      AssignAppends(a[1..], k, v);
      ConsAppend(a, [Entry(k, v)]);
    }
  }

  /** Splitting off the head of a non-empty sequence commutes with appending. */
  lemma ConsAppend<T>(s: seq<T>, w: seq<T>)
    requires s != []
    ensures [s[0]] + (s[1..] + w) == s + w
  {
    assert [s[0]] + s[1..] == s;
  }

  /** Assignment never introduces a repeated key. */
  lemma AssignKeepsUniqueKeys(a: PhpArray, k: Key, v: Value)
    requires UniqueKeys(a)
    ensures UniqueKeys(Assign(a, k, v))
  {
    var r := Assign(a, k, v);
    if k in Keys(a) {
      AssignKeepsKeys(a, k, v);
      forall i, j | 0 <= i < j < |r| ensures r[i].key != r[j].key {
        assert Keys(r)[i] == Keys(a)[i] && Keys(r)[j] == Keys(a)[j];
      }
    } else {
      AssignAppends(a, k, v);
    }
  }

  /** On an array without repeated keys, reading a key finds exactly the
      entry stored under it. */
  lemma {:induction false} GetFindsEntry(a: PhpArray, k: Key, v: Value)
    requires UniqueKeys(a)
    ensures Get(a, k) == Some(v) <==> Entry(k, v) in a
  {
    if a != [] && a[0].key != k {
      GetFindsEntry(a[1..], k, v);
    }
  }

  /** On an array without repeated keys, `isset` holds exactly when some entry
      under the key holds a value other than null. */
  lemma {:induction false} IssetFindsEntry(a: PhpArray, k: Key)
    requires UniqueKeys(a)
    ensures Isset(a, k) <==> exists i :: 0 <= i < |a| && a[i].key == k && a[i].value != Null
  {
    if Isset(a, k) {
      var v := Get(a, k).value;
      GetFindsEntry(a, k, v);
      var i :| 0 <= i < |a| && a[i] == Entry(k, v);
      assert a[i].key == k && a[i].value != Null;
    }
    if i :| 0 <= i < |a| && a[i].key == k && a[i].value != Null {
      GetFindsEntry(a, k, a[i].value);
      assert a[i] == Entry(k, a[i].value);
    }
  }

  /** PHP's conversion of a value to bool (floats are not modelled). */
  function Truthy(v: Value): (b: bool)
    ensures !b <==> v == Null || v == Bool(false) || v == Int(0) || v == Str("") || v == Str("0") || v == Arr([])
  {
    match v
    case Null => false
    case Bool(b) => b
    case Int(i) => i != 0
    case Str(s) => s != "" && s != "0"
    case Arr(entries) => entries != []
    case Obj(_) => true
  }
}
