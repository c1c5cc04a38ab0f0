/**
  Parsed JSON values as the Python code sees them after `json.load`, with
  Python's truthiness and `len`, and the `dict` operations the pipeline uses.
  Numbers are integers only. Objects are association lists in insertion order,
  so that the order in which keys are emitted can be stated; lookups take the
  first entry with the key, which is the only entry in any object that came
  from `json.load`.
*/
module JsonModel {
  import opened Wrappers
  import opened Sequences

  datatype Json =
    | Null
    | Bool(b: bool)
    | Num(n: int)
    | Str(s: string)
    | Arr(items: seq<Json>)
    | Obj(fields: seq<(string, Json)>)

  /** The entries of a JSON object, in insertion order. */
  type Fields = seq<(string, Json)>

  /** Python truthiness: `None`, `False`, `0`, `""`, `[]` and `{}` are false. */
  predicate Truthy(j: Json) {
    match j
    case Null => false
    case Bool(b) => b
    case Num(n) => n != 0
    case Str(s) => |s| > 0
    case Arr(items) => |items| > 0
    case Obj(fields) => |fields| > 0
  }

  /** Python `len(j)`: `None` when it raises `TypeError` (null, booleans, numbers). */
  function PyLen(j: Json): (r: Option<nat>)
    ensures r.Some? <==> (j.Str? || j.Arr? || j.Obj?)
    ensures r.Some? ==> (Truthy(j) <==> r.value > 0)
  {
    match j
    case Str(s) => Some(|s|)
    case Arr(items) => Some(|items|)
    case Obj(fields) => Some(|fields|)
    case _ => None
  }

  /** The keys of an association list, in order. */
  function Keys<V>(fs: seq<(string, V)>): (ks: seq<string>)
    ensures |ks| == |fs|
    ensures forall i :: 0 <= i < |fs| ==> ks[i] == fs[i].0
  {
    if |fs| == 0 then [] else [fs[0].0] + Keys(fs[1..])
  }

  predicate DistinctKeys<V>(fs: seq<(string, V)>) {
    Distinct(Keys(fs))
  }

  /** `d.get(k)`: the value of the first entry with key `k`. */
  function Get<V>(fs: seq<(string, V)>, k: string): (r: Option<V>)
    ensures r.Some? <==> k in Keys(fs)
    ensures r.Some? ==> (k, r.value) in fs
  {
    if |fs| == 0 then None
    else if fs[0].0 == k then Some(fs[0].1)
    else Get(fs[1..], k)
  }

  /** `d.get(k, default)`. */
  function GetOr(fs: Fields, k: string, default: Json): Json {
    Get(fs, k).GetOr(default)
  }

  /** `d[k] = v`: overwrites the value in place when `k` is present, otherwise appends the entry. */
  function Set(fs: Fields, k: string, v: Json): (r: Fields)
    ensures Get(r, k) == Some(v)
    ensures forall k' :: k' != k ==> Get(r, k') == Get(fs, k')
    ensures k in Keys(fs) ==> Keys(r) == Keys(fs)
  {
    if |fs| == 0 then [(k, v)]
    else if fs[0].0 == k then
      var r := [(k, v)] + fs[1..];
      assert r[1..] == fs[1..];
      assert Keys(r) == Keys(fs) by { KeysAppend([(k, v)], fs[1..]); KeysAppend([fs[0]], fs[1..]); assert [fs[0]] + fs[1..] == fs; }
      r
    else
      var rest := Set(fs[1..], k, v);
      var r := [fs[0]] + rest;
      assert r[1..] == rest;
      KeysAppend([fs[0]], rest);
      KeysAppend([fs[0]], fs[1..]);
      GetAppendAll([fs[0]], rest);
      GetAppendAll([fs[0]], fs[1..]);
      assert [fs[0]] + fs[1..] == fs;
      r
  }

  /** Assigning a new key appends the entry at the end. */
  lemma {:induction false} SetAbsent(fs: Fields, k: string, v: Json)
    requires k !in Keys(fs)
    ensures Set(fs, k, v) == fs + [(k, v)]
    decreases |fs|
  {
    if |fs| > 0 {
      KeysAppend([fs[0]], fs[1..]);
      assert [fs[0]] + fs[1..] == fs;
      SetAbsent(fs[1..], k, v);
      assert fs + [(k, v)] == [fs[0]] + (fs[1..] + [(k, v)]);
    }
  }

  /** Assigning a new key adds it after all the existing keys. */
  lemma SetNewKey(fs: Fields, k: string, v: Json)
    ensures k !in Keys(fs) ==> Keys(Set(fs, k, v)) == Keys(fs) + [k]
  {
    if k !in Keys(fs) {
      SetAbsent(fs, k, v);
      KeysAppend(fs, [(k, v)]);
    }
  }

  /** Assigning a key twice leaves what a single assignment of the second value leaves. */
  lemma {:induction false} SetTwice(fs: Fields, k: string, v: Json, w: Json)
    ensures Set(Set(fs, k, v), k, w) == Set(fs, k, w)
    decreases |fs|
  {
    if |fs| > 0 && fs[0].0 != k {
      var once := Set(fs, k, v);
      assert once[0] == fs[0] && once[1..] == Set(fs[1..], k, v);
      SetTwice(fs[1..], k, v, w);
    }
  }

  /** Deleting entries deletes their keys: the keys of a subsequence form a subsequence of the keys. */
  lemma {:induction false} KeysSubsequence<V>(a: seq<(string, V)>, b: seq<(string, V)>)
    requires IsSubsequence(a, b)
    ensures IsSubsequence(Keys(a), Keys(b))
    decreases |b|
  {
    if |a| > 0 {
      assert Keys(b)[1..] == Keys(b[1..]);
      if a[0] == b[0] && IsSubsequence(a[1..], b[1..]) {
        KeysSubsequence(a[1..], b[1..]);
        assert Keys(a)[1..] == Keys(a[1..]);
      } else {
        KeysSubsequence(a, b[1..]);
      }
    }
  }

  lemma KeysAppend<V>(a: seq<(string, V)>, b: seq<(string, V)>)
    ensures Keys(a + b) == Keys(a) + Keys(b)
  {
    assert forall i :: 0 <= i < |a + b| ==> Keys(a + b)[i] == (Keys(a) + Keys(b))[i];
  }

  /** A lookup in a concatenation consults the second part only when the first lacks the key. */
  lemma {:induction false} GetAppend<V>(a: seq<(string, V)>, b: seq<(string, V)>, k: string)
    ensures Get(a + b, k) == if Get(a, k).Some? then Get(a, k) else Get(b, k)
    decreases |a|
  {
    if |a| == 0 {
      assert a + b == b;
    } else {
      assert (a + b)[1..] == a[1..] + b;
      GetAppend(a[1..], b, k);
    }
  }

  lemma GetAppendAll<V>(a: seq<(string, V)>, b: seq<(string, V)>)
    ensures forall k :: Get(a + b, k) == if Get(a, k).Some? then Get(a, k) else Get(b, k)
  {
    forall k ensures Get(a + b, k) == if Get(a, k).Some? then Get(a, k) else Get(b, k) {
      GetAppend(a, b, k);
    }
  }

  /** With distinct keys, every entry is what a lookup of its key finds. */
  lemma {:induction false} GetAt<V>(fs: seq<(string, V)>, i: nat)
    requires DistinctKeys(fs) && i < |fs|
    ensures Get(fs, fs[i].0) == Some(fs[i].1)
    decreases i
  {
    if i > 0 {
      assert Keys(fs)[0] != Keys(fs)[i];
      assert DistinctKeys(fs[1..]) by {
        var ks := Keys(fs[1..]);
        forall p, q | 0 <= p < q < |ks| ensures ks[p] != ks[q] {
          assert Keys(fs)[p + 1] != Keys(fs)[q + 1];
        }
      }
      GetAt(fs[1..], i - 1);
    }
  }

  /** Every entry of an association list is found by a lookup of its key. */
  lemma EntryFound<V>(fs: seq<(string, V)>, p: (string, V))
    requires p in fs
    ensures Get(fs, p.0).Some?
  {
    var j :| 0 <= j < |fs| && fs[j] == p;
    assert Keys(fs)[j] == p.0;
  }

  /** Python `s.find(t) >= 0` for strings, written out: `t` occurs in `s` at some offset. */
  predicate HasSubstring(s: string, t: string)
    decreases |s|
  {
    if |s| < |t| then false
    else if s[..|t|] == t then true
    else |s| > 0 && HasSubstring(s[1..], t)
  }

  /**
    Python `key in container` for a string `key`: key membership for an object,
    element membership for an array, substring test for a string, and `None`
    where Python raises `TypeError` (null, booleans, numbers).
  */
  function PyIn(key: string, container: Json): (r: Option<bool>)
    ensures container.Obj? ==> r == Some(key in Keys(container.fields))
    ensures r.None? <==> (container.Null? || container.Bool? || container.Num?)
  {
    match container
    case Obj(fields) => Some(key in Keys(fields))
    case Arr(items) => Some(Str(key) in items)
    case Str(s) => Some(HasSubstring(s, key))
    case _ => None
  }

  /** `"k" in d and d["k"]` for a dict `d`: the key is present with a truthy value. */
  predicate HasTruthy(fs: Fields, k: string) {
    Get(fs, k).Some? && Truthy(Get(fs, k).value)
  }
}
