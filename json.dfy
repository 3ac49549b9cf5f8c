/**
 * Plain JavaScript objects with scalar values, as the client builds them for
 * request bodies, search filters and CSV rows. Keys are kept in insertion
 * order. That is the order of `Object.keys` only for keys that are not array
 * indices: JavaScript lists integer-like keys such as "2" first, in ascending
 * order, and this model does not.
 */
module Json {
  import opened Wrappers
  import opened Text
  import Seqs

  /** A scalar JavaScript value; `Undef` is `undefined`, `Null` is `null`. */
  datatype Value = Undef | Null | Bool(b: bool) | Num(n: int) | Str(s: string)

  type Obj = seq<(string, Value)>

  /** JavaScript truthiness (`NaN` is not modelled). */
  predicate Truthy(v: Value)
  {
    match v
    case Undef => false
    case Null => false
    case Bool(b) => b
    case Num(n) => n != 0
    case Str(s) => s != ""
  }

  /** `String(v)`. */
  function ToJsString(v: Value): string
  {
    match v
    case Undef => "undefined"
    case Null => "null"
    case Bool(b) => if b then "true" else "false"
    case Num(n) => IntToString(n)
    case Str(s) => s
  }

  /** `Object.keys(o)` for an object without integer-like keys. */
  function Keys(o: Obj): (ks: seq<string>)
    ensures |ks| == |o|
  {
    if o == [] then [] else [o[0].0] + Keys(o[1..])
  }

  lemma {:induction false} KeysAt(o: Obj, i: int)
    requires 0 <= i < |o|
    ensures Keys(o)[i] == o[i].0
  {
    if i > 0 { KeysAt(o[1..], i - 1); }
  }

  /** `o[k]`, with `None` for an absent key. */
  function Get(o: Obj, k: string): (r: Option<Value>)
    ensures r.None? <==> k !in Keys(o)
    ensures r.Some? ==> (k, r.value) in o
  {
    if o == [] then None else if o[0].0 == k then Some(o[0].1) else Get(o[1..], k)
  }

  /** `o[k]` read as a value: an absent key is `undefined`. */
  function Lookup(o: Obj, k: string): Value
  {
    Get(o, k).GetOr(Undef)
  }

  /** `o.k` is truthy. */
  predicate HasTruthy(o: Obj, k: string)
  {
    Truthy(Lookup(o, k))
  }

  /** `{...o, [k]: v}`: an existing key keeps its position, a new one goes last. */
  function Set(o: Obj, k: string, v: Value): (r: Obj)
    ensures Get(r, k) == Some(v)
    ensures forall k' :: k' != k ==> Get(r, k') == Get(o, k')
  {
    if o == [] then [(k, v)]
    else if o[0].0 == k then [(k, v)] + o[1..]
    else [o[0]] + Set(o[1..], k, v)
  }

  /** `delete o[k]`. */
  function Remove(o: Obj, k: string): (r: Obj)
    ensures Get(r, k) == None
    ensures forall k' :: k' != k ==> Get(r, k') == Get(o, k')
  {
    if o == [] then []
    else if o[0].0 == k then Remove(o[1..], k)
    else [o[0]] + Remove(o[1..], k)
  }

  /** Spreading a key in keeps the key order and appends only a new key. */
  lemma {:induction false} SetKeys(o: Obj, k: string, v: Value)
    ensures Keys(Set(o, k, v)) == if k in Keys(o) then Keys(o) else Keys(o) + [k]
  {
    if o == [] {
      assert Set(o, k, v) == [(k, v)];
    } else if o[0].0 == k {
      assert Set(o, k, v) == [(k, v)] + o[1..];
      assert Keys(Set(o, k, v)) == [k] + Keys(o[1..]);
      assert Keys(o) == [k] + Keys(o[1..]);
    } else {
      var t := Set(o[1..], k, v);
      SetKeys(o[1..], k, v);
      assert Set(o, k, v) == [o[0]] + t;
      assert Keys(Set(o, k, v)) == [o[0].0] + Keys(t);
      assert Keys(o) == [o[0].0] + Keys(o[1..]);
      assert (k in Keys(o)) == (k in Keys(o[1..]));
    }
  }

  /** Deleting a key keeps the other keys in order. */
  lemma {:induction false} RemoveKeys(o: Obj, k: string)
    ensures Keys(Remove(o, k)) == Seqs.Filter(Keys(o), (x: string) => x != k)
  {
    if o != [] {
      RemoveKeys(o[1..], k);
      assert Keys(o)[1..] == Keys(o[1..]);
    }
  }

  /** Every key occurs once, as in a real JavaScript object. */
  predicate UniqueKeys(o: Obj)
  {
    forall i, j :: 0 <= i < j < |o| ==> o[i].0 != o[j].0
  }

  lemma {:induction false} SetKeepsUnique(o: Obj, k: string, v: Value)
    requires UniqueKeys(o)
    ensures UniqueKeys(Set(o, k, v))
  {
    var r := Set(o, k, v);
    SetKeys(o, k, v);
    assert Keys(r) == if k in Keys(o) then Keys(o) else Keys(o) + [k];
    forall i, j | 0 <= i < j < |r| ensures r[i].0 != r[j].0 {
      KeysAt(r, i);
      KeysAt(r, j);
      KeysAt(o, i);
      if j < |o| {
        KeysAt(o, j);
      }
    }
  }

  /** An object literal: the keys `ks` bound in order to the values `vs`. */
  function Zip(ks: seq<string>, vs: seq<Value>): (o: Obj)
    requires |ks| == |vs|
    ensures |o| == |ks| && forall i :: 0 <= i < |ks| ==> o[i] == (ks[i], vs[i])
  {
    seq(|ks|, i requires 0 <= i < |ks| => (ks[i], vs[i]))
  }

  /** No key is repeated. */
  predicate Distinct(ks: seq<string>)
  {
    forall i, j :: 0 <= i < j < |ks| ==> ks[i] != ks[j]
  }

  lemma {:induction false} ZipKeys(ks: seq<string>, vs: seq<Value>)
    requires |ks| == |vs|
    ensures Keys(Zip(ks, vs)) == ks
  {
    var o := Zip(ks, vs);
    forall i | 0 <= i < |ks| ensures Keys(o)[i] == ks[i] {
      KeysAt(o, i);
    }
  }

  /** Reading a key of an object literal with distinct keys gives its value. */
  lemma {:induction false} LookupZip(ks: seq<string>, vs: seq<Value>, j: int)
    requires |ks| == |vs| && Distinct(ks) && 0 <= j < |ks|
    ensures Lookup(Zip(ks, vs), ks[j]) == vs[j]
  {
    if j > 0 {
      assert Zip(ks, vs)[1..] == Zip(ks[1..], vs[1..]);
      LookupZip(ks[1..], vs[1..], j - 1);
    }
  }
}
