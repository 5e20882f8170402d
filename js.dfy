/** The JavaScript values that reach the SQL helpers: the values of a JSON
    object (numbers are whole numbers here), their `typeof`, their
    truthiness, and plain objects as the ordered list of their entries. */
module Js {

  /** `None` stands for `undefined`. */
  datatype Option<T> = None | Some(value: T)

  datatype JsValue =
    | Str(s: string)
    | Num(n: int)
    | Bool(b: bool)
    | Null

  /** The answers of `typeof` for these values (`typeof null` is "object"). */
  datatype JsType = StringType | NumberType | BooleanType | ObjectType

  function TypeOf(v: JsValue): JsType
  {
    match v
    case Str(_) => StringType
    case Num(_) => NumberType
    case Bool(_) => BooleanType
    case Null => ObjectType
  }

  /** `false`, `0`, `""` and `null` are the falsy values among these. */
  predicate Truthy(v: JsValue)
  {
    match v
    case Str(s) => s != ""
    case Num(n) => n != 0
    case Bool(b) => b
    case Null => false
  }

  datatype Entry = Entry(key: string, value: JsValue)

  predicate KeysDistinct(o: seq<Entry>)
  {
    forall i, j :: 0 <= i < j < |o| ==> o[i].key != o[j].key
  }

  /** A plain object; its entries are listed in `Object.keys` order. */
  type JsObject = o: seq<Entry> | KeysDistinct(o)

  /** `Object.keys(o)` */
  function Keys(o: seq<Entry>): (ks: seq<string>)
    ensures |ks| == |o|
  {
    seq(|o|, i requires 0 <= i < |o| => o[i].key)
  }

  /** `Object.values(o)` */
  function Values(o: seq<Entry>): (vs: seq<JsValue>)
    ensures |vs| == |o|
  {
    seq(|o|, i requires 0 <= i < |o| => o[i].value)
  }

  /** `o[k]`: the value stored under `k`, or `undefined`. */
  function Get(o: seq<Entry>, k: string): (r: Option<JsValue>)
    ensures r.None? <==> k !in Keys(o)
    ensures r.Some? ==> exists i :: 0 <= i < |o| && o[i] == Entry(k, r.value)
  {
    if o == [] then None
    else if o[0].key == k then
      assert Keys(o)[0] == k;
      Some(o[0].value)
    else
      var r := Get(o[1..], k);
      assert Keys(o) == [o[0].key] + Keys(o[1..]);
      assert r.Some? ==> exists i :: 0 <= i < |o[1..]| && o[1..][i] == Entry(k, r.value);
      r
  }

  /** In an object every key names one value: the entry at a key's position
      is the one `o[k]` reads. */
  lemma {:induction false} GetAt(o: JsObject, i: nat)
    requires i < |o|
    ensures Get(o, o[i].key) == Some(o[i].value)
  {
    if i > 0 {
      assert o[0].key != o[i].key;
      var rest: JsObject := o[1..];
      GetAt(rest, i - 1);
    }
  }

  /** `o[k]` read as a condition (`if (o[k]) ...`). */
  predicate TruthyAt(o: seq<Entry>, k: string)
  {
    Get(o, k).Some? && Truthy(Get(o, k).value)
  }

  /** The object rebuilt from its keys other than `k`, in the same order. */
  function Without(o: seq<Entry>, k: string): seq<Entry>
  {
    if o == [] then []
    else if o[0].key == k then Without(o[1..], k)
    else [o[0]] + Without(o[1..], k)
  }

  /** `Without` keeps exactly the entries under other keys, so an object
      stays an object. */
  lemma {:induction false} WithoutEntries(o: seq<Entry>, k: string)
    ensures forall e :: e in Without(o, k) <==> e in o && e.key != k
    ensures KeysDistinct(o) ==> KeysDistinct(Without(o, k))
  {
    if o != [] {
      WithoutEntries(o[1..], k);
      assert o == [o[0]] + o[1..];
    }
  }

  /** When `k` sits at position `i`, dropping it is the splice of that one
      position, so `Keys(Without(o, k))` is `Keys(o)` with entry `i` spliced
      out. */
  lemma {:induction false} WithoutAt(o: seq<Entry>, k: string, i: nat)
    requires i < |o| && o[i].key == k
    requires forall j :: 0 <= j < |o| && j != i ==> o[j].key != k
    ensures Without(o, k) == o[..i] + o[i + 1..]
  {
    var rest := o[1..];
    if i == 0 {
      WithoutAbsent(rest, k);
      assert o[..i] + o[i + 1..] == rest;
    } else {
      assert o[0].key != k;
      WithoutAt(rest, k, i - 1);
      assert Without(o, k) == [o[0]] + (rest[..i - 1] + rest[i..]);
      assert [o[0]] + rest[..i - 1] == o[..i];
      assert rest[i..] == o[i + 1..];
    }
  }

  /** Dropping a key the object does not have leaves it as it is. */
  lemma {:induction false} WithoutAbsent(o: seq<Entry>, k: string)
    requires forall j :: 0 <= j < |o| ==> o[j].key != k
    ensures Without(o, k) == o
  {
    if o != [] {
      WithoutAbsent(o[1..], k);
    }
  }

  /** Splicing one entry out of an object splices its key out of the key list. */
  lemma KeysSplice(o: seq<Entry>, i: nat)
    requires i < |o|
    ensures Keys(o[..i] + o[i + 1..]) == Keys(o)[..i] + Keys(o)[i + 1..]
  {
    var a, b := Keys(o[..i] + o[i + 1..]), Keys(o)[..i] + Keys(o)[i + 1..];
    assert |a| == |b|;
    forall j | 0 <= j < |a| ensures a[j] == b[j] {
      if j < i {
        assert a[j] == o[j].key;
      } else {
        assert a[j] == o[j + 1].key;
      }
    }
  }

  /** A key outside `Object.keys(o)` is the key of no entry. */
  lemma KeyAbsent(o: seq<Entry>, k: string)
    requires k !in Keys(o)
    ensures forall j :: 0 <= j < |o| ==> o[j].key != k
  {
    forall j | 0 <= j < |o| ensures o[j].key != k {
      assert Keys(o)[j] == o[j].key;
    }
  }

  /** `keys.map((k, idx) => f(k, idx + 1))`: a new array filled in key
      order with the callback's result for each key and its 1-based
      position. */
  method MapKeys<T(0)>(keys: seq<string>, f: (string, nat) -> T) returns (r: seq<T>)
    ensures |r| == |keys|
    ensures forall j :: 0 <= j < |keys| ==> r[j] == f(keys[j], j + 1)
  {
    var a := new T[|keys|];
    for idx := 0 to |keys|
      invariant forall j :: 0 <= j < idx ==> a[j] == f(keys[j], j + 1)
    {
      a[idx] := f(keys[idx], idx + 1);
    }
    r := a[..];
  }

  /** `keys.indexOf(k)`: the position of `k`, or -1. */
  function IndexOfKey(ks: seq<string>, k: string): (i: int)
    ensures -1 <= i < |ks|
    ensures i == -1 <==> k !in ks
    ensures i >= 0 ==> ks[i] == k && forall j :: 0 <= j < i ==> ks[j] != k
  {
    if ks == [] then -1
    else if ks[0] == k then 0
    else
      var j := IndexOfKey(ks[1..], k);
      if j < 0 then -1 else j + 1
  }

  /** `vs.findIndex(v => typeof v === t)`: the first value of type `t`, or -1. */
  function FindIndexOfType(vs: seq<JsValue>, t: JsType): (i: int)
    ensures -1 <= i < |vs|
    ensures i == -1 <==> forall j :: 0 <= j < |vs| ==> TypeOf(vs[j]) != t
    ensures i >= 0 ==> TypeOf(vs[i]) == t && forall j :: 0 <= j < i ==> TypeOf(vs[j]) != t
  {
    if vs == [] then -1
    else if TypeOf(vs[0]) == t then 0
    else
      var j := FindIndexOfType(vs[1..], t);
      assert forall k :: 1 <= k < |vs| ==> vs[k] == vs[1..][k - 1];
      if j < 0 then -1 else j + 1
  }
}
