/** Plain JavaScript objects used as dictionaries (`{}`, `obj[k] = v`,
    `obj[k]`, `Object.keys`, `Object.entries`), as lists of properties in
    enumeration order. ECMAScript's OrdinaryOwnPropertyKeys (section 10.1.11.1
    of ECMA-262) enumerates array-index keys (canonical numerals below
    2^32 - 1) first, in ascending numeric order, and then the other string
    keys in the order they were created. Put keeps a list in that order. */
module JsObject {
  import opened Wrappers
  import opened JsNumber

  datatype Prop<V> = Prop(key: string, val: V)

  type Obj<V> = seq<Prop<V>>

  const ArrayIndexLimit: nat := 4294967295

  /** An integer-like key such as "14850", enumerated before all other keys. */
  predicate IsArrayIndex(k: string) {
    IsCanonical(k) && DigitsValue(k) < ArrayIndexLimit
  }

  /** Whether array-index key `a` is enumerated before array-index key `b`. */
  predicate IndexBefore(a: string, b: string)
    requires IsArrayIndex(a) && IsArrayIndex(b)
  {
    DigitsValue(a) < DigitsValue(b)
  }

  /** `Object.keys(o)`. */
  function Keys<V>(o: Obj<V>): (ks: seq<string>)
    ensures |ks| == |o|
    ensures forall i :: 0 <= i < |o| ==> ks[i] == o[i].key
  {
    if o == [] then [] else [o[0].key] + Keys(o[1..])
  }

  function KeySet<V>(o: Obj<V>): set<string> {
    if o == [] then {} else {o[0].key} + KeySet(o[1..])
  }

  predicate HasKey<V>(o: Obj<V>, k: string) {
    k in KeySet(o)
  }

  /** Position of a key that is present. */
  function Position<V>(o: Obj<V>, k: string): (i: nat)
    requires HasKey(o, k)
    ensures i < |o| && o[i].key == k
  {
    if o[0].key == k then 0 else 1 + Position(o[1..], k)
  }

  lemma {:induction false} KeyAt<V>(o: Obj<V>, i: nat)
    requires i < |o|
    ensures HasKey(o, o[i].key)
  {
    if i > 0 {
      KeyAt(o[1..], i - 1);
    }
  }

  /** Keys are distinct, and array-index keys come first in ascending order. */
  predicate Valid<V>(o: Obj<V>) {
    && (forall i, j :: 0 <= i < j < |o| ==> o[i].key != o[j].key)
    && (forall i, j :: 0 <= i < j < |o| && IsArrayIndex(o[j].key) ==>
          IsArrayIndex(o[i].key) && IndexBefore(o[i].key, o[j].key))
  }

  /** `o[k]`: None stands for undefined. */
  function Get<V>(o: Obj<V>, k: string): (r: Option<V>)
    ensures r.Some? <==> HasKey(o, k)
  {
    if o == [] then None else if o[0].key == k then Some(o[0].val) else Get(o[1..], k)
  }

  /** Whether a new key k is placed before the property p. */
  predicate GoesBefore<V>(k: string, p: Prop<V>) {
    IsArrayIndex(k) && (!IsArrayIndex(p.key) || IndexBefore(k, p.key))
  }

  /** `o[k] = v`: an existing key keeps its place; a new array-index key goes
      to its numeric place; any other new key goes to the end. */
  function Put<V>(o: Obj<V>, k: string, v: V): Obj<V>
  {
    if o == [] then [Prop(k, v)]
    else if o[0].key == k then [Prop(k, v)] + o[1..]
    else if GoesBefore(k, o[0]) then [Prop(k, v)] + o
    else [o[0]] + Put(o[1..], k, v)
  }

  lemma {:induction false} GetAt<V>(o: Obj<V>, i: nat)
    requires Valid(o) && i < |o|
    ensures Get(o, o[i].key) == Some(o[i].val)
  {
    if i > 0 {
      assert Valid(o[1..]);
      GetAt(o[1..], i - 1);
    }
  }

  /** After `o[k] = v`, reading `o[k]` gives v. */
  lemma {:induction false} PutGet<V>(o: Obj<V>, k: string, v: V)
    ensures Get(Put(o, k, v), k) == Some(v)
  {
    if o != [] && o[0].key != k && !GoesBefore(k, o[0]) {
      PutGet(o[1..], k, v);
    }
  }

  /** `o[k] = v` leaves every other key's value as it was. */
  lemma {:induction false} PutGetOther<V>(o: Obj<V>, k: string, v: V, k': string)
    requires k' != k
    ensures Get(Put(o, k, v), k') == Get(o, k')
  {
    if o != [] && o[0].key != k && !GoesBefore(k, o[0]) {
      PutGetOther(o[1..], k, v, k');
    }
  }

  /** `o[k] = v` adds k to the keys and no other key. */
  lemma {:induction false} PutKeys<V>(o: Obj<V>, k: string, v: V)
    ensures KeySet(Put(o, k, v)) == KeySet(o) + {k}
  {
    if o != [] && o[0].key != k && !GoesBefore(k, o[0]) {
      PutKeys(o[1..], k, v);
    }
  }

  /** `o[k] = v` keeps the object well formed, and adds a property exactly
      when k was absent. */
  lemma {:induction false} PutValid<V>(o: Obj<V>, k: string, v: V)
    requires Valid(o)
    ensures Valid(Put(o, k, v))
    ensures |Put(o, k, v)| == if HasKey(o, k) then |o| else |o| + 1
  {
    if o == [] {
    } else if o[0].key == k {
      assert Put(o, k, v) == o[0 := Prop(k, v)];
    } else if GoesBefore(k, o[0]) {
      InsertFrontValid(o, k, v);
    } else {
      var t := o[1..];
      assert Valid(t);
      PutValid(t, k, v);
      PutKeys(t, k, v);
      ConsValid(o, k, v);
    }
  }

  /** A new array-index key that belongs before the first property belongs
      before all of them. */
  lemma InsertFrontValid<V>(o: Obj<V>, k: string, v: V)
    requires Valid(o) && o != [] && GoesBefore(k, o[0])
    ensures !HasKey(o, k) && Valid([Prop(k, v)] + o)
  {
    if HasKey(o, k) {
      var j := Position(o, k);
      assert false;
    }
    var r := [Prop(k, v)] + o;
    forall j | 0 < j < |r| && IsArrayIndex(r[j].key)
      ensures IndexBefore(k, r[j].key)
    {
      if j > 1 {
        assert IsArrayIndex(o[0].key) && IndexBefore(o[0].key, o[j - 1].key);
      }
    }
    forall j | 0 < j < |r|
      ensures r[j].key != k
    {
      KeyAt(o, j - 1);
    }
  }

  /** The recursive case of Put: the first property stays in front. */
  lemma ConsValid<V>(o: Obj<V>, k: string, v: V)
    requires Valid(o) && o != [] && o[0].key != k && !GoesBefore(k, o[0])
    requires Valid(Put(o[1..], k, v))
    requires KeySet(Put(o[1..], k, v)) == KeySet(o[1..]) + {k}
    ensures Valid(Put(o, k, v))
  {
    var rt := Put(o[1..], k, v);
    var r := [o[0]] + rt;
    assert Put(o, k, v) == r;
    forall j | 0 < j < |r|
      ensures r[0].key != r[j].key
      ensures IsArrayIndex(r[j].key) ==> IsArrayIndex(r[0].key) && IndexBefore(r[0].key, r[j].key)
    {
      KeyAt(rt, j - 1);
      HeadBefore(o, k, v, rt[j - 1].key);
    }
    assert forall i :: 0 < i < |r| ==> r[i] == rt[i - 1];
  }

  /** A property appended after every key it must follow keeps an object
      well formed. */
  lemma SnocValid<V>(o: Obj<V>, p: Prop<V>)
    requires Valid(o)
    requires forall i :: 0 <= i < |o| ==> o[i].key != p.key
    requires forall i :: 0 <= i < |o| && IsArrayIndex(p.key) ==> IsArrayIndex(o[i].key) && IndexBefore(o[i].key, p.key)
    ensures Valid(o + [p])
  {
    var r := o + [p];
    assert forall i :: 0 <= i < |o| ==> r[i] == o[i];
  }

  /** The properties `keep` accepts, in their order. */
  function Filter<V>(o: Obj<V>, keep: Prop<V> -> bool): (r: Obj<V>)
    ensures |r| <= |o|
    ensures forall i :: 0 <= i < |r| ==> r[i] in o && keep(r[i])
    ensures forall i :: 0 <= i < |o| && keep(o[i]) ==> o[i] in r
  {
    if o == [] then []
    else
      var n := |o| - 1;
      Filter(o[..n], keep) + (if keep(o[n]) then [o[n]] else [])
  }

  /** Dropping properties keeps an object well formed. */
  lemma {:induction false} FilterValid<V>(o: Obj<V>, keep: Prop<V> -> bool)
    requires Valid(o)
    ensures Valid(Filter(o, keep))
  {
    if o != [] {
      var n := |o| - 1;
      PrefixValid(o, n);
      FilterValid(o[..n], keep);
      if keep(o[n]) {
        FilterBeforeLast(o, keep);
        SnocValid(Filter(o[..n], keep), o[n]);
      }
    }
  }

  lemma PrefixValid<V>(o: Obj<V>, n: nat)
    requires Valid(o) && n <= |o|
    ensures Valid(o[..n])
  {
    assert forall i :: 0 <= i < n ==> o[..n][i] == o[i];
  }

  /** The last property's key is not among the others, and every other key
      reads the same with or without it. */
  lemma LastProp<V>(o: Obj<V>)
    requires Valid(o) && o != []
    ensures var n := |o| - 1;
      && Get(o, o[n].key) == Some(o[n].val)
      && !HasKey(o[..n], o[n].key)
      && (forall z :: z != o[n].key ==> (HasKey(o, z) <==> HasKey(o[..n], z)))
      && (forall z :: z != o[n].key && HasKey(o[..n], z) ==> Get(o, z) == Get(o[..n], z))
  {
    var n := |o| - 1;
    var init := o[..n];
    var k := o[n].key;
    PrefixValid(o, n);
    GetAt(o, n);
    KeyAt(o, n);
    if HasKey(init, k) {
      var j := Position(init, k);
      assert false;
    }
    forall z | z != k
      ensures HasKey(o, z) <==> HasKey(init, z)
      ensures HasKey(init, z) ==> Get(o, z) == Get(init, z)
    {
      if HasKey(o, z) {
        var j := Position(o, z);
        assert j < n;
        KeyAt(init, j);
        GetAt(init, j);
        GetAt(o, j);
      }
      if HasKey(init, z) {
        var j := Position(init, z);
        KeyAt(o, j);
        GetAt(init, j);
        GetAt(o, j);
      }
    }
  }

  /** The last property follows every property kept from before it. */
  lemma FilterBeforeLast<V>(o: Obj<V>, keep: Prop<V> -> bool)
    requires Valid(o) && o != []
    ensures var n := |o| - 1; var prev := Filter(o[..n], keep);
      forall i :: 0 <= i < |prev| ==>
        prev[i].key != o[n].key
        && (IsArrayIndex(o[n].key) ==> IsArrayIndex(prev[i].key) && IndexBefore(prev[i].key, o[n].key))
  {
    var n := |o| - 1;
    var init := o[..n];
    var prev := Filter(init, keep);
    forall i | 0 <= i < |prev|
      ensures prev[i].key != o[n].key
      ensures IsArrayIndex(o[n].key) ==> IsArrayIndex(prev[i].key) && IndexBefore(prev[i].key, o[n].key)
    {
      assert prev[i] in init;
      var k :| 0 <= k < |init| && init[k] == prev[i];
      assert o[k] == prev[i];
    }
  }

  /** In the recursive case of Put, the first property precedes every key of
      the updated rest in enumeration order. */
  lemma HeadBefore<V>(o: Obj<V>, k: string, v: V, x: string)
    requires Valid(o) && o != [] && o[0].key != k && !GoesBefore(k, o[0])
    requires x in KeySet(o[1..]) + {k}
    ensures o[0].key != x
    ensures IsArrayIndex(x) ==> IsArrayIndex(o[0].key) && IndexBefore(o[0].key, x)
  {
    if x == k {
      if IsArrayIndex(k) {
        assert IsArrayIndex(o[0].key) && DigitsValue(o[0].key) <= DigitsValue(k);
        if DigitsValue(o[0].key) == DigitsValue(k) {
          CanonicalInjective(o[0].key, k);
        }
      }
    } else {
      var i := Position(o[1..], x);
      assert o[i + 1].key == x;
    }
  }

  /** Setting a key that is not an array index and not yet present appends it. */
  lemma {:induction false} PutAppends<V>(o: Obj<V>, k: string, v: V)
    requires !IsArrayIndex(k) && !HasKey(o, k)
    ensures Put(o, k, v) == o + [Prop(k, v)]
  {
    if o != [] {
      PutAppends(o[1..], k, v);
    }
  }

  /** Setting a key that is present only changes its value, in place. */
  lemma {:induction false} PutExisting<V>(o: Obj<V>, i: nat, v: V)
    requires Valid(o) && i < |o|
    ensures Put(o, o[i].key, v) == o[i := Prop(o[i].key, v)]
  {
    if i > 0 {
      var k := o[i].key;
      assert o[0].key != k;
      if IsArrayIndex(k) {
        assert IsArrayIndex(o[0].key) && IndexBefore(o[0].key, k);
      }
      assert Valid(o[1..]);
      PutExisting(o[1..], i - 1, v);
      assert o[1..][i - 1 := Prop(k, v)] == o[i := Prop(k, v)][1..];
    }
  }

  /** A five-digit numeral without a leading zero, such as a ZIP code, is an
      array-index key. */
  lemma FiveDigitIndex(s: string)
    requires |s| == 5 && AllDigits(s) && s[0] != '0'
    ensures IsArrayIndex(s)
  {
    DigitsValueBelow(s);
    assert Pow10(5) == 100000;
  }

  /** In a valid object, array-index keys enumerate in ascending numeric
      order, whatever order they were set in. */
  lemma IndexKeysAscending<V>(o: Obj<V>, i: nat, j: nat)
    requires Valid(o) && i < j < |o| && IsArrayIndex(o[j].key)
    ensures IsArrayIndex(o[i].key) && DigitsValue(o[i].key) < DigitsValue(o[j].key)
  {
  }

  /** `o[k]` is the value at the first position holding `k`. */
  lemma {:induction false} GetPosition<V>(o: Obj<V>, k: string)
    requires HasKey(o, k)
    ensures Get(o, k) == Some(o[Position(o, k)].val)
  {
    if o[0].key != k {
      GetPosition(o[1..], k);
    }
  }
}
