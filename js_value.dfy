/**
 * JavaScript values as the error-handling, validation and store code sees
 * them (`unknown` in the TypeScript source): JSON-like data, plus
 * `undefined` and instances of `Error`.
 *
 * An object is the list of its own enumerable properties in enumeration
 * order. Writing a property (`o[k] = v`) replaces the value in place when
 * the key exists and appends otherwise, which is what `Put` does; reading
 * (`o[k]`) is `Get`.
 */
module JsValue {
  import opened Wrappers

  datatype Value =
    | Undefined
    | Null
    | Bool(b: bool)
    | Num(n: real)
    | Str(s: string)
    | Arr(items: seq<Value>)
    | Obj(entries: seq<(string, Value)>)
      /** an instance of `Error`: its name, message and (possibly undefined) cause */
    | ErrorObj(name: string, message: string, cause: Value)

  /** JavaScript truthiness (`!!v`). NaN is not representable here. */
  predicate Truthy(v: Value) {
    match v
    case Undefined => false
    case Null => false
    case Bool(b) => b
    case Num(n) => n != 0.0
    case Str(s) => s != ""
    case _ => true
  }

  /** `typeof v === "object" && v !== null`. */
  predicate IsObject(v: Value) {
    v.Arr? || v.Obj? || v.ErrorObj?
  }

  /** `v === null || v === undefined`. */
  predicate IsNullish(v: Value) {
    v.Undefined? || v.Null?
  }

  // ---------------------------------------------------------------------------
  // Records: string-keyed property lists

  function Keys<V>(e: seq<(string, V)>): (ks: seq<string>)
    ensures |ks| == |e| && forall i | 0 <= i < |e| :: ks[i] == e[i].0
  {
    seq(|e|, i requires 0 <= i < |e| => e[i].0)
  }

  predicate HasKey<V>(e: seq<(string, V)>, k: string) {
    k in Keys(e)
  }

  predicate DistinctKeys<V>(e: seq<(string, V)>) {
    forall i, j | 0 <= i < j < |e| :: e[i].0 != e[j].0
  }

  /** `o[k]`: the value under the first occurrence of `k`. */
  function Get<V>(e: seq<(string, V)>, k: string): (r: Option<V>)
    ensures r.None? <==> !HasKey(e, k)
  {
    if e == [] then None
    else if e[0].0 == k then Some(e[0].1)
    else
      assert Keys(e) == [e[0].0] + Keys(e[1..]);
      Get(e[1..], k)
  }

  /** With distinct keys, `Get` finds the value stored at the key's position. */
  lemma {:induction false} GetAt<V>(e: seq<(string, V)>, i: nat)
    requires DistinctKeys(e) && i < |e|
    ensures Get(e, e[i].0) == Some(e[i].1)
  {
    if i > 0 {
      assert e[0].0 != e[i].0;
      GetAt(e[1..], i - 1);
    }
  }

  /** `o[k] = v`: overwrite in place when present, append otherwise. */
  function Put<V>(e: seq<(string, V)>, k: string, v: V): (r: seq<(string, V)>)
    ensures HasKey(e, k) ==> Keys(r) == Keys(e)
    ensures !HasKey(e, k) ==> Keys(r) == Keys(e) + [k]
  {
    if e == [] then [(k, v)]
    else if e[0].0 == k then
      KeysCons((k, v), e[1..]);
      KeysHead(e);
      [(k, v)] + e[1..]
    else
      var rest := Put(e[1..], k, v);
      KeysCons(e[0], rest);
      KeysHead(e);
      assert HasKey(e, k) <==> HasKey(e[1..], k);
      [e[0]] + rest
  }

  lemma KeysCons<V>(x: (string, V), rest: seq<(string, V)>)
    ensures Keys([x] + rest) == [x.0] + Keys(rest)
  {
  }

  lemma KeysHead<V>(e: seq<(string, V)>)
    requires e != []
    ensures Keys(e) == [e[0].0] + Keys(e[1..])
  {
    KeysCons(e[0], e[1..]);
    assert [e[0]] + e[1..] == e;
  }

  /** After `o[k] = v`, reading `o[k]` gives `v` and every other key reads as before. */
  lemma {:induction false} PutGet<V>(e: seq<(string, V)>, k: string, v: V, k': string)
    ensures Get(Put(e, k, v), k') == if k' == k then Some(v) else Get(e, k')
  {
    if e != [] && e[0].0 != k {
      PutGet(e[1..], k, v, k');
    }
  }

  /** Writing a key keeps the keys distinct. */
  lemma PutDistinct<V>(e: seq<(string, V)>, k: string, v: V)
    requires DistinctKeys(e)
    ensures DistinctKeys(Put(e, k, v))
  {
    var r := Put(e, k, v);
    assert Keys(r) == Keys(e) || Keys(r) == Keys(e) + [k];
    forall i, j | 0 <= i < j < |r| ensures r[i].0 != r[j].0 {
      assert Keys(r)[i] == r[i].0 && Keys(r)[j] == r[j].0;
    }
  }

  /** Writing a key that is absent appends the entry. */
  lemma {:induction false} PutFresh<V>(e: seq<(string, V)>, k: string, v: V)
    requires !HasKey(e, k)
    ensures Put(e, k, v) == e + [(k, v)]
  {
    if e != [] {
      assert Keys(e) == [e[0].0] + Keys(e[1..]);
      PutFresh(e[1..], k, v);
      assert [e[0]] + (e[1..] + [(k, v)]) == e + [(k, v)];
    }
  }

  /** Every entry after `o[k] = v` is either the written one or an entry that was there before. */
  lemma {:induction false} PutEntries<V>(e: seq<(string, V)>, k: string, v: V)
    ensures forall i | 0 <= i < |Put(e, k, v)| :: Put(e, k, v)[i] == (k, v) || Put(e, k, v)[i] in e
  {
    if e != [] && e[0].0 != k {
      PutEntries(e[1..], k, v);
      var rest := Put(e[1..], k, v);
      forall i | 0 <= i < |Put(e, k, v)| ensures Put(e, k, v)[i] == (k, v) || Put(e, k, v)[i] in e {
        if i > 0 {
          assert Put(e, k, v)[i] == rest[i - 1];
          assert rest[i - 1] == (k, v) || rest[i - 1] in e[1..];
        }
      }
    } else if e != [] {
      forall i | 0 <= i < |Put(e, k, v)| ensures Put(e, k, v)[i] == (k, v) || Put(e, k, v)[i] in e {
        if i > 0 { assert Put(e, k, v)[i] == e[i]; }
      }
    }
  }

  /** Assigning the entries one after another, in order, into a fresh object `{}`. */
  function PutAll<V>(e: seq<(string, V)>): seq<(string, V)> {
    if e == [] then [] else Put(PutAll(e[..|e| - 1]), e[|e| - 1].0, e[|e| - 1].1)
  }

  /** The assembled object has exactly the keys assigned. */
  lemma {:induction false} PutAllKeys<V>(e: seq<(string, V)>)
    ensures forall k :: HasKey(PutAll(e), k) <==> HasKey(e, k)
  {
    if e != [] {
      var init := e[..|e| - 1];
      var last := e[|e| - 1];
      PutAllKeys(init);
      var before := PutAll(init);
      var after := Put(before, last.0, last.1);
      assert PutAll(e) == after;
      KeysLast(e);
      var kb, ka := Keys(before), Keys(after);
      assert ka == kb || ka == kb + [last.0];
      assert !HasKey(before, last.0) ==> ka == kb + [last.0];
      forall k ensures k in ka <==> k in Keys(e) {
        assert HasKey(before, k) <==> HasKey(init, k);
      }
    }
  }

  lemma KeysLast<V>(e: seq<(string, V)>)
    requires e != []
    ensures Keys(e) == Keys(e[..|e| - 1]) + [e[|e| - 1].0]
  {
  }

  /** The assembled object has distinct keys, and each of its entries is one of those assigned. */
  lemma {:induction false} PutAllEntries<V>(e: seq<(string, V)>)
    ensures DistinctKeys(PutAll(e))
    ensures forall i | 0 <= i < |PutAll(e)| :: PutAll(e)[i] in e
  {
    if e != [] {
      var init := e[..|e| - 1];
      var last := e[|e| - 1];
      PutAllEntries(init);
      PutDistinct(PutAll(init), last.0, last.1);
      PutEntries(PutAll(init), last.0, last.1);
      forall i | 0 <= i < |PutAll(e)| ensures PutAll(e)[i] in e {
        assert PutAll(e)[i] == last || PutAll(e)[i] in init;
      }
    }
  }

  /** Assigning entries with distinct keys reproduces them in order. */
  lemma {:induction false} PutAllDistinct<V>(e: seq<(string, V)>)
    requires DistinctKeys(e)
    ensures PutAll(e) == e
  {
    if e != [] {
      var init := e[..|e| - 1];
      var last := e[|e| - 1];
      assert DistinctKeys(init) by {
        forall i, j | 0 <= i < j < |init| ensures init[i].0 != init[j].0 {
          assert init[i] == e[i] && init[j] == e[j];
        }
      }
      PutAllDistinct(init);
      assert PutAll(e) == Put(init, last.0, last.1);
      var before := Keys(init);
      forall j | 0 <= j < |before| ensures before[j] != last.0 {
        assert before[j] == e[j].0;
      }
      PutFresh(init, last.0, last.1);
      assert init + [last] == e;
    }
  }

  /**
   * `v[k]` for the named (non-index) properties the application reads.
   * Reading a property of `null` or `undefined` throws, so it is excluded.
   */
  function Prop(v: Value, k: string): Value
    requires !IsNullish(v)
  {
    match v
    case Obj(e) => Get(e, k).GetOr(Undefined)
    case ErrorObj(name, message, cause) =>
      if k == "name" then Str(name)
      else if k == "message" then Str(message)
      else if k == "cause" then cause
      else Undefined
    case Str(s) => if k == "length" then Num(|s| as real) else Undefined
    case Arr(items) => if k == "length" then Num(|items| as real) else Undefined
    case _ => Undefined
  }

  /**
   * `k in v` for an object `v`, restricted to the named properties the
   * application asks about: own keys of a plain object, and `name`, `message`
   * and a supplied `cause` of an `Error`.
   */
  predicate In(k: string, v: Value)
    requires IsObject(v)
  {
    match v
    case Obj(e) => HasKey(e, k)
    case ErrorObj(_, _, cause) => k == "name" || k == "message" || (k == "cause" && !cause.Undefined?)
    case Arr(items) => k == "length"
  }
}
