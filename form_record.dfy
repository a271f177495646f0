/**
  The form's data object as an ordered list of properties, in the order
  Object.entries reports them, with JavaScript's property read and write.
 */
module FormRecord {
  import opened Js

  type Record = seq<(string, Value)>

  /** The property names, in order. */
  function Keys(r: Record): (ks: seq<string>)
    ensures |ks| == |r|
    ensures forall i :: 0 <= i < |r| ==> ks[i] == r[i].0
  {
    if r == [] then [] else [r[0].0] + Keys(r[1..])
  }

  /** A field name of the schema: no brackets, so it can never be confused with a `key[]` or `key[i]` wire key. */
  predicate IsPlainKey(k: string)
  {
    '[' !in k && ']' !in k
  }

  /** What a JavaScript object can be: every key once, and every key a plain field name. */
  predicate WellFormed(r: Record)
  {
    r == [] || (IsPlainKey(r[0].0) && r[0].0 !in Keys(r[1..]) && WellFormed(r[1..]))
  }

  /** Property read `r[k]`: the value of key k, or `undefined` when the object has no such key. */
  function Get(r: Record, k: string): (v: Value)
    ensures k !in Keys(r) ==> v == Undefined
  {
    if r == [] then Undefined
    else if r[0].0 == k then r[0].1
    else Get(r[1..], k)
  }

  /** In a well-formed object, reading the key of the i-th property gives that property's value. */
  lemma {:induction false} GetProperty(r: Record, i: nat)
    requires WellFormed(r) && i < |r|
    ensures Get(r, r[i].0) == r[i].1
  {
    if i > 0 {
      assert r[i] == r[1..][i - 1];
      assert r[i].0 in Keys(r[1..]);
      GetProperty(r[1..], i - 1);
    }
  }

  /**
    Property write `r[k] = v`: an existing key keeps its place and takes the new
    value; a new non-index key is added at the end. (A JavaScript object lists
    array-index keys such as "0" first; the form writes only field names, which
    are not index keys, so that ordering rule is not modelled.)
   */
  function Set(r: Record, k: string, v: Value): (s: Record)
    ensures Get(s, k) == v
    ensures forall k' :: k' != k ==> Get(s, k') == Get(r, k')
    ensures Keys(s) == if k in Keys(r) then Keys(r) else Keys(r) + [k]
  {
    if r == [] then [(k, v)]
    else if r[0].0 == k then [(k, v)] + r[1..]
    else
      assert ([r[0]] + Set(r[1..], k, v))[1..] == Set(r[1..], k, v);
      [r[0]] + Set(r[1..], k, v)
  }

  /** Writing a plain key keeps an object well formed. */
  lemma {:induction false} SetWellFormed(r: Record, k: string, v: Value)
    requires WellFormed(r) && IsPlainKey(k)
    ensures WellFormed(Set(r, k, v))
  {
    if r != [] && r[0].0 != k {
      SetWellFormed(r[1..], k, v);
      var s := Set(r, k, v);
      assert s[1..] == Set(r[1..], k, v);
    } else if r != [] {
      var s := Set(r, k, v);
      assert s[1..] == r[1..];
    }
  }
}
