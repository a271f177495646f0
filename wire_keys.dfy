/**
  The names multipart parts are sent under. The form writes three shapes of
  name: a field's own name, `name[]` for each item of an array field, and
  `name[i]` for the i-th document. A WireKey records which shape was meant;
  KeyText writes it out as the text that goes on the wire.
 */
module WireKeys {
  import opened FormRecord

  datatype WireKey = Field(name: string) | Item(name: string) | Indexed(name: string, index: nat)

  /** The decimal digit for d. */
  function Digit(d: nat): (c: char)
    requires d < 10
    ensures '0' <= c <= '9'
  {
    (48 + d) as char
  }

  /** The decimal text of n, as a template literal `${n}` writes a non-negative integer. */
  function NatToString(n: nat): (s: string)
    ensures |s| >= 1
    ensures forall i :: 0 <= i < |s| ==> '0' <= s[i] <= '9'
    ensures s[0] == '0' ==> n == 0
  {
    if n < 10 then [Digit(n)] else NatToString(n / 10) + [Digit(n % 10)]
  }

  /** The number a string of decimal digits denotes. */
  function DecimalValue(s: string): nat
  {
    if s == [] then 0
    else
      var d := s[|s| - 1] as int - 48;
      DecimalValue(s[..|s| - 1]) * 10 + (if 0 <= d then d else 0)
  }

  /** Reading back the decimal text of n gives n. */
  lemma {:induction false} DecimalRoundTrip(n: nat)
    ensures DecimalValue(NatToString(n)) == n
  {
    if n >= 10 {
      DecimalRoundTrip(n / 10);
      var s := NatToString(n);
      assert s[..|s| - 1] == NatToString(n / 10);
    }
  }

  /** The text of a key: `name`, `name[]` or `name[i]`. */
  function KeyText(k: WireKey): string
  {
    match k
    case Field(name) => name
    case Item(name) => name + "[]"
    case Indexed(name, i) => name + "[" + NatToString(i) + "]"
  }

  /** The text after the name, which always starts with the bracket, if there is any. */
  function Suffix(k: WireKey): string
  {
    match k
    case Field(_) => ""
    case Item(_) => "[]"
    case Indexed(_, i) => "[" + NatToString(i) + "]"
  }

  lemma KeyTextSplit(k: WireKey)
    ensures KeyText(k) == k.name + Suffix(k)
    ensures k.Field? <==> Suffix(k) == []
    ensures Suffix(k) != [] ==> Suffix(k)[0] == '['
  {
  }

  /** Two plain names followed by suffixes that are empty or start with '[' are equal only if names and suffixes are. */
  lemma PlainPrefix(a: string, x: string, b: string, y: string)
    requires IsPlainKey(a) && IsPlainKey(b)
    requires x == [] || x[0] == '['
    requires y == [] || y[0] == '['
    requires a + x == b + y
    ensures a == b && x == y
  {
    var t := a + x;
    if |a| < |b| {
      NoBracketAt(b, a + x, |a|);
      assert false;
    } else if |b| < |a| {
      NoBracketAt(a, b + y, |b|);
      assert false;
    } else {
      assert a == t[..|a|] && b == t[..|b|];
      assert x == t[|a|..] && y == t[|b|..];
    }
  }

  /** A plain name that is a proper prefix of t cannot be where t has its first bracket. */
  lemma NoBracketAt(name: string, t: string, i: nat)
    requires IsPlainKey(name) && i < |name| <= |t| && t[..|name|] == name
    ensures t[i] != '['
  {
    assert t[i] == name[i] && name[i] in name;
  }

  /**
    For plain field names, different keys never share a text: writing keys out
    loses nothing, so looking parts up by text and by key agree.
   */
  lemma KeyTextInjective(a: WireKey, b: WireKey)
    requires IsPlainKey(a.name) && IsPlainKey(b.name)
    requires KeyText(a) == KeyText(b)
    ensures a == b
  {
    KeyTextSplit(a);
    KeyTextSplit(b);
    PlainPrefix(a.name, Suffix(a), b.name, Suffix(b));
    if a.Indexed? && b.Indexed? {
      var s, t := NatToString(a.index), NatToString(b.index);
      assert s == Suffix(a)[1..|Suffix(a)| - 1];
      assert t == Suffix(b)[1..|Suffix(b)| - 1];
      DecimalRoundTrip(a.index);
      DecimalRoundTrip(b.index);
    }
  }
}
