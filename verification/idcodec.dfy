/**
 * Element identifiers: a token id padded to at least two digits
 * (`strWithZero`), behind a two-letter prefix naming the element kind.
 */
module IdCodec {
  import opened Decimal
  import LexOrder

  const WordFormPrefix := "nf"
  const PosPrefix := "np"
  const GroupPrefix := "ns"
  const DepEdgePrefix := "ed"
  const PosEdgePrefix := "ep"

  /** `strWithZero`: the decimal text of `n`, with a `0` in front when it has one digit. */
  function StrWithZero(n: nat): (s: string)
    ensures |s| >= 2 && AllDigits(s)
    ensures n < 100 ==> |s| == 2
    ensures |s| == if n < 10 then 2 else |Show(n)|
  {
    var d := Show(n);
    if |d| > 1 then d else "0" + d
  }

  /** Reading a padded id back as a number (`createToken`'s `+nodeId`) gives the id. */
  lemma ParseStrWithZero(n: nat)
    ensures Parse(StrWithZero(n)) == n
  {
    ParseShow(n);
    if n < 10 {
      ParseLeadingZero(Show(n));
    }
  }

  /** Padding never merges two ids. */
  lemma StrWithZeroInjective(a: nat, b: nat)
    ensures StrWithZero(a) == StrWithZero(b) <==> a == b
  {
    if StrWithZero(a) == StrWithZero(b) {
      ParseStrWithZero(a);
      ParseStrWithZero(b);
    }
  }

  /** Below 100 the padded id is the tens digit followed by the units digit. */
  lemma StrWithZeroDigits(n: nat)
    requires n < 100
    ensures StrWithZero(n) == [DigitChar(n / 10), DigitChar(n % 10)]
  {
    if n >= 10 {
      assert Show(n) == Show(n / 10) + [DigitChar(n % 10)];
    }
  }

  /** For ids below 100, string order of the padded ids is numeric order. */
  lemma {:induction false} StrWithZeroOrder(a: nat, b: nat)
    requires a < 100 && b < 100
    ensures a < b <==> LexOrder.Less(StrWithZero(a), StrWithZero(b))
  {
    StrWithZeroDigits(a);
    StrWithZeroDigits(b);
    LexOrder.LessTwo(StrWithZero(a), StrWithZero(b));
  }

  /** The element id with the given two-letter prefix for token `n`. */
  function ElementId(prefix: string, n: nat): string
    requires |prefix| == 2
  {
    prefix + StrWithZero(n)
  }

  /** `id.slice(2)`: the id without its two-letter prefix (empty for a shorter id). */
  function Suffix(id: string): (s: string)
    ensures |id| >= 2 ==> id == id[..2] + s
    ensures |id| < 2 ==> s == ""
  {
    if |id| >= 2 then id[2..] else ""
  }

  function PrefixOf(id: string): string
    requires |id| >= 2
  {
    id[..2]
  }

  /** The number after the prefix, as `+id.slice(2)` reads it. */
  function NumberOf(id: string): nat
    requires AllDigits(Suffix(id))
  {
    Parse(Suffix(id))
  }

  /** An element id decodes back to its prefix and token number. */
  lemma DecodeElementId(prefix: string, n: nat)
    requires |prefix| == 2
    ensures |ElementId(prefix, n)| >= 2 && AllDigits(Suffix(ElementId(prefix, n)))
    ensures PrefixOf(ElementId(prefix, n)) == prefix
    ensures NumberOf(ElementId(prefix, n)) == n
  {
    var id := ElementId(prefix, n);
    assert id[2..] == StrWithZero(n);
    ParseStrWithZero(n);
  }

  /** Two element ids coincide exactly when prefix and number both coincide. */
  lemma ElementIdInjective(p: string, a: nat, q: string, b: nat)
    requires |p| == 2 && |q| == 2
    ensures ElementId(p, a) == ElementId(q, b) <==> p == q && a == b
  {
    SplitElementId(p, a);
    SplitElementId(q, b);
    StrWithZeroInjective(a, b);
  }

  /** An element id splits into its prefix and the padded number. */
  lemma SplitElementId(prefix: string, n: nat)
    requires |prefix| == 2
    ensures |ElementId(prefix, n)| >= 2
    ensures ElementId(prefix, n)[..2] == prefix && ElementId(prefix, n)[2..] == StrWithZero(n)
  {
  }

  /** The padded forms of a set of numbers. */
  function PadSet(ns: set<nat>): set<string> {
    set n | n in ns :: StrWithZero(n)
  }

  lemma PadSetMember(n: nat, ns: set<nat>)
    ensures StrWithZero(n) in PadSet(ns) <==> n in ns
  {
    if StrWithZero(n) in PadSet(ns) {
      var m :| m in ns && StrWithZero(m) == StrWithZero(n);
      StrWithZeroInjective(m, n);
    }
  }

  /** Disjoint sets of numbers pad to disjoint sets of strings. */
  lemma PadSetDisjoint(a: set<nat>, b: set<nat>)
    requires a !! b
    ensures PadSet(a) !! PadSet(b)
  {
    forall s | s in PadSet(a) ensures s !in PadSet(b) {
      var n :| n in a && StrWithZero(n) == s;
      PadSetMember(n, b);
    }
  }
}
