/**
 * Subscript rendering of ids (`toSubscript` with the `LOW_DIGITS` table):
 * every digit, `-`, `(` and `)` becomes its Unicode subscript form and every
 * other character is kept.
 */
module Subscript {
  import opened Decimal

  /** The `LOW_DIGITS` table. */
  const LowDigits: map<char, char> := map[
    '0' := '\U{2080}', '1' := '\U{2081}', '2' := '\U{2082}', '3' := '\U{2083}',
    '4' := '\U{2084}', '5' := '\U{2085}', '6' := '\U{2086}', '7' := '\U{2087}',
    '8' := '\U{2088}', '9' := '\U{2089}', '-' := '\U{208B}', '(' := '\U{208D}',
    ')' := '\U{208E}']

  /** One character through the table, or unchanged when it is not a key. */
  function Lower(c: char): (r: char)
    ensures IsDigit(c) ==> r as int == 0x2080 + DigitValue(c)
    ensures r == c <==> !(IsDigit(c) || c == '-' || c == '(' || c == ')')
  {
    if IsDigit(c) then (c as int - '0' as int + 0x2080) as char
    else if c == '-' then '\U{208B}'
    else if c == '(' then '\U{208D}'
    else if c == ')' then '\U{208E}'
    else c
  }

  /** `Lower` is exactly a lookup in the table. */
  lemma LowerIsTable(c: char)
    ensures Lower(c) == if c in LowDigits then LowDigits[c] else c
  {
  }

  /** `toSubscript`: the string rebuilt character by character. */
  function ToSubscript(s: string): (r: string)
    ensures |r| == |s|
    ensures forall i :: 0 <= i < |s| ==> r[i] == Lower(s[i])
  {
    if |s| == 0 then [] else ToSubscript(s[..|s| - 1]) + [Lower(s[|s| - 1])]
  }

  /** Characters the table maps to. */
  predicate IsLowered(c: char) {
    '\U{2080}' <= c <= '\U{2089}' || c == '\U{208B}' || c == '\U{208D}' || c == '\U{208E}'
  }

  lemma LoweredIsNotKey(c: char)
    ensures c in LowDigits ==> IsLowered(Lower(c)) && c != Lower(c)
    ensures IsLowered(c) ==> c !in LowDigits && Lower(c) == c
  {
    LowerIsTable(c);
  }

  lemma LowerIdempotent(c: char)
    ensures Lower(Lower(c)) == Lower(c)
  {
    if IsDigit(c) {
      assert IsLowered(Lower(c));
    }
  }

  /** Every table key in a string comes out as a subscript character. */
  lemma LowerKeys(s: string)
    ensures forall i :: 0 <= i < |s| && s[i] in LowDigits ==> IsLowered(ToSubscript(s)[i])
  {
    forall i | 0 <= i < |s| && s[i] in LowDigits
      ensures IsLowered(ToSubscript(s)[i])
    {
      LoweredIsNotKey(s[i]);
    }
  }

  /** No subscript character is a key, so a second pass changes nothing. */
  lemma ToSubscriptIdempotent(s: string)
    ensures ToSubscript(ToSubscript(s)) == ToSubscript(s)
  {
    var r := ToSubscript(s);
    var t := ToSubscript(r);
    forall i | 0 <= i < |r|
      ensures t[i] == r[i]
    {
      LowerIdempotent(s[i]);
    }
  }

  /** Subscripting distributes over concatenation. */
  lemma ToSubscriptConcat(a: string, b: string)
    ensures ToSubscript(a + b) == ToSubscript(a) + ToSubscript(b)
  {
  }

  /** The inverse of one table entry; any other character is kept. */
  function Raise(c: char): char {
    if '\U{2080}' <= c <= '\U{2089}' then ('0' as int + (c as int - 0x2080)) as char
    else if c == '\U{208B}' then '-'
    else if c == '\U{208D}' then '('
    else if c == '\U{208E}' then ')'
    else c
  }

  function FromSubscript(s: string): (r: string)
    ensures |r| == |s|
    ensures forall i :: 0 <= i < |s| ==> r[i] == Raise(s[i])
  {
    if |s| == 0 then [] else FromSubscript(s[..|s| - 1]) + [Raise(s[|s| - 1])]
  }

  lemma RaiseLower(c: char)
    requires !IsLowered(c)
    ensures Raise(Lower(c)) == c
  {
    if IsDigit(c) {
      assert c in LowDigits;
      assert LowDigits[c] as int == 0x2080 + (c as int - '0' as int);
    } else if c in LowDigits {
      assert c == '-' || c == '(' || c == ')';
    }
  }

  /** Subscripting loses nothing on text that holds no subscript characters. */
  lemma SubscriptRoundTrip(s: string)
    requires forall i :: 0 <= i < |s| ==> !IsLowered(s[i])
    ensures FromSubscript(ToSubscript(s)) == s
  {
    var r := FromSubscript(ToSubscript(s));
    forall i | 0 <= i < |s|
      ensures r[i] == s[i]
    {
      RaiseLower(s[i]);
    }
  }
}
