/**
 * The JavaScript string built-ins the application relies on:
 * `parseInt`, `Number.prototype.toString`, `String.prototype.padStart`,
 * `toLowerCase` and `includes`, over strings as sequences of characters.
 */
module JsText {
  import opened Wrappers

  predicate IsDigit(c: char) { '0' <= c <= '9' }

  function DigitValue(c: char): (d: nat)
    requires IsDigit(c)
    ensures d < 10
  {
    (c as int) - ('0' as int)
  }

  function DigitChar(d: nat): (c: char)
    requires d < 10
    ensures IsDigit(c) && DigitValue(c) == d
  {
    (('0' as int) + d) as char
  }

  predicate AllDigits(s: string) { forall i :: 0 <= i < |s| ==> IsDigit(s[i]) }

  /** The value of a decimal numeral, most significant digit first. */
  function DigitsValue(s: string): nat
    requires AllDigits(s)
  {
    if s == [] then 0 else DigitsValue(s[..|s| - 1]) * 10 + DigitValue(s[|s| - 1])
  }

  /** `String(n)` for a non-negative integer: shortest decimal numeral. */
  function NatToString(n: nat): (s: string)
    ensures 1 <= |s| && AllDigits(s)
    ensures DigitsValue(s) == n
    ensures s[0] == '0' <==> n == 0
    ensures n < 10 <==> |s| == 1
  {
    if n < 10 then [DigitChar(n)]
    else
      var p := NatToString(n / 10);
      var s := p + [DigitChar(n % 10)];
      assert s[..|s| - 1] == p;
      s
  }

  /** `s.padStart(width, fill)`. */
  function PadStart(s: string, width: nat, fill: char): (r: string)
    ensures |r| == if |s| >= width then |s| else width
    ensures r[|r| - |s|..] == s
    ensures forall i :: 0 <= i < |r| - |s| ==> r[i] == fill
    decreases width - |s|
  {
    if |s| >= width then s else PadStart([fill] + s, width, fill)
  }

  /** Leading zeros do not change the value of a numeral. */
  lemma {:induction false} LeadingZeroValue(s: string)
    requires AllDigits(s)
    ensures AllDigits("0" + s) && DigitsValue("0" + s) == DigitsValue(s)
  {
    var z := "0" + s;
    assert AllDigits(z) by {
      forall i | 0 <= i < |z| ensures IsDigit(z[i]) {
        if i > 0 { assert z[i] == s[i - 1]; }
      }
    }
    if s != [] {
      var p := s[..|s| - 1];
      assert z[..|z| - 1] == "0" + p;
      LeadingZeroValue(p);
    }
  }

  lemma {:induction false} ZeroPaddedValue(s: string, width: nat)
    requires AllDigits(s)
    ensures AllDigits(PadStart(s, width, '0'))
    ensures DigitsValue(PadStart(s, width, '0')) == DigitsValue(s)
    decreases width - |s|
  {
    if |s| < width {
      LeadingZeroValue(s);
      ZeroPaddedValue("0" + s, width);
    }
  }

  // ---- parseInt ----

  /** WhiteSpace and LineTerminator code points that `parseInt` skips first. */
  predicate IsJsWhitespace(c: char)
  {
    var n := c as int;
    n == 0x09 || n == 0x0A || n == 0x0B || n == 0x0C || n == 0x0D || n == 0x20 ||
    n == 0xA0 || n == 0x1680 || (0x2000 <= n <= 0x200A) || n == 0x2028 || n == 0x2029 ||
    n == 0x202F || n == 0x205F || n == 0x3000 || n == 0xFEFF
  }

  function TrimStart(s: string): (r: string)
    ensures |r| <= |s| && r == s[|s| - |r|..]
    ensures r == [] || !IsJsWhitespace(r[0])
    ensures forall i :: 0 <= i < |s| - |r| ==> IsJsWhitespace(s[i])
  {
    if s != [] && IsJsWhitespace(s[0]) then TrimStart(s[1..]) else s
  }

  /** The longest prefix made of decimal digits. */
  function DigitPrefix(s: string): (r: string)
    ensures |r| <= |s| && r == s[..|r|] && AllDigits(r)
    ensures |r| == |s| || !IsDigit(s[|r|])
  {
    if s != [] && IsDigit(s[0]) then
      var t := DigitPrefix(s[1..]);
      assert [s[0]] + t == s[..|t| + 1];
      [s[0]] + t
    else []
  }

  predicate IsHexDigit(c: char) { IsDigit(c) || 'a' <= c <= 'f' || 'A' <= c <= 'F' }

  function HexDigitValue(c: char): (d: nat)
    requires IsHexDigit(c)
    ensures d < 16
  {
    if IsDigit(c) then DigitValue(c)
    else if 'a' <= c <= 'f' then (c as int) - ('a' as int) + 10
    else (c as int) - ('A' as int) + 10
  }

  predicate AllHexDigits(s: string) { forall i :: 0 <= i < |s| ==> IsHexDigit(s[i]) }

  function HexValue(s: string): nat
    requires AllHexDigits(s)
  {
    if s == [] then 0 else HexValue(s[..|s| - 1]) * 16 + HexDigitValue(s[|s| - 1])
  }

  /** The longest prefix made of hexadecimal digits. */
  function HexPrefix(s: string): (r: string)
    ensures |r| <= |s| && r == s[..|r|] && AllHexDigits(r)
    ensures |r| == |s| || !IsHexDigit(s[|r|])
  {
    if s != [] && IsHexDigit(s[0]) then
      var t := HexPrefix(s[1..]);
      assert [s[0]] + t == s[..|t| + 1];
      [s[0]] + t
    else []
  }

  predicate HasHexPrefix(u: string) { |u| >= 2 && u[0] == '0' && (u[1] == 'x' || u[1] == 'X') }

  predicate NoDigits(s: string) { forall i :: 0 <= i < |s| ==> !IsDigit(s[i]) }

  /** An unsigned numeral: `0x`/`0X` and hexadecimal digits, or decimal digits. */
  function ParseUnsigned(u: string): (r: Option<nat>)
    ensures NoDigits(u) ==> r == None
  {
    if HasHexPrefix(u) then
      var ds := HexPrefix(u[2..]);
      if ds == [] then None else Some(HexValue(ds))
    else
      var ds := DigitPrefix(u);
      if ds == [] then None else Some(DigitsValue(ds))
  }

  /** An optional sign followed by an unsigned numeral. */
  function ParseSigned(t: string): (r: Option<int>)
    ensures NoDigits(t) ==> r == None
  {
    if t != [] && (t[0] == '-' || t[0] == '+') then
      match ParseUnsigned(t[1..])
      case None => None
      case Some(v) =>
        var n: int := v;
        Some(if t[0] == '-' then -n else n)
    else
      match ParseUnsigned(t)
      case None => None
      case Some(v) => Some(v)
  }

  /**
   * `parseInt(s)` with no radix: skip leading white space, read an optional
   * sign, then a `0x`/`0X` prefixed hexadecimal numeral or a decimal numeral,
   * stopping at the first character that is not a digit. `NaN` is `None`;
   * `-0` is `0`, which is what `===` sees.
   */
  function ParseInt(s: string): (r: Option<int>)
    ensures NoDigits(s) ==> r == None
  {
    ParseSigned(TrimStart(s))
  }

  /**
   * Reading stops at the end of the numeral: a decimal numeral followed by
   * anything that neither continues it nor turns it into a hex prefix parses
   * to its value (`"12"`, `"12abc"`, `"1.5"`).
   */
  lemma ParseIntOfNumeral(n: nat, tail: string)
    requires tail == [] || (!IsDigit(tail[0]) && tail[0] != 'x' && tail[0] != 'X')
    ensures ParseInt(NatToString(n) + tail) == Some(n)
  {
    var ds := NatToString(n);
    var s := ds + tail;
    assert s[0] == ds[0];
    assert s[0] == '0' && |s| >= 2 ==> s[1] == tail[0];
    DecimalNumeralStart(s);
    DigitPrefixOfNumeral(ds, tail);
  }

  /** Leading white space is skipped: it never changes what `parseInt` reads. */
  lemma ParseIntSkipsWhitespace(c: char, s: string)
    requires IsJsWhitespace(c)
    ensures ParseInt([c] + s) == ParseInt(s)
  {
    assert ([c] + s)[1..] == s;
  }

  /** A minus sign before a numeral negates it: `parseInt("-12")` is -12. */
  lemma ParseIntNegated(n: nat, tail: string)
    requires tail == [] || (!IsDigit(tail[0]) && tail[0] != 'x' && tail[0] != 'X')
    ensures ParseInt("-" + NatToString(n) + tail) == Some(-(n as int))
  {
    var u := NatToString(n) + tail;
    NumeralReadsUnsigned(n, tail);
    assert "-" + NatToString(n) + tail == "-" + u;
    MinusNegates(u, n);
  }

  lemma NumeralReadsUnsigned(n: nat, tail: string)
    requires tail == [] || (!IsDigit(tail[0]) && tail[0] != 'x' && tail[0] != 'X')
    ensures ParseUnsigned(NatToString(n) + tail) == Some(n)
  {
    var u := NatToString(n) + tail;
    ParseIntOfNumeral(n, tail);
    assert u[0] == NatToString(n)[0];
    assert u[0] == '0' && |u| >= 2 ==> u[1] == tail[0];
    DecimalNumeralStart(u);
  }

  lemma MinusNegates(u: string, n: nat)
    requires ParseUnsigned(u) == Some(n)
    ensures ParseInt("-" + u) == Some(-(n as int))
  {
    var s := "-" + u;
    assert s[0] == '-' && s[1..] == u;
    assert TrimStart(s) == s;
  }

  /** A numeral that starts with a digit is neither trimmed, nor signed, nor hexadecimal. */
  lemma DecimalNumeralStart(s: string)
    requires s != [] && IsDigit(s[0])
    requires s[0] == '0' && |s| >= 2 ==> s[1] != 'x' && s[1] != 'X'
    ensures ParseInt(s) == ParseUnsigned(s) && !HasHexPrefix(s)
  {
    DigitIsNotWhitespace(s[0]);
    assert TrimStart(s) == s;
  }

  lemma DigitIsNotWhitespace(c: char)
    requires IsDigit(c)
    ensures !IsJsWhitespace(c) && c != '-' && c != '+'
  {
  }

  lemma {:induction false} DigitPrefixOfNumeral(ds: string, tail: string)
    requires AllDigits(ds)
    requires tail == [] || !IsDigit(tail[0])
    ensures DigitPrefix(ds + tail) == ds
  {
    if ds != [] {
      assert (ds + tail)[1..] == ds[1..] + tail;
      DigitPrefixOfNumeral(ds[1..], tail);
      assert [ds[0]] + ds[1..] == ds;
    } else {
      assert ds + tail == tail;
    }
  }

  // ---- toLowerCase / includes ----

  /** `toLowerCase` on one character; only the ASCII letters are mapped. */
  function LowerChar(c: char): (r: char)
    ensures 'A' <= c <= 'Z' ==> 'a' <= r <= 'z' && r as int - c as int == 32
    ensures !('A' <= c <= 'Z') ==> r == c
  {
    if 'A' <= c <= 'Z' then ((c as int) + 32) as char else c
  }

  function UpperChar(c: char): (r: char)
    ensures 'a' <= c <= 'z' ==> 'A' <= r <= 'Z' && c as int - r as int == 32
    ensures !('a' <= c <= 'z') ==> r == c
  {
    if 'a' <= c <= 'z' then ((c as int) - 32) as char else c
  }

  function ToLower(s: string): (r: string)
    ensures |r| == |s|
    ensures forall i :: 0 <= i < |s| ==> r[i] == LowerChar(s[i])
  {
    if s == [] then [] else [LowerChar(s[0])] + ToLower(s[1..])
  }

  function ToUpper(s: string): (r: string)
    ensures |r| == |s|
    ensures forall i :: 0 <= i < |s| ==> r[i] == UpperChar(s[i])
  {
    if s == [] then [] else [UpperChar(s[0])] + ToUpper(s[1..])
  }

  /** Lower-casing an upper-cased or a lower-cased string lower-cases the original. */
  lemma LowerIgnoresCase(s: string)
    ensures ToLower(ToUpper(s)) == ToLower(s)
    ensures ToLower(ToLower(s)) == ToLower(s)
  {
    assert forall i :: 0 <= i < |s| ==> LowerChar(UpperChar(s[i])) == LowerChar(s[i]);
  }

  /** `t` occurs in `s` at some position. */
  ghost predicate Occurs(t: string, s: string)
  {
    exists i :: OccursAt(t, s, i)
  }

  predicate OccursAt(t: string, s: string, i: int)
  {
    0 <= i <= |s| - |t| && s[i..i + |t|] == t
  }

  /** `s.includes(t)`, scanning from the left. */
  function Includes(s: string, t: string): (b: bool)
    ensures b <==> Occurs(t, s)
    decreases |s|
  {
    if |t| > |s| then false
    else if s[..|t|] == t then assert OccursAt(t, s, 0); true
    else
      var b := Includes(s[1..], t);
      assert b ==> Occurs(t, s) by {
        if b {
          var i :| OccursAt(t, s[1..], i);
          assert s[i + 1..i + 1 + |t|] == t;
          assert OccursAt(t, s, i + 1);
        }
      }
      assert Occurs(t, s) ==> b by {
        if Occurs(t, s) {
          var i :| OccursAt(t, s, i);
          assert i != 0;
          assert s[1..][i - 1..i - 1 + |t|] == t;
          assert OccursAt(t, s[1..], i - 1);
        }
      }
      b
  }

  // ---- object literal lookup ----

  /**
   * `table[key] || fallback` on an object literal whose values are non-empty
   * strings, the object written as its list of properties.
   */
  function LookupOr(table: seq<(string, string)>, key: string, fallback: string): string
  {
    if table == [] then fallback
    else if table[0].0 == key then table[0].1
    else LookupOr(table[1..], key, fallback)
  }

  /** The lookup finds the first property named `key`, and the fallback when there is none. */
  lemma {:induction false} LookupOrFinds(table: seq<(string, string)>, key: string, fallback: string)
    ensures (forall i :: 0 <= i < |table| ==> table[i].0 != key) ==> LookupOr(table, key, fallback) == fallback
    ensures forall i :: (0 <= i < |table| && table[i].0 == key &&
              (forall j :: 0 <= j < i ==> table[j].0 != key)) ==> LookupOr(table, key, fallback) == table[i].1
  {
    if table != [] {
      LookupOrFinds(table[1..], key, fallback);
      forall i | 0 <= i < |table| && table[i].0 == key && (forall j :: 0 <= j < i ==> table[j].0 != key)
        ensures LookupOr(table, key, fallback) == table[i].1
      {
        if i > 0 {
          assert table[1..][i - 1] == table[i];
          forall j | 0 <= j < i - 1 ensures table[1..][j].0 != key {
            assert table[1..][j] == table[j + 1];
          }
        }
      }
      if forall i :: 0 <= i < |table| ==> table[i].0 != key {
        forall i | 0 <= i < |table| - 1 ensures table[1..][i].0 != key {
          assert table[1..][i] == table[i + 1];
        }
      }
    }
  }
}
