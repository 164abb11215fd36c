/**
 Rust's formatting of unsigned integers as text: `{}` writes the shortest
 decimal numeral, `{:02}` pads it with zeros to a width of two. Both are
 given together with the value a digit string denotes, so that every
 formatted number can be read back.
 */
module Decimal {

  import opened Options

  predicate IsDigit(c: char) {
    '0' <= c <= '9'
  }

  predicate AllDigits(s: string) {
    forall i :: 0 <= i < |s| ==> IsDigit(s[i])
  }

  /** A numeral as `{}` writes it: at least one digit, and no leading zero unless it is "0". */
  predicate Canonical(s: string) {
    && |s| >= 1
    && AllDigits(s)
    && (|s| > 1 ==> s[0] != '0')
  }

  function DigitChar(d: nat): (c: char)
    requires d < 10
    ensures IsDigit(c)
    ensures c as int - '0' as int == d
  {
    ('0' as int + d) as char
  }

  function DigitValue(c: char): (d: nat)
    requires IsDigit(c)
    ensures d < 10
    ensures DigitChar(d) == c
  {
    c as int - '0' as int
  }

  /** Rust's `{}` formatting of an unsigned integer: its shortest decimal numeral. */
  function Show(n: nat): (s: string)
    ensures Canonical(s)
    ensures n < 10 <==> |s| == 1
    decreases n
  {
    if n < 10 then [DigitChar(n)] else Show(n / 10) + [DigitChar(n % 10)]
  }

  /** Rust's `{:02}` formatting: the numeral zero-padded to at least two characters. */
  function ShowPad2(n: nat): (s: string)
    ensures AllDigits(s)
    ensures n < 100 <==> |s| == 2
    ensures |s| >= 2
  {
    if n < 10 then "0" + Show(n) else Show(n)
  }

  /** The number a string of decimal digits denotes (leading zeros allowed). */
  function ValueOf(s: string): nat
    requires AllDigits(s)
    decreases |s|
  {
    if |s| == 0 then 0 else 10 * ValueOf(s[..|s| - 1]) + DigitValue(s[|s| - 1])
  }

  /** Reads a nonempty digit string back as a number; anything else is rejected. */
  function Parse(s: string): (r: Option<nat>)
    ensures r.Some? <==> |s| >= 1 && AllDigits(s)
  {
    if |s| >= 1 && AllDigits(s) then Some(ValueOf(s)) else None
  }

  lemma {:induction false} ValueOfShow(n: nat)
    ensures ValueOf(Show(n)) == n
    decreases n
  {
    if n >= 10 {
      var s := Show(n);
      assert s[..|s| - 1] == Show(n / 10);
      ValueOfShow(n / 10);
    }
  }

  /** Reading a formatted number back gives the number. */
  lemma ParseShow(n: nat)
    ensures Parse(Show(n)) == Some(n)
  {
    ValueOfShow(n);
  }

  /** A numeral with a nonzero leading digit denotes a nonzero value. */
  lemma {:induction false} ValueOfLeadingNonzero(s: string)
    requires |s| >= 1 && AllDigits(s) && s[0] != '0'
    ensures ValueOf(s) >= 1
    decreases |s|
  {
    if |s| > 1 {
      ValueOfLeadingNonzero(s[..|s| - 1]);
    }
  }

  lemma DivMod10(x: nat, d: nat)
    requires d < 10
    ensures (10 * x + d) / 10 == x
    ensures (10 * x + d) % 10 == d
  {
  }

  /** Every canonical numeral is the formatting of the number it denotes. */
  lemma {:induction false} ShowValueOf(s: string)
    requires Canonical(s)
    ensures Show(ValueOf(s)) == s
    decreases |s|
  {
    var c := s[|s| - 1];
    if |s| == 1 {
      assert ValueOf(s) == DigitValue(c);
      assert s == [c];
    } else {
      var p := s[..|s| - 1];
      assert p[0] == s[0];
      ValueOfLeadingNonzero(p);
      ShowValueOf(p);
      var v := ValueOf(s);
      assert v == 10 * ValueOf(p) + DigitValue(c);
      DivMod10(ValueOf(p), DigitValue(c));
      assert Show(v) == Show(ValueOf(p)) + [DigitChar(DigitValue(c))];
      assert s == p + [c];
    }
  }

  lemma {:induction false} ValueOfZeroPrefix(s: string)
    requires AllDigits(s)
    ensures AllDigits("0" + s)
    ensures ValueOf("0" + s) == ValueOf(s)
    decreases |s|
  {
    var t := "0" + s;
    if |s| > 0 {
      assert t[..|t| - 1] == "0" + s[..|s| - 1];
      ValueOfZeroPrefix(s[..|s| - 1]);
    }
  }

  /** Zero padding does not change the value written. */
  lemma ValueOfShowPad2(n: nat)
    ensures ValueOf(ShowPad2(n)) == n
  {
    ValueOfShow(n);
    if n < 10 {
      ValueOfZeroPrefix(Show(n));
    }
  }

  lemma ShowInjective(m: nat, n: nat)
    requires Show(m) == Show(n)
    ensures m == n
  {
    ValueOfShow(m);
    ValueOfShow(n);
  }

  lemma ShowPad2Injective(m: nat, n: nat)
    requires ShowPad2(m) == ShowPad2(n)
    ensures m == n
  {
    ValueOfShowPad2(m);
    ValueOfShowPad2(n);
  }
}
