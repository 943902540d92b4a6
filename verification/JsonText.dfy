/** The C library's number formats as the decoder and the printers use them: decimal and hex
    digits, and the prefix parsers strtoll and strtoul. */
module JsonText {
  import opened Options
  import opened JsonScanner

  // ---- Printing ----

  function DigitChar(d: nat): char
    requires d < 16
  {
    "0123456789abcdef"[d]
  }

  function Decimal(n: nat): (t: string)
    ensures t != []
  {
    if n < 10 then [DigitChar(n)] else Decimal(n / 10) + [DigitChar(n % 10)]
  }

  function Signed(v: int): (t: string)
    ensures t != []
  {
    if v < 0 then "-" + Decimal(-v) else Decimal(v)
  }

  function Pow16(n: nat): (p: nat)
    ensures p > 0
  {
    if n == 0 then 1 else 16 * Pow16(n - 1)
  }

  /** The n low hex digits of v. */
  function HexText(v: nat, n: nat): (t: string)
    ensures |t| == n
  {
    if n == 0 then [] else HexText(v / 16, n - 1) + [DigitChar(v % 16)]
  }

  // ---- Parsing ----

  /** The value of a digit in bases up to 16. */
  function DigitValue(c: char): Option<nat> {
    if '0' <= c <= '9' then Some(c as int - '0' as int)
    else if 'a' <= c <= 'f' then Some(c as int - 'a' as int + 10)
    else if 'A' <= c <= 'F' then Some(c as int - 'A' as int + 10)
    else None
  }

  predicate InBase(c: char, base: nat) {
    DigitValue(c).Some? && DigitValue(c).value < base
  }

  function DigitsEnd(s: string, i: nat, base: nat): (e: nat)
    ensures i <= e && (i <= |s| ==> e <= |s|)
    ensures i <= |s| ==> forall k :: i <= k < e ==> InBase(s[k], base)
    ensures e < |s| ==> !InBase(s[e], base)
    decreases |s| - i
  {
    if i < |s| && InBase(s[i], base) then DigitsEnd(s, i + 1, base) else i
  }

  /** The value of a digit string with one more digit behind it. */
  function Shifted(v: nat, base: nat, digit: nat): nat {
    v * base + digit
  }

  function DigitsValue(t: string, base: nat): nat
    requires forall k :: 0 <= k < |t| ==> InBase(t[k], base)
  {
    if t == [] then 0 else
    assert InBase(t[|t| - 1], base);
    Shifted(DigitsValue(t[..|t| - 1], base), base, DigitValue(t[|t| - 1]).value)
  }

  /** What a prefix parser made of a text: the value if there was one in range, and where it
      stopped. */
  datatype Parsed = Parsed(value: Option<int>, end: nat)

  const I64_MIN := -0x8000_0000_0000_0000
  const I64_MAX := 0x7FFF_FFFF_FFFF_FFFF

  predicate Signs(c: char) {
    c == '-' || c == '+'
  }

  /** strtoll in base 10. */
  function Strtoll(s: string): (p: Parsed)
    ensures p.end <= |s|
  {
    var i := SkipWs(s, 0);
    var digits := if Signs(At(s, i)) then i + 1 else i;
    var end := DigitsEnd(s, digits, 10);
    if end == digits then Parsed(None, 0)
    else
      var magnitude: int := DigitsValue(s[digits..end], 10);
      var v: int := if At(s, i) == '-' then -magnitude else magnitude;
      Parsed(if I64_MIN <= v <= I64_MAX then Some(v) else None, end)
  }

  /** strtoul in base 16, for an unsigned long that goes up to `max`. */
  function Strtoul16(s: string, max: nat): (p: Parsed)
    ensures p.end <= |s|
  {
    var i := SkipWs(s, 0);
    var j := if Signs(At(s, i)) then i + 1 else i;
    var prefixed := At(s, j) == '0' && (At(s, j + 1) == 'x' || At(s, j + 1) == 'X') && InBase(At(s, j + 2), 16);
    var digits := if prefixed then j + 2 else j;
    var end := DigitsEnd(s, digits, 16);
    if end == digits then Parsed(None, 0)
    else
      var magnitude := DigitsValue(s[digits..end], 16);
      Parsed(if magnitude > max then None
             else if At(s, i) == '-' && magnitude > 0 then Some(max + 1 - magnitude)
             else Some(magnitude), end)
  }

  // ---- Round trips ----

  lemma DigitCharValue(d: nat, base: nat)
    requires d < base <= 16
    ensures InBase(DigitChar(d), base) && DigitValue(DigitChar(d)) == Some(d)
    ensures DigitChar(d) != '-' && DigitChar(d) != '+' && DigitChar(d) != 'x' && DigitChar(d) != 'X'
  {
    assert DigitChar(d) in "0123456789abcdef";
  }

  lemma {:induction false} DecimalDigits(n: nat)
    ensures forall k :: 0 <= k < |Decimal(n)| ==> InBase(Decimal(n)[k], 10)
    ensures DigitsValue(Decimal(n), 10) == n
  {
    DigitCharValue(n % 10, 10);
    if n < 10 {
      assert Decimal(n)[..0] == [];
    } else {
      DecimalDigits(n / 10);
      assert Decimal(n)[..|Decimal(n)| - 1] == Decimal(n / 10);
    }
  }

  lemma {:induction false} HexDigits(v: nat, n: nat)
    requires v < Pow16(n)
    ensures forall k :: 0 <= k < n ==>
              InBase(HexText(v, n)[k], 16) && HexText(v, n)[k] != 'x' && HexText(v, n)[k] != 'X'
    ensures DigitsValue(HexText(v, n), 16) == v
    decreases n
  {
    if n > 0 {
      DigitCharValue(v % 16, 16);
      HexDigits(v / 16, n - 1);
      assert HexText(v, n)[..n - 1] == HexText(v / 16, n - 1);
    }
  }

  lemma {:induction false} DigitsEndAt(s: string, i: nat, e: nat, base: nat)
    requires i <= e <= |s|
    requires forall k :: i <= k < e ==> InBase(s[k], base)
    requires !InBase(At(s, e), base)
    ensures DigitsEnd(s, i, base) == e
    decreases e - i
  {
    if i < e {
      DigitsEndAt(s, i + 1, e, base);
    }
  }

  /** A printed number with anything but a digit behind it reads back as itself. */
  lemma StrtollReadsSigned(v: int, rest: string)
    requires I64_MIN <= v <= I64_MAX && !InBase(At(rest, 0), 10)
    ensures Strtoll(Signed(v) + rest) == Parsed(Some(v), |Signed(v)|)
  {
    var m: nat := if v < 0 then -v else v;
    var s, from := Signed(v) + rest, if v < 0 then 1 else 0;
    assert s[from..|Signed(v)|] == Decimal(m);
    assert At(s, |Signed(v)|) == At(rest, 0);
    NumberAhead(s, from, m);
    DecimalDigits(m);
  }

  /** A number that starts at `from`, behind a minus sign or at the very beginning. */
  lemma NumberAhead(s: string, from: nat, n: nat)
    requires from <= 1 && (from == 1 ==> At(s, 0) == '-')
    requires var end := from + |Decimal(n)|; end <= |s| && s[from..end] == Decimal(n) && !InBase(At(s, end), 10)
    ensures SkipWs(s, 0) == 0 && Signs(At(s, 0)) == (from == 1) && (At(s, 0) == '-') == (from == 1)
    ensures DigitsEnd(s, from, 10) == from + |Decimal(n)|
  {
    DecimalAt(s, from, n);
    DigitsEndAt(s, from, from + |Decimal(n)|, 10);
  }

  lemma DecimalAt(s: string, from: nat, n: nat)
    requires from + |Decimal(n)| <= |s| && s[from..from + |Decimal(n)|] == Decimal(n)
    ensures forall k :: from <= k < from + |Decimal(n)| ==> InBase(s[k], 10)
    ensures InBase(s[from], 10) && !IsSpace(s[from]) && !Signs(s[from])
  {
    DecimalDigits(n);
    forall k | from <= k < from + |Decimal(n)| ensures InBase(s[k], 10) {
      assert s[k] == Decimal(n)[k - from];
    }
  }

  /** Eight hex digits read back as the number they were made from. */
  lemma StrtoulReadsHex(v: nat, max: nat)
    requires v < Pow16(8) && v <= max
    ensures Strtoul16(HexText(v, 8), max) == Parsed(Some(v), 8)
  {
    var s := HexText(v, 8);
    HexDigits(v, 8);
    assert !InBase(NUL, 16);
    DigitsEndAt(s, 0, 8, 16);
    assert InBase(s[0], 16) && InBase(s[1], 16) && s[1] != 'x';
    assert !IsSpace(s[0]) && !Signs(s[0]);
    assert s[0..8] == s;
  }
}
