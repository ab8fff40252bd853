/** `Number.prototype.toString(radix)` and `String(n)` on non-negative
    integers, together with the digit reading that undoes them. */
module JsNumber {
  import opened JsText

  /** The character JavaScript writes for a digit of value `d`: `0`-`9`,
      then `a`-`z`. */
  function DigitChar(d: nat): (c: char)
    requires d < 36
    ensures IsLowerDigit(c) && DigitValue(c) == d
  {
    if d < 10 then ('0' as int + d) as char else ('a' as int + d - 10) as char
  }

  /** A character `toString` may write: a decimal digit or a lower-case
      ASCII letter. */
  predicate IsLowerDigit(c: char) {
    '0' <= c <= '9' || 'a' <= c <= 'z'
  }

  /** Division facts the digit recursion needs. */
  lemma DivMod(n: nat, radix: nat)
    requires 2 <= radix && radix <= n
    ensures n / radix < n && n % radix < radix
    ensures n == n / radix * radix + n % radix
  {
  }

  /** `Math.ceil(a / b)` on non-negative integers. */
  function CeilDiv(a: nat, b: nat): (r: nat)
    requires b > 0
    ensures b * r >= a && b * (r - 1) < a
  {
    (a + b - 1) / b
  }

  /** `n.toString(radix)` for a non-negative integer `n`: most significant
      digit first, lower-case letters for the digits above nine, no leading
      zero. */
  function ToRadixString(n: nat, radix: nat): (r: string)
    requires 2 <= radix <= 36
    ensures 1 <= |r|
    ensures forall i :: 0 <= i < |r| ==> IsLowerDigit(r[i]) && DigitValue(r[i]) < radix
    ensures |r| > 1 ==> r[0] != '0'
    decreases n
  {
    if n < radix then [DigitChar(n)]
    else
      DivMod(n, radix);
      ToRadixString(n / radix, radix) + [DigitChar(n % radix)]
  }

  /** `String(n)` for a non-negative integer. */
  function Decimal(n: nat): string {
    ToRadixString(n, 10)
  }

  /** The value of one digit character, either case; 36 for a character that
      is no digit at all. */
  function DigitValue(c: char): nat {
    if '0' <= c <= '9' then c as int - '0' as int
    else if 'a' <= c <= 'z' then c as int - 'a' as int + 10
    else if 'A' <= c <= 'Z' then c as int - 'A' as int + 10
    else 36
  }

  /** The number a string of digits denotes in base `radix`. */
  function DigitsValue(s: string, radix: nat): nat {
    if s == [] then 0 else DigitsValue(s[..|s| - 1], radix) * radix + DigitValue(s[|s| - 1])
  }

  function Pow(b: nat, k: nat): nat {
    if k == 0 then 1 else b * Pow(b, k - 1)
  }

  /** Reading back what `toString(radix)` wrote gives the number again. */
  lemma {:induction false} ToRadixStringRoundTrip(n: nat, radix: nat)
    requires 2 <= radix <= 36
    ensures DigitsValue(ToRadixString(n, radix), radix) == n
    decreases n
  {
    var s := ToRadixString(n, radix);
    if n < radix {
      assert s[..|s| - 1] == [];
    } else {
      DivMod(n, radix);
      var p := ToRadixString(n / radix, radix);
      assert s == p + [DigitChar(n % radix)];
      assert s[..|s| - 1] == p;
      ToRadixStringRoundTrip(n / radix, radix);
    }
  }

  /** A number below `radix` to the power `k` takes at most `k` digits. */
  lemma {:induction false} ToRadixStringLength(n: nat, radix: nat, k: nat)
    requires 2 <= radix <= 36 && 1 <= k && n < Pow(radix, k)
    ensures |ToRadixString(n, radix)| <= k
    decreases n
  {
    if n >= radix {
      DivMod(n, radix);
      var q := n / radix;
      if k == 1 {
        assert false;
      } else {
        var p := Pow(radix, k - 1);
        assert Pow(radix, k) == radix * p;
        if q >= p {
          MulMono(q, p, radix);
        }
        ToRadixStringLength(q, radix, k - 1);
      }
    }
  }

  lemma MulMono(a: nat, b: nat, c: nat)
    requires a >= b
    ensures a * c >= b * c
  {
  }

  /** Leading zeros do not change the value. */
  lemma {:induction false} DigitsValueLeadingZeros(z: nat, s: string, radix: nat)
    ensures DigitsValue(Repeat('0', z) + s, radix) == DigitsValue(s, radix)
    decreases |s|
  {
    var t := Repeat('0', z) + s;
    if s == [] {
      assert t == Repeat('0', z);
      ZerosValue(z, radix);
    } else {
      assert t[..|t| - 1] == Repeat('0', z) + s[..|s| - 1];
      assert t[|t| - 1] == s[|s| - 1];
      DigitsValueLeadingZeros(z, s[..|s| - 1], radix);
    }
  }

  lemma {:induction false} ZerosValue(z: nat, radix: nat)
    ensures DigitsValue(Repeat('0', z), radix) == 0
  {
    if z > 0 {
      var t := Repeat('0', z);
      assert t[..z - 1] == Repeat('0', z - 1);
      ZerosValue(z - 1, radix);
    }
  }

  /** Padding digits on the left with '0' keeps them digits of the same
      radix and keeps the number they denote. */
  lemma PaddedDigits(s: string, width: nat, radix: nat)
    requires 1 <= radix <= 36
    requires forall i :: 0 <= i < |s| ==> IsLowerDigit(s[i]) && DigitValue(s[i]) < radix
    ensures forall i :: 0 <= i < |PadStart(s, width, '0')| ==>
      IsLowerDigit(PadStart(s, width, '0')[i]) && DigitValue(PadStart(s, width, '0')[i]) < radix
    ensures DigitsValue(PadStart(s, width, '0'), radix) == DigitsValue(s, radix)
  {
    var p := PadStart(s, width, '0');
    var k := |p| - |s|;
    if |s| < width {
      assert p == Repeat('0', k) + s;
      DigitsValueLeadingZeros(k, s, radix);
    }
    forall i | 0 <= i < |p| ensures IsLowerDigit(p[i]) && DigitValue(p[i]) < radix {
      if i >= k {
        assert p[i] == p[k..][i - k] == s[i - k];
      }
    }
  }
}
