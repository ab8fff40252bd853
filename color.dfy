/** The random colour generator: `generateRandomColor` scales a random
    number in [0, 1) to an integer below 16777215 and writes it as `#RRGGBB`
    in upper-case hexadecimal. The random number is a parameter. */
module ColorGenerator {
  import opened JsText
  import opened JsNumber

  /** The scale factor of the source, 0xFFFFFF. */
  const Scale: nat := 16777215

  /** `Math.floor(random * 16777215)` for `random` as `Math.random` returns
      it. */
  function ColorIndex(random: real): (n: nat)
    requires 0.0 <= random < 1.0
    ensures n <= 16777214
  {
    (random * Scale as real).Floor
  }

  /** `'#' + n.toString(16).padStart(6, '0').toUpperCase()`. */
  function HexColor(n: nat): string {
    "#" + ToUpperCase(PadStart(ToRadixString(n, 16), 6, '0'))
  }

  /** `generateRandomColor`. */
  function GenerateRandomColor(random: real): string
    requires 0.0 <= random < 1.0
  {
    HexColor(ColorIndex(random))
  }

  predicate IsUpperHexDigit(c: char) {
    '0' <= c <= '9' || 'A' <= c <= 'F'
  }

  /** Upper-casing a string of lower-case hexadecimal digits yields
      upper-case hexadecimal digits of the same values, one for one. */
  lemma {:induction false} UpperHexDigits(s: string)
    requires forall i :: 0 <= i < |s| ==> IsLowerDigit(s[i]) && DigitValue(s[i]) < 16
    ensures |ToUpperCase(s)| == |s|
    ensures forall i :: 0 <= i < |s| ==>
      IsUpperHexDigit(ToUpperCase(s)[i]) && DigitValue(ToUpperCase(s)[i]) == DigitValue(s[i])
  {
    if s != [] {
      UpperHexDigits(s[1..]);
      var c := UpperChar(s[0]);
      assert |c| == 1 && IsUpperHexDigit(c[0]) && DigitValue(c[0]) == DigitValue(s[0]);
      var r := ToUpperCase(s);
      assert r == c + ToUpperCase(s[1..]);
      forall i | 1 <= i < |s|
        ensures IsUpperHexDigit(r[i]) && DigitValue(r[i]) == DigitValue(s[i])
      {
        assert r[i] == ToUpperCase(s[1..])[i - 1] && s[i] == s[1..][i - 1];
      }
    }
  }

  /** Strings whose digits have the same values denote the same number. */
  lemma {:induction false} SameDigitValues(a: string, b: string, radix: nat)
    requires |a| == |b| && forall i :: 0 <= i < |a| ==> DigitValue(a[i]) == DigitValue(b[i])
    ensures DigitsValue(a, radix) == DigitsValue(b, radix)
    decreases |a|
  {
    if a != [] {
      SameDigitValues(a[..|a| - 1], b[..|b| - 1], radix);
    }
  }

  /** The six hex digits before upper-casing. */
  function LowerHex(n: nat): string {
    PadStart(ToRadixString(n, 16), 6, '0')
  }

  lemma LowerHexSpec(n: nat)
    requires n < Pow(16, 6)
    ensures |LowerHex(n)| == 6
    ensures forall i :: 0 <= i < 6 ==> IsLowerDigit(LowerHex(n)[i]) && DigitValue(LowerHex(n)[i]) < 16
    ensures DigitsValue(LowerHex(n), 16) == n
  {
    ToRadixStringLength(n, 16, 6);
    ToRadixStringRoundTrip(n, 16);
    PaddedDigits(ToRadixString(n, 16), 6, 16);
  }

  lemma SixHexDigits()
    ensures Pow(16, 6) == Scale + 1
  {
  }

  /** Every colour is `#` followed by six upper-case hexadecimal digits. */
  lemma HexColorShape(n: nat)
    requires n <= 16777214
    ensures |HexColor(n)| == 7 && HexColor(n)[0] == '#'
    ensures forall i :: 1 <= i < 7 ==> IsUpperHexDigit(HexColor(n)[i])
  {
    SixHexDigits();
    LowerHexSpec(n);
    UpperHexDigits(LowerHex(n));
    Hashed(ToUpperCase(LowerHex(n)));
  }

  lemma Hashed(u: string)
    requires |u| == 6 && forall i :: 0 <= i < 6 ==> IsUpperHexDigit(u[i])
    ensures |"#" + u| == 7 && ("#" + u)[0] == '#'
    ensures forall i :: 1 <= i < 7 ==> IsUpperHexDigit(("#" + u)[i])
  {
    var c := "#" + u;
    forall i | 1 <= i < 7 ensures IsUpperHexDigit(c[i]) {
      assert c[i] == u[i - 1];
    }
  }

  /** Reading the six digits as hexadecimal gives back the integer. */
  lemma HexColorRoundTrip(n: nat)
    requires n <= 16777214
    ensures DigitsValue(HexColor(n)[1..], 16) == n
  {
    SixHexDigits();
    LowerHexSpec(n);
    var p := LowerHex(n);
    UpperHexDigits(p);
    assert HexColor(n)[1..] == ToUpperCase(p);
    SameDigitValues(ToUpperCase(p), p, 16);
  }

  /** '#FFFFFF' is never produced, because the scaled value stays below
      16777215. */
  lemma NeverWhite(random: real)
    requires 0.0 <= random < 1.0
    ensures GenerateRandomColor(random) != "#FFFFFF"
    ensures |GenerateRandomColor(random)| == 7
  {
    var n := ColorIndex(random);
    HexColorRoundTrip(n);
    HexColorShape(n);
    var white := "#FFFFFF";
    assert white[1..] == Repeat('F', 6);
    AllF(6);
  }

  /** `k` digits F denote 16 to the power `k`, less one. */
  lemma {:induction false} AllF(k: nat)
    ensures DigitsValue(Repeat('F', k), 16) + 1 == Pow(16, k)
  {
    if k > 0 {
      var t := Repeat('F', k);
      assert t[..k - 1] == Repeat('F', k - 1);
      AllF(k - 1);
    }
  }
}
