/**
 The 64-bit device feature bitmap of crates/pandar-core/src/device_features.rs and its
 hexadecimal text. Texts are the UTF-8 octets the source measures and inspects.
*/
module DeviceFeatures {
  import opened Basics

  const MAX_DIGITS := 16
  const BITMAPS := 0x1_0000_0000_0000_0000

  type Text = seq<byte>

  /** A `u64`. */
  type Bitmap = n: nat | n < BITMAPS

  datatype ParseError = Empty | TooLong | InvalidHexadecimal

  datatype Feature = MqttHoming | MqttAxisControl

  predicate IsSpace(b: byte) {
    b == 0x20 || b == 0x09 || b == 0x0a || b == 0x0c || b == 0x0d
  }

  function TrimStart(s: Text): Text {
    if s != [] && IsSpace(s[0]) then TrimStart(s[1..]) else s
  }

  function TrimEnd(s: Text): Text {
    if s != [] && IsSpace(s[|s| - 1]) then TrimEnd(s[..|s| - 1]) else s
  }

  /** `trim_ascii`. */
  function Trim(s: Text): Text {
    TrimEnd(TrimStart(s))
  }

  predicate IsHexDigit(b: byte) {
    0x30 <= b <= 0x39 || 0x41 <= b <= 0x46 || 0x61 <= b <= 0x66
  }

  predicate IsHex(s: Text) {
    forall i | 0 <= i < |s| :: IsHexDigit(s[i])
  }

  function DigitValue(b: byte): (d: nat)
    requires IsHexDigit(b)
    ensures d < 16
  {
    if b <= 0x39 then b - 0x30 else if b <= 0x46 then b - 0x41 + 10 else b - 0x61 + 10
  }

  function Digit(d: nat): (b: byte)
    requires d < 16
    ensures IsHexDigit(b) && DigitValue(b) == d
  {
    if d < 10 then 0x30 + d else 0x41 + (d - 10)
  }

  /** The number a digit string denotes. */
  function Value(s: Text): nat
    requires IsHex(s)
  {
    if s == [] then 0 else 16 * Value(s[..|s| - 1]) + DigitValue(s[|s| - 1])
  }

  /** `from_hex`; the last branch is the overflow that `from_str_radix` would report. */
  function FromHex(text: Text): Result<Bitmap, ParseError> {
    var s := Trim(text);
    if s == [] then Err(Empty)
    else if |s| > MAX_DIGITS then Err(TooLong)
    else if !IsHex(s) then Err(InvalidHexadecimal)
    else if Value(s) < BITMAPS then Ok(Value(s))
    else Err(InvalidHexadecimal)
  }

  /** `to_hex`: upper-case digits without leading zeros. */
  function ToHex(n: nat): (s: Text)
    ensures s != [] && IsHex(s)
  {
    if n < 16 then [Digit(n)] else ToHex(n / 16) + [Digit(n % 16)]
  }

  function Power2(k: nat): (p: nat)
    ensures p > 0
  {
    if k == 0 then 1 else 2 * Power2(k - 1)
  }

  function Bit(feature: Feature): nat {
    match feature
    case MqttHoming => 32
    case MqttAxisControl => 38
  }

  /** `1 << bit`. */
  function Mask(feature: Feature): (mask: nat)
    ensures mask > 0
  {
    Power2(Bit(feature))
  }

  /** `bits & mask != 0`, the mask being a power of two. */
  predicate Contains(n: Bitmap, feature: Feature) {
    n / Mask(feature) % 2 == 1
  }

  /** The masks as the numbers they are. */
  lemma MaskValues()
    ensures Mask(MqttHoming) == 0x1_0000_0000 && Mask(MqttAxisControl) == 0x40_0000_0000
  {
    assert Power2(8) == 0x100;
    assert Power2(16) == 0x1_0000;
    assert Power2(24) == 0x100_0000;
    assert Power2(32) == 0x1_0000_0000;
  }

  lemma Word32(high: nat, low: nat)
    requires low < 0x1_0000_0000
    ensures (high * 0x1_0000_0000 + low) / 0x1_0000_0000 == high
  {
  }

  lemma Word38(high: nat, low: nat)
    requires low < 0x40_0000_0000
    ensures (high * 0x40_0000_0000 + low) / 0x40_0000_0000 == high
  {
  }

  lemma LowBit(a: nat, b: nat)
    ensures (64 * a + b) % 2 == b % 2
  {
    assert 64 * a + b == 2 * (32 * a) + b;
  }

  /** Both features of a bitmap written as bits 38 and up, bits 32 to 37, and the lower word. */
  lemma BitsOf(n: nat, a: nat, b: nat, low: nat)
    requires n == (64 * a + b) * 0x1_0000_0000 + low && b < 64 && low < 0x1_0000_0000 && n < BITMAPS
    ensures Contains(n, MqttHoming) <==> b % 2 == 1
    ensures Contains(n, MqttAxisControl) <==> a % 2 == 1
  {
    MaskValues();
    Word32(64 * a + b, low);
    LowBit(a, b);
    Word38(a, b * 0x1_0000_0000 + low);
  }

  /** Flipping a feature's bit flips that feature and no other. */
  lemma FeaturesAreIndependent(n: Bitmap, feature: Feature, other: Feature)
    requires !Contains(n, feature) && n + Mask(feature) < BITMAPS && other != feature
    ensures Contains(n + Mask(feature), feature)
    ensures Contains(n + Mask(feature), other) == Contains(n, other)
  {
    MaskValues();
    var high, low := n / 0x1_0000_0000, n % 0x1_0000_0000;
    var a, b := high / 64, high % 64;
    BitsOf(n, a, b, low);
    if feature.MqttHoming? {
      NextIsOdd(b);
      BitsOf(n + Mask(feature), a, b + 1, low);
    } else {
      NextIsOdd(a);
      BitsOf(n + Mask(feature), a + 1, b, low);
    }
  }

  lemma NextIsOdd(b: nat)
    requires b % 2 != 1
    ensures (b + 1) % 2 == 1 && b != 63
  {
  }

  // ----- Bounds -----

  function Power16(k: nat): nat {
    if k == 0 then 1 else 16 * Power16(k - 1)
  }

  lemma {:induction false} ValueBound(s: Text)
    requires IsHex(s)
    ensures Value(s) < Power16(|s|)
  {
    if s != [] {
      ValueBound(s[..|s| - 1]);
    }
  }

  lemma {:induction false} PowerGrows(j: nat, k: nat)
    requires j <= k
    ensures Power16(j) <= Power16(k)
    decreases k - j
  {
    if j < k {
      PowerGrows(j, k - 1);
    }
  }

  lemma BitmapsArePower16()
    ensures Power16(MAX_DIGITS) == BITMAPS
  {
    assert Power16(2) == 0x100;
    assert Power16(4) == 0x1_0000;
    assert Power16(6) == 0x100_0000;
    assert Power16(8) == 0x1_0000_0000;
    assert Power16(10) == 0x100_0000_0000;
    assert Power16(12) == 0x1_0000_0000_0000;
    assert Power16(14) == 0x100_0000_0000_0000;
  }

  /** Parsing accepts exactly 1 to 16 hexadecimal digits after trimming: it never overflows. */
  lemma AcceptsExactly(text: Text)
    ensures FromHex(text).Ok? <==> 1 <= |Trim(text)| <= MAX_DIGITS && IsHex(Trim(text))
    ensures FromHex(text).Ok? ==> IsHex(Trim(text)) && FromHex(text).value == Value(Trim(text))
    ensures FromHex(text) == Err(TooLong) <==> |Trim(text)| > MAX_DIGITS
  {
    var s := Trim(text);
    if 1 <= |s| <= MAX_DIGITS && IsHex(s) {
      ValueBound(s);
      PowerGrows(|s|, MAX_DIGITS);
      BitmapsArePower16();
    }
  }

  // ----- What is accepted, on the text itself -----

  /** Space, tab, line feed, form feed and carriage return. */
  ghost const WHITESPACE: set<byte> := {0x20, 0x09, 0x0a, 0x0c, 0x0d}

  /** 0 to 9, A to F and a to f. */
  ghost const HEX_DIGITS: set<byte> :=
    {0x30, 0x31, 0x32, 0x33, 0x34, 0x35, 0x36, 0x37, 0x38, 0x39,
     0x41, 0x42, 0x43, 0x44, 0x45, 0x46, 0x61, 0x62, 0x63, 0x64, 0x65, 0x66}

  ghost predicate AllIn(s: Text, bytes: set<byte>) {
    forall i | 0 <= i < |s| :: s[i] in bytes
  }

  lemma HexIsHexDigits(s: Text)
    ensures IsHex(s) <==> AllIn(s, HEX_DIGITS)
  {
    forall i | 0 <= i < |s|
      ensures IsHexDigit(s[i]) <==> s[i] in HEX_DIGITS
    {
    }
  }

  lemma {:induction false} TrimStartSplits(s: Text) returns (before: Text)
    ensures s == before + TrimStart(s) && AllIn(before, WHITESPACE)
  {
    if s != [] && IsSpace(s[0]) {
      before := TrimStartSplits(s[1..]);
      before := [s[0]] + before;
    } else {
      before := [];
    }
  }

  lemma {:induction false} TrimEndSplits(s: Text) returns (after: Text)
    ensures s == TrimEnd(s) + after && AllIn(after, WHITESPACE)
  {
    if s != [] && IsSpace(s[|s| - 1]) {
      after := TrimEndSplits(s[..|s| - 1]);
      after := after + [s[|s| - 1]];
    } else {
      after := [];
    }
  }

  lemma {:induction false} TrimStartSkips(before: Text, s: Text)
    requires AllIn(before, WHITESPACE)
    ensures TrimStart(before + s) == TrimStart(s)
  {
    if before == [] {
      assert before + s == s;
    } else {
      assert (before + s)[1..] == before[1..] + s;
      TrimStartSkips(before[1..], s);
    }
  }

  lemma {:induction false} TrimEndSkips(s: Text, after: Text)
    requires AllIn(after, WHITESPACE)
    ensures TrimEnd(s + after) == TrimEnd(s)
    decreases |after|
  {
    if after == [] {
      assert s + after == s;
    } else {
      assert (s + after)[..|s + after| - 1] == s + after[..|after| - 1];
      TrimEndSkips(s, after[..|after| - 1]);
    }
  }

  /** Text that is `core` between whitespace, where `core` is 1 to 16 hexadecimal digits for `n`. */
  ghost predicate Spells(text: Text, before: Text, core: Text, after: Text, n: nat) {
    && text == before + core + after && AllIn(before, WHITESPACE) && AllIn(after, WHITESPACE)
    && 1 <= |core| <= 16 && AllIn(core, HEX_DIGITS) && IsHex(core) && Value(core) == n
  }

  lemma SpelledIsParsed(text: Text, before: Text, core: Text, after: Text, n: nat)
    requires Spells(text, before, core, after, n)
    ensures n < BITMAPS && FromHex(text) == Ok(n)
  {
    assert before + core + after == before + (core + after);
    TrimStartSkips(before, core + after);
    assert (core + after)[0] == core[0] && IsHexDigit(core[0]) && IsHexDigit(core[|core| - 1]);
    TrimEndSkips(core, after);
    assert Trim(text) == core;
    AcceptsExactly(text);
  }

  /** Parsing on the text itself: whitespace around 1 to 16 hexadecimal digits, and nothing else. */
  lemma ParsesExactly(text: Text, n: Bitmap)
    ensures FromHex(text) == Ok(n) <==> exists before, core, after :: Spells(text, before, core, after, n)
    ensures FromHex(text) == Err(Empty) <==> AllIn(text, WHITESPACE)
  {
    var before := TrimStartSplits(text);
    var after := TrimEndSplits(TrimStart(text));
    var core := Trim(text);
    HexIsHexDigits(core);
    AcceptsExactly(text);
    assert text == before + core + after;
    if FromHex(text) == Ok(n) {
      assert Spells(text, before, core, after, n);
    }
    forall b, c, a | Spells(text, b, c, a, n)
      ensures FromHex(text) == Ok(n)
    {
      SpelledIsParsed(text, b, c, a, n);
    }
    if AllIn(text, WHITESPACE) {
      assert text + [] == text;
      TrimStartSkips(text, []);
    }
  }

  /** Bit `k` of `n`, where `mask` is two to the power of `k`. */
  ghost predicate HasBit(n: nat, mask: nat, high: nat, low: nat) {
    n == (2 * high + 1) * mask + low && low < mask
  }

  /** A feature is present exactly when its own bit, 32 or 38, is set. */
  lemma ContainsIsBit(n: Bitmap, feature: Feature)
    ensures var mask := if feature == MqttHoming then 0x1_0000_0000 else 0x40_0000_0000;
            Contains(n, feature) <==> exists high: nat, low: nat :: HasBit(n, mask, high, low)
  {
    MaskValues();
    var mask := if feature == MqttHoming then 0x1_0000_0000 else 0x40_0000_0000;
    if Contains(n, feature) {
      assert HasBit(n, mask, n / mask / 2, n % mask);
    }
    forall high: nat, low: nat | HasBit(n, mask, high, low)
      ensures Contains(n, feature)
    {
      assert n / mask == 2 * high + 1;
    }
  }

  // ----- Printing, then parsing -----

  lemma {:induction false} ToHexLength(n: nat, k: nat)
    requires n < Power16(k) && k >= 1
    ensures |ToHex(n)| <= k
  {
    if n >= 16 {
      assert Power16(k) == 16 * Power16(k - 1);
      assert k >= 2 by { assert Power16(1) == 16; }
      ToHexLength(n / 16, k - 1);
    }
  }

  lemma {:induction false} ValueToHex(n: nat)
    ensures Value(ToHex(n)) == n
  {
    if n < 16 {
      assert ToHex(n)[..0] == [];
    } else {
      ValueToHex(n / 16);
      assert ToHex(n)[..|ToHex(n)| - 1] == ToHex(n / 16);
    }
  }

  lemma TrimHex(s: Text)
    requires IsHex(s)
    ensures Trim(s) == s
  {
    assert s != [] ==> IsHexDigit(s[0]) && IsHexDigit(s[|s| - 1]);
  }

  /** Every 64-bit bitmap survives printing and parsing, and with it every feature test. */
  lemma PrintParse(n: Bitmap)
    ensures FromHex(ToHex(n)) == Ok(n)
    ensures forall feature :: Contains(FromHex(ToHex(n)).value, feature) == Contains(n, feature)
  {
    BitmapsArePower16();
    ToHexLength(n, MAX_DIGITS);
    TrimHex(ToHex(n));
    ValueToHex(n);
  }

  // ----- Parsing, then printing -----

  function Upper(b: byte): byte {
    if 0x61 <= b <= 0x66 then b - 0x20 else b
  }

  function UpperAll(s: Text): Text {
    seq(|s|, i requires 0 <= i < |s| => Upper(s[i]))
  }

  /** Without leading zeros, but with at least one digit. */
  function StripZeros(s: Text): Text {
    if |s| > 1 && s[0] == 0x30 then StripZeros(s[1..]) else s
  }

  function Canonical(s: Text): Text {
    StripZeros(UpperAll(s))
  }

  lemma {:induction false} ZeroValue(s: Text)
    requires IsHex(s)
    ensures Value(s) == 0 <==> forall i | 0 <= i < |s| :: s[i] == 0x30
  {
    if s != [] {
      ZeroValue(s[..|s| - 1]);
      assert forall i | 0 <= i < |s| - 1 :: s[i] == s[..|s| - 1][i];
      assert DigitValue(s[|s| - 1]) == 0 <==> s[|s| - 1] == 0x30;
    }
  }

  lemma {:induction false} StripAppend(s: Text, b: byte)
    ensures (forall i | 0 <= i < |s| :: s[i] == 0x30) ==> StripZeros(s + [b]) == [b]
    ensures (exists i | 0 <= i < |s| :: s[i] != 0x30) ==> StripZeros(s + [b]) == StripZeros(s) + [b]
  {
    if s != [] && s[0] == 0x30 {
      StripAppend(s[1..], b);
      assert (s + [b])[1..] == s[1..] + [b];
      assert forall i | 1 <= i < |s| :: s[i] == s[1..][i - 1];
      if |s| == 1 {
        assert s[1..] == [];
      }
    }
  }

  /** Printing a parsed digit string gives its canonical upper-case form. */
  lemma {:induction false} ToHexValue(s: Text)
    requires s != [] && IsHex(s)
    ensures ToHex(Value(s)) == Canonical(s)
  {
    var front, last := s[..|s| - 1], s[|s| - 1];
    var v, d := Value(front), DigitValue(last);
    assert UpperAll(s) == UpperAll(front) + [Upper(last)];
    assert Digit(d) == Upper(last);
    StripAppend(UpperAll(front), Upper(last));
    ZeroValue(front);
    if v == 0 {
      assert forall i | 0 <= i < |front| :: UpperAll(front)[i] == 0x30;
    } else {
      var i :| 0 <= i < |front| && front[i] != 0x30;
      assert UpperAll(front)[i] != 0x30;
      ToHexValue(front);
      assert (16 * v + d) / 16 == v && (16 * v + d) % 16 == d;
    }
  }

  /** Every accepted text prints back as the canonical form of what was between the spaces. */
  lemma ParsePrint(text: Text)
    requires FromHex(text).Ok?
    ensures ToHex(FromHex(text).value) == Canonical(Trim(text))
    ensures FromHex(ToHex(FromHex(text).value)) == FromHex(text)
  {
    AcceptsExactly(text);
    ToHexValue(Trim(text));
    PrintParse(FromHex(text).value);
  }
}
