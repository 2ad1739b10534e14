/**
128-bit identifiers in Crockford base32: 48 bits of milliseconds, 80 of randomness.

The 64-bit operations are written as arithmetic: a right shift divides, and a left
shift drops what leaves the word.
*/
module Identifier {
  import opened Common
  import opened Positional

  const ENCODING := "0123456789ABCDEFGHJKMNPQRSTVWXYZ"
  const LENGTH: nat := 26

  function IndexOf(c: char): (r: int)
    ensures 0 <= r < 32 ==> ENCODING[r] == c
    ensures r < 32 && (r < 0 <==> c !in ENCODING)
  {
    if c !in ENCODING then -1 else First(c, 0)
  }

  function First(c: char, from: nat): (r: int)
    requires from <= 32 && c in ENCODING[from..]
    ensures from <= r < 32 && ENCODING[r] == c
    decreases 32 - from
  {
    if ENCODING[from] == c then from else First(c, from + 1)
  }

  function Number(raw: seq<Byte>): nat {
    Value(Nats(raw), 256)
  }

  function Nats(raw: seq<Byte>): (s: seq<nat>)
    ensures |s| == |raw| && forall i :: 0 <= i < |raw| ==> s[i] == raw[i]
  {
    seq(|raw|, i requires 0 <= i < |raw| => raw[i])
  }

  /** The characters of digits, and the codes by which strings are ordered. */
  function Render(d: seq<nat>): (s: string)
    requires Proper(d, 32)
    ensures |s| == |d| && forall i :: 0 <= i < |d| ==> s[i] == ENCODING[d[i]]
  {
    seq(|d|, i requires 0 <= i < |d| => ENCODING[d[i]])
  }

  function Codes(s: string): (c: seq<nat>)
    ensures |c| == |s| && forall i :: 0 <= i < |s| ==> c[i] == s[i] as int
  {
    seq(|s|, i requires 0 <= i < |s| => s[i] as int)
  }

  function Base32(raw: seq<Byte>): seq<nat> {
    Digits(Number(raw), 32, LENGTH)
  }

  /** What `encodeID` returns for 16 bytes. */
  function Encoded(raw: seq<Byte>): string {
    DigitsAreProper(Number(raw), 32, LENGTH);
    Render(Base32(raw))
  }

  predicate Valid(id: string) {
    |id| == LENGTH && forall i :: 0 <= i < |id| ==> id[i] in ENCODING
  }

  /** The digits of a string of valid characters. */
  function DigitsOf(id: string): (d: seq<nat>)
    requires forall i :: 0 <= i < |id| ==> id[i] in ENCODING
    ensures |d| == |id| && Proper(d, 32)
  {
    seq(|id|, i requires 0 <= i < |id| => IndexOf(id[i]))
  }

  // ------------------------------------------------------------ the alphabet

  lemma AlphabetAscends(i: nat, j: nat)
    requires i < j < 32
    ensures ENCODING[i] < ENCODING[j]
    decreases j
  {
  }

  lemma IndexOfCharacter(i: nat)
    requires i < 32
    ensures IndexOf(ENCODING[i]) == i
  {
    var r := IndexOf(ENCODING[i]);
    assert ENCODING[i] in ENCODING;
    if r < i { AlphabetAscends(r, i); }
    if i < r { AlphabetAscends(i, r); }
  }

  lemma RenderRoundTrip(d: seq<nat>)
    requires Proper(d, 32)
    ensures forall i :: 0 <= i < |d| ==> Render(d)[i] in ENCODING
    ensures DigitsOf(Render(d)) == d
  {
    forall i | 0 <= i < |d| ensures IndexOf(Render(d)[i]) == d[i] {
      IndexOfCharacter(d[i]);
    }
  }

  lemma RenderKeepsOrder(a: seq<nat>, b: seq<nat>)
    requires |a| == |b| && Proper(a, 32) && Proper(b, 32)
    ensures Before(Codes(Render(a)), Codes(Render(b))) <==> Before(a, b)
  {
    var x, y := Codes(Render(a)), Codes(Render(b));
    forall i | 0 <= i < |a| ensures (x[i] < y[i] <==> a[i] < b[i]) && (x[i] == y[i] <==> a[i] == b[i]) {
      if a[i] < b[i] { AlphabetAscends(a[i], b[i]); }
      if b[i] < a[i] { AlphabetAscends(b[i], a[i]); }
    }
    if Before(a, b) {
      var i :| 0 <= i < |a| && a[..i] == b[..i] && a[i] < b[i];
      assert forall k :: 0 <= k < i ==> a[k] == a[..i][k] == b[..i][k] == b[k];
      assert x[..i] == y[..i];
    }
    if Before(x, y) {
      var i :| 0 <= i < |x| && x[..i] == y[..i] && x[i] < y[i];
      assert forall k :: 0 <= k < i ==> x[k] == x[..i][k] == y[..i][k] == y[k];
      assert a[..i] == b[..i];
    }
  }

  // ------------------------------------------------------------- the encoder

  lemma Powers()
    ensures Pow(256, 16) == U64 * U64
    ensures Pow(32, 26) == 4 * U64 * U64
    ensures Pow(32, 25) * 8 == U64 * U64
    ensures Pow(256, 6) == 0x1_0000_0000_0000
    ensures Pow(256, 10) == Pow(32, 16)
    ensures Pow(32, 10) == 4 * Pow(256, 6)
  {
    PowSum(256, 8, 8);
    PowSum(32, 13, 13);
    PowSum(32, 12, 13);
  }

  lemma NumberFits(raw: seq<Byte>)
    requires |raw| == 16
    ensures Number(raw) < Pow(256, 16) <= Pow(32, 26)
    ensures Value(Base32(raw), 32) == Number(raw)
    ensures Proper(Base32(raw), 32)
  {
    hide Times, Value, Digits;
    ValueBound(Nats(raw), 256);
    Powers();
    ValueOfDigits(Number(raw), 32, LENGTH);
    DigitsAreProper(Number(raw), 32, LENGTH);
  }

  /** One iteration of the encoder divides the 128-bit value by 32. */
  lemma ShiftAcrossHalves(hi: nat, lo: nat)
    requires lo < U64 && hi < U64
    ensures var carried := lo / 32 + (hi * 0x800_0000_0000_0000) % U64;
            && carried < U64
            && (hi / 32) * U64 + carried == (hi * U64 + lo) / 32
            && lo % 32 == (hi * U64 + lo) % 32
  {
  }

  method EncodeId(raw: seq<Byte>) returns (id: string)
    requires |raw| == 16
    ensures id == Encoded(raw)
  {
    hide Digits, Value, Times;
    var hi := BigEndian64(raw[..8]);
    var lo := BigEndian64(raw[8..]);
    NumberOfHalves(raw);
    NumberFits(raw);
    var out := new char[LENGTH];
    ghost var d := Base32(raw);
    assert d[..LENGTH] == d;
    var i := LENGTH - 1;
    while i >= 0
      invariant -1 <= i < LENGTH && 0 <= hi < U64 && 0 <= lo < U64
      invariant d[..i + 1] == Digits(hi * U64 + lo, 32, i + 1)
      invariant forall j :: i < j < LENGTH ==> out[j] == ENCODING[d[j]]
    {
      out[i] := ENCODING[lo % 32];
      ShiftAcrossHalves(hi, lo);
      DigitStep(hi * U64 + lo, 32, i);
      assert d[i] == d[..i + 1][i];
      assert d[..i] == d[..i + 1][..i];
      lo := lo / 32 + (hi * 0x800_0000_0000_0000) % U64;
      hi := hi / 32;
      i := i - 1;
    }
    id := out[..];
  }

  method BigEndian64(bytes: seq<Byte>) returns (v: nat)
    requires |bytes| == 8
    ensures v == Number(bytes) < U64
  {
    v := 0;
    for i := 0 to 8
      invariant v == Number(bytes[..i])
    {
      assert Nats(bytes[..i + 1])[..i] == Nats(bytes[..i]);
      v := v * 256 + bytes[i];
    }
    assert bytes[..8] == bytes;
    ValueBound(Nats(bytes), 256);
    assert Pow(256, 8) == U64;
  }

  lemma {:induction false} ValueOfConcatenation(a: seq<nat>, b: seq<nat>, base: nat)
    ensures Value(a + b, base) == Times(Value(a, base), Pow(base, |b|)) + Value(b, base)
  {
    hide Times;
    if |b| == 0 {
      assert a + b == a;
      TimesOne(Value(a, base));
    } else {
      var n := |b| - 1;
      ValueOfConcatenation(a, b[..n], base);
      assert (a + b)[..|a + b| - 1] == a + b[..n];
      Distributive(Times(Value(a, base), Pow(base, n)), Value(b[..n], base), base);
      Associative(Value(a, base), Pow(base, n), base);
    }
  }

  lemma NumberOfHalves(raw: seq<Byte>)
    requires |raw| == 16
    ensures Number(raw) == Number(raw[..8]) * U64 + Number(raw[8..])
  {
    ValueOfConcatenation(Nats(raw[..8]), Nats(raw[8..]), 256);
    assert Nats(raw) == Nats(raw[..8]) + Nats(raw[8..]);
    assert Pow(256, 8) == U64;
  }

  // ------------------------------------------------------------ main results

  lemma EncodedIsValid(raw: seq<Byte>)
    requires |raw| == 16
    ensures Valid(Encoded(raw)) && DigitsOf(Encoded(raw)) == Base32(raw)
  {
    NumberFits(raw);
    RenderRoundTrip(Base32(raw));
  }

  /** Different bytes have different identifiers, and the order of the strings is
  the order of the bytes. */
  lemma EncodingKeepsOrder(raw: seq<Byte>, raw': seq<Byte>)
    requires |raw| == |raw'| == 16
    ensures Encoded(raw) == Encoded(raw') <==> raw == raw'
    ensures Before(Codes(Encoded(raw)), Codes(Encoded(raw'))) <==> Before(Nats(raw), Nats(raw'))
  {
    hide Digits, Value, Times, Base32;
    NumberFits(raw);
    NumberFits(raw');
    EncodedIsValid(raw);
    EncodedIsValid(raw');
    RenderKeepsOrder(Base32(raw), Base32(raw'));
    OrderOfDigits(Base32(raw), Base32(raw'), 32);
    OrderOfDigits(Nats(raw), Nats(raw'), 256);
    SameValue(Nats(raw), Nats(raw'), 256);
    if Nats(raw) == Nats(raw') {
      assert raw == raw' by { assert forall i :: 0 <= i < 16 ==> raw[i] == Nats(raw)[i] == Nats(raw')[i] == raw'[i]; }
    }
  }

  method Validate(id: string) returns (ok: bool)
    ensures ok <==> Valid(id)
  {
    if |id| != LENGTH { return false; }
    for i := 0 to |id|
      invariant forall j :: 0 <= j < i ==> id[j] in ENCODING
    {
      if IndexOf(id[i]) < 0 { return false; }
    }
    ok := true;
  }

  /** The milliseconds an identifier carries. */
  method Time(id: string) returns (ms: Option<nat>)
    ensures ms.Some? <==> Valid(id)
    ensures ms.Some? ==> ms.value == Value(DigitsOf(id)[..10], 32) < 0x4_0000_0000_0000
  {
    var ok := Validate(id);
    if !ok { return None; }
    var v: nat := 0;
    ghost var d := DigitsOf(id);
    for i := 0 to 10
      invariant v == Value(d[..i], 32)
    {
      assert d[..i + 1][..i] == d[..i];
      v := v * 32 + IndexOf(id[i]);
    }
    ValueBound(d[..10], 32);
    Powers();
    ms := Some(v);
  }

  /** Dividing by the base j times. */
  function Shift(v: nat, base: nat, j: nat): nat
    requires base > 0
    decreases j
  {
    if j == 0 then v else Shift(Rest(v, base), base, j - 1)
  }

  lemma {:induction false} LeadingDigits(v: nat, base: nat, k: nat, j: nat)
    requires base > 0
    ensures Digits(v, base, k + j)[..k] == Digits(Shift(v, base, j), base, k)
    decreases j
  {
    hide Rest, Last;
    if j > 0 {
      LeadingDigits(Rest(v, base), base, k, j - 1);
      assert Digits(v, base, k + j)[..k] == Digits(Rest(v, base), base, k + j - 1)[..k];
    }
  }

  lemma {:induction false} ShiftDropsLowPart(high: nat, low: nat, base: nat, j: nat)
    requires base > 0 && low < Pow(base, j)
    ensures Shift(Times(high, Pow(base, j)) + low, base, j) == high
    decreases j
  {
    hide Times, Rest, Last;
    if j == 0 {
      TimesOne(high);
    } else {
      var p, r := Pow(base, j - 1), Rest(low, base);
      Division(low, base);
      if r >= p { TimesGrows(p, r, base); }
      ShiftDropsLowPart(high, r, base, j - 1);
      Associative(high, p, base);
      Distributive(Times(high, p), r, base);
      DivMod(Times(high, p) + r, base, Last(low, base));
    }
  }

  lemma TimesGrows(p: nat, r: nat, base: nat)
    requires p <= r
    ensures Times(p, base) <= Times(r, base)
  {
  }

  /** The first six bytes come back from the first ten characters, whatever the
  random part is. */
  lemma TimeIsRecovered(raw: seq<Byte>)
    requires |raw| == 16
    ensures Valid(Encoded(raw)) && Value(DigitsOf(Encoded(raw))[..10], 32) == Number(raw[..6])
  {
    hide Times, Rest, Last, Value, Digits;
    var high, low := Nats(raw[..6]), Nats(raw[6..]);
    EncodedIsValid(raw);
    Powers();
    ValueBound(high, 256);
    ValueBound(low, 256);
    ValueOfConcatenation(high, low, 256);
    assert Nats(raw) == high + low;
    ShiftDropsLowPart(Value(high, 256), Value(low, 256), 32, 16);
    LeadingDigits(Number(raw), 32, 10, 16);
    ValueOfDigits(Value(high, 256), 32, 10);
    SmallRemainder(Value(high, 256), Pow(32, 10));
  }

  /** `newIDAt`: the clock is a signed count of milliseconds. */
  method NewId(ms: int, random: seq<Byte>) returns (id: string)
    requires |random| == 10
    ensures Valid(id) && Value(DigitsOf(id)[..10], 32) == ms % 0x1_0000_0000_0000
    ensures id == Encoded(Stamp(ms) + random)
  {
    var u := ms % U64;
    var stamp: seq<Byte> := [(u / 0x100_0000_0000) % 256, (u / 0x1_0000_0000) % 256, (u / 0x100_0000) % 256,
                             (u / 0x1_0000) % 256, (u / 0x100) % 256, u % 256];
    StampIsTheBytes(ms);
    assert stamp == Stamp(ms);
    id := EncodeId(stamp + random);
    TimeIsRecovered(stamp + random);
    assert (stamp + random)[..6] == stamp;
    StampNumber(ms);
  }

  /** The low 48 bits of the clock, as six bytes. */
  function Stamp(ms: int): (s: seq<Byte>)
    ensures |s| == 6
  {
    DigitsAreProper(ms % U64, 256, 6);
    seq(6, i requires 0 <= i < 6 => Digits(ms % U64, 256, 6)[i])
  }

  lemma StampNumber(ms: int)
    ensures Number(Stamp(ms)) == ms % 0x1_0000_0000_0000
  {
    hide Digits, Value;
    assert Nats(Stamp(ms)) == Digits(ms % U64, 256, 6);
    Powers();
    ValueOfDigits(ms % U64, 256, 6);
  }

  lemma StampIsTheBytes(ms: int)
    ensures var u := ms % U64;
            Stamp(ms) == [(u / 0x100_0000_0000) % 256, (u / 0x1_0000_0000) % 256, (u / 0x100_0000) % 256,
                          (u / 0x1_0000) % 256, (u / 0x100) % 256, u % 256]
  {
    hide Digits;
    var u := ms % U64;
    DigitStep(u, 256, 5);
    DigitStep(u / 256, 256, 4);
    DigitStep(u / 0x1_0000, 256, 3);
    DigitStep(u / 0x100_0000, 256, 2);
    DigitStep(u / 0x1_0000_0000, 256, 1);
    DigitStep(u / 0x100_0000_0000, 256, 0);
  }

  /** Identifiers made in a later millisecond sort later, whatever was drawn. */
  lemma LaterSortsLater(ms: nat, ms': nat, random: seq<Byte>, random': seq<Byte>)
    requires ms < ms' < 0x1_0000_0000_0000 && |random| == |random'| == 10
    ensures Before(Codes(Encoded(Stamp(ms) + random)), Codes(Encoded(Stamp(ms') + random')))
  {
    hide Digits, Value;
    var raw, raw' := Stamp(ms) + random, Stamp(ms') + random';
    var a, b := Nats(Stamp(ms)), Nats(Stamp(ms'));
    StampNumber(ms);
    StampNumber(ms');
    OrderOfDigits(a, b, 256);
    var i :| 0 <= i < 6 && a[..i] == b[..i] && a[i] < b[i];
    assert Nats(raw)[..i] == a[..i] && Nats(raw')[..i] == b[..i];
    assert Before(Nats(raw), Nats(raw'));
    EncodingKeepsOrder(raw, raw');
  }

  /** A valid string is the encoding of some bytes exactly when its first digit
  leaves the two spare bits empty. */
  lemma ValidIsEncodedIff(id: string)
    requires Valid(id)
    ensures DigitsOf(id)[0] < 8 <==> exists raw: seq<Byte> :: |raw| == 16 && Encoded(raw) == id
  {
    hide Times, Rest, Last, Value, Digits;
    var d := DigitsOf(id);
    var v := Value(d, 32);
    Powers();
    LeadingDigit(d);
    if v < Pow(256, 16) {
      DigitsAreProper(v, 256, 16);
      var s := Digits(v, 256, 16);
      var raw: seq<Byte> := seq(16, i requires 0 <= i < 16 => s[i]);
      assert Nats(raw) == s;
      ValueOfDigits(v, 256, 16);
      SmallRemainder(v, Pow(256, 16));
      DigitsOfValue(d, 32);
      EncodedIsValid(raw);
      assert Encoded(raw) == id by {
        assert forall i :: 0 <= i < LENGTH ==> Encoded(raw)[i] == ENCODING[d[i]] == id[i];
      }
    }
    if raw: seq<Byte> :| |raw| == 16 && Encoded(raw) == id {
      NumberFits(raw);
      EncodedIsValid(raw);
    }
  }

  lemma LeadingDigit(d: seq<nat>)
    requires |d| == LENGTH && Proper(d, 32)
    ensures d[0] < 8 <==> Value(d, 32) < Pow(256, 16)
  {
    hide Value, Times;
    Powers();
    ValueOfConcatenation(d[..1], d[1..], 32);
    ValueBound(d[1..], 32);
    assert d == d[..1] + d[1..];
    OneDigit(d[0]);
    assert d[..1] == [d[0]];
    LeadingTerm(d[0], Pow(32, 25), Value(d[1..], 32));
  }

  lemma OneDigit(x: nat)
    ensures Value([x], 32) == x
  {
    assert [x][..0] == [];
  }

  lemma LeadingTerm(x: nat, p: nat, low: nat)
    requires low < p
    ensures x < 8 <==> Times(x, p) + low < 8 * p
  {
    if x < 8 { assert (x + 1) * p <= 8 * p; } else { assert x * p >= 8 * p; }
  }
}
