/**
 The text of a UUID, as a cast to TEXT prints it: 32 lower-case hexadecimal digits in
 groups of 8, 4, 4, 4 and 12 with dashes between them, and the reader that inverts it.
 */
module UuidText {
  import opened Schema

  predicate IsHexDigit(c: char) {
    '0' <= c <= '9' || 'a' <= c <= 'f'
  }

  predicate IsHex(s: string) {
    forall i | 0 <= i < |s| :: IsHexDigit(s[i])
  }

  function Digit(n: nat): (c: char)
    requires n < 16
    ensures IsHexDigit(c)
  {
    if n < 10 then '0' + n as char else 'a' + (n - 10) as char
  }

  function DigitValue(c: char): (n: nat)
    requires IsHexDigit(c)
    ensures n < 16 && Digit(n) == c
  {
    if c <= '9' then (c - '0') as nat else (c - 'a') as nat + 10
  }

  /** The last `k` hexadecimal digits of `n`. */
  function Digits(n: nat, k: nat): (s: string)
    ensures |s| == k && IsHex(s)
  {
    if k == 0 then "" else Digits(n / 16, k - 1) + [Digit(n % 16)]
  }

  function Value(s: string): nat
    requires IsHex(s)
  {
    if s == [] then 0 else 16 * Value(s[..|s| - 1]) + DigitValue(s[|s| - 1])
  }

  function Power16(k: nat): nat {
    if k == 0 then 1 else 16 * Power16(k - 1)
  }

  lemma Power16Of32()
    ensures Power16(32) == 0x1_0000_0000_0000_0000_0000_0000_0000_0000
  {
    assert Power16(2) == 0x100;
    assert Power16(4) == 0x1_0000;
    assert Power16(6) == 0x100_0000;
    assert Power16(8) == 0x1_0000_0000;
    assert Power16(10) == 0x100_0000_0000;
    assert Power16(12) == 0x1_0000_0000_0000;
    assert Power16(14) == 0x100_0000_0000_0000;
    assert Power16(16) == 0x1_0000_0000_0000_0000;
    assert Power16(18) == 0x100_0000_0000_0000_0000;
    assert Power16(20) == 0x1_0000_0000_0000_0000_0000;
    assert Power16(22) == 0x100_0000_0000_0000_0000_0000;
    assert Power16(24) == 0x1_0000_0000_0000_0000_0000_0000;
    assert Power16(26) == 0x100_0000_0000_0000_0000_0000_0000;
    assert Power16(28) == 0x1_0000_0000_0000_0000_0000_0000_0000;
    assert Power16(30) == 0x100_0000_0000_0000_0000_0000_0000_0000;
  }

  lemma {:induction false} ValueDigits(n: nat, k: nat)
    requires n < Power16(k)
    ensures Value(Digits(n, k)) == n
  {
    if k == 0 {
    } else {
      ValueDigits(n / 16, k - 1);
      assert Digits(n, k)[..k - 1] == Digits(n / 16, k - 1);
    }
  }

  lemma AppendDigit(v: nat, d: nat)
    requires d < 16
    ensures (16 * v + d) / 16 == v && (16 * v + d) % 16 == d
  {
  }

  lemma {:induction false} ValueBound(s: string)
    requires IsHex(s)
    ensures Value(s) < Power16(|s|)
  {
    if s == [] {
    } else {
      var n := |s| - 1;
      ValueBound(s[..n]);
      assert 16 * (Value(s[..n]) + 1) <= 16 * Power16(n);
    }
  }

  lemma {:induction false} DigitsValue(s: string)
    requires IsHex(s)
    ensures Digits(Value(s), |s|) == s
  {
    if s == [] {
    } else {
      var n := |s| - 1;
      var (v, d) := (Value(s[..n]), DigitValue(s[n]));
      DigitsValue(s[..n]);
      AppendDigit(v, d);
      assert Digits(16 * v + d, n + 1) == Digits(v, n) + [Digit(d)];
      assert s == s[..n] + [s[n]];
    }
  }

  /** The dashes go after the 8th, 12th, 16th and 20th digit. */
  function Dashed(d: string): (s: string)
    requires |d| == 32
    ensures |s| == 36 && s[8] == '-'
  {
    d[..8] + "-" + d[8..12] + "-" + d[12..16] + "-" + d[16..20] + "-" + d[20..]
  }

  function Undashed(s: string): (d: string)
    requires |s| == 36
    ensures |d| == 32
  {
    s[..8] + s[9..13] + s[14..18] + s[19..23] + s[24..]
  }

  predicate IsUuidText(s: string) {
    && |s| == 36
    && s[8] == '-' && s[13] == '-' && s[18] == '-' && s[23] == '-'
    && IsHex(Undashed(s))
  }

  lemma DashedInverse(d: string)
    requires |d| == 32
    ensures Undashed(Dashed(d)) == d
  {
    var s := Dashed(d);
    assert s[..8] == d[..8] && s[9..13] == d[8..12] && s[14..18] == d[12..16];
    assert s[19..23] == d[16..20] && s[24..] == d[20..];
  }

  lemma UndashedInverse(s: string)
    requires |s| == 36 && s[8] == '-' && s[13] == '-' && s[18] == '-' && s[23] == '-'
    ensures Dashed(Undashed(s)) == s
  {
    var d := Undashed(s);
    assert d[..8] == s[..8] && d[8..12] == s[9..13] && d[12..16] == s[14..18];
    assert d[16..20] == s[19..23] && d[20..] == s[24..];
    assert s[..8] + "-" + s[9..13] + "-" == s[..14];
    assert s[..14] + s[14..18] + "-" == s[..19];
    assert s[..19] + s[19..23] + "-" == s[..24];
    assert s[..24] + s[24..] == s;
  }

  /** id::TEXT */
  function Text(id: Uuid): (s: string)
    ensures |s| == 36 && s[8] == '-'
  {
    Dashed(Digits(id, 32))
  }

  /** The value of the hexadecimal digit with `place` digits below it. */
  function DigitOf(n: nat, place: nat): (d: nat)
    ensures d < 16
  {
    if place == 0 then n % 16 else DigitOf(n / 16, place - 1)
  }

  lemma {:induction false} DigitAt(n: nat, k: nat, j: nat)
    requires j < k
    ensures Digits(n, k)[j] == Digit(DigitOf(n, k - 1 - j))
  {
    if j == k - 1 {
    } else {
      DigitAt(n / 16, k - 1, j);
    }
  }

  /** The text of a UUID, character by character: dashes at four places, and elsewhere the
      lower-case hexadecimal digits from the highest to the lowest. */
  lemma TextForm(id: Uuid, i: nat)
    requires i < 36
    ensures
      if i == 8 || i == 13 || i == 18 || i == 23 then Text(id)[i] == '-'
      else
        var dashes := if i < 8 then 0 else if i < 13 then 1 else if i < 18 then 2 else if i < 23 then 3 else 4;
        Text(id)[i] == "0123456789abcdef"[DigitOf(id, 31 - (i - dashes))]
  {
    var dashes := if i < 8 then 0 else if i < 13 then 1 else if i < 18 then 2 else if i < 23 then 3 else 4;
    if i != 8 && i != 13 && i != 18 && i != 23 {
      DigitAt(id, 32, i - dashes);
      assert Dashed(Digits(id, 32))[i] == Digits(id, 32)[i - dashes];
    }
  }

  function Read(s: string): Option<Uuid> {
    if IsUuidText(s) then
      ValueBound(Undashed(s));
      Power16Of32();
      Some(Value(Undashed(s)))
    else None
  }

  /** Every UUID's text can be read back, and only texts of UUIDs are read. */
  lemma ReadText(id: Uuid)
    ensures Read(Text(id)) == Some(id)
  {
    Power16Of32();
    var d := Digits(id, 32);
    ValueDigits(id, 32);
    DashedInverse(d);
    var s := Dashed(d);
    assert s[13] == '-' && s[18] == '-' && s[23] == '-';
  }

  lemma TextRead(s: string)
    requires Read(s).Some?
    ensures Text(Read(s).value) == s
  {
    DigitsValue(Undashed(s));
    UndashedInverse(s);
  }
}
