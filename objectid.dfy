/** MongoDB ObjectIds as the handlers see them: `ObjectId(s)` is taken to
    accept the strings of 24 hexadecimal digits (either case) and `str(oid)` renders
    the 12-byte value as 24 lower-case hexadecimal digits. An id is modelled by
    its numeric value, whose order is the byte order `$sort` uses. */
module ObjectIds {
  import opened Wrappers

  const ID_LENGTH: nat := 24
  const ID_BOUND: nat := 0x1_0000_0000_0000_0000_0000_0000  // 2^96, i.e. 16^24

  type ObjectId = n: nat | n < ID_BOUND

  function Pow16(k: nat): (p: nat)
    ensures p >= 1
  {
    if k == 0 then 1 else 16 * Pow16(k - 1)
  }

  lemma Pow16IdLength()
    ensures Pow16(ID_LENGTH) == ID_BOUND
  {
    assert Pow16(4) == 0x1_0000;
    assert Pow16(8) == 0x1_0000_0000 by { assert Pow16(8) == Pow16(4) * 0x1_0000 by { PowAdd(4, 4); } }
    assert Pow16(12) == 0x1_0000_0000_0000 by { PowAdd(8, 4); }
    assert Pow16(24) == ID_BOUND by { PowAdd(12, 12); }
  }

  lemma {:induction false} PowAdd(a: nat, b: nat)
    ensures Pow16(a + b) == Pow16(a) * Pow16(b)
    decreases b
  {
    if b > 0 {
      PowAdd(a, b - 1);
      assert Pow16(a + b) == 16 * Pow16(a + b - 1);
    }
  }

  predicate IsHexDigit(c: char) {
    ('0' <= c <= '9') || ('a' <= c <= 'f') || ('A' <= c <= 'F')
  }

  predicate IsLowerHexDigit(c: char) {
    ('0' <= c <= '9') || ('a' <= c <= 'f')
  }

  function HexDigitValue(c: char): (d: nat)
    requires IsHexDigit(c)
    ensures d < 16
  {
    if '0' <= c <= '9' then c as int - '0' as int
    else if 'a' <= c <= 'f' then c as int - 'a' as int + 10
    else c as int - 'A' as int + 10
  }

  function HexChar(d: nat): (c: char)
    requires d < 16
    ensures IsLowerHexDigit(c) && HexDigitValue(c) == d
  {
    if d < 10 then ('0' as int + d) as char else ('a' as int + d - 10) as char
  }

  /** The value of a string of hexadecimal digits, most significant first. */
  function HexValue(s: string): (v: nat)
    requires forall k :: 0 <= k < |s| ==> IsHexDigit(s[k])
    ensures v < Pow16(|s|)
  {
    if s == [] then 0 else HexValue(s[..|s| - 1]) * 16 + HexDigitValue(s[|s| - 1])
  }

  /** The `k` least significant hexadecimal digits of `n`, zero-padded. */
  function HexDigits(n: nat, k: nat): (s: string)
    ensures |s| == k
    ensures forall i :: 0 <= i < k ==> IsLowerHexDigit(s[i])
  {
    if k == 0 then [] else HexDigits(n / 16, k - 1) + [HexChar(n % 16)]
  }

  predicate IsValidId(s: string) {
    |s| == ID_LENGTH && forall k :: 0 <= k < |s| ==> IsHexDigit(s[k])
  }

  /** `ObjectId(s)`: `None` stands for the `InvalidId` it raises. */
  function Parse(s: string): (r: Option<ObjectId>)
    ensures r.Some? <==> IsValidId(s)
  {
    if IsValidId(s) then Pow16IdLength(); Some(HexValue(s)) else None
  }

  /** `str(oid)`. */
  function Render(id: ObjectId): (s: string)
    ensures IsValidId(s)
    ensures forall k :: 0 <= k < |s| ==> IsLowerHexDigit(s[k])
  {
    HexDigits(id, ID_LENGTH)
  }

  lemma {:induction false} HexValueOfDigits(n: nat, k: nat)
    requires n < Pow16(k)
    ensures HexValue(HexDigits(n, k)) == n
  {
    if k > 0 {
      var s := HexDigits(n, k);
      assert s[..|s| - 1] == HexDigits(n / 16, k - 1);
      HexValueOfDigits(n / 16, k - 1);
    }
  }

  lemma {:induction false} DigitsOfHexValue(s: string)
    requires forall k :: 0 <= k < |s| ==> IsHexDigit(s[k]) && IsLowerHexDigit(s[k])
    ensures HexDigits(HexValue(s), |s|) == s
  {
    if s != [] {
      var init := s[..|s| - 1];
      DigitsOfHexValue(init);
      var v := HexValue(s);
      assert v / 16 == HexValue(init) && v % 16 == HexDigitValue(s[|s| - 1]);
      assert HexChar(v % 16) == s[|s| - 1];
      assert s == init + [s[|s| - 1]];
    }
  }

  /** Rendering an id and parsing it back gives the same id. */
  lemma ParseRender(id: ObjectId)
    ensures Parse(Render(id)) == Some(id)
  {
    Pow16IdLength();
    HexValueOfDigits(id, ID_LENGTH);
  }

  /** A valid id string in lower case survives the round trip unchanged, so
      `str(ObjectId(s)) == s` for such strings. */
  lemma RenderParse(s: string)
    requires IsValidId(s)
    requires forall k :: 0 <= k < |s| ==> IsLowerHexDigit(s[k])
    ensures Render(Parse(s).value) == s
  {
    DigitsOfHexValue(s);
  }
}
