/** The human-facing order reference built by `generate_order_reference`:
    "ORD-" + today's date as YYYYMMDD + "-" + three random bytes as six
    upper-case hexadecimal characters. The date and the bytes are inputs. */
module OrderReference {
  import opened Wrappers
  import opened Text

  /** A calendar date as `date.today()` yields it. */
  datatype Date = Date(year: int, month: int, day: int)

  predicate ValidDate(d: Date) {
    1 <= d.year <= 9999 && 1 <= d.month <= 12 && 1 <= d.day <= 31
  }

  newtype byte = x: int | 0 <= x < 256

  /** The result of `token_hex(3)`: three random bytes. */
  datatype Token = Token(b0: byte, b1: byte, b2: byte)

  /** `d.strftime("%Y%m%d")`. */
  function DateStamp(d: Date): (r: string)
    requires ValidDate(d)
    ensures |r| == 8 && AllDigits(r)
    ensures DecimalValue(r[..4]) == d.year
    ensures DecimalValue(r[4..6]) == d.month
    ensures DecimalValue(r[6..]) == d.day
  {
    var y := PaddedDecimal(d.year, 4);
    var m := PaddedDecimal(d.month, 2);
    var dd := PaddedDecimal(d.day, 2);
    var r := y + m + dd;
    assert r[..4] == y && r[4..6] == m && r[6..] == dd;
    r
  }

  predicate IsUpperHex(c: char) {
    ('0' <= c <= '9') || ('A' <= c <= 'F')
  }

  /** The value of one upper-case hexadecimal digit. */
  function HexValue(c: char): (v: nat)
    requires IsUpperHex(c)
    ensures v < 16
  {
    if c <= '9' then c as int - '0' as int else c as int - 'A' as int + 10
  }

  /** The upper-case hexadecimal digit for `v`. */
  function HexChar(v: nat): (c: char)
    requires v < 16
    ensures IsUpperHex(c) && HexValue(c) == v
  {
    "0123456789ABCDEF"[v]
  }

  /** One byte as `bytes.hex().upper()` writes it: high nibble first. */
  function ByteHex(b: byte): (r: string)
    ensures |r| == 2 && IsUpperHex(r[0]) && IsUpperHex(r[1])
    ensures HexValue(r[0]) * 16 + HexValue(r[1]) == b as int
  {
    [HexChar(b as nat / 16), HexChar(b as nat % 16)]
  }

  /** `token_hex(3).upper()`. */
  function TokenHex(t: Token): (r: string)
    ensures |r| == 6 && forall k :: 0 <= k < 6 ==> IsUpperHex(r[k])
  {
    ByteHex(t.b0) + ByteHex(t.b1) + ByteHex(t.b2)
  }

  /** `generate_order_reference()` with today's date and the random bytes given. */
  function FormatReference(today: Date, t: Token): (r: string)
    requires ValidDate(today)
    ensures |r| == 19
    ensures r[..4] == "ORD-" && r[12] == '-'
    ensures r[4..12] == DateStamp(today)
    ensures forall k :: 13 <= k < 19 ==> IsUpperHex(r[k])
  {
    "ORD-" + DateStamp(today) + "-" + TokenHex(t)
  }

  /** Reads a byte back from two upper-case hexadecimal digits. */
  function HexByte(hi: char, lo: char): byte
    requires IsUpperHex(hi) && IsUpperHex(lo)
  {
    (HexValue(hi) * 16 + HexValue(lo)) as byte
  }

  /** Decodes a string of the reference shape back into its date and bytes;
      `None` for any string that does not have the shape. */
  function ParseReference(s: string): Option<(Date, Token)> {
    if |s| == 19 && s[..4] == "ORD-" && s[12] == '-'
       && AllDigits(s[4..12]) && (forall k :: 13 <= k < 19 ==> IsUpperHex(s[k]))
    then
      var stamp := s[4..12];
      Some((Date(DecimalValue(stamp[..4]), DecimalValue(stamp[4..6]), DecimalValue(stamp[6..])),
            Token(HexByte(s[13], s[14]), HexByte(s[15], s[16]), HexByte(s[17], s[18]))))
    else None
  }

  /** Every generated reference decodes back to the date and bytes it was made from. */
  lemma ParseFormatted(today: Date, t: Token)
    requires ValidDate(today)
    ensures ParseReference(FormatReference(today, t)) == Some((today, t))
  {
    var r := FormatReference(today, t);
    var h := TokenHex(t);
    assert r[13..] == h;
    TokenHexBytes(t);
    ByteHexRoundTrip(t.b0);
    ByteHexRoundTrip(t.b1);
    ByteHexRoundTrip(t.b2);
    var stamp := r[4..12];
    assert stamp[..4] == DateStamp(today)[..4];
    assert stamp[4..6] == DateStamp(today)[4..6];
    assert stamp[6..] == DateStamp(today)[6..];
  }

  /** Two hexadecimal digits read back as the byte they were written from. */
  lemma ByteHexRoundTrip(b: byte)
    ensures HexByte(ByteHex(b)[0], ByteHex(b)[1]) == b
  {
  }

  /** The token's six characters are the two digits of each byte in turn. */
  lemma TokenHexBytes(t: Token)
    ensures var h := TokenHex(t);
            && h[0] == ByteHex(t.b0)[0] && h[1] == ByteHex(t.b0)[1]
            && h[2] == ByteHex(t.b1)[0] && h[3] == ByteHex(t.b1)[1]
            && h[4] == ByteHex(t.b2)[0] && h[5] == ByteHex(t.b2)[1]
  {
  }

  /** Two references generated on the same or different days are equal only when
      they come from the same date and the same random bytes: a collision needs
      the same day and the same 24 random bits. */
  lemma ReferenceInjective(d1: Date, t1: Token, d2: Date, t2: Token)
    requires ValidDate(d1) && ValidDate(d2)
    requires FormatReference(d1, t1) == FormatReference(d2, t2)
    ensures d1 == d2 && t1 == t2
  {
    ParseFormatted(d1, t1);
    ParseFormatted(d2, t2);
  }
}
