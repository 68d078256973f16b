/** The entities of the books service: the `Book` record, the `Guid` that keys it,
    the canonical text of a `Guid` (used in the `Location` header), and the title
    check `string.IsNullOrWhiteSpace` that `Create` applies. */
module Books {

  /** A nullable reference: `None` plays the part of C#'s `null`. */
  datatype Option<+T> = None | Some(value: T)

  /** The number of distinct Guids: 2^128. */
  const GuidCount: nat := 0x1_0000_0000_0000_0000_0000_0000_0000_0000

  /** `System.Guid`, taken as the 128-bit number whose 32 hexadecimal digits are
      the ones its canonical text spells out. */
  newtype Guid = x: int | 0 <= x < GuidCount

  /** A book as stored by the repository. C#'s `Book` class has settable
      properties; no stored book is changed through a reference, so it is a value
      here. */
  datatype Book = Book(id: Guid, title: string)

  // ---------------------------------------------------------------------------
  // string.IsNullOrWhiteSpace

  /** `char.IsWhiteSpace`: the Unicode space, line and paragraph separators
      (categories Zs, Zl, Zp) together with U+0009..U+000D and U+0085. */
  predicate IsWhiteSpace(c: char) {
    || c == ' '
    || '\t' <= c <= '\r'
    || c == '\U{0085}'
    || c == '\U{00A0}'
    || c == '\U{1680}'
    || '\U{2000}' <= c <= '\U{200A}'
    || c == '\U{2028}'
    || c == '\U{2029}'
    || c == '\U{202F}'
    || c == '\U{205F}'
    || c == '\U{3000}'
  }

  /** Scans the string from the front and stops at the first character that is
      not white space. */
  function AllWhiteSpace(s: string): (r: bool)
    ensures r <==> forall i | 0 <= i < |s| :: IsWhiteSpace(s[i])
  {
    if s == [] then true
    else if !IsWhiteSpace(s[0]) then false
    else
      var rest := AllWhiteSpace(s[1..]);
      assert forall i | 1 <= i < |s| :: s[i] == s[1..][i - 1];
      rest
  }

  /** `string.IsNullOrWhiteSpace`: null, empty, or nothing but white space. */
  function IsNullOrWhiteSpace(title: Option<string>): (r: bool)
    ensures title == None ==> r
    ensures title == Some([]) ==> r
    ensures r <==> title.None? || forall i | 0 <= i < |title.value| :: IsWhiteSpace(title.value[i])
  {
    match title
    case None => true
    case Some(s) => AllWhiteSpace(s)
  }

  // ---------------------------------------------------------------------------
  // Canonical ("D") text of a Guid: 8-4-4-4-12 lower-case hexadecimal digits

  function Pow16(k: nat): (p: nat)
    ensures p >= 1
  {
    if k == 0 then 1 else 16 * Pow16(k - 1)
  }

  predicate IsLowerHex(c: char) {
    '0' <= c <= '9' || 'a' <= c <= 'f'
  }

  function HexChar(d: nat): (c: char)
    requires d < 16
    ensures IsLowerHex(c)
  {
    if d < 10 then '0' + d as char else 'a' + (d - 10) as char
  }

  /** The value of one lower-case hexadecimal digit. */
  function DigitValue(c: char): (d: nat)
    requires IsLowerHex(c)
    ensures d < 16
  {
    if c <= '9' then (c - '0') as nat else (c - 'a') as nat + 10
  }

  lemma DigitRoundTrip(d: nat)
    requires d < 16
    ensures DigitValue(HexChar(d)) == d
  {
  }

  /** The last `width` hexadecimal digits of `n`, most significant first. */
  function HexDigits(n: nat, width: nat): (s: string)
    ensures |s| == width
    ensures forall i | 0 <= i < |s| :: IsLowerHex(s[i])
  {
    if width == 0 then [] else HexDigits(n / 16, width - 1) + [HexChar(n % 16)]
  }

  /** The number a string of lower-case hexadecimal digits denotes. */
  function HexValue(s: string): nat
    requires forall i | 0 <= i < |s| :: IsLowerHex(s[i])
  {
    if s == [] then 0 else 16 * HexValue(s[..|s| - 1]) + DigitValue(s[|s| - 1])
  }

  /** Every number below 16^width is written out exactly by `width` digits. */
  lemma {:induction false} HexRoundTrip(n: nat, width: nat)
    requires n < Pow16(width)
    ensures HexValue(HexDigits(n, width)) == n
  {
    if width > 0 {
      var s := HexDigits(n, width);
      assert n / 16 < Pow16(width - 1);
      HexRoundTrip(n / 16, width - 1);
      assert s[..|s| - 1] == HexDigits(n / 16, width - 1);
      DigitRoundTrip(n % 16);
    }
  }

  lemma {:induction false} Pow16Add(a: nat, b: nat)
    ensures Pow16(a + b) == Pow16(a) * Pow16(b)
  {
    if a > 0 {
      Pow16Add(a - 1, b);
    }
  }

  /** 32 hexadecimal digits cover every Guid. */
  lemma GuidCountIsPow16()
    ensures Pow16(32) == GuidCount
  {
    assert Pow16(4) == 0x1_0000;
    Pow16Add(4, 4);
    Pow16Add(8, 8);
    Pow16Add(16, 16);
  }

  /** 32 digits grouped as 8-4-4-4-12 and joined by hyphens. */
  function Group(d: string): (r: string)
    requires |d| == 32
    ensures |r| == 36
    ensures r[8] == r[13] == r[18] == r[23] == '-'
    ensures forall i | 0 <= i < 8 :: r[i] == d[i]
    ensures forall i | 9 <= i < 13 :: r[i] == d[i - 1]
    ensures forall i | 14 <= i < 18 :: r[i] == d[i - 2]
    ensures forall i | 19 <= i < 23 :: r[i] == d[i - 3]
    ensures forall i | 24 <= i < 36 :: r[i] == d[i - 4]
  {
    d[..8] + "-" + d[8..12] + "-" + d[12..16] + "-" + d[16..20] + "-" + d[20..]
  }

  /** The digits of a canonical Guid text with its four hyphens taken out. */
  function Ungroup(s: string): (d: string)
    requires |s| == 36
    ensures |d| == 32
  {
    s[..8] + s[9..13] + s[14..18] + s[19..23] + s[24..]
  }

  lemma UngroupGroup(d: string)
    requires |d| == 32
    ensures Ungroup(Group(d)) == d
  {
  }

  /** `Guid.ToString()`: the canonical 8-4-4-4-12 text of the 32 digits. */
  function FormatGuid(g: Guid): (r: string)
    ensures |r| == 36
    ensures forall i | i in {8, 13, 18, 23} :: r[i] == '-'
    ensures forall i | 0 <= i < 36 && i !in {8, 13, 18, 23} :: IsLowerHex(r[i])
  {
    Group(HexDigits(g as nat, 32))
  }

  /** Reading the canonical text back gives the Guid it was made from. */
  lemma ParseFormatGuid(g: Guid)
    ensures var d := Ungroup(FormatGuid(g));
            (forall i | 0 <= i < |d| :: IsLowerHex(d[i])) && HexValue(d) == g as nat
  {
    UngroupGroup(HexDigits(g as nat, 32));
    GuidCountIsPow16();
    HexRoundTrip(g as nat, 32);
  }

  /** Distinct Guids have distinct texts. */
  lemma FormatGuidInjective(a: Guid, b: Guid)
    ensures FormatGuid(a) == FormatGuid(b) ==> a == b
  {
    ParseFormatGuid(a);
    ParseFormatGuid(b);
  }
}
