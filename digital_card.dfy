/**
 * Pieces of the digital card (src/components/dashboard/DigitalCard.tsx): the
 * `hexToRgba` colour conversion, the vCard text of "save contact", and the
 * `pixEnabled` flag.  The alpha value is a number the card computes in
 * floating point; here it is the text that the template prints for it.
 */
module DigitalCard {
  import opened Common

  /** `[a-f\d]` under the `i` flag. */
  predicate IsHexDigit(c: char)
  {
    '0' <= c <= '9' || 'a' <= c <= 'f' || 'A' <= c <= 'F'
  }

  predicate AllHex(s: string) { forall i :: 0 <= i < |s| ==> IsHexDigit(s[i]) }

  function HexDigitValue(c: char): (v: nat)
    requires IsHexDigit(c)
    ensures v < 16
  {
    if '0' <= c <= '9' then c as int - '0' as int
    else if 'a' <= c <= 'f' then c as int - 'a' as int + 10
    else c as int - 'A' as int + 10
  }

  /** `parseInt(pair, 16)` for two hex digits. */
  function PairValue(a: char, b: char): (v: nat)
    requires IsHexDigit(a) && IsHexDigit(b)
    ensures v < 256
  {
    16 * HexDigitValue(a) + HexDigitValue(b)
  }

  datatype Rgb = Rgb(red: nat, green: nat, blue: nat)

  /** `/^#?([a-f\d]{2})([a-f\d]{2})([a-f\d]{2})$/i.exec(hex)`, giving the three byte values. */
  function MatchHex(hex: string): (r: Option<Rgb>)
    ensures r.Some? ==> r.value.red < 256 && r.value.green < 256 && r.value.blue < 256
  {
    var digits := if |hex| == 7 && hex[0] == '#' then hex[1..] else hex;
    if |digits| == 6 && AllHex(digits) then
      Some(Rgb(PairValue(digits[0], digits[1]), PairValue(digits[2], digits[3]), PairValue(digits[4], digits[5])))
    else None
  }

  /** The pattern matches exactly six hex digits in either case, optionally after one "#". */
  lemma MatchHexIff(hex: string)
    ensures MatchHex(hex).Some? <==>
      (|hex| == 6 && AllHex(hex)) || (|hex| == 7 && hex[0] == '#' && AllHex(hex[1..]))
  {
  }

  /** A short form such as "#fff" does not match. */
  lemma ShortFormRejected()
    ensures MatchHex("#fff") == None
  {
  }

  /** The lower-case digit for a value below 16. */
  function HexChar(d: nat): (c: char)
    requires d < 16
    ensures IsHexDigit(c) && HexDigitValue(c) == d
  {
    if d < 10 then ('0' as int + d) as char else ('a' as int + d - 10) as char
  }

  /** Two lower-case digits for a byte. */
  function Byte2(v: nat): (s: string)
    requires v < 256
    ensures |s| == 2 && AllHex(s) && PairValue(s[0], s[1]) == v
  {
    [HexChar(v / 16), HexChar(v % 16)]
  }

  /** The colour notation "#rrggbb" of three bytes. */
  function HexNotation(c: Rgb): string
    requires c.red < 256 && c.green < 256 && c.blue < 256
  {
    "#" + Byte2(c.red) + Byte2(c.green) + Byte2(c.blue)
  }

  /** Reading the notation of a colour gives that colour back. */
  lemma MatchHexNotation(c: Rgb)
    requires c.red < 256 && c.green < 256 && c.blue < 256
    ensures MatchHex(HexNotation(c)) == Some(c)
  {
    var h := HexNotation(c);
    var r, g, b := Byte2(c.red), Byte2(c.green), Byte2(c.blue);
    assert h[1..] == r + g + b;
    assert h[1..][0] == r[0] && h[1..][1] == r[1];
    assert h[1..][2] == g[0] && h[1..][3] == g[1];
    assert h[1..][4] == b[0] && h[1..][5] == b[1];
  }

  /** Upper-case digits read the same as lower-case ones. */
  lemma MatchHexCaseInsensitive(hex: string)
    ensures MatchHex(ToUpper(hex)) == MatchHex(hex)
  {
    var u := ToUpper(hex);
    if |hex| == 7 && hex[0] == '#' {
      assert u[0] == '#';
      UpperDigits(hex[1..], u[1..]);
    } else {
      assert |u| == 7 ==> u[0] != '#' by {
        if |u| == 7 { assert u[0] == UpperChar(hex[0]); }
      }
      UpperDigits(hex, u);
    }
  }

  lemma UpperHexDigit(c: char)
    ensures IsHexDigit(UpperChar(c)) <==> IsHexDigit(c)
    ensures IsHexDigit(c) ==> HexDigitValue(UpperChar(c)) == HexDigitValue(c)
  {
  }

  /** Digits and their upper-case forms: the same hex test and the same three pair values. */
  lemma UpperDigits(d: string, e: string)
    requires |e| == |d| && forall i :: 0 <= i < |d| ==> e[i] == UpperChar(d[i])
    ensures AllHex(e) <==> AllHex(d)
    ensures |d| == 6 && AllHex(d) ==>
      PairValue(e[0], e[1]) == PairValue(d[0], d[1]) && PairValue(e[2], e[3]) == PairValue(d[2], d[3]) &&
      PairValue(e[4], e[5]) == PairValue(d[4], d[5])
  {
    forall i | 0 <= i < |d|
      ensures IsHexDigit(e[i]) <==> IsHexDigit(d[i])
      ensures IsHexDigit(d[i]) ==> HexDigitValue(e[i]) == HexDigitValue(d[i])
    {
      UpperHexDigit(d[i]);
    }
  }

  /** `rgba(r, g, b, alpha)` */
  function RgbaText(c: Rgb, alpha: string): string
  {
    "rgba(" + DecStr(c.red) + ", " + DecStr(c.green) + ", " + DecStr(c.blue) + ", " + alpha + ")"
  }

  /** `hexToRgba(hex, alpha)`: an "rgb…" text or an unmatched one comes back unchanged. */
  function HexToRgba(hex: string, alpha: string): (r: string)
    ensures StartsWith(hex, "rgb") ==> r == hex
    ensures MatchHex(hex).None? ==> r == hex
    ensures !StartsWith(hex, "rgb") && MatchHex(hex).Some? ==> r == RgbaText(MatchHex(hex).value, alpha)
  {
    if StartsWith(hex, "rgb") then hex
    else
      var result := MatchHex(hex);
      if result.None? then hex
      else RgbaText(result.value, alpha)
  }

  /** The colour of a "#rrggbb" notation is printed as its three byte values. */
  lemma HexToRgbaNotation(c: Rgb, alpha: string)
    requires c.red < 256 && c.green < 256 && c.blue < 256
    ensures HexToRgba(HexNotation(c), alpha) == RgbaText(c, alpha)
  {
    var h := HexNotation(c);
    assert !StartsWith(h, "rgb") by {
      assert h[0] == '#';
      assert |h| >= 3 ==> h[..3][0] == '#';
    }
    MatchHexNotation(c);
  }

  /** The card fields the vCard uses; absent optional fields are `None`. */
  datatype CardProfile = CardProfile(
    name: string, email: Option<string>, phone: Option<string>, website: Option<string>, bio: Option<string>)

  /** A JavaScript truthiness test on an optional text. */
  predicate Truthy(x: Option<string>) { x.Some? && x.value != [] }

  /** `${x ? `${tag}${x}` : ''}` */
  function OptionalLine(tag: string, x: Option<string>): (r: string)
    ensures r != [] <==> Truthy(x)
  {
    if Truthy(x) then tag + x.value else ""
  }

  /** The eight lines of the template, before they are joined with line feeds. */
  function VCardLines(p: CardProfile): (r: seq<string>)
    ensures |r| == 8
  {
    ["BEGIN:VCARD", "VERSION:3.0", "FN:" + p.name,
     OptionalLine("EMAIL:", p.email), OptionalLine("TEL:", p.phone),
     OptionalLine("URL:", p.website), OptionalLine("NOTE:", p.bio), "END:VCARD"]
  }

  /** The vCard template literal. */
  function VCard(p: CardProfile): string
  {
    Join(VCardLines(p), "\n")
  }

  predicate NoLineFeed(x: Option<string>) { x.None? || '\n' !in x.value }

  /**
   * When no field contains a line feed, splitting the text at line feeds gives
   * back exactly the eight lines of the template.
   */
  lemma VCardSplit(p: CardProfile)
    requires '\n' !in p.name && NoLineFeed(p.email) && NoLineFeed(p.phone)
    requires NoLineFeed(p.website) && NoLineFeed(p.bio)
    ensures Split(VCard(p), '\n') == VCardLines(p)
  {
    var ls := VCardLines(p);
    OptionalLineNoLineFeed("EMAIL:", p.email);
    OptionalLineNoLineFeed("TEL:", p.phone);
    OptionalLineNoLineFeed("URL:", p.website);
    OptionalLineNoLineFeed("NOTE:", p.bio);
    forall i | 0 <= i < |ls|
      ensures '\n' !in ls[i]
    {
      if i == 0 {
      } else if i == 1 {
      } else if i == 2 {
        assert ls[2] == "FN:" + p.name;
      } else if i == 7 {
      }
    }
    SplitJoin(ls, '\n');
  }

  /**
   * The lines: the EMAIL, TEL, URL and NOTE lines are empty exactly when their
   * field is missing or empty, and values are written as they are, without
   * escaping.
   */
  lemma VCardLinesShape(p: CardProfile)
    ensures var lines := VCardLines(p);
      lines[0] == "BEGIN:VCARD" && lines[1] == "VERSION:3.0" &&
      lines[2] == "FN:" + p.name && lines[7] == "END:VCARD" &&
      (lines[3] != [] <==> Truthy(p.email)) && (lines[4] != [] <==> Truthy(p.phone)) &&
      (lines[5] != [] <==> Truthy(p.website)) && (lines[6] != [] <==> Truthy(p.bio)) &&
      (Truthy(p.email) ==> lines[3] == "EMAIL:" + p.email.value) &&
      (Truthy(p.phone) ==> lines[4] == "TEL:" + p.phone.value) &&
      (Truthy(p.website) ==> lines[5] == "URL:" + p.website.value) &&
      (Truthy(p.bio) ==> lines[6] == "NOTE:" + p.bio.value)
  {
  }

  lemma OptionalLineNoLineFeed(tag: string, x: Option<string>)
    requires '\n' !in tag && NoLineFeed(x)
    ensures '\n' !in OptionalLine(tag, x)
  {
  }

  /** `!!(profile.pix_enabled && profile.pix_key)` */
  function PixEnabled(pixEnabled: Option<bool>, pixKey: Option<string>): (r: bool)
    ensures r <==> pixEnabled == Some(true) && Truthy(pixKey)
  {
    pixEnabled.Some? && pixEnabled.value && pixKey.Some? && pixKey.value != []
  }
}
