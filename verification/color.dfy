/**
 Colours of the particle palette and the `hexToRgb` parser (js/bg.js),
 which reads `#RRGGBB` strings and falls back to opaque white.
 */
module Color {
  import opened Options

  datatype Rgb = Rgb(r: int, g: int, b: int)

  /** The fallback for anything the pattern rejects. */
  const White: Rgb := Rgb(255, 255, 255)

  predicate IsChannel(v: int) { 0 <= v <= 255 }

  predicate InGamut(c: Rgb) { IsChannel(c.r) && IsChannel(c.g) && IsChannel(c.b) }

  /** `[a-f\d]` under the `i` flag: ASCII digits and the letters a-f in either case. */
  predicate IsHexDigit(c: char) { '0' <= c <= '9' || 'a' <= c <= 'f' || 'A' <= c <= 'F' }

  predicate AllHex(s: string) { forall i :: 0 <= i < |s| ==> IsHexDigit(s[i]) }

  /**
   The language of `/^#?([a-f\d]{2})([a-f\d]{2})([a-f\d]{2})$/i`: six hex
   digits, with or without one leading `#`.
   */
  predicate IsHexColor(s: string)
  {
    || (|s| == 6 && AllHex(s))
    || (|s| == 7 && s[0] == '#' && AllHex(s[1..]))
  }

  function DigitValue(c: char): (v: nat)
    requires IsHexDigit(c)
    ensures v < 16
  {
    if '0' <= c <= '9' then c as int - '0' as int
    else if 'a' <= c <= 'f' then c as int - 'a' as int + 10
    else c as int - 'A' as int + 10
  }

  /** `parseInt(pair, 16)` for a two-digit capture. */
  function PairValue(hi: char, lo: char): (v: int)
    requires IsHexDigit(hi) && IsHexDigit(lo)
    ensures IsChannel(v)
  {
    16 * DigitValue(hi) + DigitValue(lo)
  }

  /** What `exec` yields: the three captured pairs, or no match. */
  function MatchHex(s: string): (m: Option<Rgb>)
    ensures m.Some? <==> IsHexColor(s)
    ensures m.Some? ==> InGamut(m.value)
  {
    var digits := if 0 < |s| && s[0] == '#' then s[1..] else s;
    if |digits| == 6 && AllHex(digits) then
      Some(Rgb(PairValue(digits[0], digits[1]),
               PairValue(digits[2], digits[3]),
               PairValue(digits[4], digits[5])))
    else
      None
  }

  /** `hexToRgb`: the matched channels, or white when the string does not match. */
  function HexToRgb(s: string): (c: Rgb)
    ensures InGamut(c)
    ensures !IsHexColor(s) ==> c == White
    ensures IsHexColor(s) ==> MatchHex(s) == Some(c)
  {
    MatchHex(s).GetOr(White)
  }

  /** An upper-case hex digit, the inverse of `DigitValue` on 0..15. */
  function HexChar(d: nat): (c: char)
    requires d < 16
    ensures IsHexDigit(c) && DigitValue(c) == d
  {
    if d < 10 then ('0' as int + d) as char else ('A' as int + d - 10) as char
  }

  /** `#RRGGBB` with upper-case digits, the form the palette is written in. */
  function ToHex(c: Rgb): (s: string)
    requires InGamut(c)
    ensures |s| == 7 && s[0] == '#'
  {
    ['#', HexChar(c.r / 16), HexChar(c.r % 16),
          HexChar(c.g / 16), HexChar(c.g % 16),
          HexChar(c.b / 16), HexChar(c.b % 16)]
  }

  /** Printing a colour and parsing it back gives the same colour. */
  lemma {:induction false} HexRoundTrip(c: Rgb)
    requires InGamut(c)
    ensures IsHexColor(ToHex(c))
    ensures HexToRgb(ToHex(c)) == c
  {
    var s := ToHex(c);
    assert AllHex(s[1..]) by {
      forall i | 0 <= i < 6 ensures IsHexDigit(s[1..][i]) {
        assert s[1..][i] == s[i + 1];
      }
    }
    assert s[1..] == [s[1], s[2], s[3], s[4], s[5], s[6]];
  }

  /** The leading `#` is optional: six characters parse the same with or without it. */
  lemma HashIsOptional(d: string)
    requires |d| == 6
    ensures HexToRgb("#" + d) == HexToRgb(d)
  {
    assert ("#" + d)[1..] == d;
  }

  function LowerChar(c: char): char
  {
    if 'A' <= c <= 'Z' then (c as int + 32) as char else c
  }

  function Lower(s: string): (t: string)
    ensures |t| == |s|
  {
    seq(|s|, i requires 0 <= i < |s| => LowerChar(s[i]))
  }

  /** Lower-casing keeps a character a hex digit, or not one, and keeps its value. */
  lemma LowerDigit(c: char)
    ensures IsHexDigit(LowerChar(c)) <==> IsHexDigit(c)
    ensures IsHexDigit(c) ==> DigitValue(LowerChar(c)) == DigitValue(c)
  {
  }

  lemma {:induction false} LowerAllHex(s: string)
    ensures AllHex(Lower(s)) <==> AllHex(s)
  {
    forall i | 0 <= i < |s| ensures IsHexDigit(Lower(s)[i]) <==> IsHexDigit(s[i]) {
      LowerDigit(s[i]);
    }
  }

  /** The match is case-insensitive: lower-casing the input changes neither acceptance nor value. */
  lemma {:induction false} CaseInsensitive(s: string)
    ensures IsHexColor(Lower(s)) <==> IsHexColor(s)
    ensures HexToRgb(Lower(s)) == HexToRgb(s)
  {
    var t := Lower(s);
    var ds := if 0 < |s| && s[0] == '#' then s[1..] else s;
    var dt := if 0 < |t| && t[0] == '#' then t[1..] else t;
    if 0 < |s| {
      assert t[0] == '#' <==> s[0] == '#';
      assert t[1..] == Lower(s[1..]);
    }
    assert dt == Lower(ds);
    LowerAllHex(ds);
    if |ds| == 6 && AllHex(ds) {
      LowerDigit(ds[0]);
      LowerDigit(ds[1]);
      LowerDigit(ds[2]);
      LowerDigit(ds[3]);
      LowerDigit(ds[4]);
      LowerDigit(ds[5]);
    }
  }

  /** The palette: seven warm yellow entries, and two accent colours drawn only rarely. */
  const Dominant: seq<string> :=
    ["#F5DF9A", "#F5DF9A", "#F5DF9A", "#F3F59A", "#F3F59A", "#F0EF75", "#F0EF75"]
  const Accents: seq<string> := ["#F47A27", "#A4F3F5"]

  /** The colours the palette strings denote, worked out by hand. */
  const DominantColors: set<Rgb> := {Rgb(245, 223, 154), Rgb(243, 245, 154), Rgb(240, 239, 117)}
  const AccentColors: set<Rgb> := {Rgb(244, 122, 39), Rgb(164, 243, 245)}

  /** Every palette entry is well formed, so no particle ever gets the white fallback,
      and the dominant and accent colours never coincide. */
  lemma PaletteDecodes()
    ensures forall i :: 0 <= i < |Dominant| ==> IsHexColor(Dominant[i]) && HexToRgb(Dominant[i]) in DominantColors
    ensures forall i :: 0 <= i < |Accents| ==> IsHexColor(Accents[i]) && HexToRgb(Accents[i]) in AccentColors
    ensures DominantColors !! AccentColors
    ensures White !in DominantColors && White !in AccentColors
  {
    HexLiteral("#F5DF9A");
    HexLiteral("#F3F59A");
    HexLiteral("#F0EF75");
    HexLiteral("#F47A27");
    HexLiteral("#A4F3F5");
  }

  /** A `#` and six hex digits decode pair by pair. */
  lemma HexLiteral(s: string)
    requires |s| == 7 && s[0] == '#'
    requires forall i :: 1 <= i < 7 ==> IsHexDigit(s[i])
    ensures IsHexColor(s)
    ensures HexToRgb(s) == Rgb(PairValue(s[1], s[2]), PairValue(s[3], s[4]), PairValue(s[5], s[6]))
  {
    var d := s[1..];
    forall i | 0 <= i < 6 ensures d[i] == s[i + 1] && IsHexDigit(d[i]) { }
  }
}
