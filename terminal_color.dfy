/** `Rgb::from_str` of the log viewer's terminal colours
    (examples/logs/src/terminal/color.rs): "#rrggbb" or "0xrrggbb", two hexadecimal digits
    per component in either case; whatever follows the sixth digit is ignored. */
module TerminalColor {
  import opened Wrappers

  /** `u8`. */
  type Byte = n: nat | n < 256

  datatype Rgb = Rgb(r: Byte, g: Byte, b: Byte)

  /** `char::to_digit(16)`. */
  function HexValue(c: char): (v: Option<nat>)
    ensures v.Some? ==> v.value < 16
    ensures v.Some? <==> '0' <= c <= '9' || 'a' <= c <= 'f' || 'A' <= c <= 'F'
  {
    if '0' <= c <= '9' then Some(c as nat - '0' as nat)
    else if 'a' <= c <= 'f' then Some(c as nat - 'a' as nat + 10)
    else if 'A' <= c <= 'F' then Some(c as nat - 'A' as nat + 10)
    else None
  }

  /** The lower-case digit of a value below 16. */
  function HexDigit(v: nat): (c: char)
    requires v < 16
    ensures HexValue(c) == Some(v)
    ensures 'A' <= c <= 'F' ==> false
  {
    if v < 10 then ('0' as nat + v) as char else ('a' as nat + v - 10) as char
  }

  /** The length of an accepted prefix: 1 for '#', 2 for "0x". */
  function PrefixLength(s: string): (n: Option<nat>)
    ensures n.Some? ==> n.value <= |s|
    ensures n == Some(1) <==> |s| > 0 && s[0] == '#'
    ensures n == Some(2) <==> |s| > 1 && s[0] == '0' && s[1] == 'x'
    ensures n.None? <==> !(|s| > 0 && s[0] == '#') && !(|s| > 1 && s[0] == '0' && s[1] == 'x')
  {
    if |s| > 0 && s[0] == '#' then Some(1)
    else if |s| > 1 && s[0] == '0' && s[1] == 'x' then Some(2)
    else None
  }

  /** A component from its two digits: the high digit shifted up by four bits, the low
      one or-ed in. On digits below 16 the shift is a multiplication by 16 and the or an
      addition, which is how it is written here. */
  function Component(hi: nat, lo: nat): (c: Byte)
    requires hi < 16 && lo < 16
    ensures c / 16 == hi && c % 16 == lo
  {
    hi * 16 + lo
  }

  /** What `from_str` accepts: a prefix and six hexadecimal digits after it. */
  ghost predicate Accepted(s: string) {
    PrefixLength(s).Some? && PrefixLength(s).value + 6 <= |s| &&
    forall k :: PrefixLength(s).value <= k < PrefixLength(s).value + 6 ==> HexValue(s[k]).Some?
  }

  /** The colour of an accepted string. */
  ghost function Decoded(s: string): Rgb
    requires Accepted(s)
  {
    var p := PrefixLength(s).value;
    Rgb(Component(HexValue(s[p]).value, HexValue(s[p + 1]).value),
        Component(HexValue(s[p + 2]).value, HexValue(s[p + 3]).value),
        Component(HexValue(s[p + 4]).value, HexValue(s[p + 5]).value))
  }

  /** `from_str`: reads characters one at a time from a cursor; `Err` on a bad prefix or
      on a missing or non-hexadecimal digit, otherwise the colour. */
  method FromStr(s: string) returns (result: Result<Rgb, ()>)
    ensures result.Ok? <==> Accepted(s)
    ensures result.Ok? ==> result.value == Decoded(s)
  {
    var pos := 0;
    var rgb: Rgb;
    var first := if pos < |s| then Some(s[pos]) else None;
    pos := pos + 1;
    match first {
      case Some('0') =>
        var second := if pos < |s| then Some(s[pos]) else None;
        pos := pos + 1;
        if second != Some('x') {
          return Err(());
        }
      case Some('#') =>
      case _ =>
        return Err(());
    }
    assert PrefixLength(s) == Some(pos);
    var digits: seq<nat> := [];
    while |digits| < 6
      invariant pos == PrefixLength(s).value + |digits| <= |s|
      invariant forall k :: 0 <= k < |digits| ==> HexValue(s[PrefixLength(s).value + k]) == Some(digits[k])
    {
      var c := if pos < |s| then Some(s[pos]) else None;
      pos := pos + 1;
      var value := if c.Some? then HexValue(c.value) else None;
      if value.None? {
        assert !Accepted(s);
        return Err(());
      }
      digits := digits + [value.value];
    }
    rgb := Rgb(Component(digits[0], digits[1]), Component(digits[2], digits[3]), Component(digits[4], digits[5]));
    result := Ok(rgb);
  }

  /** The two lower-case digits of a byte. */
  function HexPair(b: Byte): (s: string)
    ensures |s| == 2
  {
    [HexDigit(b / 16), HexDigit(b % 16)]
  }

  /** The "#rrggbb" notation of a colour. */
  function Format(c: Rgb): (s: string)
    ensures |s| == 7
  {
    "#" + HexPair(c.r) + HexPair(c.g) + HexPair(c.b)
  }

  lemma ComponentOfPair(b: Byte)
    ensures Component(b / 16, b % 16) == b
  {
  }

  /** Any colour written as "#rrggbb" is accepted and reads back as the colour. */
  lemma FormatRoundTrip(c: Rgb)
    ensures Accepted(Format(c)) && Decoded(Format(c)) == c
  {
    var s := Format(c);
    assert PrefixLength(s) == Some(1);
    assert s[1..3] == HexPair(c.r) && s[3..5] == HexPair(c.g) && s[5..7] == HexPair(c.b);
    ComponentOfPair(c.r);
    ComponentOfPair(c.g);
    ComponentOfPair(c.b);
  }

  /** Characters after the six digits do not matter. */
  lemma TrailingIgnored(s: string, rest: string)
    requires Accepted(s)
    ensures Accepted(s + rest) && Decoded(s + rest) == Decoded(s)
  {
    var t := s + rest;
    assert PrefixLength(t) == PrefixLength(s) by {
      assert t[0] == s[0];
      if |s| > 1 {
        assert t[1] == s[1];
      }
    }
    var p := PrefixLength(s).value;
    assert forall k :: 0 <= k < p + 6 ==> t[k] == s[k];
  }

  /** A '0' that is not followed by 'x' is rejected, as is any other first character than
      '0' or '#', and the empty string. */
  lemma BadPrefixRejected(s: string)
    requires |s| == 0 || (s[0] != '#' && s[0] != '0') || (s[0] == '0' && (|s| < 2 || s[1] != 'x'))
    ensures !Accepted(s)
  {
  }
}
