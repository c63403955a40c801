/** `TextAttributor` of the log viewer (examples/logs/src/terminal/text_attributor.rs):
    collects the text that terminal actions print together with the attributes (colour
    and boldness) in effect, one attribute per byte of the text, and turns them into
    ranges of equal attributes.

    Terminal actions are an abstract enum holding the cases the attributor reacts to;
    every other action is `OtherAction`. `rgb_to_color` is the identity here: a colour
    stays the `Rgb` it came from. */
module TextAttributor {
  import opened Wrappers
  import opened TerminalColor
  import opened AttributedText

  /** `TextWeight::NORMAL` and `TextWeight::BOLD`. */
  datatype Weight = Normal | Bold

  /** `Attributes`. */
  datatype Attributes = Attributes(foregroundColor: Rgb, bold: bool)

  /** `TextAttribute`. */
  datatype TextAttribute = TextAttribute(range: Range, color: Rgb, weight: Weight)

  /** The colour scheme: the primary foreground, and the normal and bright palettes. */
  datatype Scheme = Scheme(foreground: Rgb, normal: seq<Rgb>, bright: seq<Rgb>)

  datatype ControlCode = LineFeed | CarriageReturn | OtherControl
  datatype Intensity = NormalIntensity | BoldIntensity | Half
  datatype ColorSpec = DefaultColor | PaletteIndex(index: Byte) | TrueColor
  datatype Sgr = Reset | SetIntensity(intensity: Intensity) | Foreground(spec: ColorSpec) | OtherSgr

  /** `escape::Action`, the cases `process` tells apart. */
  datatype Action = Print(ch: char) | PrintString(s: string) | Control(code: ControlCode) | CsiSgr(sgr: Sgr) | OtherAction

  /** The number of bytes of a character in UTF-8 (`char::len_utf8`). */
  function Utf8Len(c: char): (n: nat)
    ensures 1 <= n <= 4
    ensures n == 1 <==> (c as int) < 0x80
  {
    if (c as int) < 0x80 then 1 else if (c as int) < 0x800 then 2 else if (c as int) < 0x10000 then 3 else 4
  }

  /** The number of bytes of a string in UTF-8 (`str::len`). */
  function ByteLen(s: string): (n: nat)
    ensures n >= |s|
  {
    if s == [] then 0 else ByteLen(s[..|s| - 1]) + Utf8Len(s[|s| - 1])
  }

  lemma {:induction false} ByteLenAppend(s: string, t: string)
    ensures ByteLen(s + t) == ByteLen(s) + ByteLen(t)
    decreases |t|
  {
    if t == [] {
      assert s + t == s;
    } else {
      assert (s + t)[..|s + t| - 1] == s + t[..|t| - 1];
      ByteLenAppend(s, t[..|t| - 1]);
    }
  }

  function Repeat<T>(x: T, n: nat): (r: seq<T>)
    ensures |r| == n && forall i :: 0 <= i < n ==> r[i] == x
  {
    seq(n, _ => x)
  }

  /** The attributor's state. */
  datatype State = State(default: Attributes, current: Attributes, scheme: Scheme, text: string, attributes: seq<Attributes>)

  /** `new`: no text; the default attributes are the scheme's foreground, not bold. */
  function Initial(scheme: Scheme): (s: State)
    ensures s.text == [] && s.attributes == []
    ensures s.default == s.current == Attributes(scheme.foreground, false)
  {
    var d := Attributes(scheme.foreground, false);
    State(d, d, scheme, [], [])
  }

  /** The attributes after an SGR action; an index beyond the palette panics. */
  function AfterSgr(s: State, sgr: Sgr): Outcome<Attributes> {
    match sgr
    case Reset => Returns(s.default)
    case SetIntensity(NormalIntensity) => Returns(s.current.(bold := false))
    case SetIntensity(BoldIntensity) => Returns(s.current.(bold := true))
    case SetIntensity(Half) => Returns(s.current)
    case Foreground(DefaultColor) => Returns(s.current.(foregroundColor := s.default.foregroundColor))
    case Foreground(PaletteIndex(i)) =>
      if i > 7 then
        (if i - 8 < |s.scheme.bright| then Returns(s.current.(foregroundColor := s.scheme.bright[i - 8])) else Panics)
      else
        (if i < |s.scheme.normal| then Returns(s.current.(foregroundColor := s.scheme.normal[i])) else Panics)
    case Foreground(TrueColor) => Returns(s.current)
    case OtherSgr => Returns(s.current)
  }

  /** The text an action prints: the character or string, '\n' or '\r' for a line feed
      or carriage return, nothing otherwise. */
  function Printed(a: Action): string {
    match a
    case Print(c) => [c]
    case PrintString(t) => t
    case Control(LineFeed) => "\n"
    case Control(CarriageReturn) => "\r"
    case _ => []
  }

  /** `process` as written: a printed character gets a single attribute, whatever its
      UTF-8 length, while a printed string gets one per byte. */
  function StepAsWritten(s: State, a: Action): Outcome<State> {
    match a
    case Print(c) => Returns(s.(text := s.text + [c], attributes := s.attributes + [s.current]))
    case CsiSgr(sgr) =>
      (match AfterSgr(s, sgr)
       case Returns(cur) => Returns(s.(current := cur))
       case Panics => Panics)
    case _ =>
      var t := Printed(a);
      Returns(s.(text := s.text + t, attributes := s.attributes + Repeat(s.current, ByteLen(t))))
  }

  /** `process` with one attribute per byte of every printed character, as the
      attribute ranges (which are byte ranges) require. */
  function Step(s: State, a: Action): Outcome<State> {
    match a
    case CsiSgr(sgr) =>
      (match AfterSgr(s, sgr)
       case Returns(cur) => Returns(s.(current := cur))
       case Panics => Panics)
    case _ =>
      var t := Printed(a);
      Returns(s.(text := s.text + t, attributes := s.attributes + Repeat(s.current, ByteLen(t))))
  }

  /** One attribute per byte of the text. */
  ghost predicate Valid(s: State) {
    |s.attributes| == ByteLen(s.text)
  }

  /** `process` keeps one attribute per byte of the text. */
  lemma StepKeepsValid(s: State, a: Action)
    requires Valid(s)
    ensures Step(s, a).Returns? ==> Valid(Step(s, a).value)
  {
    if !a.CsiSgr? {
      ByteLenAppend(s.text, Printed(a));
    }
  }

  /** Printing actions append their text and one attribute in effect per byte of it, and
      change no attributes; a control code other than line feed and carriage return
      changes nothing. */
  lemma PrintingAppends(s: State, a: Action)
    requires !a.CsiSgr?
    ensures Step(s, a).Returns?
    ensures var r := Step(s, a).value;
      r.text == s.text + Printed(a) &&
      r.attributes == s.attributes + Repeat(s.current, ByteLen(Printed(a))) &&
      r.current == s.current && r.default == s.default
    ensures a.Control? && a.code.OtherControl? ==> Step(s, a).value == s
    ensures a.OtherAction? ==> Step(s, a).value == s
  {
    if Printed(a) == [] {
      assert s.text + [] == s.text && s.attributes + [] == s.attributes;
    }
  }

  /** SGR actions change only the attributes in effect: Reset restores the default, Bold
      and Normal intensity set and clear bold and keep the colour, Half changes nothing,
      the default foreground restores the default colour, and a palette index above 7
      picks `bright[i - 8]`, otherwise `normal[i]`. */
  lemma SgrSetsAttributes(s: State, sgr: Sgr)
    ensures var r := Step(s, CsiSgr(sgr));
      r.Returns? ==> r.value.text == s.text && r.value.attributes == s.attributes && r.value.default == s.default
    ensures sgr == Reset ==> Step(s, CsiSgr(sgr)) == Returns(s.(current := s.default))
    ensures sgr == SetIntensity(BoldIntensity) ==> Step(s, CsiSgr(sgr)) == Returns(s.(current := Attributes(s.current.foregroundColor, true)))
    ensures sgr == SetIntensity(NormalIntensity) ==> Step(s, CsiSgr(sgr)) == Returns(s.(current := Attributes(s.current.foregroundColor, false)))
    ensures sgr == SetIntensity(Half) ==> Step(s, CsiSgr(sgr)) == Returns(s)
    ensures sgr == Foreground(DefaultColor) ==> Step(s, CsiSgr(sgr)) == Returns(s.(current := Attributes(s.default.foregroundColor, s.current.bold)))
    ensures sgr.Foreground? && sgr.spec.PaletteIndex? && sgr.spec.index > 7 ==>
      (Step(s, CsiSgr(sgr)).Panics? <==> sgr.spec.index - 8 >= |s.scheme.bright|) &&
      (Step(s, CsiSgr(sgr)).Returns? ==> Step(s, CsiSgr(sgr)).value.current.foregroundColor == s.scheme.bright[sgr.spec.index - 8])
    ensures sgr.Foreground? && sgr.spec.PaletteIndex? && sgr.spec.index <= 7 ==>
      (Step(s, CsiSgr(sgr)).Panics? <==> sgr.spec.index >= |s.scheme.normal|) &&
      (Step(s, CsiSgr(sgr)).Returns? ==> Step(s, CsiSgr(sgr)).value.current.foregroundColor == s.scheme.normal[sgr.spec.index])
  {
  }

  /** The text attribute of a range with given attributes. */
  function Ta(range: Range, a: Attributes): TextAttribute {
    TextAttribute(range, a.foregroundColor, if a.bold then Bold else Normal)
  }

  /** `ranges` are the maximal runs of equal attributes among the first `n`: they tile
      `0..n`, carry the attributes of every position they span, and each ends where the
      attributes change. */
  ghost predicate RunsUpTo(ranges: seq<TextAttribute>, attrs: seq<Attributes>, n: nat) {
    n <= |attrs| && Tiles(ranges, n) && Uniform(ranges, attrs) && Maximal(ranges, attrs)
  }

  /** The ranges start at 0, end at `n`, follow each other without gaps and are not empty. */
  ghost predicate Tiles(ranges: seq<TextAttribute>, n: nat) {
    (ranges == [] <==> n == 0) &&
    (ranges != [] ==> ranges[0].range.start == 0 && ranges[|ranges| - 1].range.end == n) &&
    (forall k :: 0 <= k < |ranges| - 1 ==> ranges[k].range.end == ranges[k + 1].range.start) &&
    (forall k :: 0 <= k < |ranges| ==> ranges[k].range.start < ranges[k].range.end <= n)
  }

  /** Every position a range spans has the range's attributes. */
  ghost predicate Uniform(ranges: seq<TextAttribute>, attrs: seq<Attributes>) {
    forall k, p :: 0 <= k < |ranges| && ranges[k].range.start <= p < ranges[k].range.end && p < |attrs| ==> Ta(ranges[k].range, attrs[p]) == ranges[k]
  }

  /** The attributes change where a range ends, unless it ends the attributes. */
  ghost predicate Maximal(ranges: seq<TextAttribute>, attrs: seq<Attributes>) {
    forall k :: 0 <= k < |ranges| && 0 < ranges[k].range.end < |attrs| ==> attrs[ranges[k].range.end - 1] != attrs[ranges[k].range.end]
  }

  lemma TilesStep(ranges: seq<TextAttribute>, start: nat, i: nat, last: TextAttribute)
    requires Tiles(ranges, start) && start < i && last.range == Range(start, i)
    ensures Tiles(ranges + [last], i)
  {
    var r := ranges + [last];
    forall k | 0 <= k < |r| - 1
      ensures r[k].range.end == r[k + 1].range.start
    {
      if k + 1 < |ranges| {
        assert r[k + 1] == ranges[k + 1];
      }
    }
  }

  lemma UniformStep(ranges: seq<TextAttribute>, attrs: seq<Attributes>, start: nat, i: nat)
    requires Uniform(ranges, attrs) && start < i <= |attrs|
    requires forall p :: start <= p < i ==> attrs[p] == attrs[start]
    ensures Uniform(ranges + [Ta(Range(start, i), attrs[start])], attrs)
  {
    var r := ranges + [Ta(Range(start, i), attrs[start])];
    forall k, p | 0 <= k < |r| && r[k].range.start <= p < r[k].range.end && p < |attrs|
      ensures Ta(r[k].range, attrs[p]) == r[k]
    {
      if k < |ranges| {
        assert r[k] == ranges[k];
      } else {
        assert attrs[p] == attrs[start];
      }
    }
  }

  lemma MaximalStep(ranges: seq<TextAttribute>, attrs: seq<Attributes>, last: TextAttribute)
    requires Maximal(ranges, attrs) && 0 < last.range.end <= |attrs|
    requires last.range.end < |attrs| ==> attrs[last.range.end - 1] != attrs[last.range.end]
    ensures Maximal(ranges + [last], attrs)
  {
    var r := ranges + [last];
    forall k | 0 <= k < |r| && 0 < r[k].range.end < |attrs|
      ensures attrs[r[k].range.end - 1] != attrs[r[k].range.end]
    {
      if k < |ranges| {
        assert r[k] == ranges[k];
      }
    }
  }

  lemma CloseRun(ranges: seq<TextAttribute>, attrs: seq<Attributes>, start: nat, i: nat)
    requires RunsUpTo(ranges, attrs, start)
    requires start < i <= |attrs|
    requires forall p :: start <= p < i ==> attrs[p] == attrs[start]
    requires i < |attrs| ==> attrs[i - 1] != attrs[i]
    ensures RunsUpTo(ranges + [Ta(Range(start, i), attrs[start])], attrs, i)
  {
    var last := Ta(Range(start, i), attrs[start]);
    TilesStep(ranges, start, i, last);
    UniformStep(ranges, attrs, start, i);
    MaximalStep(ranges, attrs, last);
  }

  /** The ranges of maximal runs, turned into plain ranges. */
  function RangesOf(ranges: seq<TextAttribute>): (r: seq<Range>)
    ensures |r| == |ranges| && forall k :: 0 <= k < |ranges| ==> r[k] == ranges[k].range
  {
    seq(|ranges|, k requires 0 <= k < |ranges| => ranges[k].range)
  }

  /** Maximal runs over all attributes cover `0..|attrs|`, so `shape_text`'s check
      accepts them for a text of that many bytes. */
  lemma RunsCover(ranges: seq<TextAttribute>, attrs: seq<Attributes>)
    requires RunsUpTo(ranges, attrs, |attrs|)
    ensures AssertCoversAllText(RangesOf(ranges), |attrs|).Returns?
  {
    var r := RangesOf(ranges);
    if attrs != [] {
      assert Covers(r, |attrs|);
    }
  }

  /** With one attribute per byte, the ranges the attributor produces cover its text. */
  lemma ValidRangesCoverText(s: State, ranges: seq<TextAttribute>)
    requires Valid(s) && RunsUpTo(ranges, s.attributes, |s.attributes|)
    ensures AssertCoversAllText(RangesOf(ranges), ByteLen(s.text)).Returns?
  {
    RunsCover(ranges, s.attributes);
  }

  /** Maximal runs over the attributes end at `|attrs|`, so they fail `shape_text`'s check
      for a non-empty text of any other byte length. */
  lemma RunsMismatchPanics(ranges: seq<TextAttribute>, attrs: seq<Attributes>, textLen: nat)
    requires RunsUpTo(ranges, attrs, |attrs|)
    requires textLen > 0 && textLen != |attrs|
    ensures AssertCoversAllText(RangesOf(ranges), textLen).Panics?
  {
    var r := RangesOf(ranges);
    if r != [] {
      assert r[|r| - 1] == ranges[|ranges| - 1].range;
    }
  }

  /** As written, printing one multi-byte character ('é', two bytes in UTF-8) gives one
      attribute for two bytes of text, and the ranges then fail `shape_text`'s check. */
  lemma MultibytePrintBreaksCoverage(scheme: Scheme, ranges: seq<TextAttribute>)
    requires var s := StepAsWritten(Initial(scheme), Print('é'));
      s.Returns? && RunsUpTo(ranges, s.value.attributes, |s.value.attributes|)
    ensures var s := StepAsWritten(Initial(scheme), Print('é')).value;
      |s.attributes| == 1 && ByteLen(s.text) == 2 &&
      AssertCoversAllText(RangesOf(ranges), ByteLen(s.text)).Panics?
  {
    var s := StepAsWritten(Initial(scheme), Print('é')).value;
    assert s.text == ['é'];
    assert ByteLen(s.text) == ByteLen([]) + Utf8Len('é');
    RunsMismatchPanics(ranges, s.attributes, ByteLen(s.text));
  }

  /** The corrected step gives the same character two attributes, and the ranges cover. */
  lemma MultibytePrintCovered(scheme: Scheme)
    ensures var s := Step(Initial(scheme), Print('é'));
      s.Returns? && |s.value.attributes| == 2 == ByteLen(s.value.text)
  {
    var s := Step(Initial(scheme), Print('é')).value;
    assert s.text == [] + ['é'];
    assert ByteLen(['é']) == ByteLen([]) + Utf8Len('é');
  }

  class TextAttributor {
    const default: Attributes
    var current: Attributes
    const scheme: Scheme
    var text: string
    var textAttributes: seq<Attributes>

    function Snapshot(): State
      reads this
    {
      State(default, current, scheme, text, textAttributes)
    }

    constructor(scheme: Scheme)
      ensures Snapshot() == Initial(scheme)
    {
      default := Attributes(scheme.foreground, false);
      current := Attributes(scheme.foreground, false);
      this.scheme := scheme;
      text := [];
      textAttributes := [];
    }

    /** `process`, with a printed character getting one attribute per byte; reports a
        panic (nothing changes) for a palette index beyond the palette. */
    method Process(action: Action) returns (panicked: bool)
      modifies this
      ensures panicked <==> Step(old(Snapshot()), action).Panics?
      ensures !panicked ==> Snapshot() == Step(old(Snapshot()), action).value
      ensures panicked ==> Snapshot() == old(Snapshot())
    {
      panicked := false;
      match action {
        case Print(ch) =>
          text := text + [ch];
          textAttributes := textAttributes + Repeat(current, Utf8Len(ch));
          assert ByteLen([ch]) == ByteLen([]) + Utf8Len(ch);
        case PrintString(s) =>
          text := text + s;
          textAttributes := textAttributes + Repeat(current, ByteLen(s));
        case Control(code) =>
          match code {
            case LineFeed =>
              text := text + "\n";
              textAttributes := textAttributes + [current];
              assert ByteLen("\n") == ByteLen([]) + 1 && Repeat(current, 1) == [current];
            case CarriageReturn =>
              text := text + "\r";
              textAttributes := textAttributes + [current];
              assert ByteLen("\r") == ByteLen([]) + 1 && Repeat(current, 1) == [current];
            case OtherControl =>
              assert text + [] == text && textAttributes + [] == textAttributes;
          }
        case CsiSgr(sgr) =>
          match sgr {
            case Reset =>
              current := default;
            case SetIntensity(intensity) =>
              match intensity {
                case NormalIntensity =>
                  current := current.(bold := false);
                case BoldIntensity =>
                  current := current.(bold := true);
                case Half =>
              }
            case Foreground(spec) =>
              match spec {
                case DefaultColor =>
                  current := current.(foregroundColor := default.foregroundColor);
                case PaletteIndex(index) =>
                  var rgb;
                  if index > 7 {
                    if index - 8 >= |scheme.bright| {
                      return true;
                    }
                    rgb := scheme.bright[index - 8];
                  } else {
                    if index >= |scheme.normal| {
                      return true;
                    }
                    rgb := scheme.normal[index];
                  }
                  current := current.(foregroundColor := rgb);
                case TrueColor =>
              }
            case OtherSgr =>
          }
        case OtherAction =>
          assert text + [] == text && textAttributes + [] == textAttributes;
      }
    }

    /** `into_text_and_attribute_ranges`: the text and the maximal runs of equal
        attributes; no ranges when there are no attributes. */
    method IntoTextAndAttributeRanges() returns (t: string, ranges: seq<TextAttribute>)
      ensures t == text
      ensures RunsUpTo(ranges, textAttributes, |textAttributes|)
    {
      var attrs := textAttributes;
      ranges := [];
      if |attrs| == 0 {
        return text, [];
      }
      var currentStart := 0;
      for i := 1 to |attrs|
        invariant 0 <= currentStart < i
        invariant RunsUpTo(ranges, attrs, currentStart)
        invariant forall p :: currentStart <= p < i ==> attrs[p] == attrs[currentStart]
      {
        var prev := attrs[i - 1];
        if prev != attrs[i] {
          CloseRun(ranges, attrs, currentStart, i);
          ranges := ranges + [Ta(Range(currentStart, i), prev)];
          currentStart := i;
        }
      }
      CloseRun(ranges, attrs, currentStart, |attrs|);
      ranges := ranges + [Ta(Range(currentStart, |attrs|), attrs[currentStart])];
      t := text;
    }
  }
}
