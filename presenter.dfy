/**
 * The presenter that writes the left prompt: each segment in its own
 * style, a separator glyph between neighbouring segments and a closing
 * glyph at the end of a row. It remembers one thing between writes, the
 * background of the segment written last, which decides between the
 * "wire" glyph (same background) and the "solid" glyph (the background
 * changes). The terminal library's escape sequences for a style are not
 * modelled: they are the two functions of `AnsiCodes`.
 */
module Presenter {
  import opened Wrappers
  import opened StyleModel
  import opened Shells
  import opened SegmentModel
  import opened PromptConfig

  /** The escape sequences that switch a style on and back off. */
  datatype AnsiCodes = AnsiCodes(prefix: AnsiStyle -> string, suffix: AnsiStyle -> string)

  /** What the presenter writes with: the shell, the glyphs and the escape sequences. */
  datatype Rendering = Rendering(shell: Shell, separators: SegmentSeparators, codes: AnsiCodes)

  /** Text drawn in a style: the style's escape sequences, each wrapped as a shell control sequence, around it. */
  function Styled(r: Rendering, style: AnsiStyle, text: string): string {
    Control(r.shell, r.codes.prefix(style)) + text + Control(r.shell, r.codes.suffix(style))
  }

  /** `display_segment`: the segment's content, escaped for the shell, in the segment's style. */
  function SegmentText(r: Rendering, seg: Segment): string {
    Styled(r, seg.style, Escape(r.shell, seg.content))
  }

  /** What the shell shows of a written segment is exactly the segment's content. */
  lemma SegmentShowsContent(r: Rendering, seg: Segment)
    ensures var t := SegmentText(r, seg);
      var a := |Control(r.shell, r.codes.prefix(seg.style))|;
      var b := |Control(r.shell, r.codes.suffix(seg.style))|;
      a + b <= |t| && Unescape(r.shell, t[a..|t| - b]) == seg.content
  {
    var t := SegmentText(r, seg);
    var pre := Control(r.shell, r.codes.prefix(seg.style));
    var body := Escape(r.shell, seg.content);
    var suf := Control(r.shell, r.codes.suffix(seg.style));
    assert t == pre + body + suf;
    assert t[|pre|..|t| - |suf|] == body;
    EscapeRoundTrip(r.shell, seg.content);
  }

  datatype Glyph = Solid | Wire

  function GlyphText(seps: SegmentSeparators, g: Glyph): string {
    match g
    case Solid => seps.solidLeft
    case Wire => seps.wireLeft
  }

  /**
   * The separator before a segment with background `nextBg`: the wire glyph
   * in white when the background stays the same (two absent backgrounds
   * included); otherwise the solid glyph, drawn in the previous background
   * (white when there was none) on the next background (no background when
   * the next segment has none), with no other attribute.
   */
  function SeparatorOf(prevBg: Option<Colour>, nextBg: Option<Colour>): (s: (Glyph, AnsiStyle))
    ensures s.0 == Wire <==> nextBg == prevBg
    ensures nextBg == prevBg ==> s.1 == FgOnly(Colour.White)
    ensures nextBg != prevBg ==>
      s.1.foreground == Some(prevBg.GetOr(Colour.White)) && s.1.background == nextBg
      && s.1.(foreground := None, background := None) == Plain
  {
    if nextBg == prevBg then (Wire, FgOnly(Colour.White))
    else
      var fg := FgOnly(prevBg.GetOr(Colour.White));
      // `next_bg.iter().fold(..)`: the background is set once when present.
      (Solid, match nextBg case Some(bg) => fg.(background := Some(bg)) case None => fg)
  }

  /**
   * The closing glyph of a row: the solid glyph in the last background when
   * there is one, otherwise the wire glyph in white.
   */
  function ClosureOf(prevBg: Option<Colour>): (s: (Glyph, AnsiStyle))
    ensures s.0 == Solid <==> prevBg.Some?
    ensures prevBg.Some? ==> s.1 == FgOnly(prevBg.value)
    ensures prevBg.None? ==> s.1 == FgOnly(Colour.White)
  {
    match prevBg
    case Some(bg) => (Solid, FgOnly(bg))
    case None => (Wire, FgOnly(Colour.White))
  }

  function SeparatorText(r: Rendering, prevBg: Option<Colour>, nextBg: Option<Colour>): string {
    var s := SeparatorOf(prevBg, nextBg);
    Styled(r, s.1, GlyphText(r.separators, s.0))
  }

  function ClosureText(r: Rendering, prevBg: Option<Colour>): string {
    var s := ClosureOf(prevBg);
    Styled(r, s.1, GlyphText(r.separators, s.0))
  }

  /** The remembered background after writing `segs`: the last one's, or the old one when there is none. */
  function LastBg(prevBg: Option<Colour>, segs: seq<Segment>): (bg: Option<Colour>)
    ensures segs == [] ==> bg == prevBg
    ensures segs != [] ==> bg == segs[|segs| - 1].style.background
  {
    if segs == [] then prevBg else segs[|segs| - 1].style.background
  }

  /** A segment after its separator from the background before it. */
  function Step(r: Rendering, bg: Option<Colour>, seg: Segment): string {
    SeparatorText(r, bg, seg.style.background) + SegmentText(r, seg)
  }

  /**
   * The segments of one row as the loop of `display_line` writes them, one
   * after the other: each but the first preceded by its separator.
   */
  function Body(r: Rendering, prevBg: Option<Colour>, segs: seq<Segment>): string
    decreases |segs|
  {
    if segs == [] then []
    else if |segs| == 1 then SegmentText(r, segs[0])
    else
      var init := segs[..|segs| - 1];
      Body(r, prevBg, init) + Step(r, LastBg(prevBg, init), segs[|segs| - 1])
  }

  /** `display_line`: the row's segments, then its closing glyph. */
  function LineText(r: Rendering, prevBg: Option<Colour>, segs: seq<Segment>): string {
    Body(r, prevBg, segs) + ClosureText(r, LastBg(prevBg, segs))
  }

  /**
   * The same row read from the front: every segment after a separator
   * from the background before it. An independent description of `Body`.
   */
  function Chained(r: Rendering, bg: Option<Colour>, segs: seq<Segment>): string
    decreases |segs|
  {
    if segs == [] then [] else Step(r, bg, segs[0]) + Chained(r, segs[0].style.background, segs[1..])
  }

  /** The loop's step: one more segment of the row. */
  lemma BodyPrefix(r: Rendering, prevBg: Option<Colour>, segs: seq<Segment>, i: nat)
    requires i < |segs|
    ensures i == 0 ==> Body(r, prevBg, segs[..i + 1]) == SegmentText(r, segs[0])
    ensures i > 0 ==> Body(r, prevBg, segs[..i + 1]) == Body(r, prevBg, segs[..i]) + Step(r, LastBg(prevBg, segs[..i]), segs[i])
    ensures LastBg(prevBg, segs[..i + 1]) == segs[i].style.background
  {
    assert segs[..i + 1][..i] == segs[..i] && segs[..i + 1][i] == segs[i];
  }

  lemma Associative(a: string, b: string, c: string)
    ensures (a + b) + c == a + (b + c)
  {
  }

  lemma {:induction false} ChainedSnoc(r: Rendering, bg: Option<Colour>, segs: seq<Segment>, s: Segment)
    ensures Chained(r, bg, segs + [s]) == Chained(r, bg, segs) + Step(r, LastBg(bg, segs), s)
    decreases |segs|
  {
    if segs == [] {
      assert [] + [s] == [s] && [s][1..] == [];
    } else {
      var head := segs[0];
      var rest := segs[1..];
      assert (segs + [s])[0] == head && (segs + [s])[1..] == rest + [s];
      ChainedSnoc(r, head.style.background, rest, s);
      assert LastBg(head.style.background, rest) == LastBg(bg, segs);
      Associative(Step(r, bg, head), Chained(r, head.style.background, rest), Step(r, LastBg(bg, segs), s));
    }
  }

  /**
   * A row starts with its first segment, bare, and every later segment
   * follows its own separator: no separator precedes the first segment.
   */
  lemma {:induction false} BodyFromFront(r: Rendering, prevBg: Option<Colour>, segs: seq<Segment>)
    requires segs != []
    ensures Body(r, prevBg, segs) == SegmentText(r, segs[0]) + Chained(r, segs[0].style.background, segs[1..])
    decreases |segs|
  {
    if |segs| == 1 {
      assert segs[1..] == [];
    } else {
      var init := segs[..|segs| - 1];
      var last := segs[|segs| - 1];
      var bg0 := segs[0].style.background;
      BodyFromFront(r, prevBg, init);
      SnocSplit(prevBg, segs);
      ChainedSnoc(r, bg0, init[1..], last);
      var head := SegmentText(r, segs[0]);
      var mid := Chained(r, bg0, init[1..]);
      var step := Step(r, LastBg(prevBg, init), last);
      calc {
        Body(r, prevBg, segs);
        Body(r, prevBg, init) + step;
        (head + mid) + step;
        { Associative(head, mid, step); }
        head + (mid + step);
      }
    }
  }

  /** A row of two or more segments: its first, its middle and its last. */
  lemma SnocSplit(prevBg: Option<Colour>, segs: seq<Segment>)
    requires |segs| >= 2
    ensures segs[..|segs| - 1][0] == segs[0]
    ensures segs[1..] == segs[..|segs| - 1][1..] + [segs[|segs| - 1]]
    ensures LastBg(segs[0].style.background, segs[..|segs| - 1][1..]) == LastBg(prevBg, segs[..|segs| - 1])
  {
  }

  /**
   * What a non-empty row writes does not depend on the background left by
   * earlier rows: only an empty row's closing glyph does.
   */
  lemma LineIgnoresEarlierRows(r: Rendering, bg1: Option<Colour>, bg2: Option<Colour>, segs: seq<Segment>)
    requires segs != []
    ensures LineText(r, bg1, segs) == LineText(r, bg2, segs)
  {
    BodyFromFront(r, bg1, segs);
    BodyFromFront(r, bg2, segs);
  }

  /** A row of one segment: the segment and the closing glyph in its background. */
  lemma SingleSegmentLine(r: Rendering, prevBg: Option<Colour>, seg: Segment)
    ensures LineText(r, prevBg, [seg]) == SegmentText(r, seg) + ClosureText(r, seg.style.background)
  {
    assert [seg][..0] == [];
  }

  /** Two segments on one background are joined by the white wire glyph. */
  lemma SameBackgroundUsesWire(r: Rendering, prevBg: Option<Colour>, a: Segment, b: Segment)
    requires a.style.background == b.style.background
    ensures Body(r, prevBg, [a, b])
      == SegmentText(r, a) + Styled(r, FgOnly(Colour.White), r.separators.wireLeft) + SegmentText(r, b)
  {
    BodyOfTwo(r, prevBg, a, b);
    assert SeparatorOf(a.style.background, b.style.background) == (Wire, FgOnly(Colour.White));
  }

  /** A change of background is drawn with the solid glyph in the old background on the new one. */
  lemma BackgroundChangeUsesSolid(r: Rendering, prevBg: Option<Colour>, a: Segment, b: Segment, x: Colour, y: Colour)
    requires a.style.background == Some(x) && b.style.background == Some(y) && x != y
    ensures Body(r, prevBg, [a, b])
      == SegmentText(r, a) + Styled(r, FgOnly(x).(background := Some(y)), r.separators.solidLeft) + SegmentText(r, b)
  {
    BodyOfTwo(r, prevBg, a, b);
    assert SeparatorOf(Some(x), Some(y)) == (Solid, FgOnly(x).(background := Some(y)));
  }

  /** A row of two segments: the first, the separator between their backgrounds, the second. */
  lemma BodyOfTwo(r: Rendering, prevBg: Option<Colour>, a: Segment, b: Segment)
    ensures Body(r, prevBg, [a, b])
      == SegmentText(r, a) + SeparatorText(r, a.style.background, b.style.background) + SegmentText(r, b)
  {
    assert [a, b][..1] == [a];
  }

  /** The loop of `display_line` writing a later segment: its separator, then the segment. */
  lemma RowStep(r: Rendering, bg0: Option<Colour>, segs: seq<Segment>, i: nat, out0: string, before: string)
    requires 0 < i < |segs|
    requires before == out0 + Body(r, bg0, segs[..i])
    ensures before + SeparatorText(r, LastBg(bg0, segs[..i]), segs[i].style.background) + SegmentText(r, segs[i])
      == out0 + Body(r, bg0, segs[..i + 1])
    ensures LastBg(bg0, segs[..i + 1]) == segs[i].style.background
  {
    BodyPrefix(r, bg0, segs, i);
    var body := Body(r, bg0, segs[..i]);
    var sep := SeparatorText(r, LastBg(bg0, segs[..i]), segs[i].style.background);
    var text := SegmentText(r, segs[i]);
    Associative(before, sep, text);
    Associative(out0, body, sep + text);
  }

  /** The loop of `display_line` writing the first segment: the segment alone. */
  lemma RowStart(r: Rendering, bg0: Option<Colour>, segs: seq<Segment>, out0: string, before: string)
    requires 0 < |segs|
    requires before == out0 + Body(r, bg0, segs[..0])
    ensures before + SegmentText(r, segs[0]) == out0 + Body(r, bg0, segs[..1])
    ensures LastBg(bg0, segs[..1]) == segs[0].style.background
  {
    BodyPrefix(r, bg0, segs, 0);
    assert segs[..0] == [];
    assert before == out0;
  }

  class Presenter {
    const shell: Shell
    const separators: SegmentSeparators
    const codes: AnsiCodes

    /** Everything written so far. */
    var out: string
    var prevBg: Option<Colour>

    function Setup(): Rendering {
      Rendering(shell, separators, codes)
    }

    /** `Presenter::new`: nothing remembered yet. */
    constructor (shell: Shell, separators: SegmentSeparators, codes: AnsiCodes)
      ensures this.shell == shell && this.separators == separators && this.codes == codes
      ensures out == [] && prevBg == None
    {
      this.shell := shell;
      this.separators := separators;
      this.codes := codes;
      out := [];
      prevBg := None;
    }

    method DisplaySegment(seg: Segment)
      modifies this
      ensures out == old(out) + SegmentText(Setup(), seg)
      ensures prevBg == old(prevBg)
    {
      var prefix := Control(shell, codes.prefix(seg.style));
      var suffix := Control(shell, codes.suffix(seg.style));
      var content := Escape(shell, seg.content);
      out := out + (prefix + content + suffix);
    }

    method DisplayLeftClosure()
      modifies this
      ensures out == old(out) + ClosureText(Setup(), prevBg)
      ensures prevBg == old(prevBg)
    {
      var style: AnsiStyle;
      var content: string;
      if prevBg.Some? {
        style := FgOnly(prevBg.value);
        content := separators.solidLeft;
      } else {
        style := FgOnly(Colour.White);
        content := separators.wireLeft;
      }
      out := out + (Control(shell, codes.prefix(style)) + content + Control(shell, codes.suffix(style)));
    }

    method DisplayLeftSeparator(nextBg: Option<Colour>)
      modifies this
      ensures out == old(out) + SeparatorText(Setup(), prevBg, nextBg)
      ensures prevBg == old(prevBg)
    {
      var style: AnsiStyle;
      var content: string;
      if nextBg == prevBg {
        style := FgOnly(Colour.White);
        content := separators.wireLeft;
      } else {
        var fg := prevBg.GetOr(Colour.White);
        style := FgOnly(fg);
        if nextBg.Some? {
          style := style.(background := nextBg);
        }
        content := separators.solidLeft;
      }
      out := out + (Control(shell, codes.prefix(style)) + content + Control(shell, codes.suffix(style)));
    }

    /**
     * The loop of `display_line`: each segment, a separator before every
     * segment but the first, the remembered background updated after each
     * segment.
     */
    method DisplaySegments(segs: seq<Segment>)
      modifies this
      ensures out == old(out) + Body(Setup(), old(prevBg), segs)
      ensures prevBg == LastBg(old(prevBg), segs)
    {
      ghost var r := Setup();
      ghost var out0 := out;
      ghost var bg0 := prevBg;
      var i := 0;
      while i < |segs|
        invariant 0 <= i <= |segs|
        invariant out == out0 + Body(r, bg0, segs[..i])
        invariant prevBg == LastBg(bg0, segs[..i])
      {
        ghost var before := out;
        if i > 0 {
          DisplayLeftSeparator(segs[i].style.background);
          DisplaySegment(segs[i]);
          RowStep(r, bg0, segs, i, out0, before);
        } else {
          DisplaySegment(segs[i]);
          RowStart(r, bg0, segs, out0, before);
        }
        prevBg := segs[i].style.background;
        i := i + 1;
      }
      assert segs[..|segs|] == segs;
    }

    /** `display_line`: the row's segments, then the closing glyph. */
    method DisplayLine(segs: seq<Segment>)
      modifies this
      ensures out == old(out) + LineText(Setup(), old(prevBg), segs)
      ensures prevBg == LastBg(old(prevBg), segs)
    {
      DisplaySegments(segs);
      DisplayLeftClosure();
      Associative(old(out), Body(Setup(), old(prevBg), segs), ClosureText(Setup(), prevBg));
    }

    /** `next_line`: a line break, and the next row starts with nothing remembered. */
    method NextLine()
      modifies this
      ensures out == old(out) + "\n"
      ensures prevBg == None
    {
      prevBg := None;
      out := out + "\n";
    }

    /** `finish`: one space after the prompt. */
    method Finish()
      modifies this
      ensures out == old(out) + " "
      ensures prevBg == old(prevBg)
    {
      out := out + " ";
    }
  }
}
