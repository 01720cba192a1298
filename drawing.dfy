/**
 * What the two layout copies share: the reserved marker characters, the
 * font engine seen only through measurement functions, the canvas as an
 * append-only log of `ImageDraw.text` calls, the pen that walks a
 * quote word by word, and the `|` bookmarking of the timestring.
 */
module Drawing {
  import opened Outcomes
  import opened Text

  // ---------------------------------------------------------------- markers

  /** Paragraph break: a blank line, then a new line. */
  const STAR: char := '\U{2B50}'
  /** Line break: a new line. */
  const BOOK: char := '\U{1F4D6}'
  /** Wraps a run to set in italics outside the timestring. */
  const SQUARE: char := '\U{25FB}'
  /** Wraps a run to set in italics inside the timestring. */
  const CIRCLE: char := '\U{25EF}'
  /** Indents a word by four spaces (make_images.py only). */
  const CIRCLED: char := '\U{2B55}'
  /** Inserted around the timestring before drawing. */
  const BOOKMARK: char := '|'

  /** `temp_line` of wrap_lines and the text of get_boxsize: the italic markers take no room. */
  function Unmarked(s: string): string {
    Remove(Remove(s, SQUARE), CIRCLE)
  }

  lemma UnmarkedAppend(a: string, b: string)
    ensures Unmarked(a + b) == Unmarked(a) + Unmarked(b)
  {
    RemoveAppend(a, b, SQUARE);
    RemoveAppend(Remove(a, SQUARE), Remove(b, SQUARE), CIRCLE);
  }

  /** An italic marker alone measures as nothing. */
  lemma UnmarkedMarker(m: char)
    requires m == SQUARE || m == CIRCLE
    ensures Unmarked([m]) == []
  {
    assert [m][1..] == [];
    if m == CIRCLE {
      assert Remove([m], SQUARE) == [m];
      assert Remove([m], CIRCLE) == [] + Remove([], CIRCLE);
    }
  }

  // ------------------------------------------------------------ font engine

  /** The Bookerly font files. */
  datatype Face = Bookerly | BookerlyBold | BookerlyItalic | BookerlyBoldItalic

  datatype Font = Font(face: Face, size: int)

  /** `ImageFont.truetype` and `font_variant`: a size below 1 is refused with a `ValueError`. */
  function CreateFont(face: Face, size: int): (r: Result<Font>)
    ensures r.Ok? <==> size >= 1
    ensures r.Ok? ==> r.value == Font(face, size)
  {
    if size >= 1 then Ok(Font(face, size)) else Err(ValueError)
  }

  /** The parts of Pillow and `unicodedata` the layout calls, as plain functions. */
  datatype Env = Env(
    textLength: (Font, string) -> real,  // FreeTypeFont.getlength, ImageDraw.textlength
    boxRight: (Font, string) -> real,    // ImageDraw.multiline_textbbox((0, 0), s, font)[2]
    boxBottom: (Font, string) -> real,   // ImageDraw.multiline_textbbox((0, 0), s, font)[3]
    capBottom: Font -> int,              // font.getbbox("A")[3]
    nfkd: string -> string)              // unicodedata.normalize('NFKD', s)

  // ----------------------------------------------------------------- canvas

  /** `ImageDraw.text` anchors: Pillow's default, and the right-middle one of the metadata. */
  datatype Anchor = LeftAscender | RightMiddle

  datatype DrawCmd = DrawCmd(x: real, y: real, text: string, fill: int, font: Font, anchor: Anchor)

  /** The image being drawn on: the `ImageDraw.text` calls made on it, in order. */
  class Canvas {
    var commands: seq<DrawCmd>

    constructor ()
      ensures commands == []
    {
      commands := [];
    }

    method Write(x: real, y: real, text: string, fill: int, font: Font, anchor: Anchor)
      modifies this
      ensures commands == old(commands) + [DrawCmd(x, y, text, fill, font, anchor)]
    {
      commands := commands + [DrawCmd(x, y, text, fill, font, anchor)];
    }
  }

  // ----------------------------------------------------------------- styles

  const QUOTE_COLOR2: int := 128
  const TIME_COLOR: int := 0

  /** `fntstyle_norm`, `fntstyle_high`, `fntstyle_italic`, `fntstyle_italic_high`. */
  datatype Style = Norm | High | Italic | ItalicHigh

  function Fill(st: Style): int {
    if st == Norm || st == Italic then QUOTE_COLOR2 else TIME_COLOR
  }

  function FaceOf(st: Style): Face {
    match st
    case Norm => Bookerly
    case High => BookerlyBold
    case Italic => BookerlyItalic
    case ItalicHigh => BookerlyBoldItalic
  }

  // -------------------------------------------------------------------- pen

  /** The write cursor and the style machine of draw_quote. */
  datatype Pen = Pen(x: real, y: real, style: Style, marks: int)

  /** What drawing one word (or a run of them) did: the pen after it, the
      commands written, and the exception that stopped it, if any. */
  datatype Step = Step(pen: Pen, cmds: seq<DrawCmd>, raised: Option<Error>)

  /** `write((x, y), text, *style)` at the pen. */
  function Seg(size: int, pen: Pen, text: string, st: Style): DrawCmd {
    DrawCmd(pen.x, pen.y, text, Fill(st), Font(FaceOf(st), size), LeftAscender)
  }

  /** `x += textlength(text, style font)`. */
  function Advance(env: Env, size: int, pen: Pen, text: string, st: Style): Pen {
    pen.(x := pen.x + env.textLength(Font(FaceOf(st), size), text))
  }

  /** `write((x, y), text, *style)` then `x += textlength(text, font)`. */
  method WriteSeg(canvas: Canvas, env: Env, size: int, pen: Pen, text: string, st: Style) returns (next: Pen)
    modifies canvas
    ensures canvas.commands == old(canvas.commands) + [Seg(size, pen, text, st)]
    ensures next == Advance(env, size, pen, text, st)
  {
    canvas.Write(pen.x, pen.y, text, Fill(st), Font(FaceOf(st), size), LeftAscender);
    next := pen.(x := pen.x + env.textLength(Font(FaceOf(st), size), text));
  }

  /** Each command starts where the measured width of the previous one ended, all at height `y`. */
  ghost predicate Chained(env: Env, cmds: seq<DrawCmd>, x0: real, x1: real, y: real)
    decreases |cmds|
  {
    if cmds == [] then x0 == x1
    else
      cmds[0].x == x0 && cmds[0].y == y
      && Chained(env, cmds[1..], x0 + env.textLength(cmds[0].font, cmds[0].text), x1, y)
  }

  lemma {:induction false} ChainedAppend(env: Env, a: seq<DrawCmd>, b: seq<DrawCmd>, x0: real, x1: real, x2: real, y: real)
    requires Chained(env, a, x0, x1, y) && Chained(env, b, x1, x2, y)
    ensures Chained(env, a + b, x0, x2, y)
    decreases |a|
  {
    if a != [] {
      assert (a + b)[0] == a[0] && (a + b)[1..] == a[1..] + b;
      ChainedAppend(env, a[1..], b, x0 + env.textLength(a[0].font, a[0].text), x1, x2, y);
    } else {
      assert a + b == b;
    }
  }

  /** One segment drawn at the pen runs from the pen to where the pen is moved. */
  lemma SegChained(env: Env, size: int, pen: Pen, text: string, st: Style)
    ensures Chained(env, [Seg(size, pen, text, st)], pen.x, Advance(env, size, pen, text, st).x, pen.y)
  {
    assert [Seg(size, pen, text, st)][1..] == [];
  }

  /** A word drawer keeps to its line: its commands are chained from the pen, and y is unchanged. */
  ghost predicate StaysOnLine(env: Env, step: (Pen, string) -> Step) {
    forall p: Pen, w: string ::
      Chained(env, step(p, w).cmds, p.x, step(p, w).pen.x, p.y) && step(p, w).pen.y == p.y
  }

  // ------------------------------------------------------------- the walks

  /** The inner loop of draw_quote, over the words of one line; it stops at the first exception. */
  function WalkWords(step: (Pen, string) -> Step, pen: Pen, ws: seq<string>): Step {
    if ws == [] then Step(pen, [], None)
    else
      var done := WalkWords(step, pen, ws[..|ws| - 1]);
      if done.raised.Some? then done
      else
        var s := step(done.pen, ws[|ws| - 1]);
        Step(s.pen, done.cmds + s.cmds, s.raised)
  }

  /** The cursor at the start of the next line: x back at the anchor, y one line lower. */
  function NextLine(pen: Pen, x0: real, lineStep: real): Pen {
    pen.(x := x0, y := pen.y + lineStep)
  }

  /** The words of each line of a text, as the two loops of draw_quote see them. */
  function LineWords(ls: seq<string>): (r: seq<seq<string>>)
    ensures |r| == |ls| && forall i :: 0 <= i < |ls| ==> r[i] == Words(ls[i])
  {
    seq(|ls|, i requires 0 <= i < |ls| => Words(ls[i]))
  }

  /** The outer loop of draw_quote, over the lines of the bookmarked text given as their words. */
  function WalkLines(step: (Pen, string) -> Step, x0: real, lineStep: real, pen: Pen, ls: seq<seq<string>>): Step {
    if ls == [] then Step(pen, [], None)
    else
      var done := WalkLines(step, x0, lineStep, pen, ls[..|ls| - 1]);
      if done.raised.Some? then done
      else
        var w := WalkWords(step, done.pen, ls[|ls| - 1]);
        if w.raised.Some? then Step(w.pen, done.cmds + w.cmds, w.raised)
        else Step(NextLine(w.pen, x0, lineStep), done.cmds + w.cmds, None)
  }

  /** One more word: the walk over the first `i + 1` words in terms of the walk over the first `i`. */
  lemma WalkWordsNext(step: (Pen, string) -> Step, pen: Pen, ws: seq<string>, i: nat)
    requires i < |ws|
    ensures var d := WalkWords(step, pen, ws[..i]);
            var s := step(d.pen, ws[i]);
            d.raised.None? ==> WalkWords(step, pen, ws[..i + 1]) == Step(s.pen, d.cmds + s.cmds, s.raised)
  {
    assert ws[..i + 1][..i] == ws[..i];
  }

  /** One more line: the walk over the first `i + 1` lines in terms of the walk over the first `i`. */
  lemma WalkLinesNext(step: (Pen, string) -> Step, x0: real, lineStep: real, pen: Pen, ls: seq<seq<string>>, i: nat)
    requires i < |ls|
    ensures var d := WalkLines(step, x0, lineStep, pen, ls[..i]);
            var w := WalkWords(step, d.pen, ls[i]);
            d.raised.None? ==>
              WalkLines(step, x0, lineStep, pen, ls[..i + 1])
                == Step(if w.raised.Some? then w.pen else NextLine(w.pen, x0, lineStep), d.cmds + w.cmds, w.raised)
  {
    assert ls[..i + 1][..i] == ls[..i];
  }

  /** Once a word raises, the later words of the line change nothing. */
  lemma {:induction false} WalkWordsSticky(step: (Pen, string) -> Step, pen: Pen, ws: seq<string>, k: nat)
    requires k <= |ws| && WalkWords(step, pen, ws[..k]).raised.Some?
    ensures WalkWords(step, pen, ws) == WalkWords(step, pen, ws[..k])
    decreases |ws| - k
  {
    if k < |ws| {
      assert ws[..k + 1][..k] == ws[..k];
      WalkWordsSticky(step, pen, ws, k + 1);
    } else {
      assert ws[..k] == ws;
    }
  }

  /** Once a line raises, the later lines change nothing. */
  lemma {:induction false} WalkLinesSticky(step: (Pen, string) -> Step, x0: real, lineStep: real, pen: Pen, ls: seq<seq<string>>, k: nat)
    requires k <= |ls| && WalkLines(step, x0, lineStep, pen, ls[..k]).raised.Some?
    ensures WalkLines(step, x0, lineStep, pen, ls) == WalkLines(step, x0, lineStep, pen, ls[..k])
    decreases |ls| - k
  {
    if k < |ls| {
      assert ls[..k + 1][..k] == ls[..k];
      WalkLinesSticky(step, x0, lineStep, pen, ls, k + 1);
    } else {
      assert ls[..k] == ls;
    }
  }

  /** Walking `xs + ys` is walking `xs`, then `ys` from where `xs` left the pen. */
  lemma {:induction false} WalkWordsAppend(step: (Pen, string) -> Step, pen: Pen, xs: seq<string>, ys: seq<string>)
    ensures var a := WalkWords(step, pen, xs);
            var b := WalkWords(step, a.pen, ys);
            WalkWords(step, pen, xs + ys)
              == if a.raised.Some? then a else Step(b.pen, a.cmds + b.cmds, b.raised)
    decreases |ys|
  {
    if ys == [] {
      assert xs + ys == xs;
    } else {
      var zs := xs + ys;
      assert zs[..|zs| - 1] == xs + ys[..|ys| - 1];
      assert zs[|zs| - 1] == ys[|ys| - 1];
      WalkWordsAppend(step, pen, xs, ys[..|ys| - 1]);
    }
  }

  /** Two word drawers that agree on every word of a line draw the line alike. */
  lemma {:induction false} WalkWordsAgree(s1: (Pen, string) -> Step, s2: (Pen, string) -> Step, pen: Pen, ws: seq<string>)
    requires forall p: Pen, i :: 0 <= i < |ws| ==> s1(p, ws[i]) == s2(p, ws[i])
    ensures WalkWords(s1, pen, ws) == WalkWords(s2, pen, ws)
  {
    if ws != [] {
      WalkWordsAgree(s1, s2, pen, ws[..|ws| - 1]);
    }
  }

  /** Two word drawers that agree on every word of every line draw the lines alike. */
  lemma {:induction false} WalkLinesAgree(s1: (Pen, string) -> Step, s2: (Pen, string) -> Step, x0: real, lineStep: real,
                                          pen: Pen, ls: seq<seq<string>>)
    requires forall p: Pen, i, j :: 0 <= i < |ls| && 0 <= j < |ls[i]| ==> s1(p, ls[i][j]) == s2(p, ls[i][j])
    ensures WalkLines(s1, x0, lineStep, pen, ls) == WalkLines(s2, x0, lineStep, pen, ls)
  {
    if ls != [] {
      var n := |ls| - 1;
      WalkLinesAgree(s1, s2, x0, lineStep, pen, ls[..n]);
      var d := WalkLines(s1, x0, lineStep, pen, ls[..n]);
      WalkWordsAgree(s1, s2, d.pen, ls[n]);
    }
  }

  /** Within a line, the cursor advances by the measured width of each segment drawn. */
  lemma {:induction false} WalkWordsGeometry(env: Env, step: (Pen, string) -> Step, pen: Pen, ws: seq<string>)
    requires StaysOnLine(env, step)
    ensures var r := WalkWords(step, pen, ws);
            Chained(env, r.cmds, pen.x, r.pen.x, pen.y) && r.pen.y == pen.y
  {
    if ws != [] {
      var done := WalkWords(step, pen, ws[..|ws| - 1]);
      WalkWordsGeometry(env, step, pen, ws[..|ws| - 1]);
      if done.raised.None? {
        var s := step(done.pen, ws[|ws| - 1]);
        assert Chained(env, s.cmds, done.pen.x, s.pen.x, done.pen.y);
        ChainedAppend(env, done.cmds, s.cmds, pen.x, done.pen.x, s.pen.x, pen.y);
      }
    }
  }

  /** Every line, blank or not, moves the cursor down one line step and back to the anchor. */
  lemma {:induction false} WalkLinesGeometry(env: Env, step: (Pen, string) -> Step, x0: real, lineStep: real, pen: Pen, ls: seq<seq<string>>)
    requires StaysOnLine(env, step)
    ensures var r := WalkLines(step, x0, lineStep, pen, ls);
            r.raised.None? ==> r.pen.y == pen.y + (|ls| as real) * lineStep && (ls != [] ==> r.pen.x == x0)
  {
    if ls != [] {
      var n := |ls| - 1;
      var done := WalkLines(step, x0, lineStep, pen, ls[..n]);
      WalkLinesGeometry(env, step, x0, lineStep, pen, ls[..n]);
      if done.raised.None? {
        WalkWordsGeometry(env, step, done.pen, ls[n]);
        assert (n as real) * lineStep + lineStep == ((n + 1) as real) * lineStep;
      }
    }
  }

  // ------------------------------------------------------------ highlighting

  /** The text drawn in the time colour, in drawing order. */
  function Highlighted(cmds: seq<DrawCmd>): string {
    if cmds == [] then ""
    else Highlighted(cmds[..|cmds| - 1]) + (if cmds[|cmds| - 1].fill == TIME_COLOR then cmds[|cmds| - 1].text else "")
  }

  lemma {:induction false} HighlightedAppend(a: seq<DrawCmd>, b: seq<DrawCmd>)
    ensures Highlighted(a + b) == Highlighted(a) + Highlighted(b)
    decreases |b|
  {
    if b == [] {
      assert a + b == a;
    } else {
      assert (a + b)[..|a + b| - 1] == a + b[..|b| - 1];
      HighlightedAppend(a, b[..|b| - 1]);
    }
  }

  /** Each word followed by the space draw_quote appends to it. */
  function Spaced(ws: seq<string>): string {
    if ws == [] then "" else Spaced(ws[..|ws| - 1]) + ws[|ws| - 1] + " "
  }

  lemma SpacedLast(ws: seq<string>)
    requires ws != []
    ensures Spaced(ws) == Spaced(ws[..|ws| - 1]) + (ws[|ws| - 1] + " ")
  {
    var a, w := Spaced(ws[..|ws| - 1]), ws[|ws| - 1];
    assert a + w + " " == a + (w + " ");
  }

  // ------------------------------------------------------------ bookmarking

  /** Where the timestring is searched: `text.replace('\n', ' ').lower().index(substr.lower())`. */
  function TimestringStart(text: string, substr: string): Option<nat> {
    FindFirst(Lower(Flatten(text)), Lower(substr))
  }

  /** `text[:s] + '|' + text[s:s+n] + '|' + text[s+n:]`. */
  function Bookmarked(text: string, s: nat, n: nat): string {
    Slice(text, 0, s) + [BOOKMARK] + Slice(text, s, s + n) + [BOOKMARK] + Slice(text, s + n, |text|)
  }

  /** The two inserted bookmarks sit at `s` and `e + 1`; deleting them gives back the text. */
  lemma BookmarkedRemoved(text: string, s: nat, n: nat)
    requires s <= |text|
    ensures var m := Bookmarked(text, s, n);
            var e := if s + n <= |text| then s + n else |text|;
            && |m| == |text| + 2
            && m[s] == BOOKMARK && m[e + 1] == BOOKMARK
            && m[..s] + m[s + 1..e + 1] + m[e + 2..] == text
            && Count(m, BOOKMARK) == Count(text, BOOKMARK) + 2
  {
    var m := Bookmarked(text, s, n);
    var e := if s + n <= |text| then s + n else |text|;
    var a, b, c := text[..s], text[s..e], text[e..];
    BookmarkedParts(text, s, n, e);
    CutTwice(text, s, e);
    MarkedTwice(m, a, b, c, BOOKMARK, s, e);
    MarkedTwiceCount(a, b, c, BOOKMARK);
  }

  /** Cutting a text twice and joining the pieces gives it back. */
  lemma CutTwice(text: string, s: nat, e: nat)
    requires s <= e <= |text|
    ensures text[..s] + text[s..e] + text[e..] == text
  {
    assert text[..s] + text[s..e] == text[..e];
  }

  /** The marked text is the text cut at `s` and at `e`, where the span ends or the text does. */
  lemma BookmarkedParts(text: string, s: nat, n: nat, e: nat)
    requires s <= |text| && e == if s + n <= |text| then s + n else |text|
    ensures Bookmarked(text, s, n) == text[..s] + [BOOKMARK] + text[s..e] + [BOOKMARK] + text[e..]
  {
    assert Slice(text, 0, s) == text[..s];
    assert Slice(text, s, s + n) == text[s..e];
    assert Slice(text, s + n, |text|) == text[e..];
  }

  /** Two marks around `b`, at `i` and `j + 1`: what deleting them leaves. */
  lemma MarkedTwice(m: string, a: string, b: string, c: string, x: char, i: nat, j: nat)
    requires m == a + [x] + b + [x] + c && i == |a| && j == |a| + |b|
    ensures && |m| == |a| + |b| + |c| + 2
            && m[i] == x && m[j + 1] == x
            && m[..i] + m[i + 1..j + 1] + m[j + 2..] == a + b + c
  {
    assert m[..i] == a;
    assert m[i + 1..j + 1] == b;
    assert m[j + 2..] == c;
  }

  /** Two marks around `b` add two to the count of the mark. */
  lemma MarkedTwiceCount(a: string, b: string, c: string, x: char)
    ensures Count(a + [x] + b + [x] + c, x) == Count(a + b + c, x) + 2
  {
    CountAppend(a + [x] + b + [x], c, x);
    CountAppend(a + [x] + b, [x], x);
    CountAppend(a + [x], b, x);
    CountAppend(a, [x], x);
    CountAppend(a, b, x);
    CountAppend(a + b, c, x);
  }

  /** When the timestring is found, the bookmarks enclose the first case-insensitive match of
      it in the text read with newlines as spaces, and nothing earlier matches. */
  lemma BookmarkedSpan(text: string, substr: string)
    requires TimestringStart(text, substr).Some?
    ensures var s := TimestringStart(text, substr).value;
            var m := Bookmarked(text, s, |substr|);
            && s + |substr| <= |text|
            && m[s] == BOOKMARK && m[s + |substr| + 1] == BOOKMARK
            && Lower(Flatten(m[s + 1..s + |substr| + 1])) == Lower(substr)
            && forall j: nat :: j < s ==> !MatchAt(Lower(Flatten(text)), Lower(substr), j)
  {
    var s := TimestringStart(text, substr).value;
    TimestringFound(text, substr, s);
    var e := s + |substr|;
    BookmarkedRemoved(text, s, |substr|);
    BookmarkedMiddle(text, s, |substr|, e);
    LowerFlattenSlice(text, s, e);
    var m := Bookmarked(text, s, |substr|);
    assert Lower(Flatten(m[s + 1..e + 1])) == Lower(substr);
  }

  /** The match `str.index` reports, in terms of the text itself. */
  lemma TimestringFound(text: string, substr: string, s: nat)
    requires TimestringStart(text, substr) == Some(s)
    ensures s + |substr| <= |text|
    ensures Lower(Flatten(text))[s..s + |substr|] == Lower(substr)
    ensures forall j: nat :: j < s ==> !MatchAt(Lower(Flatten(text)), Lower(substr), j)
  {
    assert MatchAt(Lower(Flatten(text)), Lower(substr), s);
  }

  /** Between the two marks lies the text from `s` up to `e`. */
  lemma BookmarkedMiddle(text: string, s: nat, n: nat, e: nat)
    requires s <= |text| && e == if s + n <= |text| then s + n else |text|
    ensures Bookmarked(text, s, n)[s + 1..e + 1] == text[s..e]
  {
    BookmarkedParts(text, s, n, e);
    MarkedTwice(Bookmarked(text, s, n), text[..s], text[s..e], text[e..], BOOKMARK, s, e);
    var m := Bookmarked(text, s, n);
    assert m[s + 1..e + 1] == text[s..e];
  }

  /** Reading a piece with newlines as spaces, in lower case, is reading that piece of the whole. */
  lemma LowerFlattenSlice(text: string, i: nat, j: nat)
    requires i <= j <= |text|
    ensures Lower(Flatten(text[i..j])) == Lower(Flatten(text))[i..j]
  {
  }
}
