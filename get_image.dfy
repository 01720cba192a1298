/**
 * get_image.py: the layout used live by the clock. A quote is wrapped and
 * sized to fill the area above its metadata, the timestring is bookmarked,
 * and the words are drawn one segment at a time with a small style machine.
 */
module GetImage {
  import opened Outcomes
  import opened Text
  import opened Drawing

  const SCREEN_WIDTH: int := 800
  const SCREEN_HEIGHT: int := 480
  /** `SCREEN_WIDTH * 0.975` */
  const QUOTE_WIDTH: real := 780.0
  /** `SCREEN_HEIGHT * 0.917` */
  const QUOTE_HEIGHT: real := 440.16
  const INFO_FONTSIZE: int := 30
  const QUOTE_START_X: real := 20.0
  const QUOTE_START_Y: real := 0.0
  const MDATA_LENGTH: real := 650.0
  /** `mdatalength * 0.965` */
  const MDATA_WRAP: real := 627.25
  const MDATA_START_Y: int := 485
  /** `SCREEN_WIDTH * 0.981` */
  const MDATA_START_X: real := 784.8
  const BASESIZE: int := 50
  const MAXSIZE: int := 480

  // ------------------------------------------------------------- wrap_lines

  /** `f'{lines[-1]} {word}'.strip()` */
  function Joined(last: string, word: string): string {
    Strip(last + " " + word)
  }

  /** What one word of wrap_lines does to the list of lines. */
  function WrapStep(env: Env, font: Font, limit: real, lines: seq<string>, word: string): seq<string>
    requires lines != []
  {
    var line := Joined(lines[|lines| - 1], word);
    if STAR in word then lines + ["", Remove(word, STAR)]
    else if BOOK in word then lines + [Remove(word, BOOK)]
    else if env.textLength(font, Unmarked(line)) <= limit then lines[..|lines| - 1] + [line]
    else lines + [word]
  }

  /** The list of lines wrap_lines has built after the words `ws`. */
  function Wrap(env: Env, font: Font, limit: real, ws: seq<string>): (lines: seq<string>)
    ensures lines != []
  {
    if ws == [] then [""]
    else WrapStep(env, font, limit, Wrap(env, font, limit, ws[..|ws| - 1]), ws[|ws| - 1])
  }

  /** wrap_lines: greedy wrapping of the words of `text` at `lineLength`, joined with newlines. */
  method WrapLines(env: Env, text: string, font: Font, lineLength: real) returns (r: string)
    ensures r == JoinLines(Wrap(env, font, lineLength, Words(text)))
  {
    var ws := Words(text);
    var lines := [""];
    for i := 0 to |ws|
      invariant lines == Wrap(env, font, lineLength, ws[..i])
    {
      assert ws[..i + 1][..i] == ws[..i];
      lines := WrapWord(env, font, lineLength, lines, ws[i]);
    }
    assert ws[..|ws|] == ws;
    r := JoinLines(lines);
  }

  /** One pass of wrap_lines' loop. */
  method WrapWord(env: Env, font: Font, lineLength: real, lines: seq<string>, word: string) returns (next: seq<string>)
    requires lines != []
    ensures next == WrapStep(env, font, lineLength, lines, word)
  {
    var line := Strip(lines[|lines| - 1] + " " + word);
    var fontlen := MeasuredLength(env, font, line);
    next := lines;
    var word := word;
    if STAR in word {
      word := Remove(word, STAR);
      next := next + [""];
      next := next + [word];
    } else if BOOK in word {
      word := Remove(word, BOOK);
      next := next + [word];
    } else if fontlen <= lineLength {
      next := next[|next| - 1 := line];
    } else {
      next := next + [word];
    }
  }

  /** The width wrap_lines measures: the line without its ◻ and then its ◯. */
  method MeasuredLength(env: Env, font: Font, line: string) returns (fontlen: real)
    ensures fontlen == env.textLength(font, Unmarked(line))
  {
    var measured := line;
    fontlen := env.textLength(font, line);
    if SQUARE in measured {
      measured := Remove(measured, SQUARE);
      fontlen := env.textLength(font, measured);
    }
    if CIRCLE in measured {
      measured := Remove(measured, CIRCLE);
      fontlen := env.textLength(font, measured);
    }
  }

  /** The word a word of the input becomes in the output: ⭐ or else 📖 removed. */
  function Cleaned(word: string): string {
    if STAR in word then Remove(word, STAR)
    else if BOOK in word then Remove(word, BOOK)
    else word
  }

  /** The words of each line, in order. */
  function AllWords(lines: seq<string>): seq<string> {
    if lines == [] then [] else AllWords(lines[..|lines| - 1]) + Words(lines[|lines| - 1])
  }

  /** The words expected in the output: each input word once, cleaned of its break marker. */
  function Kept(ws: seq<string>): seq<string> {
    if ws == [] then [] else Kept(ws[..|ws| - 1]) + Words(Cleaned(ws[|ws| - 1]))
  }

  predicate AreWords(ws: seq<string>) {
    forall i :: 0 <= i < |ws| ==> ws[i] != "" && SpaceFree(ws[i])
  }

  lemma AllWordsSnoc(lines: seq<string>, l: string)
    ensures AllWords(lines + [l]) == AllWords(lines) + Words(l)
  {
    assert (lines + [l])[..|lines|] == lines;
  }

  lemma WrapStepWordsBreak(env: Env, font: Font, limit: real, lines: seq<string>, w: string)
    requires lines != [] && w != "" && SpaceFree(w)
    requires STAR in w || BOOK in w
    ensures AllWords(WrapStep(env, font, limit, lines, w)) == AllWords(lines) + Words(Cleaned(w))
  {
    var c := Cleaned(w);
    if STAR in w {
      assert WrapStep(env, font, limit, lines, w) == lines + [""] + [c];
      BlankThenWords(lines, c);
    } else {
      assert WrapStep(env, font, limit, lines, w) == lines + [c];
      AllWordsSnoc(lines, c);
    }
  }

  /** An empty line before a line adds no words. */
  lemma BlankThenWords(lines: seq<string>, c: string)
    ensures AllWords(lines + [""] + [c]) == AllWords(lines) + Words(c)
  {
    AllWordsSnoc(lines + [""], c);
    AllWordsSnoc(lines, "");
    assert Words("") == [];
  }

  lemma WrapStepWordsJoin(env: Env, font: Font, limit: real, lines: seq<string>, w: string)
    requires lines != [] && w != "" && SpaceFree(w)
    requires STAR !in w && BOOK !in w
    requires env.textLength(font, Unmarked(Joined(lines[|lines| - 1], w))) <= limit
    ensures AllWords(WrapStep(env, font, limit, lines, w)) == AllWords(lines) + Words(Cleaned(w))
  {
    var front, last := lines[..|lines| - 1], lines[|lines| - 1];
    assert WrapStep(env, font, limit, lines, w) == front + [Joined(last, w)];
    FrontLast(lines);
    JoinedWords(front, last, w);
    WordsOfToken(w);
  }

  /** Joining a word onto the last line adds that word after the words of the lines. */
  lemma JoinedWords(front: seq<string>, last: string, w: string)
    requires w != "" && SpaceFree(w)
    ensures AllWords(front + [Joined(last, w)]) == AllWords(front + [last]) + [w]
  {
    AllWordsSnoc(front, last);
    AllWordsSnoc(front, Joined(last, w));
    WordsOfJoined(last, w);
    ConcatAssoc(AllWords(front), Words(last), [w]);
  }

  lemma WrapStepWordsNewLine(env: Env, font: Font, limit: real, lines: seq<string>, w: string)
    requires lines != [] && w != "" && SpaceFree(w)
    requires STAR !in w && BOOK !in w
    requires env.textLength(font, Unmarked(Joined(lines[|lines| - 1], w))) > limit
    ensures AllWords(WrapStep(env, font, limit, lines, w)) == AllWords(lines) + Words(Cleaned(w))
  {
    assert WrapStep(env, font, limit, lines, w) == lines + [w];
    AllWordsSnoc(lines, w);
  }

  /** One word adds its cleaned self to the words of the lines. */
  lemma WrapStepWords(env: Env, font: Font, limit: real, lines: seq<string>, w: string)
    requires lines != [] && w != "" && SpaceFree(w)
    ensures AllWords(WrapStep(env, font, limit, lines, w)) == AllWords(lines) + Words(Cleaned(w))
  {
    if STAR in w || BOOK in w {
      WrapStepWordsBreak(env, font, limit, lines, w);
    } else if env.textLength(font, Unmarked(Joined(lines[|lines| - 1], w))) <= limit {
      WrapStepWordsJoin(env, font, limit, lines, w);
    } else {
      WrapStepWordsNewLine(env, font, limit, lines, w);
    }
  }

  /** The words come out in input order, each whole, with only the break markers removed. */
  lemma {:induction false} WrapKeepsWords(env: Env, font: Font, limit: real, ws: seq<string>)
    requires AreWords(ws)
    ensures AllWords(Wrap(env, font, limit, ws)) == Kept(ws)
  {
    if ws == [] {
      AllWordsSnoc([], "");
      assert Words("") == [];
    } else {
      var n := |ws| - 1;
      assert AreWords(ws[..n]);
      WrapKeepsWords(env, font, limit, ws[..n]);
      WrapStepWords(env, font, limit, Wrap(env, font, limit, ws[..n]), ws[n]);
    }
  }

  /** No surrounding whitespace, as `strip()` leaves it. */
  predicate Trimmed(l: string) {
    l == [] || (!IsSpace(l[0]) && !IsSpace(l[|l| - 1]))
  }

  /** A trimmed line that, if it holds a space, fits `limit` once the italic markers are removed. */
  predicate LineFits(env: Env, font: Font, limit: real, l: string) {
    Trimmed(l) && (' ' in l ==> env.textLength(font, Unmarked(l)) <= limit)
  }

  predicate LinesFit(env: Env, font: Font, limit: real, lines: seq<string>) {
    forall i :: 0 <= i < |lines| ==> LineFits(env, font, limit, lines[i])
  }

  /** The words of the lines joined with newlines are the words of each line in turn. */
  lemma {:induction false} WordsOfJoinLines(ls: seq<string>)
    ensures Words(JoinLines(ls)) == AllWords(ls)
  {
    if |ls| == 1 {
      assert ls[..0] == [];
    } else if |ls| > 1 {
      var front := ls[..|ls| - 1];
      WordsOfJoinLines(front);
      WordsSplitAtSpace(JoinLines(front), '\n', ls[|ls| - 1]);
    }
  }

  /** wrap_lines' output holds every input word once, in order, cleaned of its break marker. */
  lemma WrapLinesKeepsWords(env: Env, font: Font, limit: real, text: string)
    ensures Words(JoinLines(Wrap(env, font, limit, Words(text)))) == Kept(Words(text))
  {
    WordsOfJoinLines(Wrap(env, font, limit, Words(text)));
    WordsAreTokens(text);
    WrapKeepsWords(env, font, limit, Words(text));
  }

  /** A word without whitespace is a line that fits. */
  lemma TokenFits(env: Env, font: Font, limit: real, c: string)
    requires SpaceFree(c)
    ensures LineFits(env, font, limit, c)
  {
    if c != [] {
      assert !IsSpace(c[0]) && !IsSpace(c[|c| - 1]);
    }
  }

  lemma LinesFitSnoc(env: Env, font: Font, limit: real, lines: seq<string>, l: string)
    requires LinesFit(env, font, limit, lines) && LineFits(env, font, limit, l)
    ensures LinesFit(env, font, limit, lines + [l])
  {
    var res := lines + [l];
    forall i | 0 <= i < |res|
      ensures LineFits(env, font, limit, res[i])
    {
      if i < |lines| {
        assert res[i] == lines[i];
      }
    }
  }

  lemma LinesFitReplaceLast(env: Env, font: Font, limit: real, lines: seq<string>, l: string)
    requires lines != [] && LinesFit(env, font, limit, lines) && LineFits(env, font, limit, l)
    ensures LinesFit(env, font, limit, lines[..|lines| - 1] + [l])
  {
    LinesFitSnoc(env, font, limit, lines[..|lines| - 1], l);
  }

  lemma WrapStepFit(env: Env, font: Font, limit: real, lines: seq<string>, w: string)
    requires lines != [] && w != "" && SpaceFree(w)
    requires LinesFit(env, font, limit, lines)
    ensures LinesFit(env, font, limit, WrapStep(env, font, limit, lines, w))
  {
    var last := lines[|lines| - 1];
    var line := Joined(last, w);
    var c := Cleaned(w);
    if STAR in w {
      RemoveKeeps(w, STAR);
      TokenFits(env, font, limit, c);
      TokenFits(env, font, limit, "");
      LinesFitSnoc(env, font, limit, lines, "");
      LinesFitSnoc(env, font, limit, lines + [""], c);
      assert lines + ["", c] == lines + [""] + [c];
    } else if BOOK in w {
      RemoveKeeps(w, BOOK);
      TokenFits(env, font, limit, c);
      LinesFitSnoc(env, font, limit, lines, c);
    } else if env.textLength(font, Unmarked(line)) <= limit {
      assert LineFits(env, font, limit, last);
      StripJoined(last, w);
      LinesFitReplaceLast(env, font, limit, lines, line);
    } else {
      TokenFits(env, font, limit, w);
      LinesFitSnoc(env, font, limit, lines, w);
    }
  }

  /** Every line holding more than one word fits `limit` once the italic markers are removed. */
  lemma {:induction false} WrapJoinedLinesFit(env: Env, font: Font, limit: real, ws: seq<string>)
    requires AreWords(ws)
    ensures LinesFit(env, font, limit, Wrap(env, font, limit, ws))
  {
    if ws != [] {
      var n := |ws| - 1;
      assert AreWords(ws[..n]);
      WrapJoinedLinesFit(env, font, limit, ws[..n]);
      WrapStepFit(env, font, limit, Wrap(env, font, limit, ws[..n]), ws[n]);
    } else {
      assert LineFits(env, font, limit, "");
    }
  }

  /** The first word of a trimmed line. */
  function FirstWord(l: string): string {
    l[..RunLength(l)]
  }

  /** Each line after the first is non-empty and its first word does not fit after the line before. */
  predicate Greedy(env: Env, font: Font, limit: real, lines: seq<string>) {
    forall i :: 1 <= i < |lines| ==>
      lines[i] != "" && env.textLength(font, Unmarked(Joined(lines[i - 1], FirstWord(lines[i])))) > limit
  }

  /**
   * Without break markers the wrap is greedy: each line after the first
   * starts with a word that would have made the line before it too wide.
   */
  lemma GreedySnoc(env: Env, font: Font, limit: real, lines: seq<string>, l: string)
    requires lines != [] && Greedy(env, font, limit, lines)
    requires l != "" && env.textLength(font, Unmarked(Joined(lines[|lines| - 1], FirstWord(l)))) > limit
    ensures Greedy(env, font, limit, lines + [l])
  {
    var res := lines + [l];
    forall i | 1 <= i < |res|
      ensures res[i] != "" && env.textLength(font, Unmarked(Joined(res[i - 1], FirstWord(res[i])))) > limit
    {
      if i < |lines| {
        assert res[i] == lines[i] && res[i - 1] == lines[i - 1];
      } else {
        assert res[i] == l && res[i - 1] == lines[|lines| - 1];
      }
    }
  }

  lemma GreedyReplaceLast(env: Env, font: Font, limit: real, lines: seq<string>, l: string)
    requires lines != [] && Greedy(env, font, limit, lines)
    requires |lines| > 1 ==> l != "" && FirstWord(l) == FirstWord(lines[|lines| - 1])
    ensures Greedy(env, font, limit, lines[..|lines| - 1] + [l])
  {
    var k := |lines| - 1;
    var res := lines[..k] + [l];
    forall i | 1 <= i < |res|
      ensures res[i] != "" && env.textLength(font, Unmarked(Joined(res[i - 1], FirstWord(res[i])))) > limit
    {
      assert res[i - 1] == lines[i - 1];
      if i < k {
        assert res[i] == lines[i];
      }
    }
  }

  /** Extending a non-empty line keeps its first word. */
  lemma FirstWordJoined(last: string, w: string)
    requires last != "" && Trimmed(last) && w != "" && SpaceFree(w)
    ensures Joined(last, w) != "" && FirstWord(Joined(last, w)) == FirstWord(last)
  {
    StripJoined(last, w);
    var line := last + [' '] + w;
    assert Joined(last, w) == line;
    RunLengthBefore(last, ' ', w);
    assert line[..RunLength(last)] == last[..RunLength(last)];
  }

  lemma WrapStepGreedy(env: Env, font: Font, limit: real, lines: seq<string>, w: string)
    requires lines != [] && w != "" && SpaceFree(w) && STAR !in w && BOOK !in w
    requires Greedy(env, font, limit, lines) && LinesFit(env, font, limit, lines)
    ensures Greedy(env, font, limit, WrapStep(env, font, limit, lines, w))
  {
    var k := |lines| - 1;
    var last := lines[k];
    var line := Joined(last, w);
    var res := WrapStep(env, font, limit, lines, w);
    if env.textLength(font, Unmarked(line)) <= limit {
      assert res == lines[..k] + [line];
      if k >= 1 {
        assert LineFits(env, font, limit, last);
        FirstWordJoined(last, w);
      }
      GreedyReplaceLast(env, font, limit, lines, line);
    } else {
      assert res == lines + [w];
      RunLengthToken(w);
      assert FirstWord(w) == w;
      GreedySnoc(env, font, limit, lines, w);
    }
  }

  lemma {:induction false} WrapGreedy(env: Env, font: Font, limit: real, ws: seq<string>)
    requires AreWords(ws)
    requires forall i :: 0 <= i < |ws| ==> STAR !in ws[i] && BOOK !in ws[i]
    ensures Greedy(env, font, limit, Wrap(env, font, limit, ws))
  {
    if ws != [] {
      var n := |ws| - 1;
      assert AreWords(ws[..n]);
      WrapGreedy(env, font, limit, ws[..n]);
      WrapJoinedLinesFit(env, font, limit, ws[..n]);
      WrapStepGreedy(env, font, limit, Wrap(env, font, limit, ws[..n]), ws[n]);
    }
  }

  /** A first word too wide for the line is placed after an empty first line. */
  lemma WrapOverlongFirstWord(env: Env, font: Font, limit: real, w: string)
    requires w != "" && SpaceFree(w) && STAR !in w && BOOK !in w
    requires env.textLength(font, Unmarked(w)) > limit
    ensures Wrap(env, font, limit, [w]) == ["", w]
  {
    assert [w][..0] == [];
    StripJoined("", w);
  }

  /** How many words hold ⭐, and how many hold 📖 but not ⭐. */
  function Stars(ws: seq<string>): nat {
    if ws == [] then 0 else Stars(ws[..|ws| - 1]) + (if STAR in ws[|ws| - 1] then 1 else 0)
  }

  function Books(ws: seq<string>): nat {
    if ws == [] then 0 else Books(ws[..|ws| - 1]) + (if STAR !in ws[|ws| - 1] && BOOK in ws[|ws| - 1] then 1 else 0)
  }

  /** Each ⭐ word opens two lines and each 📖 word one; any other word opens at most one. */
  lemma {:induction false} WrapLineCount(env: Env, font: Font, limit: real, ws: seq<string>)
    ensures var n := |Wrap(env, font, limit, ws)|;
            1 + 2 * Stars(ws) + Books(ws) <= n <= 1 + |ws| + Stars(ws)
  {
    if ws != [] {
      WrapLineCount(env, font, limit, ws[..|ws| - 1]);
    }
  }

  // ------------------------------------------------------------ get_boxsize

  /** get_boxsize(..., 2): the width of the block with the italic markers removed. */
  function BoxWidth(env: Env, text: string, font: Font): real {
    env.boxRight(font, Unmarked(text))
  }

  /** get_boxsize(..., 3): the height of the block with the italic markers removed. */
  function BoxHeight(env: Env, text: string, font: Font): real {
    env.boxBottom(font, Unmarked(text))
  }

  /** An italic marker anywhere in the block changes neither its width nor its height. */
  lemma BoxIgnoresMarkers(env: Env, a: string, m: char, b: string, font: Font)
    requires m == SQUARE || m == CIRCLE
    ensures BoxWidth(env, a + [m] + b, font) == BoxWidth(env, a + b, font)
    ensures BoxHeight(env, a + [m] + b, font) == BoxHeight(env, a + b, font)
  {
    UnmarkedAppend(a + [m], b);
    UnmarkedAppend(a, [m]);
    UnmarkedAppend(a, b);
    UnmarkedMarker(m);
    assert Unmarked(a) + [] == Unmarked(a);
  }

  // ----------------------------------------------------------- calc_fntsize

  /** The wrapped quote and the font size chosen for it. */
  datatype Fit = Fit(lines: string, size: int)

  function Max(a: int, b: int): int {
    if a < b then b else a
  }

  /** The quote wrapped at `length` in the font `face` of size `size`. */
  function Wrapped(env: Env, length: real, text: string, face: Face, size: int): string {
    JoinLines(Wrap(env, Font(face, size), length, Words(text)))
  }

  /**
   * The growing loop stopped at `fit + 1`, having started from `base`: every
   * size it wrapped at up to `fit` kept the block within `height`, and the
   * next one overflowed it, passed `cap`, or was never tried because
   * `height` is negative.
   */
  ghost predicate Grown(env: Env, length: real, height: real, text: string, face: Face, base: int, fit: int, cap: int) {
    && base - 1 <= fit <= Max(cap, base - 1)
    && (forall k :: base < k <= fit ==> BoxHeight(env, Wrapped(env, length, text, face, k), Font(face, k)) <= height)
    && (fit + 1 > cap
        || (if fit + 1 == base then 0.0 > height
            else BoxHeight(env, Wrapped(env, length, text, face, fit + 1), Font(face, fit + 1)) > height))
  }

  /** The shrinking loop stopped at `size`: the lines fit `length` there and at no size above it up to `fit`. */
  ghost predicate Shrunk(env: Env, length: real, lines: string, face: Face, size: int, fit: int) {
    && 1 <= size <= fit
    && BoxWidth(env, lines, Font(face, size)) <= length
    && (forall k :: size < k <= fit ==> BoxWidth(env, lines, Font(face, k)) > length)
  }

  /**
   * Where the growing loop settles when it stands at `size`, the block last
   * measured at `boxHeight`: one below the size at which it stops.
   */
  function GrowFrom(env: Env, length: real, height: real, text: string, face: Face, size: int, cap: int, boxHeight: real): int
    decreases cap + 1 - size
  {
    if boxHeight > height || size > cap then size - 1
    else GrowFrom(env, length, height, text, face, size + 1, cap,
                  BoxHeight(env, Wrapped(env, length, text, face, size + 1), Font(face, size + 1)))
  }

  /** One more size tried by the growing loop leaves where it settles unchanged. */
  lemma GrowStep(env: Env, length: real, height: real, text: string, face: Face, size: int, cap: int, boxHeight: real)
    requires !(boxHeight > height) && size <= cap
    ensures GrowFrom(env, length, height, text, face, size, cap, boxHeight)
         == GrowFrom(env, length, height, text, face, size + 1, cap,
                     BoxHeight(env, Wrapped(env, length, text, face, size + 1), Font(face, size + 1)))
  {
  }

  /** Where the shrinking loop settles from `size`, or `None` when it would create a font of size 0. */
  function ShrinkFrom(env: Env, length: real, lines: string, face: Face, size: int): Option<int>
    decreases size
  {
    if BoxWidth(env, lines, Font(face, size)) <= length then Some(size)
    else if size - 1 < 1 then None
    else ShrinkFrom(env, length, lines, face, size - 1)
  }

  /**
   * One call of calc_fntsize up to its retry: create the font at `base`,
   * grow up to `cap`, wrap at the size grown to, shrink. Creating a font
   * below size 1 on the way is the `ValueError`.
   */
  function Attempt(env: Env, length: real, height: real, text: string, face: Face, base: int, cap: int): Result<Fit> {
    if base < 1 then Err(ValueError)
    else
      var fit := GrowFrom(env, length, height, text, face, base, cap, 0.0);
      if fit < 1 then Err(ValueError)
      else
        var lines := Wrapped(env, length, text, face, fit);
        match ShrinkFrom(env, length, lines, face, fit)
        case None => Err(ValueError)
        case Some(size) => Ok(Fit(lines, size))
  }

  /** The attempt at `base` made a layout, but one taller than `height`, so calc_fntsize retries. */
  ghost predicate TooTall(env: Env, length: real, height: real, text: string, face: Face, base: int, cap: int) {
    var a := Attempt(env, length, height, text, face, base, cap);
    a.Ok? && BoxHeight(env, a.value.lines, Font(face, a.value.size)) > height
  }

  /** The maximum of the attempt at `b` in a search from `basesize`: the retries use the default. */
  function CapAt(b: int, basesize: int, maxsize: int): int {
    if b == basesize then maxsize else MAXSIZE
  }

  /**
   * The retries of calc_fntsize from `basesize` went down to `base`: `base`
   * is `basesize` less a multiple of 5, and every attempt above it was
   * `tall`.
   */
  ghost predicate Chain(tall: int -> bool, basesize: int, base: int) {
    && base <= basesize
    && (basesize - base) % 5 == 0
    && forall b :: base < b <= basesize && (basesize - b) % 5 == 0 ==> tall(b)
  }

  /** A chain from five sizes lower, behind a tall attempt at `basesize`, is a chain from `basesize`. */
  lemma ChainStep(tall: int -> bool, tall': int -> bool, basesize: int, base: int)
    requires Chain(tall', basesize - 5, base) && tall(basesize)
    requires forall b :: b < basesize ==> tall(b) == tall'(b)
    ensures Chain(tall, basesize, base)
  {
    forall b | base < b <= basesize && (basesize - b) % 5 == 0
      ensures tall(b)
    {
      if b < basesize {
        assert (basesize - 5 - b) % 5 == 0;
        assert tall'(b);
      }
    }
  }

  /** A chain that reached `b1` passed every attempt above it, so an attempt above `b1` is tall. */
  lemma ChainStops(tall: int -> bool, basesize: int, b1: int, b2: int)
    requires Chain(tall, basesize, b1) && Chain(tall, basesize, b2) && !tall(b2)
    ensures b2 <= b1
  {
  }

  /** calc_fntsize, called with `basesize`, reached the attempt at `base` through attempts that were too tall. */
  ghost predicate Overflowed(env: Env, length: real, height: real, text: string, face: Face, basesize: int, maxsize: int, base: int) {
    Chain(b => TooTall(env, length, height, text, face, b, CapAt(b, basesize, maxsize)), basesize, base)
  }

  /**
   * calc_fntsize, called with `basesize`, ends in `r`: the attempt it
   * reached through overflows gave `r`, and did not overflow in turn.
   */
  ghost predicate Searched(env: Env, length: real, height: real, text: string, face: Face, basesize: int, maxsize: int, r: Result<Fit>) {
    exists base ::
      && Overflowed(env, length, height, text, face, basesize, maxsize, base)
      && Attempt(env, length, height, text, face, base, CapAt(base, basesize, maxsize)) == r
      && !TooTall(env, length, height, text, face, base, CapAt(base, basesize, maxsize))
  }

  /** calc_fntsize has one outcome: a search cannot end in two different results. */
  lemma SearchedUnique(env: Env, length: real, height: real, text: string, face: Face, basesize: int, maxsize: int,
                       r1: Result<Fit>, r2: Result<Fit>)
    requires Searched(env, length, height, text, face, basesize, maxsize, r1)
    requires Searched(env, length, height, text, face, basesize, maxsize, r2)
    ensures r1 == r2
  {
    var b1 :| && Overflowed(env, length, height, text, face, basesize, maxsize, b1)
              && Attempt(env, length, height, text, face, b1, CapAt(b1, basesize, maxsize)) == r1
              && !TooTall(env, length, height, text, face, b1, CapAt(b1, basesize, maxsize));
    var b2 :| && Overflowed(env, length, height, text, face, basesize, maxsize, b2)
              && Attempt(env, length, height, text, face, b2, CapAt(b2, basesize, maxsize)) == r2
              && !TooTall(env, length, height, text, face, b2, CapAt(b2, basesize, maxsize));
    StopsAtFirstFit(env, length, height, text, face, basesize, maxsize, b1, b2);
    StopsAtFirstFit(env, length, height, text, face, basesize, maxsize, b2, b1);
  }

  /** A search that reached `b1` went past every attempt above it, so one that stops at `b2` cannot be above `b1`. */
  lemma StopsAtFirstFit(env: Env, length: real, height: real, text: string, face: Face, basesize: int, maxsize: int, b1: int, b2: int)
    requires Overflowed(env, length, height, text, face, basesize, maxsize, b1)
    requires Overflowed(env, length, height, text, face, basesize, maxsize, b2)
    requires !TooTall(env, length, height, text, face, b2, CapAt(b2, basesize, maxsize))
    ensures b2 <= b1
  {
    ChainStops(b => TooTall(env, length, height, text, face, b, CapAt(b, basesize, maxsize)), basesize, b1, b2);
  }

  /** A too-tall first attempt followed by a search from five sizes lower is a search from `basesize`. */
  lemma OverflowedStep(env: Env, length: real, height: real, text: string, face: Face, basesize: int, maxsize: int, base: int)
    requires Overflowed(env, length, height, text, face, basesize - 5, MAXSIZE, base)
    requires TooTall(env, length, height, text, face, basesize, maxsize)
    ensures Overflowed(env, length, height, text, face, basesize, maxsize, base)
    ensures base <= basesize - 5 && CapAt(base, basesize, maxsize) == CapAt(base, basesize - 5, MAXSIZE)
  {
    ChainStep(b => TooTall(env, length, height, text, face, b, CapAt(b, basesize, maxsize)),
              b => TooTall(env, length, height, text, face, b, CapAt(b, basesize - 5, MAXSIZE)), basesize, base);
  }

  /**
   * Where the growing loop settles meets `Grown`: from any point the loop
   * can stand at, started from `base`, it settles on a size whose blocks up
   * to it fit `height` and whose next one would not have been kept.
   */
  lemma {:induction false} GrowFromGrown(env: Env, length: real, height: real, text: string, face: Face, base: int,
                                         size: int, cap: int, boxHeight: real)
    requires base <= size <= Max(cap + 1, base)
    requires forall k :: base < k < size ==> BoxHeight(env, Wrapped(env, length, text, face, k), Font(face, k)) <= height
    requires size == base ==> boxHeight == 0.0
    requires size > base ==> boxHeight == BoxHeight(env, Wrapped(env, length, text, face, size), Font(face, size))
    ensures Grown(env, length, height, text, face, base, GrowFrom(env, length, height, text, face, size, cap, boxHeight), cap)
    decreases cap + 1 - size
  {
    if boxHeight > height || size > cap {
      GrowStops(env, length, height, text, face, base, size, cap, boxHeight);
    } else {
      var next := BoxHeight(env, Wrapped(env, length, text, face, size + 1), Font(face, size + 1));
      GrowStep(env, length, height, text, face, size, cap, boxHeight);
      GrowFitsOneMore(env, length, height, text, face, base, size, boxHeight);
      GrowFromGrown(env, length, height, text, face, base, size + 1, cap, next);
    }
  }

  /** Where the growing loop stops, the size below it is `Grown`. */
  lemma GrowStops(env: Env, length: real, height: real, text: string, face: Face, base: int, size: int, cap: int, boxHeight: real)
    requires base <= size <= Max(cap + 1, base)
    requires forall k :: base < k < size ==> BoxHeight(env, Wrapped(env, length, text, face, k), Font(face, k)) <= height
    requires size == base ==> boxHeight == 0.0
    requires size > base ==> boxHeight == BoxHeight(env, Wrapped(env, length, text, face, size), Font(face, size))
    requires boxHeight > height || size > cap
    ensures GrowFrom(env, length, height, text, face, size, cap, boxHeight) == size - 1
    ensures Grown(env, length, height, text, face, base, size - 1, cap)
  {
  }

  /** A size the growing loop went past fit the height. */
  lemma GrowFitsOneMore(env: Env, length: real, height: real, text: string, face: Face, base: int, size: int, boxHeight: real)
    requires base <= size
    requires forall k :: base < k < size ==> BoxHeight(env, Wrapped(env, length, text, face, k), Font(face, k)) <= height
    requires size > base ==> boxHeight == BoxHeight(env, Wrapped(env, length, text, face, size), Font(face, size))
    requires !(boxHeight > height)
    ensures forall k :: base < k < size + 1 ==> BoxHeight(env, Wrapped(env, length, text, face, k), Font(face, k)) <= height
  {
    forall k | base < k < size + 1
      ensures BoxHeight(env, Wrapped(env, length, text, face, k), Font(face, k)) <= height
    {
      if k == size {
        assert size > base;
      }
    }
  }

  /**
   * The first loop of calc_fntsize: from `basesize`, try one size larger
   * while the last block tried is within `height` and the size is within
   * `maxsize`; the result is one below the size the loop stopped at.
   */
  method GrowSize(env: Env, length: real, height: real, text: string, face: Face, basesize: int, maxsize: int)
    returns (fit: int)
    requires basesize >= 1
    ensures Grown(env, length, height, text, face, basesize, fit, maxsize)
    ensures fit == GrowFrom(env, length, height, text, face, basesize, maxsize, 0.0)
  {
    var size := basesize;
    var boxHeight: real := 0.0;
    var lines := "";
    while !(boxHeight > height) && !(size > maxsize)
      invariant basesize <= size <= Max(maxsize + 1, basesize)
      invariant GrowFrom(env, length, height, text, face, size, maxsize, boxHeight) == GrowFrom(env, length, height, text, face, basesize, maxsize, 0.0)
      decreases maxsize + 1 - size
    {
      GrowStep(env, length, height, text, face, size, maxsize, boxHeight);
      size := size + 1;
      lines := WrapLines(env, text, Font(face, size), length);
      assert lines == Wrapped(env, length, text, face, size);
      boxHeight := BoxHeight(env, lines, Font(face, size));
    }
    fit := size - 1;
    GrowFromGrown(env, length, height, text, face, basesize, basesize, maxsize, 0.0);
  }

  /**
   * The second loop of calc_fntsize: lower the size, keeping the lines,
   * until the block is no wider than `length`; reaching size 0 is the
   * `ValueError` of creating that font, and happens exactly when no size
   * from 1 to `fit` is narrow enough.
   */
  method ShrinkSize(env: Env, length: real, lines: string, face: Face, fit: int) returns (r: Result<int>)
    requires fit >= 1
    ensures r.Ok? ==> Shrunk(env, length, lines, face, r.value, fit)
    ensures r.Err? ==> r.error == ValueError
    ensures r.Err? ==> forall k :: 1 <= k <= fit ==> BoxWidth(env, lines, Font(face, k)) > length
    ensures ShrinkFrom(env, length, lines, face, fit) == if r.Ok? then Some(r.value) else None
  {
    var size := fit;
    var boxLength := BoxWidth(env, lines, Font(face, size));
    while boxLength > length
      invariant 1 <= size <= fit
      invariant ShrinkFrom(env, length, lines, face, size) == ShrinkFrom(env, length, lines, face, fit)
      invariant boxLength == BoxWidth(env, lines, Font(face, size))
      invariant forall k :: size < k <= fit ==> BoxWidth(env, lines, Font(face, k)) > length
      decreases size
    {
      size := size - 1;
      if size < 1 {
        return Err(ValueError);
      }
      boxLength := BoxWidth(env, lines, Font(face, size));
    }
    r := Ok(size);
  }

  /** The search has overflowed at no size before its first attempt. */
  lemma OverflowedStart(env: Env, length: real, height: real, text: string, face: Face, basesize: int, maxsize: int)
    ensures Overflowed(env, length, height, text, face, basesize, maxsize, basesize)
    ensures CapAt(basesize, basesize, maxsize) == maxsize
  {
  }

  /**
   * What the search from `basesize - 5` ends with, after a too-tall attempt
   * from `basesize`, is what the search from `basesize` ends with.
   */
  lemma Retried(env: Env, length: real, height: real, text: string, face: Face, basesize: int, maxsize: int,
                r: Result<Fit>, base: int, fit: int)
    requires TooTall(env, length, height, text, face, basesize, maxsize)
    requires r.Ok? ==>
      && base <= basesize - 5
      && Grown(env, length, height, text, face, base, fit, CapAt(base, basesize - 5, MAXSIZE))
    requires r.Ok? ==> r.value.size <= Max(Max(MAXSIZE, MAXSIZE), basesize - 5 - 1)
    requires Overflowed(env, length, height, text, face, basesize - 5, MAXSIZE, base)
    requires r == Attempt(env, length, height, text, face, base, CapAt(base, basesize - 5, MAXSIZE))
    requires !TooTall(env, length, height, text, face, base, CapAt(base, basesize - 5, MAXSIZE))
    ensures r.Ok? ==>
      && base <= basesize
      && Grown(env, length, height, text, face, base, fit, CapAt(base, basesize, maxsize))
    ensures r.Ok? ==> r.value.size <= Max(Max(maxsize, MAXSIZE), basesize - 1)
    ensures Overflowed(env, length, height, text, face, basesize, maxsize, base)
    ensures r == Attempt(env, length, height, text, face, base, CapAt(base, basesize, maxsize))
    ensures !TooTall(env, length, height, text, face, base, CapAt(base, basesize, maxsize))
  {
    OverflowedStep(env, length, height, text, face, basesize, maxsize, base);
  }

  /**
   * One call of calc_fntsize up to its retry: create the font, grow, step
   * back one size and re-wrap, shrink without re-wrapping. A font size
   * below 1 is a `ValueError`. `fit` is the size the lines were wrapped at.
   */
  method AttemptSize(env: Env, length: real, height: real, text: string, face: Face, basesize: int, maxsize: int)
    returns (r: Result<Fit>, ghost fit: int)
    ensures r == Attempt(env, length, height, text, face, basesize, maxsize)
    ensures r.Err? ==> r.error == ValueError
    ensures r.Ok? ==>
      && Grown(env, length, height, text, face, basesize, fit, maxsize)
      && r.value.lines == Wrapped(env, length, text, face, fit)
      && Shrunk(env, length, r.value.lines, face, r.value.size, fit)
      && r.value.size <= Max(maxsize, basesize - 1)
  {
    fit := basesize;
    var created := CreateFont(face, basesize);
    if created.Err? {
      return Err(ValueError), fit;
    }
    var grown := GrowSize(env, length, height, text, face, basesize, maxsize);
    fit := grown;
    if grown < 1 {
      return Err(ValueError), fit;
    }
    var lines := WrapLines(env, text, Font(face, grown), length);
    var shrunk := ShrinkSize(env, length, lines, face, grown);
    if shrunk.Err? {
      return Err(ValueError), fit;
    }
    r := Ok(Fit(lines, shrunk.value));
  }

  /**
   * calc_fntsize: one attempt from `basesize`, then, if the block is still
   * taller than `height`, the search again from `basesize - 5` with the
   * default maximum.
   *
   * `base` is the starting size of the attempt that ended the search and
   * `fit` the size the returned lines were wrapped at.
   */
  method CalcFntSize(env: Env, length: real, height: real, text: string, face: Face, basesize: int, maxsize: int)
    returns (r: Result<Fit>, ghost base: int, ghost fit: int)
    ensures r.Err? ==> r.error == ValueError
    ensures r.Ok? ==>
      && base <= basesize
      && Grown(env, length, height, text, face, base, fit, CapAt(base, basesize, maxsize))
      && r.value.lines == Wrapped(env, length, text, face, fit)
      && Shrunk(env, length, r.value.lines, face, r.value.size, fit)
      && BoxHeight(env, r.value.lines, Font(face, r.value.size)) <= height
    ensures r.Ok? ==> r.value.size <= Max(Max(maxsize, MAXSIZE), basesize - 1)
    ensures Overflowed(env, length, height, text, face, basesize, maxsize, base)
    ensures r == Attempt(env, length, height, text, face, base, CapAt(base, basesize, maxsize))
    ensures !TooTall(env, length, height, text, face, base, CapAt(base, basesize, maxsize))
    decreases basesize
  {
    base := basesize;
    var attempt;
    attempt, fit := AttemptSize(env, length, height, text, face, basesize, maxsize);
    OverflowedStart(env, length, height, text, face, basesize, maxsize);
    if attempt.Err? {
      assert !TooTall(env, length, height, text, face, basesize, maxsize);
      return attempt, base, fit;
    }
    if BoxHeight(env, attempt.value.lines, Font(face, attempt.value.size)) > height {
      assert TooTall(env, length, height, text, face, basesize, maxsize);
      r, base, fit := CalcFntSize(env, length, height, text, face, basesize - 5, MAXSIZE);
      Retried(env, length, height, text, face, basesize, maxsize, r, base, fit);
      return;
    }
    assert !TooTall(env, length, height, text, face, basesize, maxsize);
    r := attempt;
  }

  // ------------------------------------------------------------- draw_quote

  /** Where the bookmarks go: the first match, or the start of the text when there is none. */
  function MarkStart(text: string, substr: string): nat {
    match TimestringStart(text, substr)
    case Some(s) => s
    case None => 0
  }

  /** The bookmarked text draw_quote walks. */
  function Marked(text: string, substr: string): string {
    Bookmarked(text, MarkStart(text, substr), |substr|)
  }

  /** A word part way through draw_quote's handling: after the bookmark checks, before the italic ones. */
  datatype Phase = Phase(pen: Pen, cmds: seq<DrawCmd>, word: string)

  /** The two bookmark branches: a whole timestring in one word, or one end of it. */
  function BookmarkPhase(env: Env, size: int, pen: Pen, w: string): Phase {
    var n := Count(w, BOOKMARK);
    if n == 2 then
      var parts := SplitOn(w, BOOKMARK);
      var p1 := Advance(env, size, pen, parts[0], Norm);
      var p2 := Advance(env, size, p1, parts[1], High);
      Phase(Advance(env, size, p2, parts[2], Norm),
            [Seg(size, pen, parts[0], Norm), Seg(size, p1, parts[1], High), Seg(size, p2, parts[2], Norm)], "")
    else if n == 1 then
      var parts := SplitOn(w, BOOKMARK);
      var marks := pen.marks + 1;
      var st := if CIRCLE in parts[0] then ItalicHigh else pen.style;
      var before := if CIRCLE in parts[0] then env.nfkd(Remove(parts[0], CIRCLE)) else parts[0];
      var after := if marks == 1 && CIRCLE in parts[1] then env.nfkd(Remove(parts[1], CIRCLE)) else parts[1];
      var next := if marks != 1 then Norm else if CIRCLE in parts[1] then ItalicHigh else High;
      Phase(Advance(env, size, pen, before, st).(style := next, marks := marks), [Seg(size, pen, before, st)], after)
    else Phase(pen, [], w)
  }

  /** `split(m)` drawn as outer, NFKD'd inner, outer; `IndexError` once two are drawn if there is no third piece. */
  function ThreeParts(env: Env, size: int, pen: Pen, parts: seq<string>, outer: Style, inner: Style): Step
    requires |parts| >= 2
  {
    var p1 := Advance(env, size, pen, parts[0], outer);
    var mid := env.nfkd(parts[1]);
    var p2 := Advance(env, size, p1, mid, inner);
    var drawn := [Seg(size, pen, parts[0], outer), Seg(size, p1, mid, inner)];
    if |parts| < 3 then Step(p2, drawn, Some(IndexError))
    else Step(Advance(env, size, p2, parts[2], outer), drawn + [Seg(size, p2, parts[2], outer)], None)
  }

  /** The italic branches: ◻ runs in italics, ◯ runs in bold italics, anything else in the current style. */
  function MarkerPhase(env: Env, size: int, pen: Pen, w: string): Step {
    if SQUARE in w then ThreeParts(env, size, pen, SplitOn(w, SQUARE), Norm, Italic)
    else if CIRCLE in w then ThreeParts(env, size, pen, SplitOn(w, CIRCLE), High, ItalicHigh)
    else Step(Advance(env, size, pen, w, pen.style), [Seg(size, pen, w, pen.style)], None)
  }

  /** One word of draw_quote's inner loop, with the space it appends. */
  function WordStep(env: Env, size: int, pen: Pen, word: string): Step {
    var ph := BookmarkPhase(env, size, pen, word + " ");
    var s := MarkerPhase(env, size, ph.pen, ph.word);
    Step(s.pen, ph.cmds + s.cmds, s.raised)
  }

  function Stepper(env: Env, size: int): (Pen, string) -> Step {
    (p: Pen, w: string) => WordStep(env, size, p, w)
  }

  /** `font_norm.getbbox("A")[3] + 4`: the distance between two lines. */
  function LineStep(env: Env, size: int): real {
    (env.capBottom(Font(Bookerly, size)) + 4) as real
  }

  /** What draw_quote draws, and the exception that stops it, if any. */
  function WalkQuote(env: Env, size: int, x0: real, y0: real, text: string, substr: string): Step {
    WalkLines(Stepper(env, size), x0, LineStep(env, size), Pen(x0, y0, Norm, 0), LineWords(SplitLines(Marked(text, substr))))
  }

  /** The body of draw_quote's inner loop. */
  method DrawWord(canvas: Canvas, env: Env, size: int, pen: Pen, word: string) returns (next: Pen, raised: Option<Error>)
    modifies canvas
    ensures var s := WordStep(env, size, pen, word);
            canvas.commands == old(canvas.commands) + s.cmds && next == s.pen && raised == s.raised
  {
    ghost var ph := BookmarkPhase(env, size, pen, word + " ");
    var p, w := DrawBookmarks(canvas, env, size, pen, word + " ");
    next, raised := DrawMarkers(canvas, env, size, p, w);
    ConcatAssoc(old(canvas.commands), ph.cmds, MarkerPhase(env, size, p, w).cmds);
  }

  /** The two bookmark branches of the inner loop; returns the pen and what is left of the word. */
  method DrawBookmarks(canvas: Canvas, env: Env, size: int, pen: Pen, word: string) returns (next: Pen, rest: string)
    modifies canvas
    ensures var ph := BookmarkPhase(env, size, pen, word);
            canvas.commands == old(canvas.commands) + ph.cmds && next == ph.pen && rest == ph.word
  {
    next, rest := pen, word;
    if Count(word, BOOKMARK) == 2 {
      var parts := SplitOn(word, BOOKMARK);
      next := WriteSeg(canvas, env, size, next, parts[0], Norm);
      next := WriteSeg(canvas, env, size, next, parts[1], High);
      next := WriteSeg(canvas, env, size, next, parts[2], Norm);
      rest := "";
    } else if Count(word, BOOKMARK) == 1 {
      next := next.(marks := next.marks + 1);
      var parts := SplitOn(word, BOOKMARK);
      var wordnow := parts[0];
      if CIRCLE in wordnow {
        wordnow := env.nfkd(Remove(wordnow, CIRCLE));
        next := next.(style := ItalicHigh);
      }
      rest := parts[1];
      next := WriteSeg(canvas, env, size, next, wordnow, next.style);
      if next.marks == 1 {
        if CIRCLE in rest {
          rest := env.nfkd(Remove(rest, CIRCLE));
          next := next.(style := ItalicHigh);
        } else {
          next := next.(style := High);
        }
      } else {
        next := next.(style := Norm);
      }
    }
  }

  /** The italic branches of the inner loop, drawing what the bookmark branches left of the word. */
  method DrawMarkers(canvas: Canvas, env: Env, size: int, pen: Pen, w: string) returns (next: Pen, raised: Option<Error>)
    modifies canvas
    ensures var s := MarkerPhase(env, size, pen, w);
            canvas.commands == old(canvas.commands) + s.cmds && next == s.pen && raised == s.raised
  {
    next := pen;
    if SQUARE in w {
      var parts := SplitOn(w, SQUARE);
      next := WriteSeg(canvas, env, size, next, parts[0], Norm);
      next := WriteSeg(canvas, env, size, next, env.nfkd(parts[1]), Italic);
      if |parts| < 3 {
        return next, Some(IndexError);
      }
      next := WriteSeg(canvas, env, size, next, parts[2], Norm);
    } else if CIRCLE in w {
      var parts := SplitOn(w, CIRCLE);
      next := WriteSeg(canvas, env, size, next, parts[0], High);
      next := WriteSeg(canvas, env, size, next, env.nfkd(parts[1]), ItalicHigh);
      if |parts| < 3 {
        return next, Some(IndexError);
      }
      next := WriteSeg(canvas, env, size, next, parts[2], High);
    } else {
      next := WriteSeg(canvas, env, size, next, w, next.style);
    }
    raised := None;
  }

  /** draw_quote's inner loop over the words of one line. */
  method DrawLine(canvas: Canvas, env: Env, size: int, pen: Pen, ws: seq<string>) returns (next: Pen, raised: Option<Error>)
    modifies canvas
    ensures var r := WalkWords(Stepper(env, size), pen, ws);
            canvas.commands == old(canvas.commands) + r.cmds && next == r.pen && raised == r.raised
  {
    ghost var step := Stepper(env, size);
    next, raised := pen, None;
    var j := 0;
    while j < |ws|
      invariant 0 <= j <= |ws|
      invariant var d := WalkWords(step, pen, ws[..j]);
                d.raised.None? && canvas.commands == old(canvas.commands) + d.cmds && next == d.pen
    {
      ghost var d := WalkWords(step, pen, ws[..j]);
      var p, err := DrawWord(canvas, env, size, next, ws[j]);
      WalkWordsNext(step, pen, ws, j);
      ConcatAssoc(old(canvas.commands), d.cmds, WordStep(env, size, next, ws[j]).cmds);
      if err.Some? {
        ghost var r := WalkWords(step, pen, ws[..j + 1]);
        assert r.raised == err && canvas.commands == old(canvas.commands) + r.cmds;
        WalkWordsSticky(step, pen, ws, j + 1);
        assert WalkWords(step, pen, ws) == r;
        return p, err;
      }
      next := p;
      j := j + 1;
    }
    assert ws[..j] == ws;
  }

  /** draw_quote: bookmark the timestring, then draw the quote line by line, word by word. */
  method DrawQuote(canvas: Canvas, env: Env, x0: real, y0: real, text: string, substr: string, size: int)
    returns (raised: Option<Error>)
    modifies canvas
    ensures var r := WalkQuote(env, size, x0, y0, text, substr);
            canvas.commands == old(canvas.commands) + r.cmds && raised == r.raised
  {
    var start := 0;
    var found := TimestringStart(text, substr);
    if found.Some? {
      start := found.value;
    }
    assert start == MarkStart(text, substr);
    var lines := Bookmarked(text, start, |substr|);
    raised := DrawLines(canvas, env, size, x0, y0, LineWords(SplitLines(lines)));
  }

  /** draw_quote's outer loop over the lines of the bookmarked text, given as their words. */
  method DrawLines(canvas: Canvas, env: Env, size: int, x0: real, y0: real, all: seq<seq<string>>) returns (raised: Option<Error>)
    modifies canvas
    ensures var r := WalkLines(Stepper(env, size), x0, LineStep(env, size), Pen(x0, y0, Norm, 0), all);
            canvas.commands == old(canvas.commands) + r.cmds && raised == r.raised
  {
    var lineStep := (env.capBottom(Font(Bookerly, size)) + 4) as real;
    ghost var step := Stepper(env, size);
    assert lineStep == LineStep(env, size);
    var pen := Pen(x0, y0, Norm, 0);
    ghost var pen0 := pen;
    raised := None;
    var i := 0;
    while i < |all|
      invariant 0 <= i <= |all|
      invariant var d := WalkLines(step, x0, lineStep, pen0, all[..i]);
                d.raised.None? && canvas.commands == old(canvas.commands) + d.cmds && pen == d.pen
    {
      ghost var d := WalkLines(step, x0, lineStep, pen0, all[..i]);
      var p, err := DrawLine(canvas, env, size, pen, all[i]);
      WalkLinesNext(step, x0, lineStep, pen0, all, i);
      ConcatAssoc(old(canvas.commands), d.cmds, WalkWords(step, pen, all[i]).cmds);
      if err.Some? {
        ghost var r := WalkLines(step, x0, lineStep, pen0, all[..i + 1]);
        assert r.raised == err && canvas.commands == old(canvas.commands) + r.cmds;
        WalkLinesSticky(step, x0, lineStep, pen0, all, i + 1);
        assert WalkLines(step, x0, lineStep, pen0, all) == r;
        return err;
      }
      pen := NextLine(p, x0, lineStep);
      i := i + 1;
    }
    assert all[..i] == all;
  }

  // ------------------------------------------------ what draw_quote highlights

  /** A word with none of the markers in it. */
  predicate Plain(w: string) {
    BOOKMARK !in w && SQUARE !in w && CIRCLE !in w
  }

  predicate AllPlain(ws: seq<string>) {
    forall i :: 0 <= i < |ws| ==> Plain(ws[i])
  }

  /** A plain word is drawn in one piece, with its space, in the current style. */
  lemma PlainWordStep(env: Env, size: int, pen: Pen, w: string)
    requires Plain(w)
    ensures WordStep(env, size, pen, w)
            == Step(Advance(env, size, pen, w + " ", pen.style), [Seg(size, pen, w + " ", pen.style)], None)
  {
    assert BOOKMARK !in w + " " && SQUARE !in w + " " && CIRCLE !in w + " ";
  }

  lemma HighlightedOne(c: DrawCmd)
    ensures Highlighted([c]) == if c.fill == TIME_COLOR then c.text else ""
  {
    assert [c][..0] == [];
  }

  /** One more command, highlighted exactly when those before it are. */
  lemma HighlightedSnoc(cmds: seq<DrawCmd>, c: DrawCmd, high: bool, before: string, text: string)
    requires Highlighted(cmds) == (if high then before else "")
    requires (c.fill == TIME_COLOR) == high && c.text == text
    ensures Highlighted(cmds + [c]) == if high then before + text else ""
  {
    HighlightedAppend(cmds, [c]);
    HighlightedOne(c);
  }

  /** A run of plain words keeps the style, and is highlighted exactly when the style is. */
  lemma {:induction false} PlainWords(env: Env, size: int, pen: Pen, ws: seq<string>)
    requires AllPlain(ws)
    ensures WalkWords(Stepper(env, size), pen, ws).raised.None?
    ensures WalkWords(Stepper(env, size), pen, ws).pen.style == pen.style
    ensures WalkWords(Stepper(env, size), pen, ws).pen.marks == pen.marks
    ensures Highlighted(WalkWords(Stepper(env, size), pen, ws).cmds)
            == if Fill(pen.style) == TIME_COLOR then Spaced(ws) else ""
  {
    if ws != [] {
      var n := |ws| - 1;
      var pre := ws[..n];
      assert AllPlain(pre) by {
        forall i | 0 <= i < |pre| ensures Plain(pre[i]) { assert pre[i] == ws[i]; }
      }
      PlainWords(env, size, pen, pre);
      var d := WalkWords(Stepper(env, size), pen, pre);
      assert Plain(ws[n]);
      PlainWordStep(env, size, d.pen, ws[n]);
      var s := WordStep(env, size, d.pen, ws[n]);
      assert WalkWords(Stepper(env, size), pen, ws) == Step(s.pen, d.cmds + s.cmds, s.raised);
      var c := Seg(size, d.pen, ws[n] + " ", pen.style);
      assert s.cmds == [c];
      HighlightedSnoc(d.cmds, c, Fill(pen.style) == TIME_COLOR, Spaced(pre), ws[n] + " ");
      SpacedLast(ws);
    }
  }

  /** The word holding the first bookmark switches to the highlight for what follows it. */
  lemma OpeningBookmark(env: Env, size: int, pen: Pen, a: string, b: string)
    requires pen.marks == 0 && Plain(a) && Plain(b)
    ensures var r := WordStep(env, size, pen, a + [BOOKMARK] + b);
            r.raised.None? && r.pen.marks == 1 && r.pen.style == High
            && Highlighted(r.cmds) == (if Fill(pen.style) == TIME_COLOR then a else "") + (b + " ")
  {
    SplitOnce(a, BOOKMARK, b);
    var w := a + [BOOKMARK] + b + " ";
    assert Count(w, BOOKMARK) == 1;
    var ph := BookmarkPhase(env, size, pen, w);
    assert ph.word == b + " " && ph.pen.style == High;
    assert SQUARE !in b + " " && CIRCLE !in b + " ";
    var c0 := Seg(size, pen, a, pen.style);
    var c1 := Seg(size, ph.pen, b + " ", High);
    assert WordStep(env, size, pen, a + [BOOKMARK] + b).cmds == [c0] + [c1];
    HighlightedAppend([c0], [c1]);
    HighlightedOne(c0);
    HighlightedOne(c1);
  }

  /** The word holding a later bookmark ends the highlight after the part before it. */
  lemma ClosingBookmark(env: Env, size: int, pen: Pen, a: string, b: string)
    requires pen.marks != 0 && Plain(a) && Plain(b)
    ensures var r := WordStep(env, size, pen, a + [BOOKMARK] + b);
            r.raised.None? && r.pen.marks == pen.marks + 1 && r.pen.style == Norm
            && Highlighted(r.cmds) == if Fill(pen.style) == TIME_COLOR then a else ""
  {
    SplitOnce(a, BOOKMARK, b);
    var w := a + [BOOKMARK] + b + " ";
    assert Count(w, BOOKMARK) == 1;
    var ph := BookmarkPhase(env, size, pen, w);
    assert ph.word == b + " " && ph.pen.style == Norm;
    assert SQUARE !in b + " " && CIRCLE !in b + " ";
    var c0 := Seg(size, pen, a, pen.style);
    var c1 := Seg(size, ph.pen, b + " ", Norm);
    assert WordStep(env, size, pen, a + [BOOKMARK] + b).cmds == [c0] + [c1];
    HighlightedAppend([c0], [c1]);
    HighlightedOne(c0);
    HighlightedOne(c1);
  }

  /**
   * A timestring inside one word is highlighted on its own, in three pieces
   * and an empty fourth; the style and the count of bookmarks seen are left alone.
   */
  lemma WholeTimestringWord(env: Env, size: int, pen: Pen, a: string, t: string, b: string)
    requires Plain(a) && Plain(t) && Plain(b)
    ensures var r := WordStep(env, size, pen, a + [BOOKMARK] + t + [BOOKMARK] + b);
            r.raised.None? && r.pen.marks == pen.marks && r.pen.style == pen.style
            && |r.cmds| == 4 && r.cmds[3].text == "" && Highlighted(r.cmds) == t
  {
    SplitTwice(a, BOOKMARK, t, b);
    var w := a + [BOOKMARK] + t + [BOOKMARK] + b + " ";
    assert Count(w, BOOKMARK) == 2;
    var ph := BookmarkPhase(env, size, pen, w);
    var c0 := Seg(size, pen, a, Norm);
    var p1 := Advance(env, size, pen, a, Norm);
    var c1 := Seg(size, p1, t, High);
    var c2 := Seg(size, Advance(env, size, p1, t, High), b + " ", Norm);
    var c3 := Seg(size, ph.pen, "", pen.style);
    assert ph.cmds == [c0, c1, c2] && ph.word == "";
    assert WordStep(env, size, pen, a + [BOOKMARK] + t + [BOOKMARK] + b).cmds == [c0, c1, c2] + [c3];
    HighlightedMiddle(c0, c1, c2, c3);
  }

  /** Of four commands, only the second is highlighted when the fourth is empty. */
  lemma HighlightedMiddle(c0: DrawCmd, c1: DrawCmd, c2: DrawCmd, c3: DrawCmd)
    requires c0.fill != TIME_COLOR && c1.fill == TIME_COLOR && c2.fill != TIME_COLOR && c3.text == ""
    ensures Highlighted([c0, c1, c2] + [c3]) == c1.text
  {
    assert [c0, c1, c2] == [c0, c1] + [c2] && [c0, c1] == [c0] + [c1];
    HighlightedAppend([c0, c1, c2], [c3]);
    HighlightedAppend([c0, c1], [c2]);
    HighlightedAppend([c0], [c1]);
    HighlightedOne(c0);
    HighlightedOne(c1);
    HighlightedOne(c2);
    HighlightedOne(c3);
  }

  /** A ◻ or ◯ with no partner in its word: two pieces are drawn, then `IndexError`. */
  lemma UnclosedMarker(env: Env, size: int, pen: Pen, a: string, m: char, b: string)
    requires m == SQUARE || m == CIRCLE
    requires Plain(a) && Plain(b)
    ensures var r := WordStep(env, size, pen, a + [m] + b);
            r.raised == Some(IndexError) && |r.cmds| == 2
  {
    SplitOnce(a, m, b);
    var w := a + [m] + b + " ";
    assert BOOKMARK !in w;
    if m == CIRCLE {
      assert SQUARE !in w;
    }
  }

  /** The three pieces around a pair of ◻ or ◯, drawn upright, slanted, upright. */
  lemma ThreePartsRun(env: Env, size: int, pen: Pen, a: string, b: string, c: string, outer: Style, inner: Style)
    ensures var r := ThreeParts(env, size, pen, [a, b, c], outer, inner);
            r.raised.None? && r.pen.style == pen.style && r.pen.marks == pen.marks && |r.cmds| == 3
            && r.cmds[0].text == a && r.cmds[1].text == env.nfkd(b) && r.cmds[2].text == c
            && r.cmds[0].font.face == FaceOf(outer) && r.cmds[2].font.face == FaceOf(outer)
            && r.cmds[1].font.face == FaceOf(inner)
            && r.cmds[0].fill == Fill(outer) && r.cmds[1].fill == Fill(inner) && r.cmds[2].fill == Fill(outer)
  {
  }

  /** A run between two ◻ is drawn in grey italics after compatibility normalisation; the style is left alone. */
  lemma ItalicRun(env: Env, size: int, pen: Pen, a: string, b: string, c: string)
    requires Plain(a) && Plain(b) && Plain(c)
    ensures var r := WordStep(env, size, pen, a + [SQUARE] + b + [SQUARE] + c);
            r.raised.None? && r.pen.style == pen.style && r.pen.marks == pen.marks && |r.cmds| == 3
            && r.cmds[0].text == a && r.cmds[1].text == env.nfkd(b) && r.cmds[2].text == c + " "
            && r.cmds[0].font.face == Bookerly && r.cmds[1].font.face == BookerlyItalic && r.cmds[2].font.face == Bookerly
            && r.cmds[0].fill == QUOTE_COLOR2 && r.cmds[1].fill == QUOTE_COLOR2 && r.cmds[2].fill == QUOTE_COLOR2
  {
    SplitTwice(a, SQUARE, b, c);
    var w := a + [SQUARE] + b + [SQUARE] + c + " ";
    assert BOOKMARK !in w;
    assert WordStep(env, size, pen, a + [SQUARE] + b + [SQUARE] + c) == ThreeParts(env, size, pen, [a, b, c + " "], Norm, Italic);
    ThreePartsRun(env, size, pen, a, b, c + " ", Norm, Italic);
  }

  /** A run between two ◯ is drawn in black bold italics after compatibility normalisation; the style is left alone. */
  lemma BoldItalicRun(env: Env, size: int, pen: Pen, a: string, b: string, c: string)
    requires Plain(a) && Plain(b) && Plain(c)
    ensures var r := WordStep(env, size, pen, a + [CIRCLE] + b + [CIRCLE] + c);
            r.raised.None? && r.pen.style == pen.style && r.pen.marks == pen.marks && |r.cmds| == 3
            && r.cmds[0].text == a && r.cmds[1].text == env.nfkd(b) && r.cmds[2].text == c + " "
            && r.cmds[0].font.face == BookerlyBold && r.cmds[1].font.face == BookerlyBoldItalic
            && r.cmds[2].font.face == BookerlyBold
            && r.cmds[0].fill == TIME_COLOR && r.cmds[1].fill == TIME_COLOR && r.cmds[2].fill == TIME_COLOR
  {
    SplitTwice(a, CIRCLE, b, c);
    var w := a + [CIRCLE] + b + [CIRCLE] + c + " ";
    assert BOOKMARK !in w && SQUARE !in w;
    assert WordStep(env, size, pen, a + [CIRCLE] + b + [CIRCLE] + c) == ThreeParts(env, size, pen, [a, b, c + " "], High, ItalicHigh);
    ThreePartsRun(env, size, pen, a, b, c + " ", High, ItalicHigh);
  }

  /** A walk over `xs + ys` that gets through `xs`, and the text it highlights. */
  lemma WalkThen(step: (Pen, string) -> Step, pen: Pen, xs: seq<string>, ys: seq<string>)
    requires WalkWords(step, pen, xs).raised.None?
    ensures var a := WalkWords(step, pen, xs);
            var b := WalkWords(step, a.pen, ys);
            var r := WalkWords(step, pen, xs + ys);
            r.pen == b.pen && r.raised == b.raised && Highlighted(r.cmds) == Highlighted(a.cmds) + Highlighted(b.cmds)
  {
    WalkWordsAppend(step, pen, xs, ys);
    HighlightedAppend(WalkWords(step, pen, xs).cmds, WalkWords(step, WalkWords(step, pen, xs).pen, ys).cmds);
  }

  lemma WalkOne(step: (Pen, string) -> Step, pen: Pen, w: string)
    ensures WalkWords(step, pen, [w]) == step(pen, w)
  {
    assert [w][..0] == [];
  }

  /** Plain words after a walk that got through `xs`. */
  lemma WalkPlain(env: Env, size: int, pen: Pen, xs: seq<string>, ws: seq<string>)
    requires WalkWords(Stepper(env, size), pen, xs).raised.None? && AllPlain(ws)
    ensures var a := WalkWords(Stepper(env, size), pen, xs);
            var r := WalkWords(Stepper(env, size), pen, xs + ws);
            r.raised.None? && r.pen.style == a.pen.style && r.pen.marks == a.pen.marks
            && Highlighted(r.cmds) == Highlighted(a.cmds) + if Fill(a.pen.style) == TIME_COLOR then Spaced(ws) else ""
  {
    var a := WalkWords(Stepper(env, size), pen, xs);
    PlainWords(env, size, a.pen, ws);
    WalkThen(Stepper(env, size), pen, xs, ws);
  }

  /** The word holding the first bookmark, after a walk that got through `xs`. */
  lemma WalkOpening(env: Env, size: int, pen: Pen, xs: seq<string>, a: string, b: string)
    requires Plain(a) && Plain(b)
    requires var d := WalkWords(Stepper(env, size), pen, xs); d.raised.None? && d.pen.marks == 0
    ensures var d := WalkWords(Stepper(env, size), pen, xs);
            var r := WalkWords(Stepper(env, size), pen, xs + [a + [BOOKMARK] + b]);
            r.raised.None? && r.pen.style == High && r.pen.marks == 1
            && Highlighted(r.cmds) == Highlighted(d.cmds) + ((if Fill(d.pen.style) == TIME_COLOR then a else "") + (b + " "))
  {
    var d := WalkWords(Stepper(env, size), pen, xs);
    WalkOne(Stepper(env, size), d.pen, a + [BOOKMARK] + b);
    OpeningBookmark(env, size, d.pen, a, b);
    WalkThen(Stepper(env, size), pen, xs, [a + [BOOKMARK] + b]);
  }

  /** The word holding a later bookmark, after a walk that got through `xs`. */
  lemma WalkClosing(env: Env, size: int, pen: Pen, xs: seq<string>, a: string, b: string)
    requires Plain(a) && Plain(b)
    requires var d := WalkWords(Stepper(env, size), pen, xs); d.raised.None? && d.pen.marks != 0
    ensures var d := WalkWords(Stepper(env, size), pen, xs);
            var r := WalkWords(Stepper(env, size), pen, xs + [a + [BOOKMARK] + b]);
            r.raised.None? && r.pen.style == Norm && r.pen.marks == d.pen.marks + 1
            && Highlighted(r.cmds) == Highlighted(d.cmds) + if Fill(d.pen.style) == TIME_COLOR then a else ""
  {
    var d := WalkWords(Stepper(env, size), pen, xs);
    WalkOne(Stepper(env, size), d.pen, a + [BOOKMARK] + b);
    ClosingBookmark(env, size, d.pen, a, b);
    WalkThen(Stepper(env, size), pen, xs, [a + [BOOKMARK] + b]);
  }

  /**
   * On a line whose timestring opens in one word and closes in a later one,
   * exactly the timestring is highlighted: the end of the opening word, the
   * words between with their spaces, and the start of the closing word.
   */
  lemma HighlightSpan(env: Env, size: int, pen: Pen, pre: seq<string>, a: string, b: string,
                      mid: seq<string>, c: string, d: string, post: seq<string>)
    requires pen.style == Norm && pen.marks == 0
    requires Plain(a) && Plain(b) && Plain(c) && Plain(d)
    requires AllPlain(pre) && AllPlain(mid) && AllPlain(post)
    ensures var ws := pre + [a + [BOOKMARK] + b] + mid + [c + [BOOKMARK] + d] + post;
            var r := WalkWords(Stepper(env, size), pen, ws);
            r.raised.None? && r.pen.style == Norm && r.pen.marks == 2
            && Highlighted(r.cmds) == b + " " + Spaced(mid) + c
  {
    var s1 := pre + [a + [BOOKMARK] + b];
    var s2 := s1 + mid;
    var s3 := s2 + [c + [BOOKMARK] + d];
    var step := Stepper(env, size);
    PlainWords(env, size, pen, pre);
    WalkOpening(env, size, pen, pre, a, b);
    var h1 := Highlighted(WalkWords(step, pen, s1).cmds);
    assert h1 == "" + ("" + (b + " "));
    assert h1 == b + " ";
    WalkPlain(env, size, pen, s1, mid);
    var h2 := Highlighted(WalkWords(step, pen, s2).cmds);
    assert h2 == h1 + Spaced(mid);
    WalkClosing(env, size, pen, s2, c, d);
    var h3 := Highlighted(WalkWords(step, pen, s3).cmds);
    assert h3 == h2 + c;
    WalkPlain(env, size, pen, s3, post);
    assert Highlighted(WalkWords(step, pen, s3 + post).cmds) == h3 + "";
    assert h3 + "" == h3;
  }

  // ------------------------------------------------------------ placement

  lemma ThreePartsChained(env: Env, size: int, pen: Pen, parts: seq<string>, outer: Style, inner: Style)
    requires |parts| >= 2
    ensures var r := ThreeParts(env, size, pen, parts, outer, inner);
            Chained(env, r.cmds, pen.x, r.pen.x, pen.y) && r.pen.y == pen.y
  {
    var p1 := Advance(env, size, pen, parts[0], outer);
    var mid := env.nfkd(parts[1]);
    var p2 := Advance(env, size, p1, mid, inner);
    var c0, c1 := Seg(size, pen, parts[0], outer), Seg(size, p1, mid, inner);
    SegChained(env, size, pen, parts[0], outer);
    SegChained(env, size, p1, mid, inner);
    ChainedAppend(env, [c0], [c1], pen.x, p1.x, p2.x, pen.y);
    assert [c0] + [c1] == [c0, c1];
    if |parts| >= 3 {
      var c2 := Seg(size, p2, parts[2], outer);
      SegChained(env, size, p2, parts[2], outer);
      ChainedAppend(env, [c0, c1], [c2], pen.x, p2.x, Advance(env, size, p2, parts[2], outer).x, pen.y);
    }
  }

  lemma MarkerPhaseChained(env: Env, size: int, pen: Pen, w: string)
    ensures var r := MarkerPhase(env, size, pen, w);
            Chained(env, r.cmds, pen.x, r.pen.x, pen.y) && r.pen.y == pen.y
  {
    if SQUARE in w {
      ThreePartsChained(env, size, pen, SplitOn(w, SQUARE), Norm, Italic);
    } else if CIRCLE in w {
      ThreePartsChained(env, size, pen, SplitOn(w, CIRCLE), High, ItalicHigh);
    } else {
      SegChained(env, size, pen, w, pen.style);
    }
  }

  lemma BookmarkPhaseChained(env: Env, size: int, pen: Pen, w: string)
    ensures var ph := BookmarkPhase(env, size, pen, w);
            Chained(env, ph.cmds, pen.x, ph.pen.x, pen.y) && ph.pen.y == pen.y
  {
    var n := Count(w, BOOKMARK);
    var parts := SplitOn(w, BOOKMARK);
    if n == 2 {
      var p1 := Advance(env, size, pen, parts[0], Norm);
      var p2 := Advance(env, size, p1, parts[1], High);
      var c0, c1, c2 := Seg(size, pen, parts[0], Norm), Seg(size, p1, parts[1], High), Seg(size, p2, parts[2], Norm);
      SegChained(env, size, pen, parts[0], Norm);
      SegChained(env, size, p1, parts[1], High);
      SegChained(env, size, p2, parts[2], Norm);
      ChainedAppend(env, [c0], [c1], pen.x, p1.x, p2.x, pen.y);
      assert [c0] + [c1] == [c0, c1];
      ChainedAppend(env, [c0, c1], [c2], pen.x, p2.x, Advance(env, size, p2, parts[2], Norm).x, pen.y);
      assert [c0, c1] + [c2] == [c0, c1, c2];
    } else if n == 1 {
      var st := if CIRCLE in parts[0] then ItalicHigh else pen.style;
      var before := if CIRCLE in parts[0] then env.nfkd(Remove(parts[0], CIRCLE)) else parts[0];
      SegChained(env, size, pen, before, st);
    }
  }

  /** Each word is drawn in pieces, each starting where the previous one ended, on the pen's line. */
  lemma WordStepChained(env: Env, size: int, pen: Pen, word: string)
    ensures var r := WordStep(env, size, pen, word);
            Chained(env, r.cmds, pen.x, r.pen.x, pen.y) && r.pen.y == pen.y
  {
    var ph := BookmarkPhase(env, size, pen, word + " ");
    var s := MarkerPhase(env, size, ph.pen, ph.word);
    BookmarkPhaseChained(env, size, pen, word + " ");
    MarkerPhaseChained(env, size, ph.pen, ph.word);
    ChainedAppend(env, ph.cmds, s.cmds, pen.x, ph.pen.x, s.pen.x, pen.y);
  }

  lemma WordStepStaysOnLine(env: Env, size: int)
    ensures StaysOnLine(env, Stepper(env, size))
  {
    forall p: Pen, w: string
      ensures var r := Stepper(env, size)(p, w);
              Chained(env, r.cmds, p.x, r.pen.x, p.y) && r.pen.y == p.y
    {
      WordStepChained(env, size, p, w);
    }
  }

  /**
   * draw_quote's loops, run to the end, leave the cursor at the anchor's x,
   * one line step below the anchor per line; blank lines included.
   */
  lemma LinesGeometry(env: Env, size: int, x0: real, y0: real, ls: seq<seq<string>>)
    ensures var r := WalkLines(Stepper(env, size), x0, LineStep(env, size), Pen(x0, y0, Norm, 0), ls);
            r.raised.None? ==> r.pen.y == y0 + (|ls| as real) * LineStep(env, size) && (ls != [] ==> r.pen.x == x0)
  {
    WordStepStaysOnLine(env, size);
    WalkLinesGeometry(env, Stepper(env, size), x0, LineStep(env, size), Pen(x0, y0, Norm, 0), ls);
  }

  // ------------------------------------------------------ TurnQuoteIntoImage

  /** The message drawn in place of a quote whose timestring cannot be found. */
  function ErrorQuote(quote: string): string {
    "Error: Quote that begins with " + [STAR] + Slice(quote, 0, 10) + " " + [STAR] + "does not have a matching timestring."
  }

  /** What TurnQuoteIntoImage goes on to lay out: the quote, its timestring, and whether the credits are drawn. */
  datatype Prepared = Prepared(quote: string, timestring: string, metadata: bool)

  /** The check at the top of TurnQuoteIntoImage: a quote missing its timestring is swapped for a message. */
  function Prepare(quote: string, timestring: string, includeMetadata: bool): Prepared {
    if TimestringStart(quote, timestring).Some? then Prepared(quote, timestring, includeMetadata)
    else Prepared(ErrorQuote(quote), "Error", false)
  }

  lemma ErrorQuoteHasTimestring(quote: string)
    ensures TimestringStart(ErrorQuote(quote), "Error") == Some(0)
  {
    var e := ErrorQuote(quote);
    var h := Lower(Flatten(e));
    var n := Lower("Error");
    assert n == "error" by {
      assert forall i :: 0 <= i < 5 ==> n[i] == "error"[i];
    }
    assert h[..5] == "error" by {
      assert forall i :: 0 <= i < 5 ==> e[i] == "Error"[i];
      assert forall i :: 0 <= i < 5 ==> h[i] == "error"[i];
    }
    assert MatchAt(h, n, 0);
  }

  /**
   * After the check draw_quote's search always succeeds: where the quote
   * had its timestring, or at the start of the message, which is drawn
   * without credits.
   */
  lemma PrepareFindsTimestring(quote: string, timestring: string, includeMetadata: bool)
    ensures var p := Prepare(quote, timestring, includeMetadata);
            TimestringStart(p.quote, p.timestring).Some?
            && (TimestringStart(quote, timestring).None? ==> TimestringStart(p.quote, p.timestring) == Some(0) && !p.metadata)
  {
    if TimestringStart(quote, timestring).None? {
      ErrorQuoteHasTimestring(quote);
    }
  }

  const CREDIT_FONT: Font := Font(BookerlyBold, INFO_FONTSIZE)

  /**
   * `f'‚Äî{title.strip()}, {author.strip()}'`: the dash is written as the
   * three characters U+201A U+00C4 U+00EE, an em dash read in the wrong
   * encoding, and is measured and drawn as those three.
   */
  function Credits(title: string, author: string): string {
    "\U{201A}\U{00C4}\U{00EE}" + Strip(title) + ", " + Strip(author)
  }

  /** The credits, wrapped at 96.5% of the credit width when they are wider than it. */
  function CreditText(env: Env, title: string, author: string): string {
    var m := Credits(title, author);
    if env.textLength(CREDIT_FONT, m) > MDATA_LENGTH then JoinLines(Wrap(env, CREDIT_FONT, MDATA_WRAP, Words(m))) else m
  }

  /** `font_mdata.getbbox("A")[3] + 4` */
  function CreditStep(env: Env): int {
    env.capBottom(CREDIT_FONT) + 4
  }

  /** Where the first credit line goes: one credit step per line above the credit start line. */
  function CreditTop(env: Env, title: string, author: string): int {
    MDATA_START_Y - |SplitLines(CreditText(env, title, author))| * CreditStep(env)
  }

  /** One right-anchored black line of credits per line, `step` apart, starting at `top`. */
  function CreditCmds(ls: seq<string>, top: int, step: int): (cmds: seq<DrawCmd>)
    ensures |cmds| == |ls|
  {
    seq(|ls|, k requires 0 <= k < |ls| => DrawCmd(MDATA_START_X, (top + k * step) as real, ls[k], TIME_COLOR, CREDIT_FONT, RightMiddle))
  }

  lemma CreditCmdsSnoc(ls: seq<string>, i: nat, top: int, step: int)
    requires i < |ls|
    ensures CreditCmds(ls[..i + 1], top, step)
            == CreditCmds(ls[..i], top, step) + [DrawCmd(MDATA_START_X, (top + i * step) as real, ls[i], TIME_COLOR, CREDIT_FONT, RightMiddle)]
  {
  }

  lemma MulSucc(i: int, a: int)
    ensures (i + 1) * a == i * a + a
  {
  }

  /** The credits block of TurnQuoteIntoImage; returns the height left for the quote. */
  method DrawCredits(canvas: Canvas, env: Env, title: string, author: string) returns (quoteHeight: int)
    modifies canvas
    ensures quoteHeight == CreditTop(env, title, author) - 25
    ensures canvas.commands
            == old(canvas.commands) + CreditCmds(SplitLines(CreditText(env, title, author)), quoteHeight + 25, CreditStep(env))
  {
    var ls := CreditLines(env, title, author);
    var step := env.capBottom(Font(BookerlyBold, INFO_FONTSIZE)) + 4;
    var y := CreditStart(ls, step);
    quoteHeight := y - 25;
    WriteCredits(canvas, ls, y, step);
  }

  /** The credit text, wrapped when too wide, cut into lines. */
  method CreditLines(env: Env, title: string, author: string) returns (ls: seq<string>)
    ensures ls == SplitLines(CreditText(env, title, author))
  {
    var font := Font(BookerlyBold, INFO_FONTSIZE);
    var metadata := "\U{201A}\U{00C4}\U{00EE}" + Strip(title) + ", " + Strip(author);
    if env.textLength(font, metadata) > MDATA_LENGTH {
      metadata := WrapLines(env, metadata, font, MDATA_WRAP);
    }
    ls := SplitLines(metadata);
  }

  /** The first loop: one step up from the credit start line per line. */
  method CreditStart(ls: seq<string>, step: int) returns (y: int)
    ensures y == MDATA_START_Y - |ls| * step
  {
    y := MDATA_START_Y;
    for i := 0 to |ls|
      invariant y == MDATA_START_Y - i * step
    {
      MulSucc(i, step);
      y := y - step;
    }
  }

  /** The second loop: write each line, one step further down. */
  method WriteCredits(canvas: Canvas, ls: seq<string>, y: int, step: int)
    modifies canvas
    ensures canvas.commands == old(canvas.commands) + CreditCmds(ls, y, step)
  {
    var font := CREDIT_FONT;
    var lineY := y;
    for i := 0 to |ls|
      invariant lineY == y + i * step
      invariant canvas.commands == old(canvas.commands) + CreditCmds(ls[..i], y, step)
    {
      CreditCmdsSnoc(ls, i, y, step);
      MulSucc(i, step);
      canvas.Write(MDATA_START_X, lineY as real, ls[i], TIME_COLOR, font, RightMiddle);
      lineY := lineY + step;
    }
    assert ls[..|ls|] == ls;
  }

  lemma MulSub(n: int, k: int, a: int)
    ensures (n - k) * a == n * a - k * a
  {
  }

  /**
   * The credits fill the band above the credit start line: of `n` lines
   * placed from CreditTop, line `k` sits `n - k` steps above it, so the
   * last one sits one step above and the quote ends 25 pixels above the first.
   */
  lemma CreditsBand(ls: seq<string>, step: int)
    ensures var cmds := CreditCmds(ls, MDATA_START_Y - |ls| * step, step);
            forall k :: 0 <= k < |cmds| ==> cmds[k].y == (MDATA_START_Y - (|ls| - k) * step) as real
  {
    forall k | 0 <= k < |ls|
      ensures MDATA_START_Y - |ls| * step + k * step == MDATA_START_Y - (|ls| - k) * step
    {
      MulSub(|ls|, k, step);
    }
  }

  /**
   * The layout calc_fntsize chose for `quote` within `height`, searching
   * from size 50 with the cap 480: the quote's own wrap at some size, so it
   * holds exactly the quote's words, each once and in order, and at its size
   * it fits the width and the height.
   */
  ghost predicate Placed(env: Env, quote: string, height: real, layout: Fit) {
    && Searched(env, QUOTE_WIDTH, height, quote, BookerlyBold, BASESIZE, MAXSIZE, Ok(layout))
    && layout.size >= 1
    && BoxWidth(env, layout.lines, Font(BookerlyBold, layout.size)) <= QUOTE_WIDTH
    && BoxHeight(env, layout.lines, Font(BookerlyBold, layout.size)) <= height
    && (exists fit :: layout.lines == Wrapped(env, QUOTE_WIDTH, quote, BookerlyBold, fit))
    && Words(layout.lines) == Kept(Words(quote))
  }

  /**
   * The second half of TurnQuoteIntoImage: fit the quote to the space left
   * and draw it, catching the `LookupError` draw_quote may raise.
   */
  method PlaceQuote(canvas: Canvas, env: Env, height: real, quote: string, timestring: string)
    returns (failed: Option<Error>, ghost layout: Fit)
    modifies canvas
    ensures failed.Some? ==> failed.value == ValueError
    ensures failed.Some? ==> Searched(env, QUOTE_WIDTH, height, quote, BookerlyBold, BASESIZE, MAXSIZE, Err(ValueError))
    ensures failed.None? ==>
      && Placed(env, quote, height, layout)
      && canvas.commands == old(canvas.commands) + WalkQuote(env, layout.size, QUOTE_START_X, QUOTE_START_Y, layout.lines, timestring).cmds
  {
    var fitted, base, fit := CalcFntSize(env, QUOTE_WIDTH, height, quote, BookerlyBold, BASESIZE, MAXSIZE);
    assert Searched(env, QUOTE_WIDTH, height, quote, BookerlyBold, BASESIZE, MAXSIZE, fitted);
    layout := Fit("", 0);
    if fitted.Err? {
      return Some(fitted.error), layout;
    }
    layout := fitted.value;
    WrapLinesKeepsWords(env, Font(BookerlyBold, fit), QUOTE_WIDTH, quote);
    var raised := DrawQuote(canvas, env, QUOTE_START_X, QUOTE_START_Y, fitted.value.lines, timestring, fitted.value.size);
    failed := None;
  }

  /**
   * TurnQuoteIntoImage: check the quote, draw the credits when asked, fit
   * the quote to the space left and draw it. A `ValueError` from the fitting
   * propagates; the `IndexError` of an unclosed ◻ or ◯ is caught as a
   * `LookupError` and the part already drawn is kept.
   */
  method TurnQuoteIntoImage(env: Env, quote: string, timestring: string, author: string, title: string, includeMetadata: bool)
    returns (r: Result<Canvas>, ghost layout: Fit)
    ensures r.Err? ==> r.error == ValueError
    ensures r.Err? ==>
      var p := Prepare(quote, timestring, includeMetadata);
      var height := if p.metadata then (CreditTop(env, title, author) - 25) as real else QUOTE_HEIGHT;
      Searched(env, QUOTE_WIDTH, height, p.quote, BookerlyBold, BASESIZE, MAXSIZE, Err(ValueError))
    ensures r.Ok? ==>
      var p := Prepare(quote, timestring, includeMetadata);
      var height := if p.metadata then (CreditTop(env, title, author) - 25) as real else QUOTE_HEIGHT;
      var credits := if p.metadata then CreditCmds(SplitLines(CreditText(env, title, author)), CreditTop(env, title, author), CreditStep(env)) else [];
      && fresh(r.value)
      && Placed(env, p.quote, height, layout)
      && r.value.commands == credits + WalkQuote(env, layout.size, QUOTE_START_X, QUOTE_START_Y, layout.lines, p.timestring).cmds
  {
    var canvas := new Canvas();
    var p := Prepare(quote, timestring, includeMetadata);
    var height := QUOTE_HEIGHT;
    if p.metadata {
      var h := DrawCredits(canvas, env, title, author);
      height := h as real;
      assert h + 25 == CreditTop(env, title, author);
      assert canvas.commands == CreditCmds(SplitLines(CreditText(env, title, author)), CreditTop(env, title, author), CreditStep(env));
    } else {
      assert canvas.commands == [];
    }
    ghost var credits := canvas.commands;
    var failed;
    failed, layout := PlaceQuote(canvas, env, height, p.quote, p.timestring);
    if failed.Some? {
      return Err(failed.value), layout;
    }
    r := Ok(canvas);
  }
}
