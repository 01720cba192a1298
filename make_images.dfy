/**
 * make_images.py: the batch generator of the bitmaps. Its layout is an
 * earlier copy of get_image.py's: wrap_lines returns from inside its loop,
 * calc_fntsize measures the markers with the text, draw_quote indents at ⭕
 * and has no ◯ run branch, the credits are smaller, and a counter numbers
 * the images of one minute.
 */
module MakeImages {
  import opened Outcomes
  import opened Text
  import opened Drawing
  import GetImage

  const SCREEN_WIDTH: int := 800
  const SCREEN_HEIGHT: int := 480
  const QUOTE_WIDTH: real := 800.0
  const QUOTE_HEIGHT: int := 480
  const QUOTE_START_X: real := 10.0
  const QUOTE_START_Y: real := 0.0
  const MDATA_LENGTH: real := 341.0
  /** `mdatalength - 23` */
  const MDATA_WRAP: real := 318.0
  const MDATA_START_Y: int := 480
  const MDATA_START_X: real := 785.0
  const INFO_FONTSIZE: int := 25
  const BASESIZE: int := 50
  const MAXSIZE: int := 800
  const IMG_DIR: string := "images/"
  const IMG_EXT: string := "bmp"

  // ------------------------------------------------------------- wrap_lines

  /**
   * The lines wrap_lines holds after its first word: the line it tries is
   * `f"{''} {word}".strip()`; a ⭐ starts a blank line and a new one, a line
   * within the limit replaces the empty first line, a longer one goes below it.
   */
  function FirstLines(env: Env, font: Font, limit: real, word: string): seq<string> {
    var line := Strip(" " + word);
    if STAR in word then ["", "", Remove(word, STAR)]
    else if env.textLength(font, line) <= limit then [line]
    else ["", word]
  }

  /** What wrap_lines returns: its `return` sits in the loop, so only the first word is wrapped; no word, no return. */
  function FirstWrap(env: Env, font: Font, limit: real, text: string): Option<string> {
    var ws := Words(text);
    if ws == [] then None else Some(JoinLines(FirstLines(env, font, limit, ws[0])))
  }

  /** wrap_lines as written: the loop body ends with the `return`, so it runs at most once. */
  method WrapLines(env: Env, text: string, font: Font, lineLength: real) returns (r: Option<string>)
    ensures r == FirstWrap(env, font, lineLength, text)
  {
    var ws := Words(text);
    var lines := [""];
    for i := 0 to |ws|
      invariant i == 0 && lines == [""]
    {
      var word := ws[i];
      var line := Strip(lines[|lines| - 1] + " " + word);
      assert lines[|lines| - 1] + " " + word == " " + word;
      var fontlen := env.textLength(font, line);
      assert ws[0] == word && FirstWrap(env, font, lineLength, text) == Some(JoinLines(FirstLines(env, font, lineLength, word)));
      ghost var expected := FirstLines(env, font, lineLength, word);
      if STAR in word {
        lines := lines + [""];
        word := Remove(word, STAR);
        lines := lines + [word];
        assert lines == expected;
      } else if fontlen <= lineLength {
        lines := lines[|lines| - 1 := line];
        assert lines == expected;
      } else {
        lines := lines + [word];
        assert lines == expected;
      }
      return Some(JoinLines(lines));
    }
    return None;
  }

  lemma JoinTwo(a: string, b: string)
    ensures JoinLines([a, b]) == a + "\n" + b
  {
    assert [a, b][..1] == [a];
  }

  lemma JoinThree(a: string, b: string, c: string)
    ensures JoinLines([a, b, c]) == a + "\n" + b + "\n" + c
  {
    assert [a, b, c][..2] == [a, b];
    JoinTwo(a, b);
  }

  lemma WordsAfterNewline(x: string)
    ensures Words("\n" + x) == Words(x)
  {
    assert ("\n" + x)[1..] == x;
  }

  /** Line breaks in front of a text add no word. */
  lemma WordsAfterBreaks(x: string)
    ensures JoinLines(["", "", x]) == "\n\n" + x && Words("\n\n" + x) == Words(x)
    ensures JoinLines(["", x]) == "\n" + x && Words("\n" + x) == Words(x)
  {
    JoinThree("", "", x);
    JoinTwo("", x);
    assert "\n\n" + x == "\n" + ("\n" + x);
    WordsAfterNewline("\n" + x);
    WordsAfterNewline(x);
  }

  /** The first word as wrap_lines returns it, for a word with no whitespace. */
  lemma FirstLinesWord(env: Env, font: Font, limit: real, w: string)
    requires w != "" && SpaceFree(w)
    ensures var r := JoinLines(FirstLines(env, font, limit, w));
            && (STAR in w ==> r == "\n\n" + Remove(w, STAR) && Words(r) == Words(Remove(w, STAR)))
            && (STAR !in w && env.textLength(font, w) <= limit ==> r == w && Words(r) == [w])
            && (STAR !in w && env.textLength(font, w) > limit ==> r == "\n" + w && Words(r) == [w])
  {
    StripJoined("", w);
    assert "" + " " + w == " " + w;
    WordsOfToken(w);
    WordsAfterBreaks(Remove(w, STAR));
    WordsAfterBreaks(w);
    assert JoinLines([w]) == w;
  }

  /**
   * wrap_lines keeps the first word alone: nothing comes back exactly when
   * the text has no word; otherwise the result is the first word after two
   * line breaks (⭐ removed), the word itself when it fits, or the word after
   * one line break; every later word is dropped.
   */
  lemma FirstWrapShape(env: Env, font: Font, limit: real, text: string)
    ensures FirstWrap(env, font, limit, text).None? <==> Words(text) == []
    ensures Words(text) != [] ==>
      var w := Words(text)[0];
      var r := FirstWrap(env, font, limit, text).value;
      && (STAR in w ==> r == "\n\n" + Remove(w, STAR) && Words(r) == Words(Remove(w, STAR)))
      && (STAR !in w && env.textLength(font, w) <= limit ==> r == w && Words(r) == [w])
      && (STAR !in w && env.textLength(font, w) > limit ==> r == "\n" + w && Words(r) == [w])
  {
    if Words(text) != [] {
      WordsAreTokens(text);
      FirstLinesWord(env, font, limit, Words(text)[0]);
    }
  }

  // ----------------------------------------------------------- calc_fntsize

  /** The block wrap_lines returns for `text` at `size`, if any. */
  function Wrapped(env: Env, length: real, text: string, face: Face, size: int): Option<string> {
    FirstWrap(env, Font(face, size), length, text)
  }

  /**
   * The growing loop stopped at `fit + 1`, having started from `base`: every
   * size it wrapped at up to `fit` gave a block within `height`, and the
   * next one overflowed it, passed `cap`, or was never tried because
   * `height` is negative.
   */
  ghost predicate Grown(env: Env, length: real, height: real, text: string, face: Face, base: int, fit: int, cap: int) {
    && Words(text) != []
    && base - 1 <= fit <= GetImage.Max(cap, base - 1)
    && (forall k :: base < k <= fit ==> env.boxBottom(Font(face, k), Wrapped(env, length, text, face, k).value) <= height)
    && (fit + 1 > cap
        || (if fit + 1 == base then 0.0 > height
            else env.boxBottom(Font(face, fit + 1), Wrapped(env, length, text, face, fit + 1).value) > height))
  }

  /** The shrinking loop stopped at `size`: the lines fit `length` there and at no size above it up to `fit`. */
  ghost predicate Shrunk(env: Env, length: real, lines: string, face: Face, size: int, fit: int) {
    && 1 <= size <= fit
    && env.boxRight(Font(face, size), lines) <= length
    && (forall k :: size < k <= fit ==> env.boxRight(Font(face, k), lines) > length)
  }

  /**
   * Where the growing loop settles when it stands at `size`, the block last
   * measured at `boxHeight`: one below the size at which it stops, or the
   * `AttributeError` of measuring the `None` that wrap_lines returns for a
   * text without words.
   */
  function GrowFrom(env: Env, length: real, height: real, text: string, face: Face, size: int, cap: int, boxHeight: real): Result<int>
    decreases cap + 1 - size
  {
    if boxHeight > height || size > cap then Ok(size - 1)
    else match Wrapped(env, length, text, face, size + 1)
      case None => Err(AttributeError)
      case Some(lines) => GrowFrom(env, length, height, text, face, size + 1, cap, env.boxBottom(Font(face, size + 1), lines))
  }

  /** One more size tried by the growing loop leaves where it settles unchanged. */
  lemma GrowStep(env: Env, length: real, height: real, text: string, face: Face, size: int, cap: int, boxHeight: real)
    requires !(boxHeight > height) && size <= cap
    ensures Wrapped(env, length, text, face, size + 1).None? ==>
      GrowFrom(env, length, height, text, face, size, cap, boxHeight) == Err(AttributeError)
    ensures Wrapped(env, length, text, face, size + 1).Some? ==>
      GrowFrom(env, length, height, text, face, size, cap, boxHeight)
        == GrowFrom(env, length, height, text, face, size + 1, cap,
                    env.boxBottom(Font(face, size + 1), Wrapped(env, length, text, face, size + 1).value))
  {
  }

  /** Where the shrinking loop settles from `size`, or `None` when it would create a font of size 0. */
  function ShrinkFrom(env: Env, length: real, lines: string, face: Face, size: int): Option<int>
    decreases size
  {
    if env.boxRight(Font(face, size), lines) <= length then Some(size)
    else if size - 1 < 1 then None
    else ShrinkFrom(env, length, lines, face, size - 1)
  }

  /**
   * One call of calc_fntsize up to its retry: create the font at `base`,
   * grow up to `cap`, wrap at the size grown to, shrink. Creating a font
   * below size 1 is the `ValueError`; measuring the `None` of a text
   * without words, the `AttributeError`.
   */
  function Attempt(env: Env, length: real, height: real, text: string, face: Face, base: int, cap: int): Result<GetImage.Fit> {
    if base < 1 then Err(ValueError)
    else match GrowFrom(env, length, height, text, face, base, cap, 0.0)
      case Err(e) => Err(e)
      case Ok(fit) =>
        if fit < 1 then Err(ValueError)
        else match Wrapped(env, length, text, face, fit)
          case None => Err(AttributeError)
          case Some(lines) =>
            match ShrinkFrom(env, length, lines, face, fit)
            case None => Err(ValueError)
            case Some(size) => Ok(GetImage.Fit(lines, size))
  }

  /** The attempt at `base` made a layout, but one taller than `height`, so calc_fntsize retries. */
  ghost predicate TooTall(env: Env, length: real, height: real, text: string, face: Face, base: int, cap: int) {
    var a := Attempt(env, length, height, text, face, base, cap);
    a.Ok? && env.boxBottom(Font(face, a.value.size), a.value.lines) > height
  }

  /** The maximum of the attempt at `b` in a search from `basesize`: the retries use the default. */
  function CapAt(b: int, basesize: int, maxsize: int): int {
    if b == basesize then maxsize else MAXSIZE
  }

  /** calc_fntsize, called with `basesize`, reached the attempt at `base` through attempts that were too tall. */
  ghost predicate Overflowed(env: Env, length: real, height: real, text: string, face: Face, basesize: int, maxsize: int, base: int) {
    GetImage.Chain(b => TooTall(env, length, height, text, face, b, CapAt(b, basesize, maxsize)), basesize, base)
  }

  /**
   * calc_fntsize, called with `basesize`, ends in `r`: the attempt it
   * reached through overflows gave `r`, and did not overflow in turn.
   */
  ghost predicate Searched(env: Env, length: real, height: real, text: string, face: Face, basesize: int, maxsize: int,
                           r: Result<GetImage.Fit>) {
    exists base ::
      && Overflowed(env, length, height, text, face, basesize, maxsize, base)
      && Attempt(env, length, height, text, face, base, CapAt(base, basesize, maxsize)) == r
      && !TooTall(env, length, height, text, face, base, CapAt(base, basesize, maxsize))
  }

  /** calc_fntsize has one outcome: a search cannot end in two different results. */
  lemma SearchedUnique(env: Env, length: real, height: real, text: string, face: Face, basesize: int, maxsize: int,
                       r1: Result<GetImage.Fit>, r2: Result<GetImage.Fit>)
    requires Searched(env, length, height, text, face, basesize, maxsize, r1)
    requires Searched(env, length, height, text, face, basesize, maxsize, r2)
    ensures r1 == r2
  {
    var b1 :| && Overflowed(env, length, height, text, face, basesize, maxsize, b1)
              && Attempt(env, length, height, text, face, b1, CapAt(b1, basesize, maxsize)) == r1
              && !TooTall(env, length, height, text, face, b1, CapAt(b1, basesize, maxsize));
    var b2 :| && Overflowed(env, length, height, text, face, basesize, maxsize, b2)
              && Attempt(env, length, height, text, face, b2, CapAt(b2, basesize, maxsize)) == r2
              && !TooTall(env, length, height, text, face, b2, CapAt(b2, basesize, maxsize));
    StopsAtFirstFit(env, length, height, text, face, basesize, maxsize, b1, b2);
    StopsAtFirstFit(env, length, height, text, face, basesize, maxsize, b2, b1);
  }

  /** A search that reached `b1` went past every attempt above it, so one that stops at `b2` cannot be above `b1`. */
  lemma StopsAtFirstFit(env: Env, length: real, height: real, text: string, face: Face, basesize: int, maxsize: int, b1: int, b2: int)
    requires Overflowed(env, length, height, text, face, basesize, maxsize, b1)
    requires Overflowed(env, length, height, text, face, basesize, maxsize, b2)
    requires !TooTall(env, length, height, text, face, b2, CapAt(b2, basesize, maxsize))
    ensures b2 <= b1
  {
    GetImage.ChainStops(b => TooTall(env, length, height, text, face, b, CapAt(b, basesize, maxsize)), basesize, b1, b2);
  }

  /** A too-tall first attempt followed by a search from five sizes lower is a search from `basesize`. */
  lemma OverflowedStep(env: Env, length: real, height: real, text: string, face: Face, basesize: int, maxsize: int, base: int)
    requires Overflowed(env, length, height, text, face, basesize - 5, MAXSIZE, base)
    requires TooTall(env, length, height, text, face, basesize, maxsize)
    ensures Overflowed(env, length, height, text, face, basesize, maxsize, base)
    ensures base <= basesize - 5 && CapAt(base, basesize, maxsize) == CapAt(base, basesize - 5, MAXSIZE)
  {
    GetImage.ChainStep(b => TooTall(env, length, height, text, face, b, CapAt(b, basesize, maxsize)),
                       b => TooTall(env, length, height, text, face, b, CapAt(b, basesize - 5, MAXSIZE)), basesize, base);
  }

  /**
   * What the search from `basesize - 5` ends with, after a too-tall attempt
   * from `basesize`, is what the search from `basesize` ends with.
   */
  lemma Retried(env: Env, length: real, height: real, text: string, face: Face, basesize: int, maxsize: int,
                r: Result<GetImage.Fit>, base: int, fit: int)
    requires TooTall(env, length, height, text, face, basesize, maxsize)
    requires r.Ok? ==>
      && base <= basesize - 5
      && Grown(env, length, height, text, face, base, fit, CapAt(base, basesize - 5, MAXSIZE))
      && env.boxBottom(Font(face, r.value.size), r.value.lines) <= height
    requires r.Ok? ==> r.value.size <= GetImage.Max(GetImage.Max(MAXSIZE, MAXSIZE), basesize - 5 - 1)
    requires Overflowed(env, length, height, text, face, basesize - 5, MAXSIZE, base)
    requires r == Attempt(env, length, height, text, face, base, CapAt(base, basesize - 5, MAXSIZE))
    requires !TooTall(env, length, height, text, face, base, CapAt(base, basesize - 5, MAXSIZE))
    ensures r.Ok? ==>
      && base <= basesize
      && Grown(env, length, height, text, face, base, fit, CapAt(base, basesize, maxsize))
    ensures r.Ok? ==> r.value.size <= GetImage.Max(GetImage.Max(maxsize, MAXSIZE), basesize - 1)
    ensures Overflowed(env, length, height, text, face, basesize, maxsize, base)
    ensures r == Attempt(env, length, height, text, face, base, CapAt(base, basesize, maxsize))
    ensures !TooTall(env, length, height, text, face, base, CapAt(base, basesize, maxsize))
  {
    OverflowedStep(env, length, height, text, face, basesize, maxsize, base);
  }

  /** The search has overflowed at no size before its first attempt. */
  lemma OverflowedStart(env: Env, length: real, height: real, text: string, face: Face, basesize: int, maxsize: int)
    ensures Overflowed(env, length, height, text, face, basesize, maxsize, basesize)
    ensures CapAt(basesize, basesize, maxsize) == maxsize
  {
  }

  /**
   * Where the growing loop settles meets `Grown`: for a text with words,
   * from any point the loop can stand at, started from `base`, it settles
   * on a size whose blocks up to it fit `height` and whose next one would
   * not have been kept.
   */
  lemma {:induction false} GrowFromGrown(env: Env, length: real, height: real, text: string, face: Face, base: int,
                                         size: int, cap: int, boxHeight: real)
    requires Words(text) != []
    requires base <= size <= GetImage.Max(cap + 1, base)
    requires forall k :: base < k < size ==> env.boxBottom(Font(face, k), Wrapped(env, length, text, face, k).value) <= height
    requires size == base ==> boxHeight == 0.0
    requires size > base ==> boxHeight == env.boxBottom(Font(face, size), Wrapped(env, length, text, face, size).value)
    ensures GrowFrom(env, length, height, text, face, size, cap, boxHeight).Ok?
    ensures Grown(env, length, height, text, face, base, GrowFrom(env, length, height, text, face, size, cap, boxHeight).value, cap)
    decreases cap + 1 - size
  {
    if boxHeight > height || size > cap {
      GrowStops(env, length, height, text, face, base, size, cap, boxHeight);
    } else {
      var next := env.boxBottom(Font(face, size + 1), Wrapped(env, length, text, face, size + 1).value);
      GrowStep(env, length, height, text, face, size, cap, boxHeight);
      GrowFitsOneMore(env, length, height, text, face, base, size, boxHeight);
      GrowFromGrown(env, length, height, text, face, base, size + 1, cap, next);
    }
  }

  /** Where the growing loop stops, the size below it is `Grown`. */
  lemma GrowStops(env: Env, length: real, height: real, text: string, face: Face, base: int, size: int, cap: int, boxHeight: real)
    requires Words(text) != []
    requires base <= size <= GetImage.Max(cap + 1, base)
    requires forall k :: base < k < size ==> env.boxBottom(Font(face, k), Wrapped(env, length, text, face, k).value) <= height
    requires size == base ==> boxHeight == 0.0
    requires size > base ==> boxHeight == env.boxBottom(Font(face, size), Wrapped(env, length, text, face, size).value)
    requires boxHeight > height || size > cap
    ensures GrowFrom(env, length, height, text, face, size, cap, boxHeight) == Ok(size - 1)
    ensures Grown(env, length, height, text, face, base, size - 1, cap)
  {
  }

  /** A size the growing loop went past fit the height. */
  lemma GrowFitsOneMore(env: Env, length: real, height: real, text: string, face: Face, base: int, size: int, boxHeight: real)
    requires Words(text) != []
    requires base <= size
    requires forall k :: base < k < size ==> env.boxBottom(Font(face, k), Wrapped(env, length, text, face, k).value) <= height
    requires size > base ==> boxHeight == env.boxBottom(Font(face, size), Wrapped(env, length, text, face, size).value)
    requires !(boxHeight > height)
    ensures forall k :: base < k < size + 1 ==> env.boxBottom(Font(face, k), Wrapped(env, length, text, face, k).value) <= height
  {
    forall k | base < k < size + 1
      ensures env.boxBottom(Font(face, k), Wrapped(env, length, text, face, k).value) <= height
    {
      if k == size {
        assert size > base;
      }
    }
  }

  /**
   * The first loop of calc_fntsize, as GetImage.GrowSize but measuring the
   * block as wrapped, markers included; a text with no word makes
   * wrap_lines return `None`, and measuring that is an `AttributeError`.
   */
  method GrowSize(env: Env, length: real, height: real, text: string, face: Face, basesize: int, maxsize: int)
    returns (r: Result<int>)
    requires basesize >= 1
    ensures r.Err? ==> r.error == AttributeError && Words(text) == []
    ensures r.Ok? ==> Words(text) != [] ==> Grown(env, length, height, text, face, basesize, r.value, maxsize)
    ensures r.Ok? ==> basesize - 1 <= r.value <= GetImage.Max(maxsize, basesize - 1)
    ensures r == GrowFrom(env, length, height, text, face, basesize, maxsize, 0.0)
  {
    var size := basesize;
    var boxHeight: real := 0.0;
    while !(boxHeight > height) && !(size > maxsize)
      invariant basesize <= size <= GetImage.Max(maxsize + 1, basesize)
      invariant GrowFrom(env, length, height, text, face, size, maxsize, boxHeight) == GrowFrom(env, length, height, text, face, basesize, maxsize, 0.0)
      decreases maxsize + 1 - size
    {
      GrowStep(env, length, height, text, face, size, maxsize, boxHeight);
      size := size + 1;
      var lines := WrapLines(env, text, Font(face, size), length);
      assert lines == Wrapped(env, length, text, face, size);
      if lines.None? {
        return Err(AttributeError);
      }
      boxHeight := env.boxBottom(Font(face, size), lines.value);
    }
    r := Ok(size - 1);
    if Words(text) != [] {
      GrowFromGrown(env, length, height, text, face, basesize, basesize, maxsize, 0.0);
    }
  }

  /** The second loop of calc_fntsize: lower the size, keeping the lines, until the block is no wider than `length`. */
  method ShrinkSize(env: Env, length: real, lines: string, face: Face, fit: int) returns (r: Result<int>)
    requires fit >= 1
    ensures r.Ok? ==> Shrunk(env, length, lines, face, r.value, fit)
    ensures r.Err? ==> r.error == ValueError
    ensures r.Err? ==> forall k :: 1 <= k <= fit ==> env.boxRight(Font(face, k), lines) > length
    ensures ShrinkFrom(env, length, lines, face, fit) == if r.Ok? then Some(r.value) else None
  {
    var size := fit;
    var boxLength := env.boxRight(Font(face, size), lines);
    while boxLength > length
      invariant 1 <= size <= fit
      invariant ShrinkFrom(env, length, lines, face, size) == ShrinkFrom(env, length, lines, face, fit)
      invariant boxLength == env.boxRight(Font(face, size), lines)
      invariant forall k :: size < k <= fit ==> env.boxRight(Font(face, k), lines) > length
      decreases size
    {
      size := size - 1;
      if size < 1 {
        return Err(ValueError);
      }
      boxLength := env.boxRight(Font(face, size), lines);
    }
    r := Ok(size);
  }

  /**
   * One call of calc_fntsize up to its retry: create the font, grow, step
   * back one size and re-wrap, shrink without re-wrapping. A font size
   * below 1 is a `ValueError`; a text with no word, an `AttributeError`.
   * `fit` is the size the lines were wrapped at.
   */
  method AttemptSize(env: Env, length: real, height: real, text: string, face: Face, basesize: int, maxsize: int)
    returns (r: Result<GetImage.Fit>, ghost fit: int)
    ensures r == Attempt(env, length, height, text, face, basesize, maxsize)
    ensures r.Err? ==> r.error == ValueError || (r.error == AttributeError && Words(text) == [])
    ensures Words(text) == [] ==> r.Err?
    ensures r.Ok? ==>
      && Grown(env, length, height, text, face, basesize, fit, maxsize)
      && Wrapped(env, length, text, face, fit) == Some(r.value.lines)
      && Shrunk(env, length, r.value.lines, face, r.value.size, fit)
      && r.value.size <= GetImage.Max(maxsize, basesize - 1)
  {
    fit := basesize;
    var created := CreateFont(face, basesize);
    if created.Err? {
      return Err(ValueError), fit;
    }
    var grown := GrowSize(env, length, height, text, face, basesize, maxsize);
    if grown.Err? {
      return Err(grown.error), fit;
    }
    var grownSize := grown.value;
    fit := grownSize;
    if grownSize < 1 {
      return Err(ValueError), fit;
    }
    var lines := WrapLines(env, text, Font(face, grownSize), length);
    if lines.None? {
      return Err(AttributeError), fit;
    }
    var shrunk := ShrinkSize(env, length, lines.value, face, grownSize);
    if shrunk.Err? {
      return Err(ValueError), fit;
    }
    r := Ok(GetImage.Fit(lines.value, shrunk.value));
  }

  /**
   * calc_fntsize: one attempt from `basesize`, then, if the block is still
   * taller than `height`, the search again from `basesize - 5` with the
   * default maximum.
   *
   * `base` is the starting size of the attempt that ended the search and
   * `fit` the size the returned lines were wrapped at.
   */
  method CalcFntSize(env: Env, length: real, height: real, text: string, face: Face, basesize: int, maxsize: int)
    returns (r: Result<GetImage.Fit>, ghost base: int, ghost fit: int)
    ensures r.Err? ==> r.error == ValueError || (r.error == AttributeError && Words(text) == [])
    ensures Words(text) == [] ==> r.Err?
    ensures r.Ok? ==>
      && base <= basesize
      && Grown(env, length, height, text, face, base, fit, CapAt(base, basesize, maxsize))
      && Wrapped(env, length, text, face, fit) == Some(r.value.lines)
      && Shrunk(env, length, r.value.lines, face, r.value.size, fit)
      && env.boxBottom(Font(face, r.value.size), r.value.lines) <= height
    ensures r.Ok? ==> r.value.size <= GetImage.Max(GetImage.Max(maxsize, MAXSIZE), basesize - 1)
    ensures Overflowed(env, length, height, text, face, basesize, maxsize, base)
    ensures r == Attempt(env, length, height, text, face, base, CapAt(base, basesize, maxsize))
    ensures !TooTall(env, length, height, text, face, base, CapAt(base, basesize, maxsize))
    decreases basesize
  {
    base := basesize;
    var attempt;
    attempt, fit := AttemptSize(env, length, height, text, face, basesize, maxsize);
    OverflowedStart(env, length, height, text, face, basesize, maxsize);
    if attempt.Err? {
      assert !TooTall(env, length, height, text, face, basesize, maxsize);
      return attempt, base, fit;
    }
    if env.boxBottom(Font(face, attempt.value.size), attempt.value.lines) > height {
      assert TooTall(env, length, height, text, face, basesize, maxsize);
      r, base, fit := CalcFntSize(env, length, height, text, face, basesize - 5, MAXSIZE);
      Retried(env, length, height, text, face, basesize, maxsize, r, base, fit);
      return;
    }
    assert !TooTall(env, length, height, text, face, basesize, maxsize);
    r := attempt;
  }

  // ------------------------------------------------------------- draw_quote

  /** `word.replace('⭕', '')` behind four spaces, when the word holds a ⭕. */
  function Indented(w: string): string {
    if CIRCLED in w then "    " + Remove(w, CIRCLED) else w
  }

  /**
   * The bookmark branches: a whole timestring in one word is drawn in bold
   * italics, normalised and without its ◯, when the word holds a ◯, and in
   * bold otherwise; one end of it is handled as GetImage.BookmarkPhase does.
   */
  function BookmarkPhase(env: Env, size: int, pen: Pen, w: string): GetImage.Phase {
    if Count(w, BOOKMARK) == 2 then
      var parts := SplitOn(w, BOOKMARK);
      var italic := CIRCLE in w;
      var mid := if italic then env.nfkd(Remove(parts[1], CIRCLE)) else parts[1];
      var st := if italic then ItalicHigh else High;
      var p1 := Advance(env, size, pen, parts[0], Norm);
      var p2 := Advance(env, size, p1, mid, st);
      GetImage.Phase(Advance(env, size, p2, parts[2], Norm),
                     [Seg(size, pen, parts[0], Norm), Seg(size, p1, mid, st), Seg(size, p2, parts[2], Norm)], "")
    else GetImage.BookmarkPhase(env, size, pen, w)
  }

  /** The italic branch: ◻ runs in italics; there is no ◯ branch, so anything else is drawn in the current style. */
  function MarkerPhase(env: Env, size: int, pen: Pen, w: string): Step {
    if SQUARE in w then GetImage.ThreeParts(env, size, pen, SplitOn(w, SQUARE), Norm, Italic)
    else Step(Advance(env, size, pen, w, pen.style), [Seg(size, pen, w, pen.style)], None)
  }

  /** One word of draw_quote's inner loop, with the space it appends and the ⭕ indent. */
  function WordStep(env: Env, size: int, pen: Pen, word: string): Step {
    var ph := BookmarkPhase(env, size, pen, Indented(word + " "));
    var s := MarkerPhase(env, size, ph.pen, ph.word);
    Step(s.pen, ph.cmds + s.cmds, s.raised)
  }

  function Stepper(env: Env, size: int): (Pen, string) -> Step {
    (p: Pen, w: string) => WordStep(env, size, p, w)
  }

  /** What draw_quote draws once the timestring is found, and the exception that stops it, if any. */
  function WalkQuote(env: Env, size: int, x0: real, y0: real, text: string, substr: string): Step {
    WalkLines(Stepper(env, size), x0, GetImage.LineStep(env, size), Pen(x0, y0, Norm, 0),
              LineWords(SplitLines(GetImage.Marked(text, substr))))
  }

  /** The body of draw_quote's inner loop. */
  method DrawWord(canvas: Canvas, env: Env, size: int, pen: Pen, word: string) returns (next: Pen, raised: Option<Error>)
    modifies canvas
    ensures var s := WordStep(env, size, pen, word);
            canvas.commands == old(canvas.commands) + s.cmds && next == s.pen && raised == s.raised
  {
    var w := word + " ";
    if CIRCLED in w {
      w := Remove(w, CIRCLED);
      w := "    " + w;
    }
    ghost var ph := BookmarkPhase(env, size, pen, w);
    var p, rest := DrawBookmarks(canvas, env, size, pen, w);
    next, raised := DrawMarkers(canvas, env, size, p, rest);
    ConcatAssoc(old(canvas.commands), ph.cmds, MarkerPhase(env, size, p, rest).cmds);
  }

  /** The two bookmark branches of the inner loop; returns the pen and what is left of the word. */
  method DrawBookmarks(canvas: Canvas, env: Env, size: int, pen: Pen, word: string) returns (next: Pen, rest: string)
    modifies canvas
    ensures var ph := BookmarkPhase(env, size, pen, word);
            canvas.commands == old(canvas.commands) + ph.cmds && next == ph.pen && rest == ph.word
  {
    if Count(word, BOOKMARK) == 2 {
      var parts := SplitOn(word, BOOKMARK);
      next := WriteSeg(canvas, env, size, pen, parts[0], Norm);
      var wordnow := parts[1];
      if CIRCLE in word {
        wordnow := env.nfkd(Remove(wordnow, CIRCLE));
        next := WriteSeg(canvas, env, size, next, wordnow, ItalicHigh);
      } else {
        next := WriteSeg(canvas, env, size, next, wordnow, High);
      }
      next := WriteSeg(canvas, env, size, next, parts[2], Norm);
      rest := "";
    } else {
      next, rest := GetImage.DrawBookmarks(canvas, env, size, pen, word);
    }
  }

  /** The italic branch of the inner loop, drawing what the bookmark branches left of the word. */
  method DrawMarkers(canvas: Canvas, env: Env, size: int, pen: Pen, w: string) returns (next: Pen, raised: Option<Error>)
    modifies canvas
    ensures var s := MarkerPhase(env, size, pen, w);
            canvas.commands == old(canvas.commands) + s.cmds && next == s.pen && raised == s.raised
  {
    next := pen;
    if SQUARE in w {
      var parts := SplitOn(w, SQUARE);
      next := WriteSeg(canvas, env, size, next, parts[0], Norm);
      next := WriteSeg(canvas, env, size, next, env.nfkd(parts[1]), Italic);
      if |parts| < 3 {
        return next, Some(IndexError);
      }
      next := WriteSeg(canvas, env, size, next, parts[2], Norm);
    } else {
      next := WriteSeg(canvas, env, size, next, w, next.style);
    }
    raised := None;
  }

  /** draw_quote's inner loop over the words of one line. */
  method DrawLine(canvas: Canvas, env: Env, size: int, pen: Pen, ws: seq<string>) returns (next: Pen, raised: Option<Error>)
    modifies canvas
    ensures var r := WalkWords(Stepper(env, size), pen, ws);
            canvas.commands == old(canvas.commands) + r.cmds && next == r.pen && raised == r.raised
  {
    ghost var step := Stepper(env, size);
    next, raised := pen, None;
    var j := 0;
    while j < |ws|
      invariant 0 <= j <= |ws|
      invariant var d := WalkWords(step, pen, ws[..j]);
                d.raised.None? && canvas.commands == old(canvas.commands) + d.cmds && next == d.pen
    {
      ghost var d := WalkWords(step, pen, ws[..j]);
      var p, err := DrawWord(canvas, env, size, next, ws[j]);
      WalkWordsNext(step, pen, ws, j);
      ConcatAssoc(old(canvas.commands), d.cmds, WordStep(env, size, next, ws[j]).cmds);
      if err.Some? {
        ghost var r := WalkWords(step, pen, ws[..j + 1]);
        assert r.raised == err && canvas.commands == old(canvas.commands) + r.cmds;
        WalkWordsSticky(step, pen, ws, j + 1);
        assert WalkWords(step, pen, ws) == r;
        return p, err;
      }
      next := p;
      j := j + 1;
    }
    assert ws[..j] == ws;
  }

  /** draw_quote's outer loop over the lines of the bookmarked text, given as their words. */
  method DrawLines(canvas: Canvas, env: Env, size: int, x0: real, y0: real, all: seq<seq<string>>) returns (raised: Option<Error>)
    modifies canvas
    ensures var r := WalkLines(Stepper(env, size), x0, GetImage.LineStep(env, size), Pen(x0, y0, Norm, 0), all);
            canvas.commands == old(canvas.commands) + r.cmds && raised == r.raised
  {
    var lineStep := (env.capBottom(Font(Bookerly, size)) + 4) as real;
    ghost var step := Stepper(env, size);
    assert lineStep == GetImage.LineStep(env, size);
    var pen := Pen(x0, y0, Norm, 0);
    ghost var pen0 := pen;
    raised := None;
    var i := 0;
    while i < |all|
      invariant 0 <= i <= |all|
      invariant var d := WalkLines(step, x0, lineStep, pen0, all[..i]);
                d.raised.None? && canvas.commands == old(canvas.commands) + d.cmds && pen == d.pen
    {
      ghost var d := WalkLines(step, x0, lineStep, pen0, all[..i]);
      var p, err := DrawLine(canvas, env, size, pen, all[i]);
      WalkLinesNext(step, x0, lineStep, pen0, all, i);
      ConcatAssoc(old(canvas.commands), d.cmds, WalkWords(step, pen, all[i]).cmds);
      if err.Some? {
        ghost var r := WalkLines(step, x0, lineStep, pen0, all[..i + 1]);
        assert r.raised == err && canvas.commands == old(canvas.commands) + r.cmds;
        WalkLinesSticky(step, x0, lineStep, pen0, all, i + 1);
        assert WalkLines(step, x0, lineStep, pen0, all) == r;
        return err;
      }
      pen := NextLine(p, x0, lineStep);
      i := i + 1;
    }
    assert all[..i] == all;
  }

  /**
   * draw_quote: a timestring that cannot be found raises `LookupError`
   * before anything is drawn; otherwise the timestring is bookmarked and
   * the quote drawn line by line, word by word.
   */
  method DrawQuote(canvas: Canvas, env: Env, x0: real, y0: real, text: string, substr: string, size: int)
    returns (raised: Option<Error>)
    modifies canvas
    ensures TimestringStart(text, substr).None? ==> raised == Some(LookupError) && canvas.commands == old(canvas.commands)
    ensures TimestringStart(text, substr).Some? ==>
              var r := WalkQuote(env, size, x0, y0, text, substr);
              canvas.commands == old(canvas.commands) + r.cmds && raised == r.raised
  {
    var found := TimestringStart(text, substr);
    if found.None? {
      return Some(LookupError);
    }
    var start := found.value;
    assert start == GetImage.MarkStart(text, substr);
    var lines := Bookmarked(text, start, |substr|);
    raised := DrawLines(canvas, env, size, x0, y0, LineWords(SplitLines(lines)));
  }

  // ------------------------------------------------ what draw_quote draws

  /** A word with a ⭕ and no other marker is drawn in one piece, four spaces in and without its ⭕. */
  lemma IndentedWord(env: Env, size: int, pen: Pen, w: string)
    requires CIRCLED in w && GetImage.Plain(w)
    ensures var t := "    " + Remove(w, CIRCLED) + " ";
            WordStep(env, size, pen, w) == Step(Advance(env, size, pen, t, pen.style), [Seg(size, pen, t, pen.style)], None)
  {
    var t := "    " + Remove(w, CIRCLED) + " ";
    RemoveAppend(w, " ", CIRCLED);
    RemoveKeeps(w, CIRCLED);
    assert CIRCLED in w + " ";
    assert Indented(w + " ") == t;
    assert BOOKMARK !in t && SQUARE !in t;
    assert Count(t, BOOKMARK) == 0;
    assert BookmarkPhase(env, size, pen, t) == GetImage.Phase(pen, [], t);
    assert MarkerPhase(env, size, pen, t) == Step(Advance(env, size, pen, t, pen.style), [Seg(size, pen, t, pen.style)], None);
    assert [] + [Seg(size, pen, t, pen.style)] == [Seg(size, pen, t, pen.style)];
  }

  /**
   * With no bookmark, ◻ or ⭕ in it a word is drawn in one piece in the
   * current style, a ◯ included: this copy has no ◯ run branch, so a lone
   * ◯ raises nothing here (GetImage.UnclosedMarker raises `IndexError`).
   */
  lemma OnePieceWord(env: Env, size: int, pen: Pen, w: string)
    requires BOOKMARK !in w && SQUARE !in w && CIRCLED !in w
    ensures WordStep(env, size, pen, w)
            == Step(Advance(env, size, pen, w + " ", pen.style), [Seg(size, pen, w + " ", pen.style)], None)
  {
    assert BOOKMARK !in w + " " && SQUARE !in w + " " && CIRCLED !in w + " ";
  }

  /** The bookmark branch for a whole timestring wrapped in ◯: three pieces, the middle one normalised, in bold italics. */
  lemma ItalicTimestringPhase(env: Env, size: int, pen: Pen, a: string, t: string, b: string)
    requires GetImage.Plain(a) && GetImage.Plain(t) && GetImage.Plain(b)
    requires CIRCLED !in a && CIRCLED !in t && CIRCLED !in b
    ensures var v := a + [BOOKMARK, CIRCLE] + t + [CIRCLE, BOOKMARK] + b + " ";
            var p1 := Advance(env, size, pen, a, Norm);
            var p2 := Advance(env, size, p1, env.nfkd(t), ItalicHigh);
            && Indented(v) == v
            && BookmarkPhase(env, size, pen, v)
               == GetImage.Phase(Advance(env, size, p2, b + " ", Norm),
                                 [Seg(size, pen, a, Norm), Seg(size, p1, env.nfkd(t), ItalicHigh), Seg(size, p2, b + " ", Norm)], "")
  {
    var m := [CIRCLE] + t + [CIRCLE];
    var v := a + [BOOKMARK, CIRCLE] + t + [CIRCLE, BOOKMARK] + b + " ";
    ItalicMarks(a, t, b, m, v);
    SplitTwice(a, BOOKMARK, m, b);
    Unwrapped(t);
  }

  /** The word is the timestring wrapped in ◯ between two bookmarks, with one ◯ pair and no ⭕. */
  lemma ItalicMarks(a: string, t: string, b: string, m: string, v: string)
    requires GetImage.Plain(a) && GetImage.Plain(t) && GetImage.Plain(b)
    requires CIRCLED !in a && CIRCLED !in t && CIRCLED !in b
    requires m == [CIRCLE] + t + [CIRCLE] && v == a + [BOOKMARK, CIRCLE] + t + [CIRCLE, BOOKMARK] + b + " "
    ensures v == a + [BOOKMARK] + m + [BOOKMARK] + b + " "
    ensures CIRCLED !in v && CIRCLE in v && Count(v, BOOKMARK) == 2
  {
    assert v == a + [BOOKMARK] + m + [BOOKMARK] + b + " ";
    assert v[|a| + 1] == CIRCLE;
    SplitTwice(a, BOOKMARK, m, b);
  }

  lemma Unwrapped(t: string)
    requires CIRCLE !in t
    ensures Remove([CIRCLE] + t + [CIRCLE], CIRCLE) == t
  {
    RemoveAppend([CIRCLE] + t, [CIRCLE], CIRCLE);
    RemoveAppend([CIRCLE], t, CIRCLE);
    assert Remove([CIRCLE], CIRCLE) == [];
  }

  /**
   * A timestring inside one word and wrapped in ◯ is highlighted on its own
   * in bold italics, normalised and without the ◯, between two upright
   * pieces and before an empty fourth; the style and the count of bookmarks
   * seen are left alone.
   */
  lemma ItalicTimestringWord(env: Env, size: int, pen: Pen, a: string, t: string, b: string)
    requires GetImage.Plain(a) && GetImage.Plain(t) && GetImage.Plain(b)
    requires CIRCLED !in a && CIRCLED !in t && CIRCLED !in b
    ensures var r := WordStep(env, size, pen, a + [BOOKMARK, CIRCLE] + t + [CIRCLE, BOOKMARK] + b);
            && r.raised.None? && r.pen.marks == pen.marks && r.pen.style == pen.style && |r.cmds| == 4
            && r.cmds[1].text == env.nfkd(t) && r.cmds[1].font.face == BookerlyBoldItalic
            && Highlighted(r.cmds) == env.nfkd(t)
  {
    var w := a + [BOOKMARK, CIRCLE] + t + [CIRCLE, BOOKMARK] + b;
    ItalicTimestringPhase(env, size, pen, a, t, b);
    var ph := BookmarkPhase(env, size, pen, w + " ");
    var c0 := Seg(size, pen, a, Norm);
    var p1 := Advance(env, size, pen, a, Norm);
    var c1 := Seg(size, p1, env.nfkd(t), ItalicHigh);
    var c2 := Seg(size, Advance(env, size, p1, env.nfkd(t), ItalicHigh), b + " ", Norm);
    var c3 := Seg(size, ph.pen, "", pen.style);
    assert ph.cmds == [c0, c1, c2] && ph.word == "";
    assert MarkerPhase(env, size, ph.pen, "").cmds == [c3];
    assert WordStep(env, size, pen, w).cmds == [c0, c1, c2] + [c3];
    assert [c0, c1, c2] == [c0, c1] + [c2] && [c0, c1] == [c0] + [c1];
    HighlightedAppend([c0, c1, c2], [c3]);
    HighlightedAppend([c0, c1], [c2]);
    HighlightedAppend([c0], [c1]);
    GetImage.HighlightedOne(c0);
    GetImage.HighlightedOne(c1);
    GetImage.HighlightedOne(c2);
    GetImage.HighlightedOne(c3);
  }

  /** Without ◯ or ⭕ a word is drawn as get_image draws it. */
  lemma StepsAgree(env: Env, size: int, pen: Pen, w: string)
    requires CIRCLE !in w && CIRCLED !in w
    ensures WordStep(env, size, pen, w) == GetImage.WordStep(env, size, pen, w)
  {
    var v := w + " ";
    assert CIRCLE !in v && CIRCLED !in v;
    SplitOnAbsent(v, BOOKMARK, CIRCLE);
    var ph := BookmarkPhase(env, size, pen, v);
    assert ph == GetImage.BookmarkPhase(env, size, pen, v);
    assert CIRCLE !in ph.word;
  }

  /** The text draw_quote walks adds only bookmarks to the quote. */
  lemma MarkedAbsent(text: string, substr: string, d: char)
    requires d !in text && d != BOOKMARK
    ensures d !in GetImage.Marked(text, substr)
  {
    var s := GetImage.MarkStart(text, substr);
    var n := |substr|;
    assert d !in Slice(text, 0, s) && d !in Slice(text, s, s + n) && d !in Slice(text, s + n, |text|);
  }

  /** A character absent from a text is absent from every word of every line of it. */
  lemma LineWordsAbsent(t: string, d: char)
    requires d !in t
    ensures var ls := LineWords(SplitLines(t));
            forall i, j :: 0 <= i < |ls| && 0 <= j < |ls[i]| ==> d !in ls[i][j]
  {
    var lines := SplitLines(t);
    if t != "" {
      SplitOnAbsent(t, '\n', d);
    }
    forall i | 0 <= i < |lines|
      ensures forall j :: 0 <= j < |Words(lines[i])| ==> d !in Words(lines[i])[j]
    {
      WordsAbsent(lines[i], d);
    }
  }

  /**
   * Both copies of draw_quote draw a quote without ◯ and ⭕ alike, once its
   * timestring is found: the same segments, cursor and exception.
   */
  lemma QuotesAgree(env: Env, size: int, x0: real, y0: real, text: string, substr: string)
    requires CIRCLE !in text && CIRCLED !in text
    ensures WalkQuote(env, size, x0, y0, text, substr) == GetImage.WalkQuote(env, size, x0, y0, text, substr)
  {
    var m := GetImage.Marked(text, substr);
    MarkedAbsent(text, substr, CIRCLE);
    MarkedAbsent(text, substr, CIRCLED);
    var ls := LineWords(SplitLines(m));
    LineWordsAbsent(m, CIRCLE);
    LineWordsAbsent(m, CIRCLED);
    forall p: Pen, i, j | 0 <= i < |ls| && 0 <= j < |ls[i]|
      ensures Stepper(env, size)(p, ls[i][j]) == GetImage.Stepper(env, size)(p, ls[i][j])
    {
      StepsAgree(env, size, p, ls[i][j]);
    }
    WalkLinesAgree(Stepper(env, size), GetImage.Stepper(env, size), x0, GetImage.LineStep(env, size), Pen(x0, y0, Norm, 0), ls);
  }

  // ------------------------------------------------------------ placement

  lemma MarkerPhaseChained(env: Env, size: int, pen: Pen, w: string)
    ensures var r := MarkerPhase(env, size, pen, w);
            Chained(env, r.cmds, pen.x, r.pen.x, pen.y) && r.pen.y == pen.y
  {
    if SQUARE in w {
      GetImage.ThreePartsChained(env, size, pen, SplitOn(w, SQUARE), Norm, Italic);
    } else {
      SegChained(env, size, pen, w, pen.style);
    }
  }

  lemma BookmarkPhaseChained(env: Env, size: int, pen: Pen, w: string)
    ensures var ph := BookmarkPhase(env, size, pen, w);
            Chained(env, ph.cmds, pen.x, ph.pen.x, pen.y) && ph.pen.y == pen.y
  {
    if Count(w, BOOKMARK) == 2 {
      var parts := SplitOn(w, BOOKMARK);
      var mid := if CIRCLE in w then env.nfkd(Remove(parts[1], CIRCLE)) else parts[1];
      var st := if CIRCLE in w then ItalicHigh else High;
      var p1 := Advance(env, size, pen, parts[0], Norm);
      var p2 := Advance(env, size, p1, mid, st);
      var c0, c1, c2 := Seg(size, pen, parts[0], Norm), Seg(size, p1, mid, st), Seg(size, p2, parts[2], Norm);
      SegChained(env, size, pen, parts[0], Norm);
      SegChained(env, size, p1, mid, st);
      SegChained(env, size, p2, parts[2], Norm);
      ChainedAppend(env, [c0], [c1], pen.x, p1.x, p2.x, pen.y);
      assert [c0] + [c1] == [c0, c1];
      ChainedAppend(env, [c0, c1], [c2], pen.x, p2.x, Advance(env, size, p2, parts[2], Norm).x, pen.y);
      assert [c0, c1] + [c2] == [c0, c1, c2];
    } else {
      GetImage.BookmarkPhaseChained(env, size, pen, w);
    }
  }

  /** Each word is drawn in pieces, each starting where the previous one ended, on the pen's line. */
  lemma WordStepChained(env: Env, size: int, pen: Pen, word: string)
    ensures var r := WordStep(env, size, pen, word);
            Chained(env, r.cmds, pen.x, r.pen.x, pen.y) && r.pen.y == pen.y
  {
    var ph := BookmarkPhase(env, size, pen, Indented(word + " "));
    var s := MarkerPhase(env, size, ph.pen, ph.word);
    BookmarkPhaseChained(env, size, pen, Indented(word + " "));
    MarkerPhaseChained(env, size, ph.pen, ph.word);
    ChainedAppend(env, ph.cmds, s.cmds, pen.x, ph.pen.x, s.pen.x, pen.y);
  }

  lemma WordStepStaysOnLine(env: Env, size: int)
    ensures StaysOnLine(env, Stepper(env, size))
  {
    forall p: Pen, w: string
      ensures var r := Stepper(env, size)(p, w);
              Chained(env, r.cmds, p.x, r.pen.x, p.y) && r.pen.y == p.y
    {
      WordStepChained(env, size, p, w);
    }
  }

  /**
   * draw_quote's loops, run to the end, leave the cursor at the anchor's x,
   * one line step below the anchor per line; blank lines included.
   */
  lemma LinesGeometry(env: Env, size: int, x0: real, y0: real, ls: seq<seq<string>>)
    ensures var r := WalkLines(Stepper(env, size), x0, GetImage.LineStep(env, size), Pen(x0, y0, Norm, 0), ls);
            r.raised.None? ==> r.pen.y == y0 + (|ls| as real) * GetImage.LineStep(env, size) && (ls != [] ==> r.pen.x == x0)
  {
    WordStepStaysOnLine(env, size);
    WalkLinesGeometry(env, Stepper(env, size), x0, GetImage.LineStep(env, size), Pen(x0, y0, Norm, 0), ls);
  }

  // ------------------------------------------------------------ the credits

  const CREDIT_FONT: Font := Font(BookerlyBold, INFO_FONTSIZE)

  /** `f'—{title.strip()}, {author.strip()}'`, with an em dash in this copy. */
  function Credits(title: string, author: string): string {
    "—" + Strip(title) + ", " + Strip(author)
  }

  /** The credits start with the dash, so they hold a word. */
  lemma CreditsHaveWord(title: string, author: string)
    ensures Words(Credits(title, author)) != []
  {
    var m := Credits(title, author);
    assert m[0] == '—';
  }

  /** The credits as drawn: when wider than 341 they go through wrap_lines, which keeps their first word only. */
  function CreditText(env: Env, title: string, author: string): string {
    var m := Credits(title, author);
    if env.textLength(CREDIT_FONT, m) > MDATA_LENGTH then
      CreditsHaveWord(title, author);
      FirstWrap(env, CREDIT_FONT, MDATA_WRAP, m).value
    else m
  }

  /** `font_mdata.getbbox("A")[3] + 4` */
  function CreditStep(env: Env): int {
    env.capBottom(CREDIT_FONT) + 4
  }

  /** One right-anchored black line of credits per line, `step` apart, starting at `top`. */
  function CreditCmds(ls: seq<string>, top: int, step: int): (cmds: seq<DrawCmd>)
    ensures |cmds| == |ls|
  {
    seq(|ls|, k requires 0 <= k < |ls| => DrawCmd(MDATA_START_X, (top + k * step) as real, ls[k], TIME_COLOR, CREDIT_FONT, RightMiddle))
  }

  lemma CreditCmdsSnoc(ls: seq<string>, i: nat, top: int, step: int)
    requires i < |ls|
    ensures CreditCmds(ls[..i + 1], top, step)
            == CreditCmds(ls[..i], top, step) + [DrawCmd(MDATA_START_X, (top + i * step) as real, ls[i], TIME_COLOR, CREDIT_FONT, RightMiddle)]
  {
  }

  /** What the quote may fill: 480, less one credit step per credit line, less 5. */
  function QuoteHeight(env: Env, title: string, author: string): int {
    MDATA_START_Y - |SplitLines(CreditText(env, title, author))| * CreditStep(env) - 5
  }

  /** The credit lines as drawn, from 5 below the quote height downwards. */
  function CreditBlock(env: Env, title: string, author: string): seq<DrawCmd> {
    CreditCmds(SplitLines(CreditText(env, title, author)), QuoteHeight(env, title, author) + 5, CreditStep(env))
  }

  /**
   * The credits block of turn_quote_into_image: one credit step up per
   * line from 480, the quote height 5 above that, then the lines drawn
   * downwards from there.
   */
  method DrawCredits(canvas: Canvas, env: Env, title: string, author: string) returns (quoteHeight: int)
    modifies canvas
    ensures quoteHeight == QuoteHeight(env, title, author)
    ensures canvas.commands == old(canvas.commands) + CreditBlock(env, title, author)
  {
    var ls := CreditLines(env, title, author);
    var step := env.capBottom(CREDIT_FONT) + 4;
    var y := CreditStart(ls, step);
    quoteHeight := y - 5;
    WriteCredits(canvas, ls, y, step);
  }

  /** The first loop: one step up from 480 per line. */
  method CreditStart(ls: seq<string>, step: int) returns (y: int)
    ensures y == MDATA_START_Y - |ls| * step
  {
    y := MDATA_START_Y;
    for i := 0 to |ls|
      invariant y == MDATA_START_Y - i * step
    {
      GetImage.MulSucc(i, step);
      y := y - step;
    }
  }

  /** The second loop: write each line, one step further down. */
  method WriteCredits(canvas: Canvas, ls: seq<string>, y: int, step: int)
    modifies canvas
    ensures canvas.commands == old(canvas.commands) + CreditCmds(ls, y, step)
  {
    var font := CREDIT_FONT;
    var lineY := y;
    for i := 0 to |ls|
      invariant lineY == y + i * step
      invariant canvas.commands == old(canvas.commands) + CreditCmds(ls[..i], y, step)
    {
      CreditCmdsSnoc(ls, i, y, step);
      GetImage.MulSucc(i, step);
      canvas.Write(MDATA_START_X, lineY as real, ls[i], TIME_COLOR, font, RightMiddle);
      lineY := lineY + step;
    }
    assert ls[..|ls|] == ls;
  }

  /** The credit text, through wrap_lines when too wide, cut into lines. */
  method CreditLines(env: Env, title: string, author: string) returns (ls: seq<string>)
    ensures ls == SplitLines(CreditText(env, title, author))
  {
    var font := Font(BookerlyBold, INFO_FONTSIZE);
    var metadata := "—" + Strip(title) + ", " + Strip(author);
    if env.textLength(font, metadata) > MDATA_LENGTH {
      var wrapped := WrapLines(env, metadata, font, MDATA_WRAP);
      CreditsHaveWord(title, author);
      metadata := wrapped.value;
    }
    ls := SplitLines(metadata);
  }

  /** The words wrap_lines returns for a first word `w`: `w` alone, without its ⭐. */
  function Survivor(w: string): seq<string> {
    if STAR in w then Words(Remove(w, STAR)) else [w]
  }

  lemma SplitLinesWord(w: string)
    requires SpaceFree(w)
    ensures SplitLines(w) == (if w == "" then [] else [w])
    ensures SplitLines("\n" + w) == (if w == "" then [""] else ["", w])
  {
    assert '\n' !in w by {
      assert IsSpace('\n');
    }
    SplitOnNone(w, '\n');
    SplitOnAfter("", '\n', w);
    assert "" + ['\n'] + w == "\n" + w;
    assert ([""] + [w])[..1] == [""];
  }

  lemma SplitLinesTwoBreaks(w: string)
    requires SpaceFree(w)
    ensures SplitLines("\n\n" + w) == (if w == "" then ["", ""] else ["", "", w])
  {
    SplitLinesWord(w);
    SplitOnAfter("", '\n', "\n" + w);
    assert "" + ['\n'] + ("\n" + w) == "\n\n" + w;
    assert SplitOn("\n" + w, '\n') == ["", w];
    assert ([""] + ["", ""])[..2] == ["", ""];
  }

  /**
   * Credits wider than 341 keep only their first word, so they take one to
   * three lines: a ⭐ in that word puts it two lines down, a word wider
   * than 318 one line down.
   */
  lemma LongCredits(env: Env, title: string, author: string)
    requires env.textLength(CREDIT_FONT, Credits(title, author)) > MDATA_LENGTH
    ensures var w := Words(Credits(title, author))[0];
            var t := CreditText(env, title, author);
            && Words(t) == Survivor(w)
            && 1 <= |SplitLines(t)| <= 3
  {
    var m := Credits(title, author);
    CreditsHaveWord(title, author);
    FirstWrapShape(env, CREDIT_FONT, MDATA_WRAP, m);
    var w := Words(m)[0];
    WordsAreTokens(m);
    if STAR in w {
      RemoveKeeps(w, STAR);
      SplitLinesTwoBreaks(Remove(w, STAR));
    } else {
      SplitLinesWord(w);
    }
  }

  // ------------------------------------------------------ the image counter

  /** IMGNUMBER and PREVIOUSTIME: the last time saved and the number its image got. */
  datatype Counter = Counter(time: string, number: nat)

  /** The counter after saving an image for `time`: one more for the same time, 0 for a new one. */
  function Tick(c: Counter, time: string): (r: Counter)
    ensures r.time == time
  {
    if time == c.time then Counter(time, c.number + 1) else Counter(time, 0)
  }

  /** The counter after saving images for `times`, in order. */
  function After(c: Counter, times: seq<string>): Counter {
    if times == [] then c else Tick(After(c, times[..|times| - 1]), times[|times| - 1])
  }

  /** The counter each of the images for `times` is named with. */
  function Keys(c: Counter, times: seq<string>): (ks: seq<Counter>)
    ensures |ks| == |times|
  {
    seq(|times|, k requires 0 <= k < |times| => After(c, times[..k + 1]))
  }

  /** `f'images/quote_{time.replace(":", "")}_{IMGNUMBER}.bmp'` */
  function SavePath(time: string, number: nat): string {
    IMG_DIR + "quote_" + Remove(time, ':') + "_" + NatToString(number) + "." + IMG_EXT
  }

  /** The path of each of the images for `times`. */
  function BatchPaths(c: Counter, times: seq<string>): (ps: seq<string>)
    ensures |ps| == |times|
  {
    seq(|times|, k requires 0 <= k < |times| => SavePath(times[k], Keys(c, times)[k].number))
  }

  lemma KeysSnoc(c: Counter, times: seq<string>, t: string)
    ensures Keys(c, times + [t]) == Keys(c, times) + [After(c, times + [t])]
    ensures BatchPaths(c, times + [t]) == BatchPaths(c, times) + [SavePath(t, After(c, times + [t]).number)]
  {
    var ts := times + [t];
    forall k | 0 <= k < |times|
      ensures Keys(c, ts)[k] == Keys(c, times)[k]
    {
      assert ts[..k + 1] == times[..k + 1];
    }
    assert ts[..|ts|] == ts;
    assert Keys(c, ts) == Keys(c, times) + [After(c, ts)];
  }

  /** Each key carries the time it was saved for. */
  lemma KeyTimes(c: Counter, times: seq<string>)
    ensures forall k :: 0 <= k < |times| ==> Keys(c, times)[k].time == times[k]
  {
    forall k | 0 <= k < |times|
      ensures Keys(c, times)[k].time == times[k]
    {
      assert times[..k + 1][..k] == times[..k];
    }
  }

  /** Within a run of equal times the number goes up by one per image. */
  lemma {:induction false} RunNumbers(c: Counter, times: seq<string>, i: nat, l: nat)
    requires i <= l < |times|
    requires forall j :: i <= j <= l ==> times[j] == times[i]
    ensures After(c, times[..l + 1]).number == After(c, times[..i + 1]).number + (l - i)
    decreases l
  {
    if l > i {
      RunNumbers(c, times, i, l - 1);
      assert times[..l + 1][..l] == times[..l];
      KeyTimes(c, times);
      assert After(c, times[..l]).time == times[l - 1];
    }
  }

  /**
   * Consecutive images of one time are numbered 0, 1, 2, ... when that time
   * differs from the counter's, and carry on from it otherwise.
   */
  lemma ConsecutiveNumbers(c: Counter, times: seq<string>, t: string)
    requires forall k :: 0 <= k < |times| ==> times[k] == t
    ensures forall k :: 0 <= k < |times| ==> Keys(c, times)[k] == Counter(t, (if t == c.time then c.number + 1 else 0) + k)
  {
    forall k | 0 <= k < |times|
      ensures Keys(c, times)[k] == Counter(t, (if t == c.time then c.number + 1 else 0) + k)
    {
      assert times[..1][..0] == [];
      RunNumbers(c, times, 0, k);
      KeyTimes(c, times);
    }
  }

  /** Rows are chronological: once a time is left behind it does not come back. */
  ghost predicate Chronological(times: seq<string>) {
    forall i, j, l :: 0 <= i < j < l < |times| && times[i] == times[l] ==> times[j] == times[i]
  }

  /** With chronological times no two images of a batch get the same time and number. */
  lemma KeysDistinct(c: Counter, times: seq<string>)
    requires Chronological(times)
    ensures forall i, l :: 0 <= i < l < |times| ==> Keys(c, times)[i] != Keys(c, times)[l]
  {
    KeyTimes(c, times);
    forall i, l | 0 <= i < l < |times| && times[i] == times[l]
      ensures Keys(c, times)[i].number != Keys(c, times)[l].number
    {
      RunNumbers(c, times, i, l);
    }
  }

  lemma Framed(p: string, x: string, y: string, q: string)
    requires p + x + q == p + y + q
    ensures x == y
  {
    assert |x| == |y|;
    assert x == (p + x + q)[|p|..|p| + |x|];
    assert y == (p + y + q)[|p|..|p| + |y|];
  }

  /** Text before the first underscore, then the rest. */
  lemma UnderscoreSplit(a: string, d1: string, b: string, d2: string)
    requires '_' !in a && '_' !in b
    requires a + "_" + d1 == b + "_" + d2
    ensures a == b && d1 == d2
  {
    var s := a + "_" + d1;
    UnderscoreAt(a, d1);
    UnderscoreAt(b, d2);
    assert |a| == |b|;
    assert a == s[..|a|] && b == s[..|b|];
    assert d1 == s[|a| + 1..] && d2 == s[|b| + 1..];
  }

  lemma UnderscoreAt(a: string, d: string)
    requires '_' !in a
    ensures (a + "_" + d)[|a|] == '_'
    ensures forall k :: 0 <= k < |a| ==> (a + "_" + d)[k] != '_'
  {
  }

  lemma PathLayout(x: string, d: string)
    ensures IMG_DIR + "quote_" + x + "_" + d + "." + IMG_EXT == "images/quote_" + (x + "_" + d) + ".bmp"
  {
  }

  /** The path gives back the time without its colons, and the number, when the time has no underscore. */
  lemma SavePathParts(t1: string, n1: nat, t2: string, n2: nat)
    requires '_' !in t1 && '_' !in t2
    requires SavePath(t1, n1) == SavePath(t2, n2)
    ensures Remove(t1, ':') == Remove(t2, ':') && n1 == n2
  {
    var a, b := Remove(t1, ':'), Remove(t2, ':');
    var d1, d2 := NatToString(n1), NatToString(n2);
    RemoveKeeps(t1, ':');
    RemoveKeeps(t2, ':');
    PathLayout(a, d1);
    PathLayout(b, d2);
    Framed("images/quote_", a + "_" + d1, b + "_" + d2, ".bmp");
    UnderscoreSplit(a, d1, b, d2);
    NatToStringInjective(n1, n2);
  }

  /**
   * "images can't be overwritten": with chronological times, no underscore
   * in them, and no two of them equal once their colons are removed, the
   * images of a batch get pairwise different paths.
   */
  lemma BatchPathsDistinct(c: Counter, times: seq<string>)
    requires Chronological(times)
    requires forall k :: 0 <= k < |times| ==> '_' !in times[k]
    requires forall i, j :: 0 <= i < |times| && 0 <= j < |times| && Remove(times[i], ':') == Remove(times[j], ':') ==> times[i] == times[j]
    ensures forall i, l :: 0 <= i < l < |times| ==> BatchPaths(c, times)[i] != BatchPaths(c, times)[l]
  {
    KeysDistinct(c, times);
    KeyTimes(c, times);
    forall i, l | 0 <= i < l < |times|
      ensures BatchPaths(c, times)[i] != BatchPaths(c, times)[l]
    {
      if BatchPaths(c, times)[i] == BatchPaths(c, times)[l] {
        SavePathParts(times[i], Keys(c, times)[i].number, times[l], Keys(c, times)[l].number);
        assert false;
      }
    }
  }

  // ------------------------------------------------- turn_quote_into_image

  /**
   * The layout calc_fntsize chose for `quote` within `height`, searching
   * from size 50 with the cap 800: it fits, and holds the first word only.
   */
  ghost predicate Fitted(env: Env, quote: string, height: int, layout: GetImage.Fit) {
    && Searched(env, QUOTE_WIDTH, height as real, quote, BookerlyBold, BASESIZE, MAXSIZE, Ok(layout))
    && Words(quote) != [] && layout.size >= 1
    && env.boxRight(Font(BookerlyBold, layout.size), layout.lines) <= QUOTE_WIDTH
    && env.boxBottom(Font(BookerlyBold, layout.size), layout.lines) <= height as real
    && Words(layout.lines) == Survivor(Words(quote)[0])
  }

  /** calc_fntsize, searching from size 50 with the cap 800, fails on `quote` within `height` with `e`. */
  ghost predicate FitFailed(env: Env, quote: string, height: int, e: Error) {
    Searched(env, QUOTE_WIDTH, height as real, quote, BookerlyBold, BASESIZE, MAXSIZE, Err(e))
  }

  /**
   * The quote half of turn_quote_into_image: fit the quote (only its first
   * word survives wrap_lines) and draw it; `false` when draw_quote raised a
   * `LookupError` or the `IndexError` that `except LookupError` also catches.
   */
  method PlaceQuote(canvas: Canvas, env: Env, height: int, quote: string, timestring: string)
    returns (r: Result<bool>, ghost layout: GetImage.Fit)
    modifies canvas
    ensures r.Err? ==> r.error == ValueError || (r.error == AttributeError && Words(quote) == [])
    ensures Words(quote) == [] ==> r.Err?
    ensures r.Err? ==> FitFailed(env, quote, height, r.error)
    ensures r.Ok? ==> Fitted(env, quote, height, layout)
    ensures r.Ok? ==> (r.value <==> Kept(env, layout, timestring))
    ensures r.Ok? && r.value ==>
      canvas.commands == old(canvas.commands) + WalkQuote(env, layout.size, QUOTE_START_X, QUOTE_START_Y, layout.lines, timestring).cmds
  {
    var fitted, base, fit := CalcFntSize(env, QUOTE_WIDTH, height as real, quote, BookerlyBold, BASESIZE, MAXSIZE);
    assert Searched(env, QUOTE_WIDTH, height as real, quote, BookerlyBold, BASESIZE, MAXSIZE, fitted);
    layout := GetImage.Fit("", 0);
    if fitted.Err? {
      return Err(fitted.error), layout;
    }
    layout := fitted.value;
    FirstWrapShape(env, Font(BookerlyBold, fit), QUOTE_WIDTH, quote);
    var raised := DrawQuote(canvas, env, QUOTE_START_X, QUOTE_START_Y, fitted.value.lines, timestring, fitted.value.size);
    r := Ok(raised.None?);
  }

  /** What became of one row: discarded with a warning, or saved at a path. */
  datatype Outcome = Skipped | Saved(image: Canvas, path: string)

  /** A row of the CSV file. */
  datatype Row = Row(time: string, quote: string, timestring: string, author: string, title: string)

  /** `len(csvfile.readlines()) - 1`, lowered to the first argument when that is a smaller number. */
  function Jobs(lineCount: nat, arg: Option<string>): int {
    var jobs := lineCount - 1;
    if arg.Some? && IsDigits(arg.value) && ParseNat(arg.value) < jobs then ParseNat(arg.value) else jobs
  }

  /** A number on the command line caps the batch; it never raises it above the rows of the file. */
  lemma JobsCap(lineCount: nat, arg: Option<string>, m: nat)
    ensures Jobs(lineCount, arg) <= lineCount - 1
    ensures Jobs(lineCount, None) == lineCount - 1
    ensures Jobs(lineCount, Some(NatToString(m))) == if m < lineCount - 1 then m else lineCount - 1
  {
    ParseNatToString(m);
  }

  function Min(a: int, b: int): int {
    if a < b then a else b
  }

  /** The times of the rows picked out by `picked`, in order. */
  function Picked(rows: seq<Row>, picked: seq<nat>): (ts: seq<string>)
    requires forall k :: 0 <= k < |picked| ==> picked[k] < |rows|
    ensures |ts| == |picked|
  {
    seq(|picked|, k requires 0 <= k < |picked| => rows[picked[k]].time)
  }

  /** The times of all the rows. */
  function Times(rows: seq<Row>): (ts: seq<string>)
    ensures |ts| == |rows| && forall k :: 0 <= k < |rows| ==> ts[k] == rows[k].time
  {
    seq(|rows|, k requires 0 <= k < |rows| => rows[k].time)
  }

  ghost predicate Increasing(picked: seq<nat>, bound: nat) {
    && (forall k :: 0 <= k < |picked| ==> picked[k] < bound)
    && (forall k, l :: 0 <= k < l < |picked| ==> picked[k] < picked[l])
  }

  lemma IncreasingWider(picked: seq<nat>, i: nat)
    requires Increasing(picked, i)
    ensures Increasing(picked, i + 1)
  {
  }

  /** Keeping row `i` after the rows in `picked` adds its time, its path and one tick of the counter. */
  lemma PickNext(c: Counter, rows: seq<Row>, picked: seq<nat>, i: nat)
    requires Increasing(picked, i) && i < |rows|
    ensures Increasing(picked + [i], i + 1)
    ensures Picked(rows, picked + [i]) == Picked(rows, picked) + [rows[i].time]
    ensures BatchPaths(c, Picked(rows, picked + [i]))
            == BatchPaths(c, Picked(rows, picked)) + [SavePath(rows[i].time, Tick(After(c, Picked(rows, picked)), rows[i].time).number)]
    ensures After(c, Picked(rows, picked + [i])) == Tick(After(c, Picked(rows, picked)), rows[i].time)
  {
    var ts := Picked(rows, picked);
    assert Picked(rows, picked + [i]) == ts + [rows[i].time];
    KeysSnoc(c, ts, rows[i].time);
    assert (ts + [rows[i].time])[..|ts|] == ts;
  }

  /** Rows dropped from a chronological file leave the rest chronological. */
  lemma PickedChronological(rows: seq<Row>, picked: seq<nat>)
    requires Increasing(picked, |rows|) && Chronological(Times(rows))
    ensures Chronological(Picked(rows, picked))
  {
    var ts, all := Picked(rows, picked), Times(rows);
    forall i, j, l | 0 <= i < j < l < |ts| && ts[i] == ts[l]
      ensures ts[j] == ts[i]
    {
      assert all[picked[i]] == all[picked[l]];
      assert picked[i] < picked[j] < picked[l];
    }
  }

  /**
   * The paths main saves are pairwise different when the file is in
   * chronological order and its times are told apart by their digits.
   */
  lemma SavedPathsDistinct(c: Counter, rows: seq<Row>, picked: seq<nat>)
    requires Increasing(picked, |rows|) && Chronological(Times(rows))
    requires forall k :: 0 <= k < |rows| ==> '_' !in rows[k].time
    requires forall i, j :: 0 <= i < |rows| && 0 <= j < |rows| && Remove(rows[i].time, ':') == Remove(rows[j].time, ':') ==> rows[i].time == rows[j].time
    ensures forall i, l :: 0 <= i < l < |picked| ==> BatchPaths(c, Picked(rows, picked))[i] != BatchPaths(c, Picked(rows, picked))[l]
  {
    var ts := Picked(rows, picked);
    PickedChronological(rows, picked);
    forall i, j | 0 <= i < |ts| && 0 <= j < |ts| && Remove(ts[i], ':') == Remove(ts[j], ':')
      ensures ts[i] == ts[j]
    {
      assert ts[i] == rows[picked[i]].time && ts[j] == rows[picked[j]].time;
    }
    forall k | 0 <= k < |ts|
      ensures '_' !in ts[k]
    {
      assert ts[k] == rows[picked[k]].time;
    }
    BatchPathsDistinct(c, ts);
  }

  /** draw_quote found the timestring and raised nothing, so the image is kept. */
  ghost predicate Kept(env: Env, layout: GetImage.Fit, timestring: string) {
    TimestringStart(layout.lines, timestring).Some?
    && WalkQuote(env, layout.size, QUOTE_START_X, QUOTE_START_Y, layout.lines, timestring).raised.None?
  }

  /** A row fitted as `layout`, whose image was kept exactly when `kept`. */
  ghost predicate RowDecided(env: Env, row: Row, layout: GetImage.Fit, kept: bool) {
    && Fitted(env, row.quote, QuoteHeight(env, row.title, row.author), layout)
    && (kept <==> Kept(env, layout, row.timestring))
  }

  /**
   * Each of the first `n` rows was fitted, giving `layouts[k]`, and is among
   * the `picked` rows exactly when its image was kept.
   */
  ghost predicate Decided(env: Env, rows: seq<Row>, n: nat, picked: seq<nat>, layouts: seq<GetImage.Fit>) {
    && n <= |rows| && |layouts| == n
    && forall k :: 0 <= k < n ==> RowDecided(env, rows[k], layouts[k], k in picked)
  }

  /** Deciding row `i` extends the rows decided so far. */
  lemma DecidedNext(env: Env, rows: seq<Row>, i: nat, picked: seq<nat>, layouts: seq<GetImage.Fit>, layout: GetImage.Fit, keep: bool)
    requires Decided(env, rows, i, picked, layouts) && i < |rows| && Increasing(picked, i)
    requires RowDecided(env, rows[i], layout, keep)
    ensures Decided(env, rows, i + 1, if keep then picked + [i] else picked, layouts + [layout])
  {
    var p := if keep then picked + [i] else picked;
    var ls := layouts + [layout];
    assert i !in picked;
    assert (i in p) == keep;
    forall k | 0 <= k < i + 1
      ensures RowDecided(env, rows[k], ls[k], k in p)
    {
      if k < i {
        assert ls[k] == layouts[k];
        assert (k in p) == (k in picked);
        assert RowDecided(env, rows[k], layouts[k], k in picked);
      }
    }
  }

  /** The drawing half of turn_quote_into_image, on a new image. */
  method Render(env: Env, quote: string, timestring: string, author: string, title: string)
    returns (canvas: Canvas, placed: Result<bool>, ghost layout: GetImage.Fit)
    ensures fresh(canvas)
    ensures placed.Err? ==> placed.error == ValueError || (placed.error == AttributeError && Words(quote) == [])
    ensures Words(quote) == [] ==> placed.Err?
    ensures placed.Err? ==> FitFailed(env, quote, QuoteHeight(env, title, author), placed.error)
    ensures placed.Ok? ==> Fitted(env, quote, QuoteHeight(env, title, author), layout)
    ensures placed.Ok? ==> (placed.value <==> Kept(env, layout, timestring))
    ensures placed.Ok? && placed.value ==>
      canvas.commands == CreditBlock(env, title, author) + WalkQuote(env, layout.size, QUOTE_START_X, QUOTE_START_Y, layout.lines, timestring).cmds
  {
    canvas := new Canvas();
    var quoteHeight := DrawCredits(canvas, env, title, author);
    assert canvas.commands == [] + CreditBlock(env, title, author);
    assert canvas.commands == CreditBlock(env, title, author);
    placed, layout := PlaceQuote(canvas, env, quoteHeight, quote, timestring);
  }

  /** IMGNUMBER and PREVIOUSTIME, the state make_images keeps between rows. */
  class Batch {
    var imgNumber: nat
    var previousTime: string

    constructor ()
      ensures imgNumber == 0 && previousTime == ""
    {
      imgNumber := 0;
      previousTime := "";
    }

    function Now(): Counter
      reads this
    {
      Counter(previousTime, imgNumber)
    }

    /** The counter update and the save path of turn_quote_into_image, for an image that is kept. */
    method Number(time: string) returns (savepath: string)
      modifies this
      ensures Now() == Tick(old(Now()), time)
      ensures savepath == SavePath(time, imgNumber)
    {
      if time == previousTime {
        imgNumber := imgNumber + 1;
      } else {
        imgNumber := 0;
        previousTime := time;
      }
      var stamp := Remove(time, ':');
      savepath := IMG_DIR + "quote_" + stamp + "_" + NatToString(imgNumber) + "." + IMG_EXT;
    }

    /**
     * turn_quote_into_image: draw the credits and the quote on a new image;
     * discard it when draw_quote raises; otherwise number it for its time
     * and save it. A failure to fit the quote propagates.
     */
    method TurnQuoteIntoImage(env: Env, time: string, quote: string, timestring: string, author: string, title: string)
      returns (r: Result<Outcome>, ghost layout: GetImage.Fit)
      modifies this
      ensures r.Err? ==> (r.error == ValueError || (r.error == AttributeError && Words(quote) == [])) && Now() == old(Now())
      ensures Words(quote) == [] ==> r.Err?
      ensures r.Err? ==> FitFailed(env, quote, QuoteHeight(env, title, author), r.error)
      ensures r.Ok? ==> Fitted(env, quote, QuoteHeight(env, title, author), layout)
      ensures r.Ok? ==> (r.value.Saved? <==> Kept(env, layout, timestring))
      ensures r.Ok? && r.value.Skipped? ==> Now() == old(Now())
      ensures r.Ok? && r.value.Saved? ==>
        && fresh(r.value.image)
        && r.value.image.commands
           == CreditBlock(env, title, author) + WalkQuote(env, layout.size, QUOTE_START_X, QUOTE_START_Y, layout.lines, timestring).cmds
        && Now() == Tick(old(Now()), time)
        && r.value.path == SavePath(time, imgNumber)
    {
      var canvas, placed;
      canvas, placed, layout := Render(env, quote, timestring, author, title);
      if placed.Err? {
        return Err(placed.error), layout;
      }
      if !placed.value {
        return Ok(Skipped), layout;
      }
      var savepath := Number(time);
      r := Ok(Saved(canvas, savepath));
    }

    /** One pass of main's loop: the path the row's image was saved at, if it was kept. */
    method Process(env: Env, row: Row) returns (r: Result<Option<string>>, ghost layout: GetImage.Fit)
      modifies this
      ensures r.Err? ==> (r.error == ValueError || (r.error == AttributeError && Words(row.quote) == [])) && Now() == old(Now())
      ensures Words(row.quote) == [] ==> r.Err?
      ensures r.Err? ==> FitFailed(env, row.quote, QuoteHeight(env, row.title, row.author), r.error)
      ensures r.Ok? ==> Fitted(env, row.quote, QuoteHeight(env, row.title, row.author), layout)
      ensures r.Ok? ==> (r.value.Some? <==> Kept(env, layout, row.timestring))
      ensures r.Ok? && r.value.None? ==> Now() == old(Now())
      ensures r.Ok? && r.value.Some? ==> Now() == Tick(old(Now()), row.time) && r.value.value == SavePath(row.time, Now().number)
    {
      var outcome;
      outcome, layout := TurnQuoteIntoImage(env, row.time, row.quote, row.timestring, row.author, row.title);
      if outcome.Err? {
        return Err(outcome.error), layout;
      }
      if outcome.value.Skipped? {
        return Ok(None), layout;
      }
      return Ok(Some(outcome.value.path)), layout;
    }

    /**
     * main's loop over the rows: stop at row `jobs`; an exception ends the
     * batch. Every row before `processed` was fitted (`layouts`) and its
     * image kept exactly when draw_quote raised nothing; `picked` are the
     * kept rows, and the paths and the counter follow from their times.
     */
    method Generate(env: Env, rows: seq<Row>, lineCount: nat, arg: Option<string>)
      returns (processed: nat, paths: seq<string>, failed: Option<Error>, ghost picked: seq<nat>, ghost layouts: seq<GetImage.Fit>)
      modifies this
      ensures processed <= |rows| && processed <= GetImage.Max(Jobs(lineCount, arg), 0)
      ensures failed.None? ==> processed == Min(|rows|, GetImage.Max(Jobs(lineCount, arg), 0))
      ensures failed.Some? ==> processed < |rows| && processed < Jobs(lineCount, arg)
      ensures failed.Some? ==>
        failed.value == ValueError || (failed.value == AttributeError && Words(rows[processed].quote) == [])
      ensures failed.Some? ==>
        FitFailed(env, rows[processed].quote, QuoteHeight(env, rows[processed].title, rows[processed].author), failed.value)
      ensures Decided(env, rows, processed, picked, layouts)
      ensures Increasing(picked, processed)
      ensures paths == BatchPaths(old(Now()), Picked(rows, picked))
      ensures Now() == After(old(Now()), Picked(rows, picked))
    {
      var jobs := lineCount - 1;
      if arg.Some? {
        if IsDigits(arg.value) && ParseNat(arg.value) < jobs {
          jobs := ParseNat(arg.value);
        }
      }
      assert jobs == Jobs(lineCount, arg);
      ghost var start := Now();
      paths, picked, layouts := [], [], [];
      var i := 0;
      while i < |rows|
        invariant i <= |rows| && i <= GetImage.Max(jobs, 0)
        invariant Increasing(picked, i)
        invariant Decided(env, rows, i, picked, layouts)
        invariant paths == BatchPaths(start, Picked(rows, picked))
        invariant Now() == After(start, Picked(rows, picked))
      {
        if i >= jobs {
          break;
        }
        var r, layout := Process(env, rows[i]);
        if r.Err? {
          return i, paths, Some(r.error), picked, layouts;
        }
        assert RowDecided(env, rows[i], layout, r.value.Some?);
        DecidedNext(env, rows, i, picked, layouts, layout, r.value.Some?);
        if r.value.Some? {
          PickNext(start, rows, picked, i);
          paths := paths + [r.value.value];
          picked := picked + [i];
        } else {
          IncreasingWider(picked, i);
        }
        layouts := layouts + [layout];
        i := i + 1;
      }
      return i, paths, None, picked, layouts;
    }
  }
}
