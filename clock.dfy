/**
 * The clock's bookkeeping (clock.py): the time of day as an `HHMM` stamp,
 * the minute arithmetic that picks which quote to load next, and the
 * three-image buffer the e-paper display is fed from.
 *
 * `datetime.now()`, `glob`, `random.randrange` and `Image.open` are inputs
 * (`now` and a `World`); the display driver is left out.
 */
module Clock {
  import opened Outcomes
  import opened Text

  /** The number of images `init_buffer` fills the buffer up to. */
  const BUFFER_SIZE := 3
  const MINUTES_PER_DAY := 1440

  // ------------------------------------------------------------- time of day

  /** The hour and minute of a `datetime`; clock.py never looks at anything finer. */
  datatype Time = Time(hour: nat, minute: nat)

  predicate Valid(t: Time) {
    t.hour < 24 && t.minute < 60
  }

  function Minutes(t: Time): nat {
    t.hour * 60 + t.minute
  }

  /** A valid time is less than a day after midnight. */
  lemma MinutesBound(t: Time)
    requires Valid(t)
    ensures Minutes(t) < MINUTES_PER_DAY
  {
    assert t.hour * 60 <= 23 * 60;
  }

  /** `int` of two digits. */
  lemma ParsePair(a: nat, b: nat)
    requires a < 10 && b < 10
    ensures ParseNat([DigitChar(a), DigitChar(b)]) == a * 10 + b
  {
    var s := [DigitChar(a), DigitChar(b)];
    assert s[..1] == [DigitChar(a)] && [DigitChar(a)][..0] == [];
    assert ParseNat([DigitChar(a)]) == a;
    assert ParseNat(s) == ParseNat(s[..1]) * 10 + (s[1] as int - '0' as int);
  }

  /** `str(n)`, with a `'0'` in front when `n` is below ten. */
  function Pad(n: nat): string {
    if n < 10 then "0" + NatToString(n) else NatToString(n)
  }

  /** Below a hundred the padded number is two digits that read back as the number. */
  lemma PadDigits(n: nat)
    requires n < 100
    ensures var s := Pad(n); |s| == 2 && IsDigits(s) && ParseNat(s) == n
  {
    if n < 10 {
      assert Pad(n) == [DigitChar(0), DigitChar(n)];
      ParsePair(0, n);
    } else {
      assert NatToString(n / 10) == [DigitChar(n / 10)];
      assert Pad(n) == [DigitChar(n / 10), DigitChar(n % 10)];
      ParsePair(n / 10, n % 10);
    }
  }

  /**
   * `get_time`: the zero-padded hour followed by the zero-padded minute.
   * For two-digit values it is four digits that read back as the hour and
   * the minute.
   */
  function GetTime(hour: nat, minute: nat): string {
    Pad(hour) + Pad(minute)
  }

  /** For two-digit values the stamp is four digits that read back as the hour and the minute. */
  lemma GetTimeDigits(hour: nat, minute: nat)
    requires hour < 100 && minute < 100
    ensures var stamp := GetTime(hour, minute);
      && |stamp| == 4 && IsDigits(stamp)
      && ParseNat(stamp[..2]) == hour && ParseNat(stamp[2..]) == minute
  {
    var h, m := Pad(hour), Pad(minute);
    PadDigits(hour);
    PadDigits(minute);
    assert (h + m)[..|h|] == h && (h + m)[|h|..] == m;
  }

  function Stamp(t: Time): string {
    GetTime(t.hour, t.minute)
  }

  /** Different times of day have different stamps, so they look for different files. */
  lemma StampInjective(a: Time, b: Time)
    requires Valid(a) && Valid(b) && Stamp(a) == Stamp(b)
    ensures a == b
  {
    var s := Stamp(a);
    GetTimeDigits(a.hour, a.minute);
    GetTimeDigits(b.hour, b.minute);
    assert ParseNat(s[..2]) == a.hour == b.hour;
    assert ParseNat(s[2..]) == a.minute == b.minute;
  }

  /**
   * The step of `init_buffer`: minute 59 goes to minute 0 of the next hour
   * (hour 23 to hour 0 of the next day), any other minute to the next one.
   */
  function NextMinute(t: Time): Time {
    if t.minute == 59 then Time(NextHour(t.hour), 0) else Time(t.hour, t.minute + 1)
  }

  /** The next minute of a valid time is a valid time one minute later, midnight following 23:59. */
  lemma NextMinuteWraps(t: Time)
    requires Valid(t)
    ensures Valid(NextMinute(t)) && Minutes(NextMinute(t)) == Wrap(Minutes(t) + 1)
  {
  }

  /** `+ timedelta(hours=1)` on the hour: 23 runs into hour 0 of the next day. */
  function NextHour(hour: nat): nat {
    if hour == 23 then 0 else hour + 1
  }

  /** A minute count less than two days, folded back into one day. */
  function Wrap(m: nat): nat {
    if m >= MINUTES_PER_DAY then m - MINUTES_PER_DAY else m
  }

  /** The time `update_buffer` asks for: the three cases that cross the hour, and plain `+3`. */
  function PlusThree(t: Time): (r: Time)
    ensures Valid(t) ==> Valid(r) && Minutes(r) == Wrap(Minutes(t) + 3)
  {
    if t.minute + 3 == 60 then Time(NextHour(t.hour), 0)
    else if t.minute + 3 == 61 then Time(NextHour(t.hour), 1)
    else if t.minute + 3 == 62 then Time(NextHour(t.hour), 2)
    else Time(t.hour, t.minute + 3)
  }

  /** The time `n` steps of `init_buffer` after `t`. */
  function Later(t: Time, n: nat): Time {
    if n == 0 then t else NextMinute(Later(t, n - 1))
  }

  /** A count of minutes folded into one day. */
  function DayMinute(m: nat): nat {
    m % MINUTES_PER_DAY
  }

  lemma {:induction false} LaterMinutes(t: Time, n: nat)
    requires Valid(t)
    ensures Valid(Later(t, n))
    ensures Minutes(Later(t, n)) == DayMinute(Minutes(t) + n)
  {
    if n == 0 {
      MinutesBound(t);
      ModSmall(Minutes(t) + n);
    } else {
      LaterMinutes(t, n - 1);
      NextMinuteWraps(Later(t, n - 1));
      ModSucc(Minutes(Later(t, n - 1)), Minutes(Later(t, n)), Minutes(t) + (n - 1), Minutes(t) + n);
    }
  }

  lemma ModSmall(m: nat)
    requires m < MINUTES_PER_DAY
    ensures DayMinute(m) == m
  {
  }

  /** Counting one more minute, folded into a day. */
  lemma ModSucc(a: nat, b: nat, m: nat, m': nat)
    requires a == DayMinute(m) && b == Wrap(a + 1) && m' == m + 1
    ensures b == DayMinute(m')
  {
    var q := m / MINUTES_PER_DAY;
    assert m == q * MINUTES_PER_DAY + a;
    if a + 1 == MINUTES_PER_DAY {
      assert m + 1 == (q + 1) * MINUTES_PER_DAY;
    } else {
      assert m + 1 == q * MINUTES_PER_DAY + (a + 1);
    }
  }

  lemma MinutesInjective(a: Time, b: Time)
    requires Valid(a) && Valid(b) && Minutes(a) == Minutes(b)
    ensures a == b
  {
  }

  /**
   * Where `init_buffer` leaves the clock's time after filling an empty
   * buffer is where one `update_buffer` would have put it.
   */
  lemma ThreeMinutes(t: Time)
    requires Valid(t)
    ensures Later(t, 3) == PlusThree(t)
  {
    var a := NextMinute(t);
    var b := NextMinute(a);
    var c := NextMinute(b);
    NextMinuteWraps(t);
    NextMinuteWraps(a);
    NextMinuteWraps(b);
    assert Later(t, 1) == a;
    assert Later(t, 2) == b;
    assert Later(t, 3) == c;
    assert Minutes(c) == Wrap(Wrap(Wrap(Minutes(t) + 1) + 1) + 1) == Wrap(Minutes(t) + 3);
    MinutesInjective(c, PlusThree(t));
  }

  /**
   * `main` decides on a full refresh from the time the previous
   * `update_buffer` left behind, three minutes after that call's `now`:
   * it refreshes fully after an update made at a minute ending in 7.
   */
  lemma RefreshAfterUpdate(t: Time)
    requires Valid(t)
    ensures PlusThree(t).minute % 10 == 0 <==> t.minute % 10 == 7
  {
  }

  // ------------------------------------------------- files and randomness

  /**
   * What clock.py asks of its surroundings: the paths a glob pattern
   * matches, whether a bitmap of that name exists under the image
   * directory, and the draw behind `random.randrange(0, n)` for a stamp,
   * taken modulo `n`.
   */
  datatype World = World(glob: string -> seq<string>, found: string -> bool, draw: (string, nat) -> nat)

  /** The glob pattern `get_quotes` searches for a stamp. */
  function Pattern(stamp: string): string {
    "images/quote_" + stamp + "_*.bmp"
  }

  /** The bitmap the clock opens for a stamp and a drawn number. */
  function FileName(stamp: string, k: nat): string {
    "quote_" + stamp + "_" + NatToString(k) + ".bmp"
  }

  /** `get_quotes`: the matches for the stamp, or the previous list when there are none. */
  function Candidates(w: World, stamp: string, quotes: seq<string>): (r: seq<string>)
    ensures r == w.glob(Pattern(stamp)) || (w.glob(Pattern(stamp)) == [] && r == quotes)
    ensures r == [] <==> w.glob(Pattern(stamp)) == [] && quotes == []
  {
    var matches := w.glob(Pattern(stamp));
    if matches != [] then matches else quotes
  }

  /** `random.randrange(0, n)`: a number below `n`, or `ValueError` when `n` is 0. */
  function Draw(w: World, stamp: string, n: nat): (r: Result<nat>)
    ensures r.Ok? <==> n > 0
    ensures r.Ok? ==> r.value < n
    ensures r.Err? ==> r.error == ValueError
  {
    if n == 0 then Err(ValueError) else Ok(w.draw(stamp, n) % n)
  }

  /** The file name the clock wants for time `t`, choosing among `quotes`. */
  function Wanted(w: World, t: Time, quotes: seq<string>): (r: Result<string>)
    ensures r.Err? <==> quotes == []
    ensures r.Err? ==> r.error == ValueError
    ensures r.Ok? ==> exists k: nat :: k < |quotes| && r.value == FileName(Stamp(t), k)
  {
    var k := Draw(w, Stamp(t), |quotes|);
    if k.Err? then Err(k.error) else Ok(FileName(Stamp(t), k.value))
  }

  // ------------------------------------------------------ init_buffer, spec

  /** How many images `init_buffer` adds to a buffer of `len` images. */
  function Missing(len: nat): nat {
    if len < BUFFER_SIZE then BUFFER_SIZE - len else 0
  }

  /** The `quotes` list after `n` passes of `init_buffer` from `t`, having started as `quotes`. */
  function QuotesAfter(w: World, t: Time, quotes: seq<string>, n: nat): seq<string> {
    if n == 0 then quotes else Candidates(w, Stamp(Later(t, n - 1)), QuotesAfter(w, t, quotes, n - 1))
  }

  /** The file pass `j` of `init_buffer` asks for: one drawn for the time `j` minutes after `t`. */
  function WantedAt(w: World, t: Time, quotes: seq<string>, j: nat): Result<string> {
    Wanted(w, Later(t, j), QuotesAfter(w, t, quotes, j + 1))
  }

  /**
   * Slot `j` of the images `init_buffer` added after the first `base`: the
   * file drawn for the time `j` minutes after `t` when that file exists;
   * otherwise the front of the buffer again, which is then not the slot itself.
   */
  ghost predicate SlotFilled(w: World, t: Time, quotes: seq<string>, names: seq<string>, base: nat, j: nat) {
    && base + j < |names|
    && WantedAt(w, t, quotes, j).Ok?
    && var f := WantedAt(w, t, quotes, j).value;
       if w.found(f) then names[base + j] == f else 0 < base + j && names[base + j] == names[0]
  }

  /** Appending a name leaves the slots already filled as they were. */
  lemma SlotsGrow(w: World, t: Time, quotes: seq<string>, names: seq<string>, name: string, base: nat, n: nat)
    requires forall j :: 0 <= j < n ==> SlotFilled(w, t, quotes, names, base, j)
    ensures forall j :: 0 <= j < n ==> SlotFilled(w, t, quotes, names + [name], base, j)
  {
    forall j | 0 <= j < n
      ensures SlotFilled(w, t, quotes, names + [name], base, j)
    {
      assert SlotFilled(w, t, quotes, names, base, j);
      assert (names + [name])[base + j] == names[base + j];
      assert (names + [name])[0] == names[0];
    }
  }

  /** The next slot, filled with the file drawn for it, or with the front when that file is missing. */
  lemma SlotNext(w: World, t: Time, quotes: seq<string>, names: seq<string>, name: string, base: nat, j: nat, want: string)
    requires base + j == |names| && WantedAt(w, t, quotes, j) == Ok(want)
    requires w.found(want) ==> name == want
    requires !w.found(want) ==> names != [] && name == names[0]
    ensures SlotFilled(w, t, quotes, names + [name], base, j)
  {
    assert (names + [name])[base + j] == name;
    if names != [] {
      assert (names + [name])[0] == names[0];
    }
  }

  /**
   * Filling an empty buffer puts only existing bitmaps in it: the first
   * slot cannot fall back on a front, and every later fallback copies it.
   */
  lemma FilledFromEmpty(w: World, t: Time, quotes: seq<string>, names: seq<string>, n: nat)
    requires n <= |names|
    requires forall j :: 0 <= j < n ==> SlotFilled(w, t, quotes, names, 0, j)
    ensures forall j :: 0 <= j < n ==> w.found(names[j])
    ensures n > 0 ==> WantedAt(w, t, quotes, 0) == Ok(names[0])
  {
    if n > 0 {
      assert SlotFilled(w, t, quotes, names, 0, 0);
      forall j | 0 <= j < n
        ensures w.found(names[j])
      {
        assert SlotFilled(w, t, quotes, names, 0, j);
      }
    }
  }

  // ------------------------------------------------------------- the clock

  /** A bitmap opened with `Image.open`; `close` marks it closed. */
  class QuoteImage {
    const path: string
    var closed: bool

    constructor (path: string)
      ensures this.path == path && !closed
    {
      this.path := path;
      closed := false;
    }

    method Close()
      modifies this
      ensures closed
    {
      closed := true;
    }
  }

  /** The file names of the images in a buffer. */
  function Names(buffer: seq<QuoteImage>): (names: seq<string>)
    ensures |names| == |buffer| && forall i :: 0 <= i < |buffer| ==> names[i] == buffer[i].path
  {
    seq(|buffer|, i requires 0 <= i < |buffer| => buffer[i].path)
  }

  /** A buffer grown by one image has the old names and then the new one. */
  lemma NamesGrow(before: seq<QuoteImage>, after: seq<QuoteImage>)
    requires |after| == |before| + 1 && after[..|before|] == before
    ensures Names(after) == Names(before) + [after[|before|].path]
  {
    assert forall i :: 0 <= i < |before| ==> after[i] == after[..|before|][i];
  }

  /**
   * Where `init_buffer` stands after some passes from `now`, having found
   * the buffer `start` and the list `q0`: the buffer it started with is
   * kept, one image was added per pass, the time moved on a minute per
   * pass, `quotes` is the list the last pass looked up, each added slot is
   * filled, and each added image is one of those it loaded (`added`) or
   * the front again.
   */
  ghost predicate Partial(w: World, now: Time, q0: seq<string>, start: seq<QuoteImage>, buffer: seq<QuoteImage>,
                          time: Time, quotes: seq<string>, added: set<QuoteImage>) {
    && |start| <= |buffer| <= |start| + Missing(|start|)
    && buffer[..|start|] == start
    && Progress(w, now, q0, |buffer| - |start|, time, quotes)
    && (forall j :: 0 <= j < |buffer| - |start| ==> SlotFilled(w, now, q0, Names(buffer), |start|, j))
    && (forall j :: |start| <= j < |buffer| ==> buffer[j] in added || buffer[j] == buffer[0])
  }

  /** The time and the `quotes` list after `n` passes of `init_buffer` from `now`. */
  ghost predicate Progress(w: World, now: Time, q0: seq<string>, n: nat, time: Time, quotes: seq<string>) {
    time == Later(now, n) && quotes == QuotesAfter(w, now, q0, n)
  }

  /** Pass `n` asks for the file drawn at the time and list it found, and moves both on. */
  lemma ProgressNext(w: World, now: Time, q0: seq<string>, n: nat, time: Time, quotes: seq<string>)
    requires Progress(w, now, q0, n, time, quotes)
    ensures WantedAt(w, now, q0, n) == Wanted(w, time, Candidates(w, Stamp(time), quotes))
    ensures Progress(w, now, q0, n + 1, NextMinute(time), Candidates(w, Stamp(time), quotes))
  {
  }

  /** The slots after one more pass: the old ones as they were, the new one filled. */
  lemma SlotsAfterPass(w: World, now: Time, q0: seq<string>, names: seq<string>, name: string, base: nat, pass: nat,
                       want: string)
    requires base + pass == |names| && WantedAt(w, now, q0, pass) == Ok(want)
    requires forall j :: 0 <= j < pass ==> SlotFilled(w, now, q0, names, base, j)
    requires w.found(want) ==> name == want
    requires !w.found(want) ==> names != [] && name == names[0]
    ensures forall j :: 0 <= j < pass + 1 ==> SlotFilled(w, now, q0, names + [name], base, j)
  {
    SlotsGrow(w, now, q0, names, name, base, pass);
    SlotNext(w, now, q0, names, name, base, pass, want);
  }

  /** The images after one more pass: each added one was loaded or is the front. */
  lemma AddedAfterPass(start: seq<QuoteImage>, before: seq<QuoteImage>, after: seq<QuoteImage>,
                       added: set<QuoteImage>, added': set<QuoteImage>)
    requires |start| <= |before| && before[..|start|] == start
    requires |after| == |before| + 1 && after[..|before|] == before
    requires forall j :: |start| <= j < |before| ==> before[j] in added || before[j] == before[0]
    requires added <= added'
    requires after[|before|] in added' || (before != [] && after[|before|] == before[0])
    ensures after[..|start|] == start
    ensures forall j :: |start| <= j < |after| ==> after[j] in added' || after[j] == after[0]
  {
    assert after[..|start|] == after[..|before|][..|start|];
    assert forall j :: 0 <= j < |before| ==> after[j] == after[..|before|][j];
  }

  /** One more pass of `init_buffer`, appending the drawn file or the front, keeps `Partial`. */
  lemma Appended(w: World, now: Time, q0: seq<string>, start: seq<QuoteImage>, before: seq<QuoteImage>,
                 after: seq<QuoteImage>, time: Time, quotes: seq<string>, added: set<QuoteImage>, want: string)
    requires Partial(w, now, q0, start, before, time, quotes, added) && |before| < BUFFER_SIZE
    requires Wanted(w, time, Candidates(w, Stamp(time), quotes)) == Ok(want)
    requires |after| == |before| + 1 && after[..|before|] == before
    requires w.found(want) ==> after[|before|].path == want
    requires !w.found(want) ==> before != [] && after[|before|] == before[0]
    ensures Partial(w, now, q0, start, after, NextMinute(time), Candidates(w, Stamp(time), quotes),
                    if w.found(want) then added + {after[|before|]} else added)
  {
    var pass := |before| - |start|;
    var names := Names(before);
    var added' := if w.found(want) then added + {after[|before|]} else added;
    ProgressNext(w, now, q0, pass, time, quotes);
    NamesGrow(before, after);
    if !w.found(want) {
      assert names[0] == before[0].path;
    }
    SlotsAfterPass(w, now, q0, names, after[|before|].path, |start|, pass, want);
    AddedAfterPass(start, before, after, added, added');
    assert |after| - |start| == pass + 1;
  }

  /** What one call of `main` did: a full or a fast refresh, and the image shown. */
  datatype Frame = Frame(full: bool, shown: QuoteImage)

  /** The `Clock` object: its time, the last quotes found, and the images due next. */
  class Clock {
    var time: Time
    var quotes: seq<string>
    var quoteBuffer: seq<QuoteImage>

    constructor (now: Time)
      ensures time == now && quotes == [] && quoteBuffer == []
    {
      time := now;
      quotes := [];
      quoteBuffer := [];
    }

    /** `get_quotes`: remember the matches for the stamp unless there are none. */
    method GetQuotes(w: World, stamp: string) returns (r: seq<string>)
      modifies this
      ensures quotes == Candidates(w, stamp, old(quotes)) && r == quotes
      ensures time == old(time) && quoteBuffer == old(quoteBuffer)
    {
      var matches := w.glob(Pattern(stamp));
      if matches != [] {
        quotes := matches;
      }
      r := quotes;
    }

    /**
     * One pass of `init_buffer`'s loop: look up the quotes for the clock's
     * time, draw one, append its image or, when its file is missing, the
     * front again; then move on a minute. No candidate at all is the
     * `ValueError` of `randrange`, a missing file with an empty buffer the
     * `IndexError` of `quote_buffer[0]`; neither moves the time or the buffer.
     */
    method Fill(w: World) returns (raised: Option<Error>)
      modifies this
      ensures quotes == Candidates(w, Stamp(old(time)), old(quotes))
      ensures var want := Wanted(w, old(time), quotes);
        && (raised == Some(ValueError) <==> want.Err?)
        && (raised == Some(IndexError) <==> want.Ok? && !w.found(want.value) && old(quoteBuffer) == [])
        && (raised.None? <==> want.Ok? && (w.found(want.value) || old(quoteBuffer) != []))
        && (raised.Some? ==> time == old(time) && quoteBuffer == old(quoteBuffer))
        && (raised.None? ==>
              && want.Ok?
              && time == NextMinute(old(time))
              && |quoteBuffer| == |old(quoteBuffer)| + 1
              && quoteBuffer[..|old(quoteBuffer)|] == old(quoteBuffer)
              && var last := quoteBuffer[|old(quoteBuffer)|];
                 && (w.found(want.value) ==> last.path == want.value && fresh(last) && !last.closed)
                 && (!w.found(want.value) ==> old(quoteBuffer) != [] && last == old(quoteBuffer)[0]))
    {
      var stamp := GetTime(time.hour, time.minute);
      var found := GetQuotes(w, stamp);
      var drawn := Draw(w, stamp, |found|);
      if drawn.Err? {
        return Some(drawn.error);
      }
      var filename := FileName(stamp, drawn.value);
      if w.found(filename) {
        var image := new QuoteImage(filename);
        quoteBuffer := quoteBuffer + [image];
      } else {
        if quoteBuffer == [] {
          return Some(IndexError);
        }
        quoteBuffer := quoteBuffer + [quoteBuffer[0]];
      }
      time := NextMinute(time);
      raised := None;
    }

    /**
     * `init_buffer`: from `now`, load the quote of each minute until the
     * buffer holds three images, the front standing in for a missing file.
     * Pass `j` asks for the file `WantedAt(w, now, old(quotes), j)`.
     */
    method InitBuffer(w: World, now: Time) returns (r: Result<seq<QuoteImage>>)
      modifies this
      ensures r.Err? && r.error == ValueError ==>
        exists j :: 0 <= j < Missing(|old(quoteBuffer)|) && WantedAt(w, now, old(quotes), j).Err?
      ensures r.Err? && r.error == IndexError ==>
        && old(quoteBuffer) == []
        && WantedAt(w, now, old(quotes), 0).Ok? && !w.found(WantedAt(w, now, old(quotes), 0).value)
      ensures r.Err? ==> r.error == ValueError || r.error == IndexError
      ensures r.Ok? ==>
        && r.value == quoteBuffer
        && |quoteBuffer| == |old(quoteBuffer)| + Missing(|old(quoteBuffer)|)
        && quoteBuffer[..|old(quoteBuffer)|] == old(quoteBuffer)
        && time == Later(now, Missing(|old(quoteBuffer)|))
        && quotes == QuotesAfter(w, now, old(quotes), Missing(|old(quoteBuffer)|))
        && (forall j :: 0 <= j < Missing(|old(quoteBuffer)|) ==>
              SlotFilled(w, now, old(quotes), Names(quoteBuffer), |old(quoteBuffer)|, j))
        && (forall j :: |old(quoteBuffer)| <= j < |quoteBuffer| ==>
              (fresh(quoteBuffer[j]) && !quoteBuffer[j].closed) || quoteBuffer[j] == quoteBuffer[0])
    {
      ghost var start, q0, added := quoteBuffer, quotes, {};
      time := now;
      while |quoteBuffer| < BUFFER_SIZE
        invariant Partial(w, now, q0, start, quoteBuffer, time, quotes, added)
        invariant forall image :: image in added ==> fresh(image) && !image.closed
        decreases BUFFER_SIZE - |quoteBuffer|
      {
        ghost var before, at, seen, pass := quoteBuffer, time, quotes, |quoteBuffer| - |start|;
        ProgressNext(w, now, q0, pass, at, seen);
        var raised := Fill(w);
        if raised.Some? {
          return Err(raised.value);
        }
        ghost var want := Wanted(w, at, quotes).value;
        Appended(w, now, q0, start, before, quoteBuffer, at, seen, added, want);
        if w.found(want) {
          added := added + {quoteBuffer[|before|]};
        }
      }
      r := Ok(quoteBuffer);
    }

    /**
     * `update_buffer`: ask for the quote three minutes after `now`; on
     * success append it, close the front and drop it; when its file is
     * missing append the front again. The exceptions `update_buffer`
     * does not catch propagate. Only the front is closed, together with
     * every slot that holds the same image.
     */
    method UpdateBuffer(w: World, now: Time) returns (raised: Option<Error>)
      modifies this, quoteBuffer
      ensures time == PlusThree(now)
      ensures quotes == Candidates(w, Stamp(PlusThree(now)), old(quotes))
      ensures var want := Wanted(w, PlusThree(now), quotes);
        && (want.Err? ==> raised == Some(ValueError) && quoteBuffer == old(quoteBuffer))
        && (want.Ok? && w.found(want.value) ==>
              && raised.None?
              && Names(quoteBuffer) == (Names(old(quoteBuffer)) + [want.value])[1..]
              && (old(quoteBuffer) != [] ==>
                    && old(quoteBuffer)[0].closed
                    && quoteBuffer[..|quoteBuffer| - 1] == old(quoteBuffer)[1..]
                    && fresh(quoteBuffer[|quoteBuffer| - 1]) && !quoteBuffer[|quoteBuffer| - 1].closed))
        && (want.Ok? && !w.found(want.value) ==>
              && (old(quoteBuffer) == [] ==> raised == Some(IndexError))
              && (old(quoteBuffer) != [] ==> raised.None? && quoteBuffer == old(quoteBuffer) + [old(quoteBuffer)[0]]))
        && (forall i :: 0 <= i < |old(quoteBuffer)| ==>
              old(quoteBuffer)[i].closed
                == (old(quoteBuffer[i].closed) || (want.Ok? && w.found(want.value) && old(quoteBuffer)[i] == old(quoteBuffer)[0])))
    {
      time := PlusThree(now);
      var stamp := GetTime(time.hour, time.minute);
      var found := GetQuotes(w, stamp);
      var k := Draw(w, stamp, |found|);
      if k.Err? {
        return Some(k.error);
      }
      var filename := FileName(stamp, k.value);
      if w.found(filename) {
        var image := new QuoteImage(filename);
        quoteBuffer := quoteBuffer + [image];
        quoteBuffer[0].Close();
        quoteBuffer := quoteBuffer[1..];
        return None;
      }
      if quoteBuffer == [] {
        return Some(IndexError);
      }
      quoteBuffer := quoteBuffer + [quoteBuffer[0]];
      return None;
    }

    /**
     * `main`: a full refresh when the clock's minute is a multiple of ten,
     * a fast one otherwise; show the front of the buffer, then update it
     * as UpdateBuffer does. An empty buffer fails before anything changes.
     */
    method Refresh(w: World, now: Time) returns (r: Result<Frame>)
      modifies this, quoteBuffer
      ensures old(quoteBuffer) == [] ==>
        r == Err(IndexError) && time == old(time) && quotes == old(quotes) && quoteBuffer == old(quoteBuffer)
      ensures r.Ok? ==> r.value.full == (old(time).minute % 10 == 0) && r.value.shown == old(quoteBuffer)[0]
      ensures old(quoteBuffer) != [] ==>
        && time == PlusThree(now)
        && quotes == Candidates(w, Stamp(PlusThree(now)), old(quotes))
        && var want := Wanted(w, PlusThree(now), quotes);
           && (want.Err? ==> r == Err(ValueError) && quoteBuffer == old(quoteBuffer))
           && (want.Ok? && w.found(want.value) ==>
                 && r.Ok?
                 && |quoteBuffer| == |old(quoteBuffer)|
                 && old(quoteBuffer)[0].closed
                 && quoteBuffer[..|quoteBuffer| - 1] == old(quoteBuffer)[1..]
                 && quoteBuffer[|quoteBuffer| - 1].path == want.value
                 && fresh(quoteBuffer[|quoteBuffer| - 1]) && !quoteBuffer[|quoteBuffer| - 1].closed)
           && (want.Ok? && !w.found(want.value) ==> r.Ok? && quoteBuffer == old(quoteBuffer) + [old(quoteBuffer)[0]])
           && (forall i :: 0 <= i < |old(quoteBuffer)| ==>
                 old(quoteBuffer)[i].closed
                   == (old(quoteBuffer[i].closed) || (want.Ok? && w.found(want.value) && old(quoteBuffer)[i] == old(quoteBuffer)[0])))
    {
      var full := time.minute % 10 == 0;
      if quoteBuffer == [] {
        return Err(IndexError);
      }
      var shown := quoteBuffer[0];
      var raised := UpdateBuffer(w, now);
      if raised.Some? {
        return Err(raised.value);
      }
      r := Ok(Frame(full, shown));
    }
  }
}
