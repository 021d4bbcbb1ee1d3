/** The tone portamento of the music player: a slide set up by effect 2 arrives after an exact number of frames. */
module Portamento {
  /** Conversion to a signed 16-bit value. */
  function Short(x: int): int {
    (x + 0x8000) % 0x1_0000 - 0x8000
  }

  function SignedByte(x: int): int {
    (x + 0x80) % 0x100 - 0x80
  }

  function UnsignedByte(x: int): int {
    x % 0x100
  }

  datatype Slide = Slide(note: int, slideToNote: int, count: int, delay: int, sliding: int, step: int, delta: int,
                         gliss: bool)

  predicate Arrived(s: Slide, sliding: int) {
    !s.gliss && ((s.step < 0 && sliding <= s.delta) || (s.step >= 0 && sliding >= s.delta))
  }

  /** One frame of an enabled channel. */
  function Frame(s: Slide): Slide {
    if s.count <= 0 then s
    else if s.count > 1 then s.(count := s.count - 1)
    else
      var sliding := Short(s.sliding + s.step);
      if Arrived(s, sliding) then s.(note := UnsignedByte(s.slideToNote), count := 0, sliding := 0)
      else s.(sliding := sliding, count := s.delay)
  }

  function Frames(s: Slide, n: nat): Slide {
    if n == 0 then s else Frame(Frames(s, n - 1))
  }

  function Magnitude(step: int): int {
    if step < 0 then Short(-step) else step
  }

  /** What effect 2 sets up on a channel that has just been given a note; table is the table of periods. */
  function SetUp(note: int, prevNote: int, prevSliding: int, delay: int, lo: int, hi: int, sliding: int, version: int,
                 table: seq<int>): Slide
    requires 0 <= note < |table| && 0 <= prevNote < |table|
  {
    var step := Magnitude(Short(hi * 0x100 + lo));
    var delta := Short(table[note] - table[prevNote]);
    var sliding := if version >= 6 then prevSliding else sliding;
    Slide(prevNote, SignedByte(note), SignedByte(delay), SignedByte(delay), sliding,
          if delta - sliding < 0 then Short(-step) else step, delta, false)
  }

  class Channel {
    var note: int
    var slideToNote: int
    var toneSlideCount: int
    var toneSlideDelay: int
    var toneSliding: int
    var toneSlideStep: int
    var toneDelta: int
    var simplegliss: bool
    var enabled: bool

    ghost function State(): Slide
      reads this
    {
      Slide(note, slideToNote, toneSlideCount, toneSlideDelay, toneSliding, toneSlideStep, toneDelta, simplegliss)
    }

    /** The sliding part of a frame. */
    method CalculateNote()
      requires -128 <= toneSlideCount <= 127
      modifies this
      ensures enabled == old(enabled) && State() == if enabled then Frame(old(State())) else old(State())
    {
      if enabled {
        if toneSlideCount > 0 {
          toneSlideCount := toneSlideCount - 1;
          if toneSlideCount == 0 {
            toneSliding := Short(toneSliding + toneSlideStep);
            toneSlideCount := toneSlideDelay;
            if !simplegliss {
              if (toneSlideStep < 0 && toneSliding <= toneDelta) || (toneSlideStep >= 0 && toneSliding >= toneDelta) {
                note := UnsignedByte(slideToNote);
                toneSlideCount := 0;
                toneSliding := 0;
              }
            }
          }
        }
      }
    }

    /** Effect 2 of a decoded line. */
    method DecodePortamento(prevNote: int, prevSliding: int, delay: int, lo: int, hi: int, version: int,
                            table: seq<int>)
      requires 0 <= note < |table| && 0 <= prevNote < |table|
      modifies this
      ensures enabled == old(enabled)
      ensures State() == SetUp(old(note), prevNote, prevSliding, delay, lo, hi, old(toneSliding), version, table)
    {
      simplegliss := false;
      toneSlideDelay := SignedByte(delay);
      toneSlideCount := toneSlideDelay;
      toneSlideStep := Short(hi * 0x100 + lo);
      if toneSlideStep < 0 { toneSlideStep := Short(-toneSlideStep); }
      toneDelta := Short(table[note] - table[prevNote]);
      slideToNote := SignedByte(note);
      note := prevNote;
      if version >= 6 { toneSliding := prevSliding; }
      if toneDelta - toneSliding < 0 { toneSlideStep := Short(-toneSlideStep); }
    }
  }

  function Abs(x: int): nat {
    if x < 0 then -x else x
  }

  /** How many steps the slide takes: the distance over the step, rounded up, and at least one. */
  function Periods(s: Slide): (k: nat)
    requires s.step != 0
    ensures k >= 1
  {
    if s.delta == s.sliding then 1 else (Abs(s.delta - s.sliding) - 1) / Abs(s.step) + 1
  }

  /** A slide about to start, its step pointing at the goal, whose values all fit 16 bits. */
  predicate Ready(s: Slide) {
    && 1 <= s.delay <= 127 && s.count == s.delay && !s.gliss && s.step != 0
    && (s.delta < s.sliding <==> s.step < 0)
    && -0x8000 <= s.sliding < 0x8000
    && -0x8000 <= s.sliding + Periods(s) * s.step < 0x8000
  }

  lemma ShortFits(x: int)
    requires -0x8000 <= x < 0x8000
    ensures Short(x) == x
  {}

  /** Where the slide is after j steps and r more frames. */
  function Under(s: Slide, j: nat, r: nat): Slide {
    s.(sliding := s.sliding + j * s.step, count := s.delay - r)
  }

  lemma {:induction false} Waits(s: Slide, n: nat, j: nat, r: nat)
    requires Ready(s) && r < s.delay && Frames(s, n) == Under(s, j, 0)
    ensures Frames(s, n + r) == Under(s, j, r)
  {
    if r > 0 {
      Waits(s, n, j, r - 1);
    }
  }

  lemma StepsStayShort(s: Slide, j: nat)
    requires Ready(s) && j <= Periods(s)
    ensures -0x8000 <= s.sliding + j * s.step < 0x8000
  {
    if s.step > 0 {
      assert 0 <= j * s.step <= Periods(s) * s.step;
    } else {
      assert Periods(s) * s.step <= j * s.step <= 0;
    }
  }

  /** Whole steps against a distance: the first j with j * a >= d. */
  lemma Reaches(a: nat, d: nat, j: nat)
    requires a > 0 && d > 0
    ensures j * a >= d <==> j >= (d - 1) / a + 1
  {
    var q := (d - 1) / a;
    assert q * a <= d - 1 < (q + 1) * a;
    if j <= q {
      assert j * a <= q * a;
    } else {
      assert j * a >= (q + 1) * a;
    }
  }

  /** The goal is passed by the last step and by none before it. */
  lemma PassedAtLast(s: Slide, j: nat)
    requires Ready(s) && 1 <= j <= Periods(s)
    ensures Arrived(s, s.sliding + j * s.step) <==> j == Periods(s)
  {
    var a, d := Abs(s.step), Abs(s.delta - s.sliding);
    if s.step > 0 {
      assert j * s.step == j * a && j * a >= 0;
    } else {
      assert j * s.step == -(j * a);
    }
    if d > 0 {
      Reaches(a, d, j);
    }
  }

  lemma ReadyCount(s: Slide)
    requires Ready(s)
    ensures s == Under(s, 0, 0) && s.delay >= 1 && s.step != 0
  {
    assert 0 * s.step == 0;
  }

  function Over(s: Slide): Slide {
    s.(note := UnsignedByte(s.slideToNote), count := 0, sliding := 0)
  }

  /** What a completed period leaves. */
  function Stepped(s: Slide, j: nat): Slide {
    if Arrived(s, s.sliding + j * s.step) then Over(s) else Under(s, j, 0)
  }

  lemma LastFrame(s: Slide, j: nat)
    requires Ready(s) && j < Periods(s)
    ensures Frame(Under(s, j, s.delay - 1)) == Stepped(s, j + 1)
  {
    hide Short, Periods;
    StepsStayShort(s, j + 1);
    ShortFits(s.sliding + (j + 1) * s.step);
    assert s.sliding + j * s.step + s.step == s.sliding + (j + 1) * s.step;
  }

  lemma OneMore(j: nat, d: int)
    ensures (j + 1) * d == j * d + d
  {}

  /** The frame that completes a period. */
  lemma StepDone(s: Slide, j: nat)
    requires Ready(s) && j < Periods(s) && Frames(s, j * s.delay) == Under(s, j, 0)
    ensures s.delay >= 1 && Frames(s, (j + 1) * s.delay) == Stepped(s, j + 1)
  {
    hide Ready, Periods, Arrived, Under, Frame, Stepped;
    ReadyCount(s);
    Waits(s, j * s.delay, j, s.delay - 1);
    LastFrame(s, j);
    OneMore(j, s.delay);
  }

  lemma {:induction false} Underway(s: Slide, j: nat)
    requires Ready(s) && j < Periods(s)
    ensures Frames(s, j * s.delay) == Under(s, j, 0)
    decreases j
  {
    hide Ready, Periods, Arrived;
    if j > 0 {
      Underway(s, j - 1);
      StepDone(s, j - 1);
      PassedAtLast(s, j);
    } else {
      ReadyCount(s);
    }
  }

  lemma Quotient(n: nat, d: nat, k: nat)
    requires d > 0 && n < k * d
    ensures n / d < k
  {
    var q := n / d;
    assert n >= q * d;
    assert q >= k ==> q * d >= k * d;
  }

  lemma Before(s: Slide, n: nat)
    requires Ready(s) && n < Periods(s) * s.delay
    ensures Frames(s, n).note == s.note && Frames(s, n).count > 0
  {
    hide Periods;
    var j, r := n / s.delay, n % s.delay;
    assert n == j * s.delay + r;
    Quotient(n, s.delay, Periods(s));
    Underway(s, j);
    Waits(s, j * s.delay, j, r);
  }

  lemma OnTime(s: Slide)
    requires Ready(s)
    ensures s.delay >= 1 && s.step != 0 && Periods(s) * s.delay >= 0 && Frames(s, Periods(s) * s.delay) == Over(s)
  {
    hide Arrived, Frames, Over, Under;
    var k := Periods(s);
    Underway(s, k - 1);
    StepDone(s, k - 1);
    PassedAtLast(s, k);
    assert k * s.delay >= 0;
  }

  lemma {:induction false} Stays(s: Slide, n: nat, more: nat)
    requires Frames(s, n) == Over(s)
    ensures Frames(s, n + more) == Over(s)
  {
    if more > 0 {
      Stays(s, n, more - 1);
    }
  }

  /** The slide arrives after exactly Periods * delay frames, not before, and is then over for good. */
  lemma Converges(s: Slide, n: nat)
    requires Ready(s)
    ensures s.step != 0
    ensures n < Periods(s) * s.delay ==> Frames(s, n).note == s.note && Frames(s, n).count > 0
    ensures n >= Periods(s) * s.delay ==> Frames(s, n) == Over(s)
  {
    hide Periods, Frames, Over;
    if n < Periods(s) * s.delay {
      Before(s, n);
    } else {
      OnTime(s);
      Stays(s, Periods(s) * s.delay, n - Periods(s) * s.delay);
    }
  }

  lemma NoStepFrame(s: Slide, r: nat)
    requires s.step == 0 && r < s.delay && !s.gliss && -0x8000 <= s.sliding < 0x8000
    ensures Frame(s.(count := s.delay - r))
         == if r < s.delay - 1 then s.(count := s.delay - (r + 1)) else if s.delta <= s.sliding then Over(s)
           else s.(count := s.delay)
    ensures Frame(Over(s)) == Over(s)
  {
    ShortFits(s.sliding + s.step);
  }

  lemma Remainder(x: int, q: int, d: int, r: int)
    requires 0 <= r < d && x == q * d + r
    ensures x % d == r
  {
    var k := x / d - q;
    assert k * d == r - x % d;
    assert k >= 1 ==> k * d >= d;
    assert k <= -1 ==> k * d <= -d;
  }

  lemma Cycle(n: nat, d: int)
    requires n > 0 && d >= 1
    ensures n % d == if (n - 1) % d == d - 1 then 0 else (n - 1) % d + 1
  {
    var q, r := (n - 1) / d, (n - 1) % d;
    assert n == q * d + r + 1;
    if r == d - 1 {
      assert n == (q + 1) * d + 0;
      Remainder(n, q + 1, d, 0);
    } else {
      Remainder(n, q, d, r + 1);
    }
  }

  /** Without a step the slide arrives after one period when the goal is not above it, and otherwise never. */
  lemma {:induction false} NoStep(s: Slide, n: nat)
    requires s.step == 0 && 1 <= s.delay && s.count == s.delay && !s.gliss && -0x8000 <= s.sliding < 0x8000
    ensures s.delta <= s.sliding && n >= s.delay ==> Frames(s, n) == Over(s)
    ensures s.delta > s.sliding || n < s.delay ==> Frames(s, n) == s.(count := s.delay - n % s.delay)
  {
    hide Frame, Over;
    if n > 0 {
      NoStep(s, n - 1);
      NoStepFrame(s, (n - 1) % s.delay);
      Cycle(n, s.delay);
      if n < s.delay { Remainder(n, 0, s.delay, n); Remainder(n - 1, 0, s.delay, n - 1); }
      if n == s.delay { Remainder(n - 1, 0, s.delay, n - 1); }
    } else {
      Remainder(0, 0, s.delay, 0);
    }
  }

  /** A delay byte of 0 or above 127 never starts the slide. */
  lemma {:induction false} NeverStarts(s: Slide, n: nat)
    requires s.count <= 0
    ensures Frames(s, n) == s
  {
    if n > 0 {
      NeverStarts(s, n - 1);
    }
  }

  lemma SignedBack(x: int)
    requires 0 <= x < 256
    ensures UnsignedByte(SignedByte(x)) == x && (x <= 127 ==> SignedByte(x) == x)
  {}

  lemma StepSize(lo: int, hi: int)
    requires 0 <= lo < 256 && 0 <= hi < 256
    ensures var m := Magnitude(Short(hi * 0x100 + lo));
            && (m == 0 <==> lo == 0 && hi == 0)
            && (lo == 0 && hi == 0x80 ==> m == -0x8000 && Short(-m) == -0x8000)
            && (!(lo == 0 && hi == 0x80) ==> 0 <= m < 0x8000)
  {}

  /** The set-up of effect 2 is ready to slide to the new note, unless the parameters leave the sixteen or eight
      bits. */
  lemma SetUpIsReady(note: int, prevNote: int, prevSliding: int, delay: int, lo: int, hi: int, sliding: int,
                     version: int, table: seq<int>)
    requires 0 <= note < |table| && 0 <= prevNote < |table| && note < 256
    requires 1 <= delay <= 127 && 0 <= lo < 256 && 0 <= hi < 256
    requires -0x8000 <= sliding < 0x8000 && -0x8000 <= prevSliding < 0x8000
    ensures var s := SetUp(note, prevNote, prevSliding, delay, lo, hi, sliding, version, table);
            && UnsignedByte(s.slideToNote) == note && s.note == prevNote
            && (s.step == 0 <==> lo == 0 && hi == 0)
            && (s.step != 0 && !(lo == 0 && hi == 0x80) && -0x8000 <= s.sliding + Periods(s) * s.step < 0x8000 ==>
                Ready(s))
  {
    hide Periods;
    StepSize(lo, hi);
    SignedBack(note);
    SignedBack(delay);
    var m := Magnitude(Short(hi * 0x100 + lo));
    if 0 <= m < 0x8000 { ShortFits(-m); }
  }

  lemma WordShort(lo: int, hi: int)
    requires 0 <= lo < 256 && 0 <= hi < 256
    ensures Short(hi * 0x100 + lo) == 256 * hi + lo - if hi >= 128 then 0x1_0000 else 0
  {}

  /** Where effect 2 slides: from the note before to the new one, that is, through the difference of their periods.
      The step has the size that the two parameter bytes give as a signed word, and the direction of the goal as seen
      from where the slide starts, which from version 6 on is where the slide before it was. */
  lemma SetUpGoal(note: int, prevNote: int, prevSliding: int, delay: int, lo: int, hi: int, sliding: int, version: int,
                  table: seq<int>)
    requires 0 <= note < |table| && 0 <= prevNote < |table| && 0 <= lo < 256 && 0 <= hi < 256
    requires -0x8000 <= table[note] - table[prevNote] < 0x8000 && !(lo == 0 && hi == 0x80)
    ensures var s := SetUp(note, prevNote, prevSliding, delay, lo, hi, sliding, version, table);
            var word := 256 * hi + lo - if hi >= 128 then 0x1_0000 else 0;
            && table[prevNote] + s.delta == table[note] && s.note == prevNote && !s.gliss
            && s.sliding == (if version >= 6 then prevSliding else sliding)
            && Abs(s.step) == Abs(word)
            && (s.step > 0 ==> s.sliding <= s.delta) && (s.step < 0 ==> s.delta < s.sliding)
  {
    hide Short;
    var word := 256 * hi + lo - if hi >= 128 then 0x1_0000 else 0;
    WordShort(lo, hi);
    ShortFits(table[note] - table[prevNote]);
    ShortFits(-word);
    ShortFits(word);
  }
}
