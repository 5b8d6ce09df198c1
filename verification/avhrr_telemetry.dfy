/**
 * Per-line telemetry fields of the NOAA AVHRR stream: the day of year, the
 * millisecond of day and the spacecraft id, each read from fixed words of a
 * line's 16-bit word buffer, and the line timestamp built from them.
 * Timestamps are integer milliseconds since the epoch.
 */
module AvhrrTelemetry {

  /** One buffer element (`uint16_t`); instrument words occupy its low 10 bits. */
  type Word = bv16

  /** Words in one line buffer. */
  const FRAME_WORDS := 11090
  const ID_WORD := 6
  const DAY_WORD := 8
  const MS_HIGH_WORD := 9
  const MS_MID_WORD := 10
  const MS_LOW_WORD := 11

  const SECONDS_PER_DAY := 86400
  const MS_PER_DAY := 86400000

  ///////////////////////// Bit fields

  /** The day of year: word 8 without its lowest bit. */
  function DayOfYear(w8: Word): (day: Word)
    ensures day < 0x8000
    ensures (day << 1) | (w8 & 1) == w8
    ensures w8 < 0x400 ==> day < 0x200
  {
    w8 >> 1
  }

  /** Puts a day into the upper bits of word 8 above the given lowest bit. */
  function DayWord(day: Word, lowBit: Word): (w8: Word)
    requires day < 0x8000 && lowBit < 2
    ensures w8 & 1 == lowBit
  {
    (day << 1) | lowBit
  }

  lemma DayRoundTrip(day: Word, lowBit: Word)
    requires day < 0x8000 && lowBit < 2
    ensures DayOfYear(DayWord(day, lowBit)) == day
  {
  }

  /**
   * The 27-bit millisecond of day: 7 bits from word 9, then all of words 10
   * and 11 shifted into place and or-ed together. For 10-bit words the three
   * parts occupy disjoint bit ranges, so the or is a sum.
   */
  function MillisecondsOfDay(w9: Word, w10: Word, w11: Word): (ms: bv32)
    ensures ms < 0x800_0000
    ensures w10 < 0x400 && w11 < 0x400 ==>
      ms == (((w9 & 0x7F) as bv32) << 20) + ((w10 as bv32) << 10) + (w11 as bv32)
  {
    (((w9 & 0x7F) as bv32) << 20) | ((w10 as bv32) << 10) | (w11 as bv32)
  }

  /** Splits a 27-bit millisecond count into the three 10-bit words that carry it. */
  function TimeWords(ms: bv32): (words: (Word, Word, Word))
    requires ms < 0x800_0000
    ensures words.0 < 0x80 && words.1 < 0x400 && words.2 < 0x400
  {
    ((ms >> 20) as Word, ((ms >> 10) & 0x3FF) as Word, (ms & 0x3FF) as Word)
  }

  /** Every 27-bit count survives being written into words 9-11 and decoded. */
  lemma MillisecondsRoundTrip(ms: bv32)
    requires ms < 0x800_0000
    ensures MillisecondsOfDay(TimeWords(ms).0, TimeWords(ms).1, TimeWords(ms).2) == ms
  {
  }

  /** Every triple of field values (7, 10 and 10 bits) survives decoding and splitting. */
  lemma TimeWordsRoundTrip(a: Word, b: Word, c: Word)
    requires a < 0x80 && b < 0x400 && c < 0x400
    ensures TimeWords(MillisecondsOfDay(a, b, c)) == (a, b, c)
  {
  }

  /** The spacecraft id: bits 3 to 6 of word 6. */
  function SpacecraftId(w6: Word): (id: Word)
    ensures id < 16
    ensures w6 & 0x78 == id << 3
  {
    ((w6 & 0x078) >> 3) & 0x000F
  }

  /** Writes an id into bits 3 to 6 of a word, keeping its other bits. */
  function WithSpacecraftId(w: Word, id: Word): (w6: Word)
    requires id < 16
    ensures w6 & 0xFF87 == w & 0xFF87
  {
    (w & 0xFF87) | (id << 3)
  }

  /** Reading the id back gives what was written, and writing back what was read changes nothing. */
  lemma SpacecraftIdRoundTrip(w: Word, id: Word)
    requires id < 16
    ensures SpacecraftId(WithSpacecraftId(w, id)) == id
    ensures WithSpacecraftId(w, SpacecraftId(w)) == w
  {
  }

  ///////////////////////// Year base and timestamps

  /** C++ `t % 86400` on a signed time: the remainder takes the sign of the dividend. */
  function TruncatedDayRemainder(t: int): (r: int)
    ensures t >= 0 ==> 0 <= r < SECONDS_PER_DAY
    ensures t < 0 ==> -SECONDS_PER_DAY < r <= 0
    ensures (t - r) % SECONDS_PER_DAY == 0
  {
    if t >= 0 then t % SECONDS_PER_DAY else -((-t) % SECONDS_PER_DAY)
  }

  /**
   * `t - t % 86400`: the start of the day holding `t` for times at or after
   * the epoch; for earlier times C++'s remainder rounds toward zero instead,
   * to the end of the day.
   */
  function DayAligned(t: int): (base: int)
    ensures base % SECONDS_PER_DAY == 0
    ensures t >= 0 ==> 0 <= base <= t < base + SECONDS_PER_DAY
    ensures t < 0 ==> base - SECONDS_PER_DAY < t <= base <= 0
  {
    t - TruncatedDayRemainder(t)
  }

  /** Aligning twice is aligning once, and aligned times are left alone. */
  lemma DayAlignedIdempotent(t: int)
    ensures DayAligned(DayAligned(t)) == DayAligned(t)
    ensures t % SECONDS_PER_DAY == 0 ==> DayAligned(t) == t
  {
  }

  /**
   * A line's time: the year base, whole days, then the millisecond of day.
   * It never precedes the year base plus the millisecond count, and while
   * that count stays within one day, division by a day recovers both parts.
   */
  function TimestampMs(yearBase: int, day: nat, ms: nat): (t: int)
    ensures t >= yearBase * 1000 + ms
    ensures (t - yearBase * 1000 - ms) % MS_PER_DAY == 0 && (t - yearBase * 1000 - ms) / MS_PER_DAY == day
    ensures ms < MS_PER_DAY ==> (t - yearBase * 1000) / MS_PER_DAY == day && (t - yearBase * 1000) % MS_PER_DAY == ms
  {
    var offset := day * MS_PER_DAY + ms;
    assert ms < MS_PER_DAY ==> offset / MS_PER_DAY == day && offset % MS_PER_DAY == ms;
    yearBase * 1000 + offset
  }

  /** For a fixed millisecond of day, a later day gives a strictly later time. */
  lemma TimestampIncreasingInDay(yearBase: int, day1: nat, day2: nat, ms: nat)
    requires day1 < day2
    ensures TimestampMs(yearBase, day1, ms) < TimestampMs(yearBase, day2, ms)
    ensures TimestampMs(yearBase, day2, ms) - TimestampMs(yearBase, day1, ms) == (day2 - day1) * MS_PER_DAY
  {
  }

  /**
   * While the millisecond field stays within one day, timestamps compare
   * exactly as (day, millisecond) pairs do lexicographically.
   */
  lemma TimestampOrderIsLexicographic(yearBase: int, day1: nat, ms1: nat, day2: nat, ms2: nat)
    requires ms1 < MS_PER_DAY && ms2 < MS_PER_DAY
    ensures TimestampMs(yearBase, day1, ms1) < TimestampMs(yearBase, day2, ms2)
        <==> day1 < day2 || (day1 == day2 && ms1 < ms2)
  {
    if day1 < day2 {
      assert day1 * MS_PER_DAY + MS_PER_DAY <= day2 * MS_PER_DAY;
    } else if day2 < day1 {
      assert day2 * MS_PER_DAY + MS_PER_DAY <= day1 * MS_PER_DAY;
    }
  }

  /**
   * The unsigned value of a 32-bit word, assembled from its two 16-bit halves
   * (which keeps every bit-vector-to-integer step at 16 bits).
   */
  function Bv32Value(x: bv32): (n: nat)
    ensures x < 0x800_0000 ==> n < 0x800_0000
  {
    var hi := (x >> 16) as bv16;
    var lo := (x & 0xFFFF) as bv16;
    HighHalfBound(x, hi);
    hi as nat * 0x1_0000 + lo as nat
  }

  lemma HighHalfBound(x: bv32, hi: bv16)
    requires hi == (x >> 16) as bv16
    ensures x < 0x800_0000 ==> hi as nat < 0x800
  {
    if x < 0x800_0000 {
      assert hi < 0x800;
    }
  }

  /**
   * The high half of a 27-bit millisecond count built from words 9-11:
   * word 9's seven bits, then the top four bits of word 10.
   */
  lemma HighHalfOfMilliseconds(w9: Word, w10: Word, w11: Word)
    requires w10 < 0x400 && w11 < 0x400
    ensures (MillisecondsOfDay(w9, w10, w11) >> 16) as bv16 == ((w9 & 0x7F) << 4) | (w10 >> 6)
    ensures (MillisecondsOfDay(w9, w10, w11) & 0xFFFF) as bv16 == ((w10 & 0x3F) << 10) | w11
  {
  }

  /** A 7-bit field above a 4-bit field, as an integer. */
  lemma HighHalfValue(a: bv16, d: bv16)
    requires a < 0x80 && d < 0x10
    ensures ((a << 4) | d) as int == a as int * 0x10 + d as int
  {
  }

  /** A 6-bit field above a 10-bit field, as an integer. */
  lemma LowHalfValue(e: bv16, c: bv16)
    requires e < 0x40 && c < 0x400
    ensures ((e << 10) | c) as int == e as int * 0x400 + c as int
  {
  }

  /** A 10-bit word split into its top four and bottom six bits. */
  lemma SplitTenBits(b: bv16)
    requires b < 0x400
    ensures b >> 6 < 0x10 && b & 0x3F < 0x40
    ensures b as int == (b >> 6) as int * 0x40 + (b & 0x3F) as int
  {
  }

  /**
   * For 10-bit words 10 and 11, the integer millisecond count is the
   * positional sum of the three fields.
   */
  lemma MillisecondsValue(w9: Word, w10: Word, w11: Word)
    requires w10 < 0x400 && w11 < 0x400
    ensures Bv32Value(MillisecondsOfDay(w9, w10, w11)) == (w9 & 0x7F) as int * 0x10_0000 + w10 as int * 0x400 + w11 as int
  {
    MillisecondsAsHalves(w9, w10, w11);
    var hi := (((w9 & 0x7F) << 4) | (w10 >> 6)) as int;
    var lo := (((w10 & 0x3F) << 10) | w11) as int;
    HalvesValue(w9 & 0x7F, w10, w11, hi, lo);
  }

  /** The integer millisecond count, in terms of the two 16-bit halves' fields. */
  lemma MillisecondsAsHalves(w9: Word, w10: Word, w11: Word)
    requires w10 < 0x400 && w11 < 0x400
    ensures Bv32Value(MillisecondsOfDay(w9, w10, w11))
      == (((w9 & 0x7F) << 4) | (w10 >> 6)) as int * 0x1_0000 + (((w10 & 0x3F) << 10) | w11) as int
  {
    var ms := MillisecondsOfDay(w9, w10, w11);
    HighHalfOfMilliseconds(w9, w10, w11);
    Bv32ValueOfHalves(ms, (ms >> 16) as bv16, (ms & 0xFFFF) as bv16);
  }

  /** The two halves' fields (7+4 and 6+10 bits) taken as integers. */
  lemma HalvesValue(a: bv16, b: bv16, c: bv16, hi: int, lo: int)
    requires a < 0x80 && b < 0x400 && c < 0x400
    requires hi == ((a << 4) | (b >> 6)) as int && lo == (((b & 0x3F) << 10) | c) as int
    ensures hi * 0x1_0000 + lo == a as int * 0x10_0000 + b as int * 0x400 + c as int
  {
    var d, e := b >> 6, b & 0x3F;
    SplitTenBits(b);
    HighHalfValue(a, d);
    LowHalfValue(e, c);
    LinearCombination(hi, lo, a as int, b as int, c as int, d as int, e as int);
  }

  /** Substituting the field sums into the halves' positional sum. */
  lemma LinearCombination(hi: int, lo: int, a: int, b: int, c: int, d: int, e: int)
    requires hi == a * 0x10 + d && lo == e * 0x400 + c && b == d * 0x40 + e
    ensures hi * 0x1_0000 + lo == a * 0x10_0000 + b * 0x400 + c
  {
  }

  /** The value of a 32-bit word is that of its high half times 2^16 plus its low half. */
  lemma Bv32ValueOfHalves(x: bv32, hi: bv16, lo: bv16)
    requires hi == (x >> 16) as bv16 && lo == (x & 0xFFFF) as bv16
    ensures Bv32Value(x) == hi as int * 0x1_0000 + lo as int
  {
  }

  /**
   * The millisecond of day a line buffer carries, as an integer: below 2^27,
   * and for 10-bit words 10 and 11 the positional sum of the three fields.
   */
  function LineMilliseconds(frame: seq<Word>): (n: nat)
    requires |frame| == FRAME_WORDS
    ensures n < 0x800_0000
    ensures frame[MS_MID_WORD] < 0x400 && frame[MS_LOW_WORD] < 0x400 ==>
      n == (frame[MS_HIGH_WORD] & 0x7F) as int * 0x10_0000 + frame[MS_MID_WORD] as int * 0x400 + frame[MS_LOW_WORD] as int
  {
    var w9, w10, w11 := frame[MS_HIGH_WORD], frame[MS_MID_WORD], frame[MS_LOW_WORD];
    if w10 < 0x400 && w11 < 0x400 then
      MillisecondsValue(w9, w10, w11);
      Bv32Value(MillisecondsOfDay(w9, w10, w11))
    else
      Bv32Value(MillisecondsOfDay(w9, w10, w11))
  }

  /** The timestamp of one line buffer, from its day and millisecond words. */
  function LineTimestampMs(frame: seq<Word>, yearBase: int): (t: int)
    requires |frame| == FRAME_WORDS
    ensures var day := DayOfYear(frame[DAY_WORD]) as nat;
      yearBase * 1000 + day * MS_PER_DAY <= t < yearBase * 1000 + day * MS_PER_DAY + 0x800_0000
    ensures frame[MS_MID_WORD] < 0x400 && frame[MS_LOW_WORD] < 0x400 ==>
      t == yearBase * 1000 + DayOfYear(frame[DAY_WORD]) as int * MS_PER_DAY
        + (frame[MS_HIGH_WORD] & 0x7F) as int * 0x10_0000 + frame[MS_MID_WORD] as int * 0x400 + frame[MS_LOW_WORD] as int
  {
    TimestampMs(yearBase, DayOfYear(frame[DAY_WORD]) as nat, LineMilliseconds(frame))
  }

  /**
   * The timestamp of one line buffer as the source computes it, with the
   * 32-bit day product. It equals the exact timestamp whenever the day word
   * has the instrument's 10 bits, and is otherwise off by whole wrap-arounds;
   * its day part always stays within the 32-bit range of seconds.
   */
  function LineTimestampMsAsWritten(frame: seq<Word>, yearBase: int): (t: int)
    requires |frame| == FRAME_WORDS
    ensures frame[DAY_WORD] < 0x400 ==> t == LineTimestampMs(frame, yearBase)
    ensures (t - LineTimestampMs(frame, yearBase)) % 4294967296000 == 0
    ensures -0x8000_0000 * 1000 <= t - yearBase * 1000 - LineMilliseconds(frame) < 0x8000_0000 * 1000
  {
    var day := DayOfYear(frame[DAY_WORD]) as nat;
    if frame[DAY_WORD] < 0x400 then
      AsWrittenAgreesOnTenBitWords(yearBase, frame[DAY_WORD], LineMilliseconds(frame));
      TimestampMsAsWritten(yearBase, day, LineMilliseconds(frame))
    else
      TimestampMsAsWritten(yearBase, day, LineMilliseconds(frame))
  }

  /**
   * A line whose day word is 0xFFFF gets a different timestamp from the
   * source than the exact one: its day product no longer fits in 32 bits.
   */
  lemma LineWrapsOnFullDayWord(frame: seq<Word>, yearBase: int)
    requires |frame| == FRAME_WORDS && frame[DAY_WORD] == 0xFFFF
    ensures LineTimestampMsAsWritten(frame, yearBase) != LineTimestampMs(frame, yearBase)
  {
    assert DayOfYear(frame[DAY_WORD]) == 0x7FFF;
    assert LineTimestampMs(frame, yearBase) - yearBase * 1000 - LineMilliseconds(frame) == 0x7FFF * MS_PER_DAY;
  }

  ///////////////////////// The line loop

  /**
   * The per-line part of the decoder's loop: every line buffer contributes
   * its timestamp (with the source's 32-bit day product) and its spacecraft
   * id, in order. The year base is `mktime` of the current UTC time with
   * month and day of month zeroed, which is the last day of the previous
   * year at the current time of day; it is aligned to a day boundary once
   * up front.
   */
  method DecodeLines(frames: seq<seq<Word>>, lastYearClock: int) returns (timestamps: seq<int>, ids: seq<int>)
    requires forall k :: 0 <= k < |frames| ==> |frames[k]| == FRAME_WORDS
    ensures |timestamps| == |frames| && |ids| == |frames|
    ensures forall k :: 0 <= k < |frames| ==> timestamps[k] == LineTimestampMsAsWritten(frames[k], DayAligned(lastYearClock))
    ensures forall k :: 0 <= k < |frames| && frames[k][DAY_WORD] < 0x400 ==> timestamps[k] == LineTimestampMs(frames[k], DayAligned(lastYearClock))
    ensures forall k :: 0 <= k < |frames| ==> ids[k] == SpacecraftId(frames[k][ID_WORD]) as int
    ensures forall k :: 0 <= k < |ids| ==> 0 <= ids[k] < 16
  {
    var yearBase := DayAligned(lastYearClock);
    timestamps, ids := [], [];
    var i := 0;
    while i < |frames|
      invariant 0 <= i <= |frames|
      invariant |timestamps| == i && |ids| == i
      invariant forall k :: 0 <= k < i ==> timestamps[k] == LineTimestampMsAsWritten(frames[k], yearBase)
      invariant forall k :: 0 <= k < i ==> ids[k] == SpacecraftId(frames[k][ID_WORD]) as int
      invariant forall k :: 0 <= k < i ==> 0 <= ids[k] < 16
    {
      var frame := frames[i];
      timestamps := timestamps + [LineTimestampMsAsWritten(frame, yearBase)];
      var id := SpacecraftId(frame[ID_WORD]);
      assert id as int < 16;
      ids := ids + [id as int];
      i := i + 1;
    }
  }

  ///////////////////////// The 32-bit day product

  /** A two's-complement 32-bit `int` holding `x` after wrap-around. */
  function WrapInt32(x: int): (r: int)
    ensures -0x8000_0000 <= r < 0x8000_0000
    ensures (r - x) % 0x1_0000_0000 == 0
    ensures -0x8000_0000 <= x < 0x8000_0000 ==> r == x
  {
    (x + 0x8000_0000) % 0x1_0000_0000 - 0x8000_0000
  }

  /**
   * The timestamp as the source computes it: `day_of_year * 86400` is
   * evaluated in 32-bit `int` before it is widened to `time_t`.
   */
  function TimestampMsAsWritten(yearBase: int, day: nat, ms: nat): (t: int)
    ensures (t - TimestampMs(yearBase, day, ms)) % 4294967296000 == 0
    ensures -0x8000_0000 * 1000 <= t - yearBase * 1000 - ms < 0x8000_0000 * 1000
  {
    yearBase * 1000 + WrapInt32(day * SECONDS_PER_DAY) * 1000 + ms
  }

  /** Below the overflow point the source's product equals the intended one. */
  lemma AsWrittenAgreesWithoutOverflow(yearBase: int, day: nat, ms: nat)
    requires day * SECONDS_PER_DAY < 0x8000_0000
    ensures TimestampMsAsWritten(yearBase, day, ms) == TimestampMs(yearBase, day, ms)
  {
  }

  /** 10-bit day words, as the instrument sends them, never reach the overflow. */
  lemma AsWrittenAgreesOnTenBitWords(yearBase: int, w8: Word, ms: nat)
    requires w8 < 0x400
    ensures TimestampMsAsWritten(yearBase, DayOfYear(w8) as nat, ms) == TimestampMs(yearBase, DayOfYear(w8) as nat, ms)
  {
    var day := DayOfYear(w8);
    assert day < 0x200;
    AsWrittenAgreesWithoutOverflow(yearBase, day as nat, ms);
  }

  /**
   * A day word of 0xFFFF gives day 32767, whose product in seconds exceeds
   * the 32-bit range: the source's timestamp then lies before the year base,
   * while the intended one lies 32767 days after it.
   */
  lemma DayOverflowCounterexample(yearBase: int, ms: nat)
    requires ms < 0x800_0000
    ensures DayOfYear(0xFFFF) == 0x7FFF
    ensures TimestampMsAsWritten(yearBase, 0x7FFF, ms) < yearBase * 1000
    ensures TimestampMs(yearBase, 0x7FFF, ms) >= yearBase * 1000 + 0x7FFF * MS_PER_DAY
  {
    assert 0x7FFF * SECONDS_PER_DAY == 2831068800;
    assert WrapInt32(2831068800) == -1463898496;
  }
}
