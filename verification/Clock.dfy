/** The arithmetic of clock.ml on 31-bit integers, the two atomics that its two domains share, and the digits it
    draws. */
module Clock {
  import opened Arithmetic
  import opened OCamlInt

  const DAY: int := 86400
  const UTC_OFFSET_HOURS: Int31 := 1

  type Byte = b: int | 0 <= b < 256
  /** The four bytes of the NTP transmit timestamp's seconds. */
  datatype Stamp = Stamp(b0: Byte, b1: Byte, b2: Byte, b3: Byte)
  datatype TimeOfDay = TimeOfDay(h: Int31, m: Int31, s: Int31)

  /** Microseconds since power-on, a 64-bit counter. */
  type Micros = t: nat | t < 0x1_0000_0000_0000_0000

  // The NTP answer

  /** The seconds field as the protocol means it, big endian. */
  function Seconds(t: Stamp): nat
  {
    t.b0 * 0x100_0000 + t.b1 * 0x1_0000 + t.b2 * 0x100 + t.b3
  }

  function Raw(t: Stamp): Int31
  {
    Add(Add(Add(Mul(t.b0, 15616), Mul(t.b1, 65536)), Mul(t.b2, 256)), t.b3)
  }

  function Split(secs: Int31): TimeOfDay
  {
    TimeOfDay(Quot(secs, 3600), Quot(Rem(secs, 3600), 60), Rem(secs, 60))
  }

  function Recombine(t: TimeOfDay): Int31
  {
    Add(Add(Mul(t.h, 3600), Mul(t.m, 60)), t.s)
  }

  function Decode(t: Stamp): TimeOfDay
  {
    Split(Rem(Add(Rem(Raw(t), DAY), Mul(UTC_OFFSET_HOURS, 3600)), DAY))
  }

  /** Replacing 2^24 by its remainder keeps every intermediate value in 31 bits and the time of day intact. */
  lemma RawIsTimeOfDay(t: Stamp)
    ensures Raw(t) == t.b0 * 15616 + t.b1 * 65536 + t.b2 * 256 + t.b3
    ensures 0 <= Raw(t) <= MAX_INT && Rem(Raw(t), DAY) == Seconds(t) % DAY
  {
    var raw := t.b0 * 15616 + t.b1 * 65536 + t.b2 * 256 + t.b3;
    assert Raw(t) == raw by {
      MulExact(t.b0, 15616, 255);
      MulExact(t.b1, 65536, 255);
      MulExact(t.b2, 256, 255);
      AddExact(t.b0 * 15616, t.b1 * 65536);
      AddExact(t.b0 * 15616 + t.b1 * 65536, t.b2 * 256);
      AddExact(t.b0 * 15616 + t.b1 * 65536 + t.b2 * 256, t.b3);
    }
    assert Seconds(t) == raw + t.b0 * 194 * DAY;
    DivMod(raw, DAY);
    DivModUnique(Seconds(t), DAY, raw / DAY + t.b0 * 194, raw % DAY);
  }

  predicate IsTimeOfDay(t: TimeOfDay)
  {
    0 <= t.h < 24 && 0 <= t.m < 60 && 0 <= t.s < 60
  }

  lemma RecombineExact(t: TimeOfDay)
    requires IsTimeOfDay(t)
    ensures Recombine(t) == t.h * 3600 + t.m * 60 + t.s && 0 <= Recombine(t) < DAY
  {
    MulExact(t.h, 3600, 23);
    MulExact(t.m, 60, 59);
    AddExact(t.h * 3600, t.m * 60);
    AddExact(t.h * 3600 + t.m * 60, t.s);
  }

  lemma SplitParts(n: int, h: int, m: int, s: int)
    requires n == h * 3600 + m * 60 + s && 0 <= m < 60 && 0 <= s < 60
    ensures n / 3600 == h && n % 3600 / 60 == m && n % 60 == s
  {
    DivModUnique(n, 3600, h, m * 60 + s);
    DivModUnique(m * 60 + s, 60, m, s);
    DivModUnique(n, 60, h * 60 + m, s);
  }

  lemma RecombineSplit(t: TimeOfDay)
    requires IsTimeOfDay(t)
    ensures 0 <= Recombine(t) < DAY && Split(Recombine(t)) == t
  {
    RecombineExact(t);
    SplitParts(Recombine(t), t.h, t.m, t.s);
  }

  /** Splitting a second of the day and recombining it are inverse, both ways round. */
  lemma SplitRecombine(secs: Int31)
    requires 0 <= secs < DAY
    ensures IsTimeOfDay(Split(secs)) && Recombine(Split(secs)) == secs
  {
    var h, r := secs / 3600, secs % 3600;
    DivMod(secs, 3600);
    DivMod(r, 60);
    SplitParts(secs, h, r / 60, r % 60);
    RecombineExact(Split(secs));
  }

  /** Over all 2^32 second values: the decoded time of day, recombined as the sync loop does, is the timestamp plus
      the offset, modulo a day. */
  lemma DecodeIsCorrect(t: Stamp)
    ensures IsTimeOfDay(Decode(t)) && Recombine(Decode(t)) == (Seconds(t) + UTC_OFFSET_HOURS * 3600) % DAY
  {
    RawIsTimeOfDay(t);
    var secs := Seconds(t) % DAY;
    AddExact(secs, 3600);
    SplitRecombine((secs + 3600) % DAY);
    OffsetWithinDay(Seconds(t), 3600);
  }

  lemma OffsetWithinDay(n: int, offset: int)
    ensures (n % DAY + offset) % DAY == (n + offset) % DAY
  {
    DivMod(n, DAY);
    DivMod(n % DAY + offset, DAY);
    DivModUnique(n + offset, DAY, n / DAY + (n % DAY + offset) / DAY, (n % DAY + offset) % DAY);
  }

  // The millisecond counter

  /** The conversion to long of a 64-bit value, on a 32-bit machine. */
  function ToLong(x: nat): int
  {
    (x + 0x8000_0000) % 0x1_0000_0000 - 0x8000_0000
  }

  /** time_ms: Val_long drops one more bit. */
  function TimeMs(now: Micros): Int31
  {
    Wrap(ToLong(now / 1000))
  }

  lemma TimeMsWraps(now: Micros)
    ensures TimeMs(now) == Wrap(now / 1000)
  {
    var x := now / 1000;
    var k := (x + 0x8000_0000) / 0x1_0000_0000;
    DivMod(x + 0x8000_0000, 0x1_0000_0000);
    assert ToLong(x) == x + (-2 * k) * RANGE;
    WrapIgnoresRange(x, -2 * k);
  }

  function Elapsed(now: Micros, syncMs: Int31): Int31
  {
    Quot(Sub(TimeMs(now), syncMs), 1000)
  }

  function DaySecs(baseSecs: Int31, syncMs: Int31, now: Micros): Int31
  {
    Rem(Add(baseSecs, Elapsed(now, syncMs)), DAY)
  }

  /** The wrapping counter gives the true elapsed time if and only if that is below 2^30 ms. */
  lemma ElapsedExactIff(now: Micros, since: Micros)
    requires since <= now
    ensures Sub(TimeMs(now), TimeMs(since)) == now / 1000 - since / 1000 <==> now / 1000 - since / 1000 < 0x4000_0000
  {
    TimeMsWraps(now);
    TimeMsWraps(since);
    WrapOfDifference(now / 1000, since / 1000);
    WrapIdentityIff(now / 1000 - since / 1000);
  }

  /** A base within the day and a synchronisation less than 2^30 ms ago give a second of the day. */
  lemma DaySecsExact(baseSecs: Int31, now: Micros, since: Micros)
    requires 0 <= baseSecs < DAY && since <= now && now / 1000 - since / 1000 < 0x4000_0000
    ensures DaySecs(baseSecs, TimeMs(since), now) == (baseSecs + (now / 1000 - since / 1000) / 1000) % DAY
    ensures 0 <= DaySecs(baseSecs, TimeMs(since), now) < DAY
  {
    ShortTurn(now / 1000 - since / 1000);
    DaySecsShown(baseSecs, now, since);
  }

  lemma ShortTurn(e: nat)
    requires e < 0x4000_0000
    ensures e % RANGE == e
  {
  }

  // Drawing

  const BLANK: int := 8
  const TABLE_SIZE: int := 120

  /** The twelve entries of a digit, four rows of three. */
  function Pattern(digit: int): (entries: seq<int>)
    ensures |entries| == 12
  {
    match digit
    case 0 => [1, 0, 7,  2, 8, 6,  2, 8, 6,  3, 4, 5]
    case 1 => [8, 8, 7,  8, 8, 6,  8, 8, 6,  8, 8, 6]
    case 2 => [1, 0, 7,  8, 8, 6,  1, 0, 0,  3, 4, 4]
    case 3 => [1, 0, 7,  8, 8, 6,  8, 0, 7,  3, 4, 5]
    case 4 => [2, 8, 6,  3, 4, 5,  8, 8, 6,  8, 8, 6]
    case 5 => [1, 0, 0,  3, 4, 4,  8, 8, 6,  3, 4, 5]
    case 6 => [1, 0, 7,  2, 8, 8,  1, 0, 7,  3, 4, 5]
    case 7 => [1, 0, 7,  8, 8, 6,  8, 8, 6,  8, 8, 6]
    case 8 => [1, 0, 7,  3, 4, 5,  2, 8, 6,  3, 4, 5]
    case _ => [1, 0, 7,  3, 4, 5,  8, 8, 6,  3, 4, 5]
  }

  type Table = digits: seq<int> | |digits| == TABLE_SIZE witness seq(TABLE_SIZE, _ => BLANK)

  /** The flat table: the patterns of the ten digits one after the other. */
  const DIGITS: Table := seq(TABLE_SIZE, i requires 0 <= i < TABLE_SIZE => Pattern(i / 12)[i % 12])

  predicate InTable(digit: int)
  {
    forall row, c :: 0 <= row < 4 && 0 <= c < 3 ==> 0 <= TableIndex(digit, row, c) < TABLE_SIZE
  }

  function TableIndex(digit: int, row: int, c: int): int
  {
    digit * 12 + row * 3 + c
  }

  lemma InTableIff(digit: int)
    ensures InTable(digit) <==> 0 <= digit <= 9
  {
    if InTable(digit) {
      assert 0 <= TableIndex(digit, 0, 0) < 120 && 0 <= TableIndex(digit, 3, 2) < 120;
    }
  }

  /** A custom character, or a space for a blank segment. */
  function Shown(segment: int): int
  {
    if segment == BLANK then ' ' as int else segment
  }

  /** The cell of a digit. */
  function Glyph(digits: Table, digit: int, r: int, c: int): int
    requires 0 <= digit <= 9 && 0 <= r < 4 && 0 <= c < 3
  {
    Shown(digits[TableIndex(digit, r, c)])
  }

  /** The four digits display_loop draws. */
  function ShownDigits(daySecs: Int31): seq<Int31>
  {
    var t := Split(daySecs);
    [Quot(t.h, 10), Rem(t.h, 10), Quot(t.m, 10), Rem(t.m, 10)]
  }

  /** Every table access of a frame is in range if and only if the time shown is not a minute or more before
      midnight: a negative elapsed time of that size raises Invalid_argument. */
  lemma IndicesInTableIff(daySecs: Int31)
    requires -DAY < daySecs < DAY
    ensures (forall d :: d in ShownDigits(daySecs) ==> InTable(d)) <==> daySecs > -60
  {
    var t := Split(daySecs);
    var shown := ShownDigits(daySecs);
    QuotRem(daySecs, 3600);
    QuotRem(Rem(daySecs, 3600), 60);
    QuotRem(t.h, 10);
    QuotRem(t.m, 10);
    forall d ensures InTable(d) <==> 0 <= d <= 9 {
      InTableIff(d);
    }
    if daySecs > -60 {
      assert 0 <= t.h < 24 && 0 <= t.m < 60;
    } else {
      assert t.h < 0 || t.m < 0;
      assert shown[0] in shown && shown[1] in shown && shown[2] in shown && shown[3] in shown;
    }
  }

  /** The four digits and the two seconds characters spell the second of the day. */
  lemma DigitsSpellTime(daySecs: Int31)
    requires 0 <= daySecs < DAY
    ensures var d := ShownDigits(daySecs);
            && |d| == 4 && 0 <= d[0] <= 2 && 0 <= d[1] <= 9 && 0 <= d[2] <= 5 && 0 <= d[3] <= 9
            && (10 * d[0] + d[1]) * 3600 + (10 * d[2] + d[3]) * 60 + daySecs % 60 == daySecs
    ensures 10 * Quot(daySecs % 60, 10) + Rem(daySecs % 60, 10) == Rem(daySecs, 60) == daySecs % 60
  {
    SplitRecombine(daySecs);
    var t := Split(daySecs);
    RecombineExact(t);
    QuotRem(t.h, 10);
    QuotRem(t.m, 10);
    QuotRem(daySecs % 60, 10);
  }

  /** A digit is drawn row by row from its own pattern, the blank entry as a space. */
  lemma GlyphShowsPattern(digit: int, r: int, c: int)
    requires 0 <= digit <= 9 && 0 <= r < 4 && 0 <= c < 3
    ensures Glyph(DIGITS, digit, r, c) == Shown(Pattern(digit)[3 * r + c])
  {
    DivModUnique(TableIndex(digit, r, c), 12, digit, 3 * r + c);
  }

  predicate SameEntry(d: int, e: int, i: int)
    requires 0 <= i < 12
  {
    Shown(Pattern(d)[i]) == Shown(Pattern(e)[i])
  }

  /** Four of the twelve entries are enough to tell the digits apart. */
  lemma PatternsDiffer(d: int, e: int)
    requires 0 <= d <= 9 && 0 <= e <= 9
    requires SameEntry(d, e, 0) && SameEntry(d, e, 5) && SameEntry(d, e, 6) && SameEntry(d, e, 7)
    ensures d == e
  {
  }

  lemma DigitsLookDifferent(d: int, e: int)
    requires 0 <= d <= 9 && 0 <= e <= 9
    requires forall r, c :: 0 <= r < 4 && 0 <= c < 3 ==> Glyph(DIGITS, d, r, c) == Glyph(DIGITS, e, r, c)
    ensures d == e
  {
    forall i | 0 <= i < 12 ensures SameEntry(d, e, i) {
      DivMod(i, 3);
      GlyphShowsPattern(d, i / 3, i % 3);
      GlyphShowsPattern(e, i / 3, i % 3);
    }
    PatternsDiffer(d, e);
  }

  lemma ShownDigitsInRange(daySecs: Int31)
    requires -60 < daySecs < DAY
    ensures forall k :: 0 <= k < 4 ==> 0 <= ShownDigits(daySecs)[k] <= 9
  {
    QuotRem(daySecs, 3600);
    QuotRem(Rem(daySecs, 3600), 60);
    QuotRem(Split(daySecs).h, 10);
    QuotRem(Split(daySecs).m, 10);
  }

  /** What a frame leaves in a cell that held was: four digits, the colon and the two seconds characters. */
  function ShownCell(digits: Table, daySecs: Int31, colon: bool, r: int, c: int, was: int): int
    requires -60 < daySecs < DAY && 0 <= r < 4
  {
    ShownDigitsInRange(daySecs);
    var d := ShownDigits(daySecs);
    if 2 <= c < 5 then Glyph(digits, d[0], r, c - 2)
    else if 6 <= c < 9 then Glyph(digits, d[1], r, c - 6)
    else if c == 9 then (if colon && (r == 1 || r == 2) then 0xA5 else ' ' as int)
    else if 10 <= c < 13 then Glyph(digits, d[2], r, c - 10)
    else if 14 <= c < 17 then Glyph(digits, d[3], r, c - 14)
    else if r == 3 && c == 18 then '0' as int + Quot(Rem(daySecs, 60), 10)
    else if r == 3 && c == 19 then '0' as int + Rem(Rem(daySecs, 60), 10)
    else was
  }

  ghost predicate SameCells(
      a: Int31, b: Int31, colonA: bool, colonB: bool, wasA: (int, int) -> int, wasB: (int, int) -> int)
    requires -60 < a < DAY && -60 < b < DAY
  {
    forall r, c :: 0 <= r < 4 && 0 <= c < 20 ==>
      ShownCell(DIGITS, a, colonA, r, c, wasA(r, c)) == ShownCell(DIGITS, b, colonB, r, c, wasB(r, c))
  }

  lemma ShownDigitCell(digits: Table, daySecs: Int31, colon: bool, k: int, r: int, c: int, was: int)
    requires -60 < daySecs < DAY && 0 <= k < 4 && 0 <= r < 4 && 0 <= c < 3
    ensures 0 <= ShownDigits(daySecs)[k] <= 9
    ensures ShownCell(digits, daySecs, colon, r, 4 * k + 2 + c, was) == Glyph(digits, ShownDigits(daySecs)[k], r, c)
  {
    ShownDigitsInRange(daySecs);
  }

  lemma SameDigit(a: Int31, b: Int31, colonA: bool, colonB: bool, wasA: (int, int) -> int, wasB: (int, int) -> int,
                  k: int)
    requires -60 < a < DAY && -60 < b < DAY && 0 <= k < 4 && SameCells(a, b, colonA, colonB, wasA, wasB)
    ensures ShownDigits(a)[k] == ShownDigits(b)[k]
  {
    ShownDigitsInRange(a);
    ShownDigitsInRange(b);
    var d, e := ShownDigits(a)[k], ShownDigits(b)[k];
    forall r, c | 0 <= r < 4 && 0 <= c < 3 ensures Glyph(DIGITS, d, r, c) == Glyph(DIGITS, e, r, c) {
      var col := 4 * k + 2 + c;
      ShownDigitCell(DIGITS, a, colonA, k, r, c, wasA(r, col));
      ShownDigitCell(DIGITS, b, colonB, k, r, c, wasB(r, col));
    }
    DigitsLookDifferent(d, e);
  }

  /** Two frames with the same cells, whatever they were drawn over, show the same second of the day. */
  lemma FramesTellTheTime(
      a: Int31, b: Int31, colonA: bool, colonB: bool, wasA: (int, int) -> int, wasB: (int, int) -> int)
    requires 0 <= a < DAY && 0 <= b < DAY && SameCells(a, b, colonA, colonB, wasA, wasB)
    ensures a == b
  {
    forall k | 0 <= k < 4 ensures ShownDigits(a)[k] == ShownDigits(b)[k] {
      SameDigit(a, b, colonA, colonB, wasA, wasB, k);
    }
    assert ShownCell(DIGITS, a, colonA, 3, 18, wasA(3, 18)) == ShownCell(DIGITS, b, colonB, 3, 18, wasB(3, 18));
    assert ShownCell(DIGITS, a, colonA, 3, 19, wasA(3, 19)) == ShownCell(DIGITS, b, colonB, 3, 19, wasB(3, 19));
    DigitsSpellTime(a);
    DigitsSpellTime(b);
  }

  lemma WrapOfNatural(x: nat)
    ensures Wrap(x) == if x % RANGE < 0x4000_0000 then x % RANGE else x % RANGE - RANGE
  {
    DivMod(x, RANGE);
    WrapIgnoresRange(x % RANGE, x / RANGE);
    WrapOfResidue(x % RANGE);
  }

  lemma WrapOfResidue(r: nat)
    requires r < RANGE
    ensures Wrap(r) == if r < 0x4000_0000 then r else r - RANGE
  {
    if r < 0x4000_0000 {
      WrapIdentityIff(r);
    } else {
      WrapIgnoresRange(r - RANGE, 1);
      WrapIdentityIff(r - RANGE);
    }
  }

  /** How far the counter has gone in its current turn, and by how many seconds it then reads behind zero. */
  function TurnMs(now: Micros, since: Micros): nat
    requires since <= now
  {
    (now / 1000 - since / 1000) % RANGE
  }

  function Behind(now: Micros, since: Micros): nat
    requires since <= now
  {
    (RANGE - TurnMs(now, since)) / 1000
  }

  /** The second shown, for every elapsed time. */
  lemma DaySecsShown(baseSecs: Int31, now: Micros, since: Micros)
    requires 0 <= baseSecs < DAY && since <= now
    ensures var e := TurnMs(now, since); var behind := Behind(now, since);
            DaySecs(baseSecs, TimeMs(since), now) ==
              if e < 0x4000_0000 then (baseSecs + e / 1000) % DAY
              else if behind <= baseSecs then baseSecs - behind
              else -((behind - baseSecs) % DAY)
  {
    ElapsedShown(now, since);
    var e := TurnMs(now, since);
    if e < 0x4000_0000 {
      ShownAhead(baseSecs, e);
    } else {
      ShownBehind(baseSecs, RANGE - e);
    }
  }

  lemma ElapsedShown(now: Micros, since: Micros)
    requires since <= now
    ensures var e := TurnMs(now, since);
            Sub(TimeMs(now), TimeMs(since)) == if e < 0x4000_0000 then e else e - RANGE
  {
    TimeMsWraps(now);
    TimeMsWraps(since);
    WrapOfDifference(now / 1000, since / 1000);
    WrapOfNatural(now / 1000 - since / 1000);
  }

  lemma ShownAhead(baseSecs: Int31, e: Int31)
    requires 0 <= baseSecs < DAY && e >= 0
    ensures Rem(Add(baseSecs, Quot(e, 1000)), DAY) == (baseSecs + e / 1000) % DAY
  {
    AddExact(baseSecs, e / 1000);
  }

  lemma ShownBehind(baseSecs: Int31, e: int)
    requires 0 <= baseSecs < DAY && 0 < e <= 0x4000_0000
    ensures Rem(Add(baseSecs, Quot(-e, 1000)), DAY) ==
            if e / 1000 <= baseSecs then baseSecs - e / 1000 else -((e / 1000 - baseSecs) % DAY)
  {
    AddExact(baseSecs, -(e / 1000));
  }

  /** Exactly when a frame stays in the digit table, from its base, its synchronisation and the time: in the first half
      of each turn of the counter, or while the counter reads behind by no more than the base, or by no more than that
      and a minute modulo a day. */
  lemma FrameInTableIff(baseSecs: Int31, now: Micros, since: Micros)
    requires 0 <= baseSecs < DAY && since <= now
    ensures (forall d :: d in ShownDigits(DaySecs(baseSecs, TimeMs(since), now)) ==> InTable(d))
            <==> TurnMs(now, since) < 0x4000_0000 || Behind(now, since) <= baseSecs
                 || (Behind(now, since) - baseSecs) % DAY < 60
  {
    DaySecsShown(baseSecs, now, since);
    IndicesInTableIff(DaySecs(baseSecs, TimeMs(since), now));
  }

  /** Twelve and a half days without a synchronisation can be enough to leave it. */
  lemma CounterWrapLeavesTable()
    ensures exists d :: d in ShownDigits(DaySecs(0, TimeMs(0), 0x4000_0000 * 1000)) && !InTable(d)
  {
    var now: Micros := 0x4000_0000 * 1000;
    assert TurnMs(now, 0) == 0x4000_0000 && Behind(now, 0) == 1073741;
    assert 1073741 % DAY == 36941;
    FrameInTableIff(0, now, 0);
  }

  // The two atomics between the domains

  /** Domain 0: query; then set base_secs, read the clock, set sync_ms. */
  datatype Writer = Querying | Answered(time: TimeOfDay) | BaseIsSet | HasClock(ms: Int31)

  /** Domain 1: read base_secs, read sync_ms, read the clock and draw. i and j number the synchronisations the two
      values come from. */
  datatype Reader = AtBase | AtSync(bs: Int31, i: nat) | AtClock(bs: Int31, sm: Int31, i: nat, j: nat)

  /** bases and times are history: the second of the day and the instant of every synchronisation, the power-on
      values 0 being number 0. */
  datatype State = State(
    now: Micros, baseSecs: Int31, syncMs: Int31, writer: Writer, reader: Reader, bases: seq<int>, times: seq<Micros>)

  datatype Action = Tick(us: nat) | Answer(stamp: Stamp) | Write | Read

  predicate Enabled(s: State, a: Action)
  {
    match a
    case Tick(us) => s.now + us < 0x1_0000_0000_0000_0000
    case Answer(_) => s.writer.Querying?
    case Write => !s.writer.Querying?
    case Read => true
  }

  /** The number of the value in an atomic, given how many there were and whether the newest is not stored yet. */
  function Latest(count: nat, pending: bool): nat
  {
    if pending then (if count >= 2 then count - 2 else 0) else (if count >= 1 then count - 1 else 0)
  }

  /** time_ms is evaluated before Atomic.set stores its value. */
  function Step(s: State, a: Action): State
    requires Enabled(s, a)
  {
    match a
    case Tick(us) => s.(now := s.now + us)
    case Answer(stamp) => s.(writer := Answered(Decode(stamp)), bases := s.bases + [(Seconds(stamp) + 3600) % DAY])
    case Write =>
      (match s.writer
       case Querying => s
       case Answered(time) => s.(baseSecs := Recombine(time), writer := BaseIsSet)
       case BaseIsSet => s.(writer := HasClock(TimeMs(s.now)), times := s.times + [s.now])
       case HasClock(ms) => s.(syncMs := ms, writer := Querying))
    case Read =>
      match s.reader
      case AtBase => s.(reader := AtSync(s.baseSecs, Latest(|s.bases|, s.writer.Answered?)))
      case AtSync(bs, i) =>
        s.(reader := AtClock(bs, s.syncMs, i, Latest(|s.times|, s.writer.HasClock?)))
      case AtClock(_, _, _, _) => s.(reader := AtBase)
  }

  predicate Initial(s: State)
  {
    s.baseSecs == 0 && s.syncMs == 0 && s.writer.Querying? && s.reader.AtBase? && s.bases == [0] && s.times == [0]
  }

  predicate WriterOk(s: State)
  {
    match s.writer
    case Querying =>
      && |s.bases| == |s.times| >= 1 && s.baseSecs == s.bases[|s.bases| - 1]
      && s.syncMs == TimeMs(s.times[|s.times| - 1])
    case Answered(time) =>
      && |s.bases| == |s.times| + 1 >= 2 && IsTimeOfDay(time) && Recombine(time) == s.bases[|s.bases| - 1]
      && s.baseSecs == s.bases[|s.bases| - 2] && s.syncMs == TimeMs(s.times[|s.times| - 1])
    case BaseIsSet =>
      && |s.bases| == |s.times| + 1 >= 2 && s.baseSecs == s.bases[|s.bases| - 1]
      && s.syncMs == TimeMs(s.times[|s.times| - 1])
    case HasClock(ms) =>
      && |s.bases| == |s.times| >= 2 && s.baseSecs == s.bases[|s.bases| - 1]
      && ms == TimeMs(s.times[|s.times| - 1]) && s.syncMs == TimeMs(s.times[|s.times| - 2])
  }

  predicate ReaderOk(s: State)
  {
    match s.reader
    case AtBase => true
    case AtSync(bs, i) => i < |s.bases| && bs == s.bases[i] && i <= |s.times| - (if s.writer.HasClock? then 1 else 0)
    case AtClock(bs, sm, i, j) =>
      i < |s.bases| && bs == s.bases[i] && j < |s.times| && sm == TimeMs(s.times[j]) && i <= j + 1
  }

  predicate Inv(s: State)
  {
    && WriterOk(s) && ReaderOk(s)
    && (forall k :: 0 <= k < |s.bases| ==> 0 <= s.bases[k] < DAY)
    && (forall k :: 0 <= k < |s.times| ==> s.times[k] <= s.now)
  }

  lemma StepKeepsInv(s: State, a: Action)
    requires Inv(s) && Enabled(s, a)
    ensures Inv(Step(s, a))
  {
    match a
    case Answer(stamp) => AnswerKeepsInv(s, stamp);
    case Write => WriteKeepsInv(s);
    case Read => ReadKeepsInv(s);
    case Tick(_) =>
  }

  lemma AnswerKeepsInv(s: State, stamp: Stamp)
    requires Inv(s) && Enabled(s, Answer(stamp))
    ensures Inv(Step(s, Answer(stamp)))
  {
    DecodeIsCorrect(stamp);
  }

  lemma WriteKeepsInv(s: State)
    requires Inv(s) && Enabled(s, Write)
    ensures Inv(Step(s, Write))
  {
  }

  lemma ReadKeepsInv(s: State)
    requires Inv(s) && Enabled(s, Read)
    ensures Inv(Step(s, Read))
  {
  }

  ghost predicate IsRun(s: State, run: seq<Action>)
    decreases |run|
  {
    run == [] || (Enabled(s, run[0]) && IsRun(Step(s, run[0]), run[1..]))
  }

  ghost function After(s: State, run: seq<Action>): State
    requires IsRun(s, run)
    decreases |run|
  {
    if run == [] then s else After(Step(s, run[0]), run[1..])
  }

  lemma {:induction false} RunKeepsInv(s: State, run: seq<Action>)
    requires Inv(s) && IsRun(s, run)
    ensures Inv(After(s, run))
    decreases |run|
  {
    if run != [] {
      StepKeepsInv(s, run[0]);
      RunKeepsInv(Step(s, run[0]), run[1..]);
    }
  }

  /** The synchronisation whose sync_ms the reader holds is less than 2^30 ms ago. */
  predicate SyncIsRecent(s: State)
    requires s.reader.AtClock?
  {
    s.reader.j < |s.times| ==> s.now / 1000 - s.times[s.reader.j] / 1000 < 0x4000_0000
  }

  /** Over every interleaving of the two domains, what a frame shows is the base of some synchronisation i plus the
      time since some synchronisation j that is not more than one older, for any torn pair; so the second is one of
      the day, and with i == j it is the correct one. */
  lemma FrameIsExact(s0: State, run: seq<Action>)
    requires Initial(s0) && IsRun(s0, run) && After(s0, run).reader.AtClock? && SyncIsRecent(After(s0, run))
    ensures var s := After(s0, run); var r := s.reader;
            && r.i < |s.bases| && r.j < |s.times| && r.i <= r.j + 1 && s.times[r.j] <= s.now
            && DaySecs(r.bs, r.sm, s.now) == (s.bases[r.i] + (s.now / 1000 - s.times[r.j] / 1000) / 1000) % DAY
  {
    assert TimeMs(0) == 0;
    RunKeepsInv(s0, run);
    var s := After(s0, run);
    DaySecsExact(s.reader.bs, s.now, s.times[s.reader.j]);
  }

  /** Hence even a torn pair keeps every digit in the table and both seconds characters digits. */
  lemma TornFrameStaysInTable(s0: State, run: seq<Action>)
    requires Initial(s0) && IsRun(s0, run) && After(s0, run).reader.AtClock? && SyncIsRecent(After(s0, run))
    ensures var r := After(s0, run).reader; var daySecs := DaySecs(r.bs, r.sm, After(s0, run).now);
            && (forall d :: d in ShownDigits(daySecs) ==> InTable(d))
            && 0 <= Quot(Rem(daySecs, 60), 10) <= 5 && 0 <= Rem(Rem(daySecs, 60), 10) <= 9
  {
    FrameIsExact(s0, run);
    var s := After(s0, run);
    IndicesInTableIff(DaySecs(s.reader.bs, s.reader.sm, s.now));
  }

  lemma {:induction false} Extend(s: State, run: seq<Action>, a: Action) returns (run': seq<Action>)
    requires IsRun(s, run) && Enabled(After(s, run), a)
    ensures run' == run + [a] && IsRun(s, run') && After(s, run') == Step(After(s, run), a)
    decreases |run|
  {
    run' := run + [a];
    if run == [] {
      assert run'[1..] == [];
    } else {
      var rest := Extend(Step(s, run[0]), run[1..], a);
      assert run'[1..] == rest;
    }
  }

  /** Torn pairs are reached, of both kinds: a base with the moment before its own, and a base with a later moment. */
  lemma TornPairsReached(s0: State, stamp: Stamp) returns (early: seq<Action>, late: seq<Action>)
    requires Initial(s0)
    ensures IsRun(s0, early) && After(s0, early).reader.AtClock?
    ensures After(s0, early).reader.i == 1 && After(s0, early).reader.j == 0
    ensures IsRun(s0, late) && After(s0, late).reader.AtClock?
    ensures After(s0, late).reader.i == 0 && After(s0, late).reader.j == 1
  {
    early := Extend(s0, [], Answer(stamp));
    early := Extend(s0, early, Write);
    early := Extend(s0, early, Read);
    early := Extend(s0, early, Read);
    late := Extend(s0, [], Read);
    late := Extend(s0, late, Answer(stamp));
    late := Extend(s0, late, Write);
    late := Extend(s0, late, Write);
    late := Extend(s0, late, Write);
    late := Extend(s0, late, Read);
  }

  // The sync loop and the display as the source has them

  class SharedTime {
    var baseSecs: Int31
    var syncMs: Int31

    constructor ()
      ensures baseSecs == 0 && syncMs == 0
    {
      baseSecs, syncMs := 0, 0;
    }

    /** One answered query: from now on the base is the timestamp's second of the day. */
    method Publish(stamp: Stamp, now: Micros)
      modifies this
      ensures baseSecs == (Seconds(stamp) + UTC_OFFSET_HOURS * 3600) % DAY && syncMs == TimeMs(now)
    {
      DecodeIsCorrect(stamp);
      var time := Decode(stamp);
      baseSecs := Recombine(time);
      syncMs := TimeMs(now);
    }
  }

  /** The 20 x 4 character display and its cursor. */
  class Display {
    const cells: array2<int>
    var col: nat
    var row: nat

    ghost predicate Valid()
      reads this
    {
      cells.Length0 == 4 && cells.Length1 == 20
    }

    constructor ()
      ensures Valid() && fresh(cells)
    {
      cells := new int[4, 20];
      col, row := 0, 0;
    }

    method MoveTo(c: nat, r: nat)
      modifies this`col, this`row
      ensures col == c && row == r
    {
      col, row := c, r;
    }

    method WriteData(x: int)
      requires Valid() && row < 4 && col < 20
      modifies this`col, cells
      ensures col == old(col) + 1 && cells[row, old(col)] == x
      ensures forall r, c :: 0 <= r < 4 && 0 <= c < 20 && (r, c) != (row, old(col)) ==> cells[r, c] == old(cells[r, c])
    {
      cells[row, col] := x;
      col := col + 1;
    }

    /** One row of a digit: three cells. */
    method DrawRow(digits: Table, column: nat, digit: int, y: nat)
      requires Valid() && column + 3 <= 20 && 0 <= digit <= 9 && y < 4
      modifies this`col, this`row, cells
      ensures forall r, c :: 0 <= r < 4 && 0 <= c < 20 ==>
                cells[r, c] ==
                if r == y && column <= c < column + 3 then Glyph(digits, digit, y, c - column) else old(cells[r, c])
    {
      MoveTo(column, y);
      for x := 0 to 3
        invariant row == y && col == column + x
        invariant forall r, c :: 0 <= r < 4 && 0 <= c < 20 ==>
                    cells[r, c] ==
                    if r == y && column <= c < column + x then Glyph(digits, digit, y, c - column) else old(cells[r, c])
      {
        WriteData(Glyph(digits, digit, y, x));
      }
    }

    /** Draws the digit's twelve cells and no other. */
    method DrawDigit(digits: Table, column: nat, digit: int)
      requires Valid() && column + 3 <= 20 && 0 <= digit <= 9
      modifies this`col, this`row, cells
      ensures forall r, c :: 0 <= r < 4 && 0 <= c < 20 ==>
                cells[r, c] ==
                if column <= c < column + 3 then Glyph(digits, digit, r, c - column) else old(cells[r, c])
    {
      for y := 0 to 4
        invariant forall r, c :: 0 <= r < 4 && 0 <= c < 20 ==>
                    cells[r, c] ==
                    if r < y && column <= c < column + 3 then Glyph(digits, digit, r, c - column) else old(cells[r, c])
      {
        DrawRow(digits, column, digit, y);
      }
    }

    /** One column: two dots in the middle rows, or nothing. */
    method DrawColon(column: nat, visible: bool)
      requires Valid() && column < 20
      modifies this`col, this`row, cells
      ensures forall r, c :: 0 <= r < 4 && 0 <= c < 20 ==>
                cells[r, c] ==
                if c != column then old(cells[r, c]) else if visible && (r == 1 || r == 2) then 0xA5 else ' ' as int
    {
      for y := 0 to 4
        invariant forall r, c :: 0 <= r < 4 && 0 <= c < 20 ==>
                    cells[r, c] ==
                    if c != column || r >= y then old(cells[r, c])
                    else if visible && (r == 1 || r == 2) then 0xA5 else ' ' as int
      {
        MoveTo(column, y);
        WriteData(if visible && (y == 1 || y == 2) then 0xA5 else ' ' as int);
      }
    }

    /** The hour and the minute around the colon. */
    method DrawHoursAndMinutes(digits: Table, daySecs: Int31, colon: bool)
      requires Valid() && -60 < daySecs < DAY
      modifies this`col, this`row, cells
      ensures forall r, c :: 0 <= r < 4 && 0 <= c < 20 ==>
                cells[r, c] ==
                if c < 18 then ShownCell(digits, daySecs, colon, r, c, old(cells[r, c])) else old(cells[r, c])
    {
      ShownDigitsInRange(daySecs);
      var d := ShownDigits(daySecs);
      DrawDigit(digits, 2, d[0]);
      DrawDigit(digits, 6, d[1]);
      DrawColon(9, colon);
      DrawDigit(digits, 10, d[2]);
      DrawDigit(digits, 14, d[3]);
    }

    /** One frame of display_loop. */
    method ShowTime(digits: Table, daySecs: Int31, colon: bool)
      requires Valid() && -60 < daySecs < DAY
      modifies this`col, this`row, cells
      ensures forall r, c :: 0 <= r < 4 && 0 <= c < 20 ==>
                cells[r, c] == ShownCell(digits, daySecs, colon, r, c, old(cells[r, c]))
    {
      var seconds := Rem(daySecs, 60);
      DrawHoursAndMinutes(digits, daySecs, colon);
      MoveTo(18, 3);
      WriteData('0' as int + Quot(seconds, 10));
      WriteData('0' as int + Rem(seconds, 10));
    }
  }
}
