/**
 * The session-booking widget (`AgendarSesion`): from a date it derives the
 * Monday-first weekday key, looks up that day in the therapist's weekly
 * template, removes the blocks already booked for the date, lets the patient
 * pick one free block and turns the choice into the booking request.
 */
module AgendarSesion {
  import opened Wrappers
  import opened Seqs
  import opened JsString
  import opened CivilDate

  /** `daysOfWeekLower`: the template's day keys, Monday first. */
  const DayKeys: seq<string> := ["lunes", "martes", "miercoles", "jueves", "viernes", "sabado", "domingo"]

  /** `hours`: block `idx + 1`'s payload starts at hour `Hours[idx]`; only its length sizes the block buttons. */
  const Hours: seq<int> := [8, 9, 10, 11, 12, 13, 14, 15, 16, 17, 18, 19]

  /** Block `b` (1..12) starts at `Hours[b - 1]`, which is hour `7 + b`. */
  lemma HoursOfBlocks()
    ensures |Hours| == 12
    ensures forall i :: 0 <= i < |Hours| ==> Hours[i] == i + 8
  {
  }

  // ---------------------------------------------------------------- dates

  /** `dt.getDay() === 0 ? 6 : dt.getDay() - 1`: 0 for Monday ... 6 for Sunday. */
  function WeekdayIndex(d: Date): (i: int)
    requires ValidDate(d)
    ensures 0 <= i < 7
    ensures i == DayNumber(d) % 7
  {
    WeekdayArith(DayNumber(d));
    if GetDay(d) == 0 then 6 else GetDay(d) - 1
  }

  lemma WeekdayArith(n: int)
    ensures (n + 1) % 7 == 0 ==> n % 7 == 6
    ensures (n + 1) % 7 != 0 ==> n % 7 == (n + 1) % 7 - 1
    ensures ((n + 1) % 7 + 6) % 7 == n % 7
  {
  }

  /** getMonday's offset `(getDay() + 6) % 7` is the same Monday-first index. */
  lemma MondayOffsetIsWeekdayIndex(d: Date)
    requires ValidDate(d)
    ensures (GetDay(d) + 6) % 7 == WeekdayIndex(d)
    ensures GetDay(d) == 0 ==> DayKeys[WeekdayIndex(d)] == "domingo"
    ensures GetDay(d) != 0 ==> WeekdayIndex(d) == GetDay(d) - 1
    ensures GetDay(d) == 1 ==> DayKeys[WeekdayIndex(d)] == "lunes"
  {
    WeekdayArith(DayNumber(d));
  }

  /**
   * `value.split('-').map(Number)` followed by `new Date(y, m - 1, d)`.
   * `None` stands for the invalid date JavaScript produces when a field is not a number.
   */
  function ParseLocalDate(s: string): (r: Option<Date>)
    ensures r.Some? ==> ValidDate(r.value)
  {
    match DateFields(s)
    case Some((y, m, d)) => Some(NewDate(y, m - 1, d))
    case None => None
  }

  /** `value.split('-').map(Number)`: the first three fields, when each is a number. */
  function DateFields(s: string): Option<(nat, nat, nat)> {
    var parts := Split(s, '-');
    if |parts| >= 3 && AllDigits(parts[0]) && AllDigits(parts[1]) && AllDigits(parts[2]) then
      Some((DigitsValue(parts[0]), DigitsValue(parts[1]), DigitsValue(parts[2])))
    else
      None
  }

  /** `formatDate`: year, 1-based month and day joined by '-', month and day padded to two digits. */
  function FormatDate(d: Date): string
    requires ValidDate(d)
  {
    JoinDate(IntToString(d.year), PadStart2(NatToString(d.month)), PadStart2(NatToString(d.day)))
  }

  /** The three fields of a date text joined by '-'. */
  function JoinDate(y: string, m: string, dd: string): string {
    y + "-" + m + "-" + dd
  }

  /** `formatDate` applied to a date that may be invalid: every field of an invalid date prints as NaN. */
  function DateText(d: Option<Date>): string
    requires d.Some? ==> ValidDate(d.value)
  {
    match d
    case Some(v) => FormatDate(v)
    case None => "NaN-NaN-NaN"
  }

  /** The `full-date` form of section 5.6 of RFC 3339: 4DIGIT "-" 2DIGIT "-" 2DIGIT. */
  predicate IsFullDate(s: string) {
    |s| == 10 && AllDigits(s[0..4]) && s[4] == '-' && AllDigits(s[5..7]) && s[7] == '-' && AllDigits(s[8..10])
  }

  lemma FourDigitYear(y: int)
    requires 1000 <= y <= 9999
    ensures |IntToString(y)| == 4
  {
    assert NatToString(y / 1000) == [DigitChar(y / 1000)];
    assert |NatToString(y / 100)| == 2;
    assert |NatToString(y / 10)| == 3;
  }

  /** For years 1000..9999 `formatDate` writes a full-date whose fields are the year, month and day. */
  lemma FormatDateIsFullDate(d: Date)
    requires ValidDate(d) && 1000 <= d.year <= 9999
    ensures IsFullDate(FormatDate(d))
    ensures DigitsValue(FormatDate(d)[0..4]) == d.year
    ensures DigitsValue(FormatDate(d)[5..7]) == d.month
    ensures DigitsValue(FormatDate(d)[8..10]) == d.day
  {
    assert IntToString(d.year) == NatToString(d.year);
    FourDigitYear(d.year);
    TwoDigitField(d.month);
    TwoDigitField(d.day);
    NatToStringValue(d.year);
    FullDateFields(IntToString(d.year), PadStart2(NatToString(d.month)), PadStart2(NatToString(d.day)));
  }

  lemma FullDateFields(y: string, m: string, dd: string)
    requires |y| == 4 && |m| == 2 && |dd| == 2 && AllDigits(y) && AllDigits(m) && AllDigits(dd)
    ensures var s := JoinDate(y, m, dd);
            IsFullDate(s) && s[0..4] == y && s[5..7] == m && s[8..10] == dd
  {
    var s := JoinDate(y, m, dd);
    assert s[0..4] == y && s[5..7] == m && s[8..10] == dd;
  }

  /** `formatDate` splits on '-' into the year's digits and the two padded fields. */
  lemma FormatDateSplits(d: Date)
    requires ValidDate(d) && d.year >= 0
    ensures Split(FormatDate(d), '-') == [NatToString(d.year), PadStart2(NatToString(d.month)), PadStart2(NatToString(d.day))]
  {
    var y, m, dd := NatToString(d.year), PadStart2(NatToString(d.month)), PadStart2(NatToString(d.day));
    assert FormatDate(d) == JoinDate(y, m, dd) by {
      assert IntToString(d.year) == y;
    }
    assert AllDigits(m) && AllDigits(dd) by {
      TwoDigitField(d.month);
      TwoDigitField(d.day);
    }
    DigitFieldsSplit(y, m, dd);
  }

  lemma DigitFieldsSplit(y: string, m: string, dd: string)
    requires AllDigits(y) && AllDigits(m) && AllDigits(dd)
    ensures Split(JoinDate(y, m, dd), '-') == [y, m, dd]
  {
    DigitsHaveNoDash(y);
    DigitsHaveNoDash(m);
    DigitsHaveNoDash(dd);
    assert y + "-" + m + "-" + dd == y + ['-'] + m + ['-'] + dd;
    SplitThree(y, m, dd, '-');
  }

  /** Three digit fields joined by '-' read back as their values. */
  lemma ParseDigitFields(y: string, m: string, dd: string)
    requires AllDigits(y) && AllDigits(m) && AllDigits(dd)
    ensures DateFields(JoinDate(y, m, dd)) == Some((DigitsValue(y), DigitsValue(m), DigitsValue(dd)))
  {
    DigitFieldsSplit(y, m, dd);
  }

  /** What the parser makes of a formatted date with a non-negative year. */
  lemma ParseFormatted(d: Date)
    requires ValidDate(d) && d.year >= 0
    ensures ParseLocalDate(FormatDate(d)) == Some(NewDate(d.year, d.month - 1, d.day))
  {
    var y, m, dd := NatToString(d.year), PadStart2(NatToString(d.month)), PadStart2(NatToString(d.day));
    assert FormatDate(d) == JoinDate(y, m, dd) by {
      assert IntToString(d.year) == y;
    }
    assert AllDigits(y) && AllDigits(m) && AllDigits(dd)
        && DigitsValue(y) == d.year && DigitsValue(m) == d.month && DigitsValue(dd) == d.day by {
      TwoDigitField(d.month);
      TwoDigitField(d.day);
      NatToStringValue(d.year);
    }
    ParseDigitFields(y, m, dd);
  }

  /** Parsing what `formatDate` wrote gives back the same calendar date (years from 100 on). */
  lemma FormatParseRoundTrip(d: Date)
    requires ValidDate(d) && d.year >= 100
    ensures ParseLocalDate(FormatDate(d)) == Some(d)
  {
    ParseFormatted(d);
    NewDateInRange(d.year, d.month, d.day);
  }

  /** For years 0..99 the round trip lands in the 1900s: the `Date` constructor reads them as 19xx. */
  lemma TwoDigitYearRoundTrip(d: Date)
    requires ValidDate(d) && 0 <= d.year <= 99 && ValidDate(d.(year := d.year + 1900))
    ensures ParseLocalDate(FormatDate(d)) == Some(d.(year := d.year + 1900))
  {
    ParseFormatted(d);
    assert FullYear(d.year) == d.year + 1900;
    assert d.day <= DaysInMonth(FullYear(d.year), d.month);
    NewDateInRange(d.year, d.month, d.day);
  }

  /** `getMonday`: the Monday of `d`'s week, on or before `d`. */
  function GetMonday(d: Date): (r: Date)
    requires ValidDate(d)
    ensures ValidDate(r) && WeekdayIndex(r) == 0
    ensures DayNumber(r) == DayNumber(d) - WeekdayIndex(d)
    ensures DayNumber(d) - 6 <= DayNumber(r) <= DayNumber(d)
  {
    var diff := (GetDay(d) + 6) % 7;
    MondayOffsetIsWeekdayIndex(d);
    var r := SetDate(d, d.day - diff);
    MondayArith(DayNumber(d), WeekdayIndex(d), DayNumber(r));
    r
  }

  lemma MondayArith(n: int, w: int, m: int)
    requires w == n % 7 && m == n - w
    ensures m % 7 == 0 && n - 6 <= m <= n
  {
  }

  lemma AddMod(m: int, i: int)
    requires m % 7 == 0
    ensures (m + i) % 7 == i % 7
  {
  }

  /** The date `fecha` stands for in `getDateForDay`, with `today` for `new Date()` when it is empty. */
  function BaseDate(fecha: string, today: Date): (r: Option<Date>)
    requires ValidDate(today)
    ensures r.Some? ==> ValidDate(r.value)
  {
    if fecha != "" then ParseLocalDate(fecha) else Some(today)
  }

  /** `monday.setDate(monday.getDate() + i)`: the date `i` days after the Monday of `b`'s week. */
  function DayOfWeekOf(b: Date, i: int): (r: Date)
    requires ValidDate(b)
    ensures ValidDate(r) && DayNumber(r) == DayNumber(GetMonday(b)) + i
  {
    var monday := GetMonday(b);
    SetDate(monday, monday.day + i)
  }

  /** Day `i` of the week falls on the Monday-first weekday `i % 7`. */
  lemma DayOfWeekOfWeekday(b: Date, i: int)
    requires ValidDate(b)
    ensures WeekdayIndex(DayOfWeekOf(b, i)) == i % 7
  {
    var m := DayNumber(GetMonday(b));
    assert m % 7 == 0 by {
      assert WeekdayIndex(GetMonday(b)) == 0;
    }
    AddMod(m, i);
  }

  /** For `i` in 0..6 the date lies in `b`'s week: it is on weekday `i` and at most six days after that week's Monday. */
  lemma DayOfWeekInWeek(b: Date, i: int)
    requires ValidDate(b) && 0 <= i < 7
    ensures WeekdayIndex(DayOfWeekOf(b, i)) == i
    ensures DayNumber(b) - WeekdayIndex(b) <= DayNumber(DayOfWeekOf(b, i)) <= DayNumber(b) - WeekdayIndex(b) + 6
  {
    var m, r := GetMonday(b), DayOfWeekOf(b, i);
    DayOfWeekOfWeekday(b, i);
    SmallMod(i);
    WithinSix(DayNumber(r), DayNumber(m), DayNumber(b) - WeekdayIndex(b), i);
  }

  lemma SmallMod(i: int)
    requires 0 <= i < 7
    ensures i % 7 == i
  {
  }

  lemma WithinSix(t: int, m: int, start: int, i: int)
    requires t == m + i && m == start && 0 <= i < 7
    ensures start <= t <= start + 6
  {
  }

  /** `getDateForDay(i)`: day `i` (0 = Monday) of the week holding the base date. */
  function GetDateForDay(fecha: string, today: Date, i: int): (r: Option<Date>)
    requires ValidDate(today)
    ensures r.Some? == BaseDate(fecha, today).Some?
    ensures r.Some? ==> ValidDate(r.value) && r.value == DayOfWeekOf(BaseDate(fecha, today).value, i)
  {
    match BaseDate(fecha, today)
    case None => None
    case Some(b) => Some(DayOfWeekOf(b, i))
  }

  /** For `i` in 0..6 the button's date lies in the base date's week, on weekday `i`. */
  lemma DayButtonDateInWeek(fecha: string, today: Date, i: int)
    requires ValidDate(today) && 0 <= i < 7 && BaseDate(fecha, today).Some?
    ensures var base := BaseDate(fecha, today).value;
            var target := GetDateForDay(fecha, today, i).value;
            WeekdayIndex(target) == i
            && DayNumber(base) - WeekdayIndex(base) <= DayNumber(target) <= DayNumber(base) - WeekdayIndex(base) + 6
  {
    DayOfWeekInWeek(BaseDate(fecha, today).value, i);
  }

  // ---------------------------------------------------------------- weekday keys

  /** The `selectedDay` that `handleFechaChange(value)` sets. */
  function SelectedDayFor(value: string): (r: Option<string>)
    ensures r.Some? ==> r.value in DayKeys
    ensures value == "" ==> r == None
  {
    if value == "" then None
    else match ParseLocalDate(value)
      case None => None
      case Some(d) => Some(DayKeys[WeekdayIndex(d)])
  }

  /** A formatted date selects the key of its own weekday; a Sunday selects "domingo". */
  lemma SelectedDayOfDate(d: Date)
    requires ValidDate(d) && d.year >= 100
    ensures SelectedDayFor(FormatDate(d)) == Some(DayKeys[DayNumber(d) % 7])
    ensures GetDay(d) == 0 ==> SelectedDayFor(FormatDate(d)) == Some("domingo")
  {
    FormatParseRoundTrip(d);
    assert FormatDate(d) != "";
  }

  /** Clicking day button `i` writes a date whose weekday key is `DayKeys[i]`. */
  lemma DayButtonDateMatchesKey(fecha: string, today: Date, i: int)
    requires ValidDate(today) && 0 <= i < 7
    requires GetDateForDay(fecha, today, i).Some? && GetDateForDay(fecha, today, i).value.year >= 100
    ensures SelectedDayFor(DateText(GetDateForDay(fecha, today, i))) == Some(DayKeys[i])
  {
    var t := GetDateForDay(fecha, today, i).value;
    DayOfWeekInWeek(BaseDate(fecha, today).value, i);
    DateOfWeekdaySelectsKey(t, i);
  }

  lemma DateOfWeekdaySelectsKey(t: Date, i: int)
    requires ValidDate(t) && t.year >= 100 && WeekdayIndex(t) == i
    ensures SelectedDayFor(DateText(Some(t))) == Some(DayKeys[i])
  {
    SelectedDayOfDate(t);
  }

  // ---------------------------------------------------------------- free blocks

  /** One entry of a day of the weekly template. */
  datatype BlockState = BlockState(bloque: int, activado: bool)

  /** `horario`: day key to that day's blocks. */
  type Template = map<string, seq<BlockState>>

  /** One entry of `listed`: a block already booked on the chosen date. */
  datatype Reservation = Reservation(dia: string, bloque: int)

  /** `activos`: the numbers of the enabled blocks, in template order. */
  function ActiveBlocks(day: seq<BlockState>): seq<int> {
    Map((b: BlockState) => b.bloque, Filter((b: BlockState) => b.activado, day))
  }

  /** `ocupados`: the blocks listed for `dia`. */
  function OccupiedBlocks(listed: seq<Reservation>, dia: string): seq<int> {
    Map((l: Reservation) => l.bloque, Filter((l: Reservation) => l.dia == dia, listed))
  }

  /** `activos.filter(b => !ocupados.includes(b))` for day `dia` (line 109 reads `horario[dia]` unguarded). */
  function FreeBlocks(horario: Template, dia: string, listed: seq<Reservation>): seq<int>
    requires dia in horario
  {
    var ocupados := OccupiedBlocks(listed, dia);
    Filter((b: int) => b !in ocupados, ActiveBlocks(horario[dia]))
  }

  lemma OccupiedMembership(listed: seq<Reservation>, dia: string, b: int)
    ensures b in OccupiedBlocks(listed, dia) <==> Reservation(dia, b) in listed
  {
    var f := Filter((l: Reservation) => l.dia == dia, listed);
    if b in OccupiedBlocks(listed, dia) {
      var i :| 0 <= i < |f| && OccupiedBlocks(listed, dia)[i] == b;
      assert f[i] == Reservation(dia, b);
    }
    if Reservation(dia, b) in listed {
      var j :| 0 <= j < |listed| && listed[j] == Reservation(dia, b);
      var i :| 0 <= i < |f| && f[i] == listed[j];
      assert OccupiedBlocks(listed, dia)[i] == b;
    }
  }

  lemma ActiveMembership(day: seq<BlockState>, b: int)
    ensures b in ActiveBlocks(day) <==> BlockState(b, true) in day
  {
    var f := Filter((x: BlockState) => x.activado, day);
    if b in ActiveBlocks(day) {
      var i :| 0 <= i < |f| && ActiveBlocks(day)[i] == b;
      assert f[i] == BlockState(b, true);
    }
    if BlockState(b, true) in day {
      var j :| 0 <= j < |day| && day[j] == BlockState(b, true);
      var i :| 0 <= i < |f| && f[i] == day[j];
      assert ActiveBlocks(day)[i] == b;
    }
  }

  /** A block is offered exactly when it is enabled that day and nothing is booked in it. */
  lemma FreeBlocksMembership(horario: Template, dia: string, listed: seq<Reservation>, b: int)
    requires dia in horario
    ensures b in FreeBlocks(horario, dia, listed)
        <==> BlockState(b, true) in horario[dia] && Reservation(dia, b) !in listed
  {
    OccupiedMembership(listed, dia, b);
    ActiveMembership(horario[dia], b);
  }

  /** The offered blocks keep the template's order: they are a subsequence of the enabled blocks. */
  lemma FreeBlocksKeepOrder(horario: Template, dia: string, listed: seq<Reservation>)
    requires dia in horario
    ensures IsSubsequence(FreeBlocks(horario, dia, listed), ActiveBlocks(horario[dia]))
  {
    FilterIsSubsequence((b: int) => b !in OccupiedBlocks(listed, dia), ActiveBlocks(horario[dia]));
  }

  /** `activos` lists a block as often as the day's template lists it enabled. */
  lemma ActiveCount(day: seq<BlockState>, b: int)
    ensures multiset(ActiveBlocks(day))[b] == multiset(day)[BlockState(b, true)]
  {
    var enabled := Filter((x: BlockState) => x.activado, day);
    FilterCount((x: BlockState) => x.activado, day, BlockState(b, true));
    MapCount((x: BlockState) => x.bloque, enabled, BlockState(b, true));
  }

  /**
   * The offer lists a block as often as the template lists it enabled when
   * nothing is booked in it that day, and not at all when something is.
   */
  lemma FreeBlocksCount(horario: Template, dia: string, listed: seq<Reservation>, b: int)
    requires dia in horario
    ensures multiset(FreeBlocks(horario, dia, listed))[b]
         == if Reservation(dia, b) in listed then 0 else multiset(horario[dia])[BlockState(b, true)]
  {
    OccupiedMembership(listed, dia, b);
    ActiveCount(horario[dia], b);
    FilterCount((x: int) => x !in OccupiedBlocks(listed, dia), ActiveBlocks(horario[dia]), b);
  }

  /**
   * Order and multiplicities determine the offer: any subsequence of the
   * enabled blocks with the counts of `FreeBlocksCount` is the offer.
   */
  lemma FreeBlocksUnique(horario: Template, dia: string, listed: seq<Reservation>, offer: seq<int>)
    requires dia in horario
    requires IsSubsequence(offer, ActiveBlocks(horario[dia]))
    requires forall b :: multiset(offer)[b]
               == if Reservation(dia, b) in listed then 0 else multiset(horario[dia])[BlockState(b, true)]
    ensures offer == FreeBlocks(horario, dia, listed)
  {
    var keep := (x: int) => x !in OccupiedBlocks(listed, dia);
    forall b ensures multiset(offer)[b] == if keep(b) then multiset(ActiveBlocks(horario[dia]))[b] else 0 {
      OccupiedMembership(listed, dia, b);
      ActiveCount(horario[dia], b);
    }
    FilterUnique(keep, offer, ActiveBlocks(horario[dia]));
  }

  /** Only the set of blocks booked for `dia` matters: duplicates and other days' entries change nothing. */
  lemma FreeBlocksDependOnlyOnBookedSet(horario: Template, dia: string, l1: seq<Reservation>, l2: seq<Reservation>)
    requires dia in horario
    requires forall b :: Reservation(dia, b) in l1 <==> Reservation(dia, b) in l2
    ensures FreeBlocks(horario, dia, l1) == FreeBlocks(horario, dia, l2)
  {
    var active := ActiveBlocks(horario[dia]);
    forall i | 0 <= i < |active|
      ensures (active[i] !in OccupiedBlocks(l1, dia)) == (active[i] !in OccupiedBlocks(l2, dia))
    {
      OccupiedMembership(l1, dia, active[i]);
      OccupiedMembership(l2, dia, active[i]);
    }
    FilterCongruent((b: int) => b !in OccupiedBlocks(l1, dia), (b: int) => b !in OccupiedBlocks(l2, dia), active);
  }

  /** Booking an already booked block again has no effect on what is offered. */
  lemma DuplicateReservationNoEffect(horario: Template, dia: string, listed: seq<Reservation>, r: Reservation)
    requires dia in horario && r in listed
    ensures FreeBlocks(horario, dia, listed + [r]) == FreeBlocks(horario, dia, listed)
  {
    FreeBlocksDependOnlyOnBookedSet(horario, dia, listed + [r], listed);
  }

  /** With nothing booked for the day, every enabled block is offered, in template order. */
  lemma FreeBlocksUnbooked(horario: Template, dia: string, listed: seq<Reservation>)
    requires dia in horario
    requires forall b :: Reservation(dia, b) !in listed
    ensures FreeBlocks(horario, dia, listed) == ActiveBlocks(horario[dia])
  {
    var active := ActiveBlocks(horario[dia]);
    forall i | 0 <= i < |active| ensures active[i] !in OccupiedBlocks(listed, dia) {
      OccupiedMembership(listed, dia, active[i]);
    }
    FilterAll((b: int) => b !in OccupiedBlocks(listed, dia), active);
  }

  /** A day whose blocks are 1..12, all enabled, with nothing booked offers exactly 1..12. */
  lemma FullDayOffersAllBlocks(horario: Template, dia: string, listed: seq<Reservation>)
    requires dia in horario && horario[dia] == seq(12, i => BlockState(i + 1, true))
    requires forall b :: Reservation(dia, b) !in listed
    ensures FreeBlocks(horario, dia, listed) == seq(12, i => i + 1)
  {
    FreeBlocksUnbooked(horario, dia, listed);
    FilterAll((b: BlockState) => b.activado, horario[dia]);
  }

  /** When every enabled block is booked, or none is enabled, nothing is offered. */
  lemma FullyBookedOffersNothing(horario: Template, dia: string, listed: seq<Reservation>)
    requires dia in horario
    requires forall b :: BlockState(b, true) in horario[dia] ==> Reservation(dia, b) in listed
    ensures FreeBlocks(horario, dia, listed) == []
  {
    if FreeBlocks(horario, dia, listed) != [] {
      var b := FreeBlocks(horario, dia, listed)[0];
      FreeBlocksMembership(horario, dia, listed, b);
    }
  }

  // ---------------------------------------------------------------- the availability effect

  /** The part of the widget's state the availability effect writes. */
  datatype Availability = Availability(availableBlocks: seq<int>, selectedBlock: Option<int>)

  /** The selected block, if any, is one of the offered blocks. */
  predicate SelectionInvariant(a: Availability) {
    a.selectedBlock.None? || a.selectedBlock.value in a.availableBlocks
  }

  /**
   * Lines 104-117 as written: the early return empties `availableBlocks` but
   * does not clear `selectedBlock`.
   */
  function AvailabilityEffectAsWritten(selectedDay: Option<string>, horario: Option<Template>,
                                       listed: seq<Reservation>, selectedBlock: Option<int>): Availability
    requires selectedDay.Some? && horario.Some? ==> selectedDay.value in horario.value
  {
    if selectedDay.None? || horario.None? then Availability([], selectedBlock)
    else Availability(FreeBlocks(horario.value, selectedDay.value, listed), None)
  }

  /** Clearing the date while block 3 is selected keeps block 3 selected with nothing offered. */
  lemma AsWrittenKeepsStaleSelection()
    ensures !SelectionInvariant(AvailabilityEffectAsWritten(None, None, [], Some(3)))
  {
  }

  /** The effect with the selection cleared on both paths, as the recomputation intends. */
  function AvailabilityEffect(selectedDay: Option<string>, horario: Option<Template>,
                              listed: seq<Reservation>): (a: Availability)
    requires selectedDay.Some? && horario.Some? ==> selectedDay.value in horario.value
    ensures SelectionInvariant(a) && a.selectedBlock == None
    ensures selectedDay.None? || horario.None? ==> a.availableBlocks == []
  {
    if selectedDay.None? || horario.None? then Availability([], None)
    else Availability(FreeBlocks(horario.value, selectedDay.value, listed), None)
  }

  /** When the day and template are known both versions offer the same blocks. */
  lemma AvailabilityVersionsAgree(selectedDay: Option<string>, horario: Option<Template>,
                                  listed: seq<Reservation>, selectedBlock: Option<int>)
    requires selectedDay.Some? && horario.Some? && selectedDay.value in horario.value
    ensures AvailabilityEffect(selectedDay, horario, listed)
         == AvailabilityEffectAsWritten(selectedDay, horario, listed, selectedBlock)
  {
  }

  /** `horario?.[dl]?.some(b => b.activado)`: whether day button `dl` is enabled. */
  predicate DayButtonEnabled(horario: Option<Template>, dl: string) {
    horario.Some? && dl in horario.value
    && exists k :: 0 <= k < |horario.value[dl]| && horario.value[dl][k].activado
  }

  /** A day button is enabled exactly when that day has an enabled block. */
  lemma DayButtonEnabledIff(horario: Template, dl: string)
    requires dl in horario
    ensures DayButtonEnabled(Some(horario), dl) <==> ActiveBlocks(horario[dl]) != []
  {
    var day := horario[dl];
    if DayButtonEnabled(Some(horario), dl) {
      var k :| 0 <= k < |day| && day[k].activado;
      ActiveMembership(day, day[k].bloque);
      assert day[k] == BlockState(day[k].bloque, true);
    }
    if ActiveBlocks(day) != [] {
      ActiveMembership(day, ActiveBlocks(day)[0]);
    }
  }

  // ---------------------------------------------------------------- submission

  datatype Ids = Ids(terapeuta_id: string, paciente_id: string)

  datatype Payload = Payload(terapeuta_id: string, paciente_id: string, fecha: string,
                             hora_inicio: string, hora_final: string, motivo: string,
                             dia: string, bloque: int)

  /** `${fecha}T${String(hour).padStart(2,'0')}:00`. */
  function TimeStamp(fecha: string, hour: int): string {
    fecha + "T" + PadStart2(IntToString(hour)) + ":00"
  }

  /** Reads a time stamp of the form `<date>THH:00` back into its date text and hour. */
  function ParseTimeStamp(ts: string): Option<(string, nat)> {
    if |ts| >= 6 && ts[|ts| - 6] == 'T' && AllDigits(ts[|ts| - 5..|ts| - 3]) && ts[|ts| - 3..] == ":00"
    then Some((ts[..|ts| - 6], DigitsValue(ts[|ts| - 5..|ts| - 3])))
    else None
  }

  lemma TimeStampRoundTrip(fecha: string, hour: int)
    requires 0 <= hour < 100
    ensures ParseTimeStamp(TimeStamp(fecha, hour)) == Some((fecha, hour))
  {
    var hh := PadStart2(IntToString(hour));
    assert IntToString(hour) == NatToString(hour);
    TwoDigitField(hour);
    StampParts(fecha, hh);
  }

  lemma StampParts(a: string, hh: string)
    requires |hh| == 2 && AllDigits(hh)
    ensures ParseTimeStamp(a + "T" + hh + ":00") == Some((a, DigitsValue(hh)))
  {
    var ts := a + "T" + hh + ":00";
    assert ts[|ts| - 6] == 'T';
    assert ts[|ts| - 5..|ts| - 3] == hh;
    assert ts[|ts| - 3..] == ":00";
    assert ts[..|ts| - 6] == a;
  }

  /** The request body `handleSubmit` posts for block `bloque`. */
  function BuildPayload(ids: Ids, fecha: string, motivo: string, dia: string, bloque: int): Payload {
    Payload(ids.terapeuta_id, ids.paciente_id, fecha,
            TimeStamp(fecha, 7 + bloque), TimeStamp(fecha, 8 + bloque), motivo, dia, bloque)
  }

  /**
   * Block `b` starts at the hour its grid row shows and ends one hour later,
   * on the chosen date; the day and block are those selected.
   */
  lemma PayloadHours(ids: Ids, fecha: string, motivo: string, dia: string, bloque: int)
    requires 1 <= bloque <= 12
    ensures var p := BuildPayload(ids, fecha, motivo, dia, bloque);
            ParseTimeStamp(p.hora_inicio) == Some((fecha, Hours[bloque - 1]))
            && ParseTimeStamp(p.hora_final) == Some((fecha, Hours[bloque - 1] + 1))
            && p.fecha == fecha && p.dia == dia && p.bloque == bloque && p.motivo == motivo
            && p.terapeuta_id == ids.terapeuta_id && p.paciente_id == ids.paciente_id
  {
    HoursOfBlocks();
    assert Hours[bloque - 1] == 7 + bloque;
    TimeStampRoundTrip(fecha, 7 + bloque);
    TimeStampRoundTrip(fecha, 8 + bloque);
  }

  /** JavaScript truthiness of an optional number: present and not 0. */
  predicate TruthyNumber(x: Option<int>) { x.Some? && x.value != 0 }

  /** JavaScript truthiness of an optional string: present and not empty. */
  predicate TruthyText(x: Option<string>) { x.Some? && x.value != "" }

  /** `canSubmit`. */
  predicate CanSubmit(ids: Option<Ids>, selectedDay: Option<string>, selectedBlock: Option<int>,
                      fecha: string, motivo: string, submitting: bool) {
    ids.Some? && TruthyText(selectedDay) && TruthyNumber(selectedBlock) && fecha != "" && motivo != "" && !submitting
  }

  /** With keys from `DayKeys` and blocks from 1..12, `canSubmit` means every input is present. */
  lemma CanSubmitMeansPresent(ids: Option<Ids>, selectedDay: Option<string>, selectedBlock: Option<int>,
                              fecha: string, motivo: string, submitting: bool)
    requires selectedDay.Some? ==> selectedDay.value in DayKeys
    requires selectedBlock.Some? ==> 1 <= selectedBlock.value <= 12
    ensures CanSubmit(ids, selectedDay, selectedBlock, fecha, motivo, submitting)
        <==> ids.Some? && selectedDay.Some? && selectedBlock.Some? && fecha != "" && motivo != "" && !submitting
  {
  }

  /** How the booking request ended. */
  datatype SubmitOutcome = Created | Refused | NetworkError

  /** The alert shown for each outcome. */
  function OutcomeAlert(o: SubmitOutcome): string {
    match o
    case Created => "Sesión agendada con éxito"
    case Refused => "Error al agendar sesión"
    case NetworkError => "Error de red"
  }

  // ---------------------------------------------------------------- component state

  class BookingWidget {
    var ids: Option<Ids>
    var horario: Option<Template>
    var listed: seq<Reservation>
    var selectedDay: Option<string>
    var availableBlocks: seq<int>
    var selectedBlock: Option<int>
    var fecha: string
    var motivo: string
    var submitting: bool

    /** Keys come from `DayKeys`; the selected block is one of 1..12 and currently offered. */
    ghost predicate Valid()
      reads this
    {
      (selectedDay.Some? ==> selectedDay.value in DayKeys)
      && SelectionInvariant(Availability(availableBlocks, selectedBlock))
      && (selectedBlock.Some? ==> 1 <= selectedBlock.value <= 12)
    }

    constructor ()
      ensures Valid()
      ensures ids == None && horario == None && listed == [] && selectedDay == None
      ensures availableBlocks == [] && selectedBlock == None
      ensures fecha == "" && motivo == "" && !submitting
    {
      ids, horario, listed := None, None, [];
      selectedDay, availableBlocks, selectedBlock := None, [], None;
      fecha, motivo, submitting := "", "", false;
    }

    /** The first effect's response: the therapist's and patient's ids. */
    method ReceiveIds(v: Ids)
      requires Valid()
      modifies this`ids
      ensures Valid() && ids == Some(v)
    {
      ids := Some(v);
    }

    /** The second effect's response: `data.dias`. */
    method ReceiveHorario(h: Template)
      requires Valid()
      modifies this`horario
      ensures Valid() && horario == Some(h)
    {
      horario := Some(h);
    }

    /** The third effect's response: `data.listed`. */
    method ReceiveListed(l: seq<Reservation>)
      requires Valid()
      modifies this`listed
      ensures Valid() && listed == l
    {
      listed := l;
    }

    /** The third effect's guard: without ids or date the list is emptied and nothing is fetched. */
    method ListedEffect() returns (fetches: bool)
      requires Valid()
      modifies this`listed
      ensures Valid()
      ensures fetches == (ids.Some? && fecha != "")
      ensures listed == if fetches then old(listed) else []
    {
      fetches := ids.Some? && fecha != "";
      if !fetches {
        listed := [];
      }
    }

    /** The fourth effect, with the selection cleared on both paths. */
    method RecomputeAvailability()
      requires Valid()
      requires selectedDay.Some? && horario.Some? ==> selectedDay.value in horario.value
      modifies this`availableBlocks, this`selectedBlock
      ensures Valid()
      ensures Availability(availableBlocks, selectedBlock) == AvailabilityEffect(selectedDay, horario, listed)
    {
      if selectedDay.None? || horario.None? {
        availableBlocks := [];
      } else {
        availableBlocks := FreeBlocks(horario.value, selectedDay.value, listed);
      }
      selectedBlock := None;
    }

    /** `handleFechaChange(value)`. */
    method FechaChange(value: string)
      requires Valid()
      modifies this`fecha, this`selectedDay
      ensures Valid()
      ensures fecha == value && selectedDay == SelectedDayFor(value)
    {
      fecha := value;
      selectedDay := SelectedDayFor(value);
    }

    /** Clicking day button `i`; a disabled button does nothing. */
    method SelectDay(i: int, today: Date)
      requires Valid() && 0 <= i < 7 && ValidDate(today)
      modifies this`selectedDay, this`fecha
      ensures Valid()
      ensures if DayButtonEnabled(horario, DayKeys[i])
              then selectedDay == Some(DayKeys[i]) && fecha == DateText(GetDateForDay(old(fecha), today, i))
              else selectedDay == old(selectedDay) && fecha == old(fecha)
    {
      if DayButtonEnabled(horario, DayKeys[i]) {
        var target := GetDateForDay(fecha, today, i);
        selectedDay := Some(DayKeys[i]);
        fecha := DateText(target);
      }
    }

    /** Clicking block button `idx + 1`: only an offered block can be chosen. */
    method SelectBlock(idx: int)
      requires Valid() && 0 <= idx < 12
      modifies this`selectedBlock
      ensures Valid()
      ensures selectedBlock == if selectedDay.Some? && idx + 1 in availableBlocks then Some(idx + 1)
                               else old(selectedBlock)
    {
      var bn := idx + 1;
      if selectedDay.Some? && bn in availableBlocks {
        selectedBlock := Some(bn);
      }
    }

    /** Typing the reason. */
    method SetMotivo(text: string)
      requires Valid()
      modifies this`motivo
      ensures Valid() && motivo == text
    {
      motivo := text;
    }

    /** `handleSubmit` up to the request: without `canSubmit` nothing changes and nothing is sent. */
    method BeginSubmit() returns (payload: Option<Payload>)
      requires Valid()
      modifies this`submitting
      ensures Valid()
      ensures payload.Some? == CanSubmit(ids, selectedDay, old(selectedBlock), fecha, motivo, old(submitting))
      ensures payload.Some? ==>
                submitting && payload.value == BuildPayload(ids.value, fecha, motivo, selectedDay.value, selectedBlock.value)
      ensures payload.None? ==> submitting == old(submitting)
    {
      if !CanSubmit(ids, selectedDay, selectedBlock, fecha, motivo, submitting) {
        return None;
      }
      submitting := true;
      payload := Some(BuildPayload(ids.value, fecha, motivo, selectedDay.value, selectedBlock.value));
    }

    /** `handleSubmit` after the request: whatever the outcome, `submitting` is false again. */
    method FinishSubmit(outcome: SubmitOutcome) returns (alertText: string, closed: bool)
      requires Valid() && submitting
      modifies this`submitting
      ensures Valid() && !submitting
      ensures alertText == OutcomeAlert(outcome) && closed == (outcome == Created)
    {
      alertText := OutcomeAlert(outcome);
      closed := outcome == Created;
      submitting := false;
    }
  }
}
