/** The month grid of the calendar widget, over the Gregorian calendar. */
module Calendar {
  import opened Common

  datatype Date = Date(year: int, month: int, day: int)

  predicate Leap(year: int) {
    year % 4 == 0 && (year % 100 != 0 || year % 400 == 0)
  }

  function DaysIn(year: int, month: int): (n: nat)
    ensures 28 <= n <= 31
  {
    if month == 2 then (if Leap(year) then 29 else 28)
    else if month == 4 || month == 6 || month == 9 || month == 11 then 30 else 31
  }

  predicate Valid(d: Date) {
    1 <= d.month <= 12 && 1 <= d.day <= DaysIn(d.year, d.month)
  }

  /** The month `k` months later, of any sign. */
  function MonthAfter(year: int, month: int, k: int): (r: (int, int))
    ensures 1 <= r.1 <= 12
    ensures 12 * r.0 + r.1 == 12 * year + month + k
  {
    var m := month - 1 + k;
    (year + m / 12, m % 12 + 1)
  }

  function NextDay(d: Date): (r: Date)
    requires Valid(d)
    ensures Valid(r)
  {
    if d.day < DaysIn(d.year, d.month) then Date(d.year, d.month, d.day + 1)
    else
      var (y, m) := MonthAfter(d.year, d.month, 1);
      Date(y, m, 1)
  }

  function PrevDay(d: Date): (r: Date)
    requires Valid(d)
    ensures Valid(r)
  {
    if d.day > 1 then Date(d.year, d.month, d.day - 1)
    else
      var (y, m) := MonthAfter(d.year, d.month, -1);
      Date(y, m, DaysIn(y, m))
  }

  lemma NextPrev(d: Date)
    requires Valid(d)
    ensures NextDay(PrevDay(d)) == d && PrevDay(NextDay(d)) == d
  {
  }

  /** `AddDate(0, 0, n)`: `n` days on, or back. */
  function AddDays(d: Date, n: int): (r: Date)
    requires Valid(d)
    ensures Valid(r)
    decreases if n < 0 then -n else n
  {
    if n == 0 then d else if n > 0 then NextDay(AddDays(d, n - 1)) else PrevDay(AddDays(d, n + 1))
  }

  lemma AddOne(d: Date, n: int)
    requires Valid(d)
    ensures AddDays(d, n + 1) == NextDay(AddDays(d, n))
  {
    if n < 0 {
      NextPrev(AddDays(d, n + 1));
    }
  }

  lemma {:induction false} AddTwice(d: Date, m: int, n: nat)
    requires Valid(d)
    ensures AddDays(AddDays(d, m), n) == AddDays(d, m + n)
  {
    if n > 0 {
      AddTwice(d, m, n - 1);
      AddOne(d, m + n - 1);
    }
  }

  /** Within a month, days count up. */
  lemma {:induction false} DaysOfMonth(year: int, month: int, k: nat)
    requires 1 <= month <= 12 && k < DaysIn(year, month)
    ensures AddDays(Date(year, month, 1), k) == Date(year, month, k + 1)
  {
    if k > 0 {
      DaysOfMonth(year, month, k - 1);
    }
  }

  /** Past the end of a month, days count up in the next one. */
  lemma {:induction false} DaysBeyond(year: int, month: int, k: nat)
    requires 1 <= month <= 12 && k < 28
    ensures AddDays(Date(year, month, 1), DaysIn(year, month) + k)
         == Date(MonthAfter(year, month, 1).0, MonthAfter(year, month, 1).1, k + 1)
  {
    if k > 0 {
      DaysBeyond(year, month, k - 1);
    } else {
      DaysOfMonth(year, month, DaysIn(year, month) - 1);
    }
  }

  /** Before its start, days count down in the previous one. */
  lemma {:induction false} DaysBefore(year: int, month: int, k: nat)
    requires 1 <= month <= 12 && 1 <= k <= 28
    ensures var (y, m) := MonthAfter(year, month, -1);
            AddDays(Date(year, month, 1), 0 - k) == Date(y, m, DaysIn(y, m) + 1 - k)
  {
    if k > 1 {
      DaysBefore(year, month, k - 1);
    } else {
      assert AddDays(Date(year, month, 1), -1) == PrevDay(AddDays(Date(year, month, 1), 0));
    }
  }

  // ---------------------------------------------------------------------------------------------
  // Weekdays
  // ---------------------------------------------------------------------------------------------

  function DaysBeforeMonth(year: int, month: int): int
    requires 1 <= month <= 13
  {
    if month == 1 then 0 else DaysBeforeMonth(year, month - 1) + DaysIn(year, month - 1)
  }

  /** Days since 31 December of the year before year 1, a Sunday. */
  function DayNumber(d: Date): int
    requires Valid(d)
  {
    365 * (d.year - 1) + LeapDays(d.year - 1) + DaysBeforeMonth(d.year, d.month) + d.day
  }

  /** Sunday is 0. */
  function Weekday(d: Date): (w: nat)
    requires Valid(d)
    ensures w < 7
  {
    DayNumber(d) % 7
  }

  lemma DaysOfYear(year: int, months: int)
    requires months == 13
    ensures DaysBeforeMonth(year, months) == if Leap(year) then 366 else 365
  {
    hide Leap;
    assert DaysBeforeMonth(year, 2) == 31;
    assert DaysBeforeMonth(year, 3) == 31 + DaysIn(year, 2);
    assert DaysBeforeMonth(year, 4) == DaysBeforeMonth(year, 3) + 31;
    assert DaysBeforeMonth(year, 5) == DaysBeforeMonth(year, 4) + 30;
    assert DaysBeforeMonth(year, 6) == DaysBeforeMonth(year, 5) + 31;
    assert DaysBeforeMonth(year, 7) == DaysBeforeMonth(year, 6) + 30;
    assert DaysBeforeMonth(year, 8) == DaysBeforeMonth(year, 7) + 31;
    assert DaysBeforeMonth(year, 9) == DaysBeforeMonth(year, 8) + 31;
    assert DaysBeforeMonth(year, 10) == DaysBeforeMonth(year, 9) + 30;
    assert DaysBeforeMonth(year, 11) == DaysBeforeMonth(year, 10) + 31;
    assert DaysBeforeMonth(year, 12) == DaysBeforeMonth(year, 11) + 30;
    assert DaysBeforeMonth(year, 13) == DaysBeforeMonth(year, 12) + 31;
  }

  lemma Fourths(year: int)
    ensures year / 4 - (year - 1) / 4 == if year % 4 == 0 then 1 else 0
  {
  }

  lemma Centuries(year: int)
    ensures year / 100 - (year - 1) / 100 == if year % 100 == 0 then 1 else 0
  {
    var q, r := year / 100, year % 100;
    assert year == 100 * q + r;
  }

  lemma FourCenturies(year: int)
    ensures year / 400 - (year - 1) / 400 == if year % 400 == 0 then 1 else 0
  {
    var q, r := year / 400, year % 400;
    assert year == 400 * q + r;
  }

  lemma Multiples(year: int)
    ensures year % 100 == 0 ==> year % 4 == 0
    ensures year % 400 == 0 ==> year % 100 == 0
  {
    var q, p := year / 100, year / 400;
    assert year % 100 == 0 ==> year == 4 * (25 * q);
    assert year % 400 == 0 ==> year == 100 * (4 * p);
  }

  /** Leap days up to the end of a year. */
  function LeapDays(year: int): int {
    year / 4 - year / 100 + year / 400
  }

  lemma LeapDaysAdvance(year: int)
    ensures LeapDays(year) - LeapDays(year - 1) == if Leap(year) then 1 else 0
  {
    Fourths(year);
    Centuries(year);
    FourCenturies(year);
    Multiples(year);
  }

  lemma NumberAdvances(d: Date)
    requires Valid(d)
    ensures DayNumber(NextDay(d)) == DayNumber(d) + 1
  {
    hide DaysIn, LeapDays, Leap;
    if d.day == DaysIn(d.year, d.month) && d.month == 12 {
      DaysOfYear(d.year, 13);
      LeapDaysAdvance(d.year);
      assert DaysBeforeMonth(d.year, 13) == DaysBeforeMonth(d.year, 12) + DaysIn(d.year, 12);
    }
  }

  lemma {:induction false} NumberAdds(d: Date, n: int)
    requires Valid(d)
    ensures DayNumber(AddDays(d, n)) == DayNumber(d) + n
    decreases if n < 0 then -n else n
  {
    hide DayNumber, NextDay, PrevDay;
    if n > 0 {
      NumberAdds(d, n - 1);
      NumberAdvances(AddDays(d, n - 1));
    } else if n < 0 {
      NumberAdds(d, n + 1);
      NextPrev(AddDays(d, n + 1));
      NumberAdvances(AddDays(d, n));
    }
  }

  /** 1 January 1970 was a Thursday, and from any day on the weekdays follow each other. */
  lemma WeekdaysFollow(d: Date, n: int)
    requires Valid(d)
    ensures Valid(Date(1970, 1, 1)) && Weekday(Date(1970, 1, 1)) == 4
    ensures Weekday(AddDays(d, n)) == (Weekday(d) + n) % 7
  {
    hide AddDays, DayNumber;
    FirstDay();
    NumberAdds(d, n);
    WeekdayMoves(DayNumber(d), n);
  }

  lemma FirstDay()
    ensures DayNumber(Date(1970, 1, 1)) == 7 * 102737 + 4
  {
    assert LeapDays(1969) == 492 - 19 + 4;
    assert DaysBeforeMonth(1970, 1) == 0;
  }

  lemma WeekdayMoves(number: int, n: int)
    ensures (number + n) % 7 == (number % 7 + n) % 7
  {
  }

  // ---------------------------------------------------------------------------------------------
  // Month offsets
  // ---------------------------------------------------------------------------------------------

  /** `AddDate(0, k, 0)`: the same day of the month `k` months on, running over where that month is shorter. */
  function AddMonths(d: Date, k: int): (r: Date)
    requires Valid(d)
    ensures Valid(r)
  {
    var (y, m) := MonthAfter(d.year, d.month, k);
    AddDays(Date(y, m, 1), d.day - 1)
  }

  /** The shown month is the one asked for exactly when it has the day; otherwise it is the month after it. */
  lemma ShownMonth(d: Date, k: int)
    requires Valid(d)
    ensures var (y, m) := MonthAfter(d.year, d.month, k);
            var r := AddMonths(d, k);
            if d.day <= DaysIn(y, m) then r == Date(y, m, d.day)
            else (r.year, r.month) == MonthAfter(y, m, 1) && r.day == d.day - DaysIn(y, m)
  {
    hide DaysIn;
    var (y, m) := MonthAfter(d.year, d.month, k);
    if d.day <= DaysIn(y, m) {
      DaysOfMonth(y, m, d.day - 1);
    } else {
      AtMost31(d.year, d.month);
      DaysBeyond(y, m, d.day - 1 - DaysIn(y, m));
    }
  }

  lemma AtMost31(year: int, month: int)
    ensures 28 <= DaysIn(year, month) <= 31
  {
  }

  /** One month after 31 January the calendar shows March. */
  lemma FebruarySkipped(year: int)
    ensures Valid(Date(year, 1, 31)) && AddMonths(Date(year, 1, 31), 1).month == 3
  {
    ShownMonth(Date(year, 1, 31), 1);
  }

  // ---------------------------------------------------------------------------------------------
  // The grid
  // ---------------------------------------------------------------------------------------------

  const CELLS: nat := 42

  /** Days of the previous month in front of the first. */
  function Lead(shown: Date, sunday: bool): (n: nat)
    requires Valid(shown)
    ensures n < 7
  {
    var first := Weekday(Date(shown.year, shown.month, 1));
    if sunday then first else (first + 6) % 7
  }

  function CellDate(shown: Date, sunday: bool, cell: int): (d: Date)
    requires Valid(shown)
    ensures Valid(d)
  {
    AddDays(AddDays(Date(shown.year, shown.month, 1), 0 - Lead(shown, sunday)), cell)
  }

  /** One number drawn in the grid. */
  datatype Cell = Cell(column: int, row: int, date: Date, outside: bool, today: bool)

  function CellAt(shown: Date, today: Date, sunday: bool, cell: nat): Cell
    requires Valid(shown)
  {
    var d := CellDate(shown, sunday, cell);
    Cell(cell % 7, cell / 7, d, d.month != shown.month, d == today)
  }

  /** The cells drawn among the first `n`. */
  function CellsUpTo(shown: Date, today: Date, sunday: bool, spillover: bool, n: nat): seq<Cell>
    requires Valid(shown)
  {
    if n == 0 then []
    else
      var c := CellAt(shown, today, sunday, n - 1);
      CellsUpTo(shown, today, sunday, spillover, n - 1) + if c.outside && !spillover then [] else [c]
  }

  method EmitCells(shown: Date, today: Date, sunday: bool, spillover: bool) returns (cells: seq<Cell>)
    requires Valid(shown)
    ensures cells == CellsUpTo(shown, today, sunday, spillover, CELLS)
  {
    hide AddDays, Weekday;
    var first := Date(shown.year, shown.month, 1);
    var offset := (Weekday(first) + 6) % 7;
    if sunday {
      offset := Weekday(first);
    }
    var start := AddDays(first, 0 - offset);
    cells := [];
    var cell := 0;
    while cell < CELLS
      invariant 0 <= cell <= CELLS && cells == CellsUpTo(shown, today, sunday, spillover, cell)
    {
      var day := AddDays(start, cell);
      var outside := day.month != shown.month;
      if !(outside && !spillover) {
        cells := cells + [Cell(cell % 7, cell / 7, day, outside,
                               day.year == today.year && day.month == today.month && day.day == today.day)];
      }
      cell := cell + 1;
    }
  }

  lemma CellFromFirst(shown: Date, sunday: bool, cell: nat)
    requires Valid(shown)
    ensures CellDate(shown, sunday, cell) == AddDays(Date(shown.year, shown.month, 1), cell - Lead(shown, sunday))
  {
    hide AddDays, Lead;
    AddTwice(Date(shown.year, shown.month, 1), 0 - Lead(shown, sunday), cell);
  }

  /**
   A cell shows a day of the month exactly in the stretch behind the lead, and is marked as outside everywhere else.
   */
  lemma CellShows(shown: Date, today: Date, sunday: bool, cell: nat)
    requires Valid(shown) && cell < CELLS
    ensures var lead, n, c := Lead(shown, sunday), DaysIn(shown.year, shown.month), CellAt(shown, today, sunday, cell);
            && (!c.outside <==> lead <= cell < lead + n)
            && (lead <= cell < lead + n ==> c.date == Date(shown.year, shown.month, cell - lead + 1))
  {
    hide AddDays, Lead, DaysIn;
    AtMost31(shown.year, shown.month);
    var lead, n := Lead(shown, sunday), DaysIn(shown.year, shown.month);
    CellFromFirst(shown, sunday, cell);
    if cell < lead {
      DaysBefore(shown.year, shown.month, lead - cell);
    } else if cell < lead + n {
      DaysOfMonth(shown.year, shown.month, cell - lead);
    } else {
      DaysBeyond(shown.year, shown.month, cell - lead - n);
    }
  }

  /**
   Every day of the month stands in exactly one of the 42 cells, for either week start, and today is marked where it
   stands.
   */
  lemma EveryDayOnce(shown: Date, today: Date, sunday: bool, day: int)
    requires Valid(shown) && 1 <= day <= DaysIn(shown.year, shown.month)
    ensures var cell := Lead(shown, sunday) + day - 1;
            && 0 <= cell < CELLS && CellAt(shown, today, sunday, cell).date == Date(shown.year, shown.month, day)
            && (CellAt(shown, today, sunday, cell).today <==> today == Date(shown.year, shown.month, day))
            && forall other | 0 <= other < CELLS ::
                 CellAt(shown, today, sunday, other).date == Date(shown.year, shown.month, day) ==> other == cell
  {
    hide Lead, DaysIn, CellDate;
    AtMost31(shown.year, shown.month);
    var cell := Lead(shown, sunday) + day - 1;
    CellShows(shown, today, sunday, cell);
    forall other | 0 <= other < CELLS && CellAt(shown, today, sunday, other).date == Date(shown.year, shown.month, day)
      ensures other == cell
    {
      CellShows(shown, today, sunday, other);
    }
  }

  /** Drawn are the cells in their order: all of them with spillover, and else those inside the month. */
  lemma {:induction false} CellsDrawn(shown: Date, today: Date, sunday: bool, spillover: bool, n: nat)
    requires Valid(shown)
    ensures var cells := CellsUpTo(shown, today, sunday, spillover, n);
            && (forall c | c in cells :: exists i: nat | i < n :: c == CellAt(shown, today, sunday, i))
            && (forall i: nat | i < n :: CellAt(shown, today, sunday, i) in cells <==>
                  spillover || !CellAt(shown, today, sunday, i).outside)
            && (forall j, k | 0 <= j < k < |cells| ::
                  7 * cells[j].row + cells[j].column < 7 * cells[k].row + cells[k].column)
            && (forall j | 0 <= j < |cells| :: 0 <= cells[j].column < 7 && 7 * cells[j].row + cells[j].column < n)
  {
    hide CellAt;
    if n > 0 {
      CellsDrawn(shown, today, sunday, spillover, n - 1);
      CellPlace(shown, today, sunday, n - 1);
    }
  }

  lemma CellPlace(shown: Date, today: Date, sunday: bool, cell: nat)
    requires Valid(shown)
    ensures var c := CellAt(shown, today, sunday, cell); 0 <= c.column < 7 && 7 * c.row + c.column == cell
  {
    hide CellDate;
  }

  /** The index into the weekday names, Monday first, printed above a column. */
  function LabelOf(sunday: bool, column: int): int
    requires 0 <= column < 7
  {
    if sunday then (column + 6) % 7 else column
  }

  /** Every cell stands under the name of its own weekday. */
  lemma ColumnsMatch(shown: Date, today: Date, sunday: bool, cell: nat)
    requires Valid(shown) && cell < CELLS
    ensures var c := CellAt(shown, today, sunday, cell);
            LabelOf(sunday, c.column) == (Weekday(c.date) + 6) % 7
  {
    hide AddDays, DayNumber;
    var first := Date(shown.year, shown.month, 1);
    CellFromFirst(shown, sunday, cell);
    NumberAdds(first, cell - Lead(shown, sunday));
    Columns(DayNumber(first), Lead(shown, sunday), sunday, cell);
  }

  lemma Columns(first: int, lead: nat, sunday: bool, cell: nat)
    requires lead == if sunday then first % 7 else (first % 7 + 6) % 7
    ensures LabelOf(sunday, cell % 7) == ((first + (cell - lead)) % 7 + 6) % 7
  {
  }
}
