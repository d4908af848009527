/**
 * The history screen's view model: paging of the history list behind a
 * loading flag, the calendar month being shown, and the icon drawn for each
 * calendar day. The current date is a parameter; remote completions are
 * method calls. The grouped history entries are opaque (type parameter G).
 */
module History {
  import opened Wrappers

  // ---------------------------------------------------------------------------
  // Calendar dates (the ISO proleptic calendar of LocalDate)

  datatype Date = Date(year: int, month: int, day: int)

  predicate IsLeapYear(year: int)
  {
    year % 4 == 0 && (year % 100 != 0 || year % 400 == 0)
  }

  function DaysInMonth(year: int, month: int): int
    requires 1 <= month <= 12
  {
    if month == 2 then (if IsLeapYear(year) then 29 else 28)
    else if month == 4 || month == 6 || month == 9 || month == 11 then 30
    else 31
  }

  predicate ValidDate(d: Date)
  {
    1 <= d.month <= 12 && 1 <= d.day <= DaysInMonth(d.year, d.month)
  }

  /** Position of a date's month on a single month line. */
  function MonthIndex(d: Date): int
  {
    d.year * 12 + (d.month - 1)
  }

  /** `a.isBefore(b)`: chronological order. */
  predicate IsBefore(a: Date, b: Date)
  {
    a.year < b.year || (a.year == b.year && (a.month < b.month || (a.month == b.month && a.day < b.day)))
  }

  datatype MonthNav = Previous | Next

  /** `minusMonths(1).withDayOfMonth(1)`: day 1 of the month before. */
  function PreviousMonthStart(d: Date): (r: Date)
    requires ValidDate(d)
    ensures ValidDate(r) && r.day == 1
    ensures MonthIndex(r) == MonthIndex(d) - 1
  {
    if d.month == 1 then Date(d.year - 1, 12, 1) else Date(d.year, d.month - 1, 1)
  }

  /** `plusMonths(1).withDayOfMonth(1)`: day 1 of the month after. */
  function NextMonthStart(d: Date): (r: Date)
    requires ValidDate(d)
    ensures ValidDate(r) && r.day == 1
    ensures MonthIndex(r) == MonthIndex(d) + 1
  {
    if d.month == 12 then Date(d.year + 1, 1, 1) else Date(d.year, d.month + 1, 1)
  }

  function StepMonth(d: Date, dir: MonthNav): (r: Date)
    requires ValidDate(d)
    ensures ValidDate(r) && r.day == 1
  {
    match dir
    case Previous => PreviousMonthStart(d)
    case Next => NextMonthStart(d)
  }

  /** Two month starts on the same month line position are the same date. */
  lemma MonthStartByIndex(a: Date, b: Date)
    requires ValidDate(a) && ValidDate(b) && a.day == 1 && b.day == 1
    requires MonthIndex(a) == MonthIndex(b)
    ensures a == b
  {
  }

  /** Next after Previous (and Previous after Next) lands on day 1 of the month started from. */
  lemma MonthStepRoundTrip(d: Date)
    requires ValidDate(d)
    ensures NextMonthStart(PreviousMonthStart(d)) == d.(day := 1)
    ensures PreviousMonthStart(NextMonthStart(d)) == d.(day := 1)
  {
    MonthStartByIndex(NextMonthStart(PreviousMonthStart(d)), d.(day := 1));
    MonthStartByIndex(PreviousMonthStart(NextMonthStart(d)), d.(day := 1));
  }

  /** `n` steps in one direction move exactly `n` months along the month line. */
  function StepMonths(d: Date, dir: MonthNav, n: nat): (r: Date)
    requires ValidDate(d)
    ensures ValidDate(r)
    decreases n
  {
    if n == 0 then d else StepMonths(StepMonth(d, dir), dir, n - 1)
  }

  lemma {:induction false} StepMonthsIndex(d: Date, dir: MonthNav, n: nat)
    requires ValidDate(d)
    ensures MonthIndex(StepMonths(d, dir, n)) == MonthIndex(d) + (if dir == Next then n as int else -(n as int))
    decreases n
  {
    if n > 0 {
      StepMonthsIndex(StepMonth(d, dir), dir, n - 1);
    }
  }

  // ---------------------------------------------------------------------------
  // Calendar day icons

  datatype DayIcon = Star | Circle | Moon

  /** A past day with an event is a star; today and future days are circles; other past days are moons. */
  function DayIconFor(date: Date, hasEvent: bool, today: Date): (icon: DayIcon)
    ensures icon == Star <==> hasEvent && IsBefore(date, today)
    ensures icon == Circle <==> !IsBefore(date, today)
    ensures icon == Moon <==> !hasEvent && IsBefore(date, today)
  {
    if hasEvent && IsBefore(date, today) then Star
    else if IsBefore(today, date) || date == today then Circle
    else Moon
  }

  // ---------------------------------------------------------------------------
  // The page state and its transitions

  datatype HistoryListRequest = HistoryListRequest(page: int, size: int, date: string)
  datatype CalendarRequest = CalendarRequest(year: int, month: int)

  /**
   * A fetch may start when none is in flight and either nothing was fetched
   * yet or pages remain. In particular a fetch in flight blocks every other,
   * and a reset to page 0 that clears the loading flag always allows one.
   */
  function CanFetch(isLoadingMore: bool, currentPage: int, totalPageCount: int): (ok: bool)
    ensures isLoadingMore ==> !ok
    ensures !isLoadingMore && currentPage == 0 ==> ok
    ensures ok && currentPage != 0 ==> currentPage < totalPageCount
  {
    !isLoadingMore && (currentPage == 0 || currentPage < totalPageCount)
  }

  class HistoryViewModel<G> {
    var historyList: seq<G>
    var totalPageCount: int
    var currentPage: int
    var isLoadingMore: bool
    var pageSize: int
    var selectedDate: string
    var eventDates: seq<string>
    var currentMonthStartDate: Date

    ghost predicate Valid()
      reads this
    {
      ValidDate(currentMonthStartDate)
    }

    constructor (pageSize: int, selectedDate: string, monthStart: Date)
      requires ValidDate(monthStart)
      ensures Valid()
      ensures historyList == [] && totalPageCount == -1 && currentPage == 0 && !isLoadingMore
      ensures this.pageSize == pageSize && this.selectedDate == selectedDate
      ensures eventDates == [] && currentMonthStartDate == monthStart
    {
      historyList := [];
      totalPageCount := -1;
      currentPage := 0;
      isLoadingMore := false;
      this.pageSize := pageSize;
      this.selectedDate := selectedDate;
      eventDates := [];
      currentMonthStartDate := monthStart;
    }

    /**
     * Starts a page fetch when the guard allows it: the loading flag is set
     * and the request for the current page, page size and date is returned.
     * Otherwise nothing changes and no request is made.
     */
    method GetHistoryList() returns (request: Option<HistoryListRequest>)
      modifies this
      ensures request.Some? <==> CanFetch(old(isLoadingMore), old(currentPage), old(totalPageCount))
      ensures request.Some? ==> isLoadingMore && request.value == HistoryListRequest(currentPage, pageSize, selectedDate)
      ensures request.None? ==> isLoadingMore == old(isLoadingMore)
      ensures currentPage == old(currentPage) && totalPageCount == old(totalPageCount)
      ensures historyList == old(historyList) && pageSize == old(pageSize) && selectedDate == old(selectedDate)
      ensures eventDates == old(eventDates) && currentMonthStartDate == old(currentMonthStartDate)
    {
      if !isLoadingMore && (currentPage == 0 || currentPage < totalPageCount) {
        isLoadingMore := true;
        request := Some(HistoryListRequest(currentPage, pageSize, selectedDate));
      } else {
        request := None;
      }
    }

    /** A page arrived: it replaces the shown list, the page count is taken over and the page advances by one. */
    method OnSuccessGetHistoryList(histories: seq<G>, pageCount: int)
      modifies this
      ensures historyList == histories && !isLoadingMore
      ensures totalPageCount == pageCount && currentPage == old(currentPage) + 1
      ensures pageSize == old(pageSize) && selectedDate == old(selectedDate)
      ensures eventDates == old(eventDates) && currentMonthStartDate == old(currentMonthStartDate)
    {
      historyList := histories;
      isLoadingMore := false;
      totalPageCount := pageCount;
      currentPage := currentPage + 1;
    }

    /** The fetch threw: only the loading flag is reset, so the same page can be fetched again. */
    method OnFailedGetHistoryList()
      modifies this
      ensures !isLoadingMore && currentPage == old(currentPage) && totalPageCount == old(totalPageCount)
      ensures historyList == old(historyList) && pageSize == old(pageSize) && selectedDate == old(selectedDate)
      ensures eventDates == old(eventDates) && currentMonthStartDate == old(currentMonthStartDate)
    {
      isLoadingMore := false;
    }

    /** The request for the month being shown; reading it changes nothing. */
    method GetCalendarList() returns (request: CalendarRequest)
      ensures request.year == currentMonthStartDate.year && request.month == currentMonthStartDate.month
    {
      request := CalendarRequest(currentMonthStartDate.year, currentMonthStartDate.month);
    }

    /** The event dates arrived; nothing else changes. */
    method OnSuccessGetCalendarList(dates: seq<string>)
      modifies this
      ensures eventDates == dates
      ensures historyList == old(historyList) && totalPageCount == old(totalPageCount)
      ensures currentPage == old(currentPage) && isLoadingMore == old(isLoadingMore)
      ensures pageSize == old(pageSize) && selectedDate == old(selectedDate)
      ensures currentMonthStartDate == old(currentMonthStartDate)
    {
      eventDates := dates;
    }

    /**
     * A new date is selected: paging restarts at page 0 with the loading flag
     * cleared, so the fetch that follows always starts, for page 0 of that date.
     */
    method UpdateSelectedDate(date: string) returns (request: Option<HistoryListRequest>)
      modifies this
      ensures selectedDate == date && currentPage == 0 && isLoadingMore
      ensures request == Some(HistoryListRequest(0, pageSize, date))
      ensures historyList == old(historyList) && totalPageCount == old(totalPageCount)
      ensures pageSize == old(pageSize) && eventDates == old(eventDates)
      ensures currentMonthStartDate == old(currentMonthStartDate)
    {
      selectedDate := date;
      currentPage := 0;
      isLoadingMore := false;
      request := GetHistoryList();
    }

    /**
     * Month navigation: the calendar moves to day 1 of the adjacent month,
     * whose events are requested; a history fetch is tried under the usual guard.
     */
    method UpdateCurrentMonth(dir: MonthNav) returns (calendar: CalendarRequest, request: Option<HistoryListRequest>)
      requires Valid()
      modifies this
      ensures Valid()
      ensures currentMonthStartDate == StepMonth(old(currentMonthStartDate), dir)
      ensures currentMonthStartDate.day == 1
      ensures MonthIndex(currentMonthStartDate) == MonthIndex(old(currentMonthStartDate)) + (if dir == Next then 1 else -1)
      ensures calendar == CalendarRequest(currentMonthStartDate.year, currentMonthStartDate.month)
      ensures request.Some? <==> CanFetch(old(isLoadingMore), old(currentPage), old(totalPageCount))
      ensures request.Some? ==> isLoadingMore && request.value == HistoryListRequest(currentPage, pageSize, selectedDate)
      ensures request.None? ==> isLoadingMore == old(isLoadingMore)
      ensures currentPage == old(currentPage) && totalPageCount == old(totalPageCount) && pageSize == old(pageSize)
      ensures historyList == old(historyList) && selectedDate == old(selectedDate) && eventDates == old(eventDates)
    {
      currentMonthStartDate := StepMonth(currentMonthStartDate, dir);
      calendar := GetCalendarList();
      request := GetHistoryList();
    }
  }
}
