/**
 The rolling limits (`db.py`): exports a day, counted from events that outlive
 what they count, and feedback an hour.  A call reads the clock twice, once for
 the start of its window and once for the time it records.  All that is asked of
 the clock is that the second reading is not in an earlier second than the first;
 that is exactly what the limits need.
 */
module RollingLimits {
  import opened Options
  import opened Db

  /** Any history of calls; `Others` is whatever the rest of the service does to the tables. */
  datatype Call =
    | StartExport(id: string, server: string, tenant: string, windowAt: int, stampAt: int)
    | LeaveFeedback(username: string, windowAt: int, stampAt: int)
    | Others(tables: Tables)

  predicate CountsExport(e: Event) { e.kind.ExportRequested? }

  /** The rest of the service deletes exports, servers and rows as it likes, and only ever adds to the log. */
  ghost predicate LeavesTheCount(d: Tables, d': Tables) {
    && d'.feedback == d.feedback
    && exists more :: d'.events == d.events + more && forall e | e in more :: !CountsExport(e)
  }

  ghost function Apply(d: Tables, c: Call, exportLimit: int, feedbackLimit: int): Tables {
    match c
    case StartExport(id, server, tenant, windowAt, stampAt) =>
      ReserveExport(d, id, server, tenant, exportLimit, Iso(windowAt - DAY * MICROS), Iso(stampAt))
    case LeaveFeedback(username, windowAt, stampAt) =>
      ReserveFeedback(d, username, feedbackLimit, Iso(windowAt - HOUR * MICROS), Iso(stampAt))
    case Others(d') => if LeavesTheCount(d, d') then d' else d
  }

  /** Inside the call the clock does not step back to an earlier second. */
  predicate Steady(c: Call) { c.Others? || Iso(c.windowAt) <= Iso(c.stampAt) }

  predicate AllSteady(calls: seq<Call>) { forall c | c in calls :: Steady(c) }

  ghost function Run(calls: seq<Call>, exportLimit: int, feedbackLimit: int): Tables {
    if calls == [] then EMPTY
    else Apply(Run(calls[..|calls| - 1], exportLimit, feedbackLimit), calls[|calls| - 1], exportLimit, feedbackLimit)
  }

  /** A tenant's accepted exports stamped in the day after `a`, in seconds. */
  function InDay(events: seq<Event>, tenant: string, a: int): nat {
    if events == [] then 0
    else
      var e := events[|events| - 1];
      InDay(events[..|events| - 1], tenant, a)
      + if e.tenant == tenant && e.kind.ExportRequested? && a < e.kind.at <= a + 86_400 then 1 else 0
  }

  /** A user's messages stamped in the hour from `a` on, in seconds. */
  function InHour(rows: seq<FeedbackRow>, username: string, a: int): nat {
    if rows == [] then 0
    else
      var f := rows[|rows| - 1];
      InHour(rows[..|rows| - 1], username, a)
      + if f.username == username && a <= f.createdAt <= a + 3_600 then 1 else 0
  }

  lemma {:induction false} DayWithinCount(events: seq<Event>, tenant: string, a: int, since: int)
    requires since <= a
    ensures InDay(events, tenant, a) <= CountExports(events, tenant, since)
  {
    if events != [] {
      DayWithinCount(events[..|events| - 1], tenant, a, since);
    }
  }

  lemma {:induction false} HourWithinCount(rows: seq<FeedbackRow>, username: string, a: int, since: int)
    requires since <= a
    ensures InHour(rows, username, a) <= CountFeedback(rows, username, since)
  {
    if rows != [] {
      HourWithinCount(rows[..|rows| - 1], username, a, since);
    }
  }

  lemma {:induction false} OthersCountNothing(events: seq<Event>, more: seq<Event>, tenant: string, a: int)
    requires forall e | e in more :: !CountsExport(e)
    ensures InDay(events + more, tenant, a) == InDay(events, tenant, a)
    ensures CountExports(events + more, tenant, a) == CountExports(events, tenant, a)
    decreases |more|
  {
    if more == [] {
      assert events + more == events;
    } else {
      var last := |more| - 1;
      assert more[last] in more;
      assert (events + more)[..|events| + last] == events + more[..last];
      OthersCountNothing(events, more[..last], tenant, a);
    }
  }

  lemma OneMoreExport(events: seq<Event>, e: Event, tenant: string, a: int)
    ensures InDay(events + [e], tenant, a) == InDay(events, tenant, a)
            + if e.tenant == tenant && e.kind.ExportRequested? && a < e.kind.at <= a + DAY then 1 else 0
  {
    assert (events + [e])[..|events|] == events;
  }

  lemma OneMoreMessage(rows: seq<FeedbackRow>, f: FeedbackRow, username: string, a: int)
    ensures InHour(rows + [f], username, a) == InHour(rows, username, a)
            + if f.username == username && a <= f.createdAt <= a + HOUR then 1 else 0
  {
    assert (rows + [f])[..|rows|] == rows;
  }

  // --- what is counted ------------------------------------------------------------------

  /** Where the log has the tenant's starts of the last 24 hours, seen from this microsecond. */
  ghost function StartsLately(events: seq<Event>, tenant: string, now: int): set<nat> {
    set i: nat | i < |events| && events[i].tenant == tenant && events[i].kind.ExportRequested?
                 && now - events[i].kind.at * 1_000_000 < 86_400_000_000
  }

  /** And the user's messages of the last hour, to the second. */
  ghost function MessagesLately(rows: seq<FeedbackRow>, username: string, now: int): set<nat> {
    set i: nat | i < |rows| && rows[i].username == username && now / 1_000_000 - rows[i].createdAt <= 3_600
  }

  /** The count is of the starts of the last 24 hours. */
  lemma {:induction false} TheDayIsCounted(events: seq<Event>, tenant: string, now: int)
    ensures CountExports(events, tenant, Iso(now - DAY * MICROS)) == |StartsLately(events, tenant, now)|
  {
    if events != [] {
      var last := |events| - 1;
      var init, e := events[..last], events[last];
      TheDayIsCounted(init, tenant, now);
      var counts := e.tenant == tenant && e.kind.ExportRequested? && now - e.kind.at * 1_000_000 < 86_400_000_000;
      assert StartsLately(events, tenant, now) == StartsLately(init, tenant, now) + if counts then {last} else {};
    }
  }

  /** And the messages counted are those of the last hour. */
  lemma {:induction false} TheHourIsCounted(rows: seq<FeedbackRow>, username: string, now: int)
    ensures CountFeedback(rows, username, Iso(now - HOUR * MICROS)) == |MessagesLately(rows, username, now)|
  {
    if rows != [] {
      var last := |rows| - 1;
      var init, f := rows[..last], rows[last];
      TheHourIsCounted(init, username, now);
      var counts := f.username == username && now / 1_000_000 - f.createdAt <= 3_600;
      assert MessagesLately(rows, username, now) == MessagesLately(init, username, now) + if counts then {last} else {};
    }
  }

  /** A start let in leaves every day within the limit, if the clock did not step back inside it. */
  lemma StartKeepsTheDay(d: Tables, id: string, server: string, tenant: string, limit: int, windowAt: int, stampAt: int, a: int)
    requires CanReserveExport(d, server, tenant, limit, Iso(windowAt - DAY * MICROS))
    requires windowAt / 1_000_000 <= stampAt / 1_000_000 && InDay(d.events, tenant, a) <= limit
    ensures var d' := ReserveExport(d, id, server, tenant, limit, Iso(windowAt - DAY * MICROS), Iso(stampAt));
            InDay(d'.events, tenant, a) <= limit
  {
    OneMoreExport(d.events, Event(tenant, server, ExportRequested(id, Iso(stampAt))), tenant, a);
    if Iso(windowAt - DAY * MICROS) <= a {
      DayWithinCount(d.events, tenant, a, Iso(windowAt - DAY * MICROS));
    }
  }

  function AtLeastZero(n: int): nat { if n < 0 then 0 else n }

  ghost predicate Bounded(d: Tables, exportLimit: int, feedbackLimit: int) {
    && (forall tenant, a :: InDay(d.events, tenant, a) <= AtLeastZero(exportLimit))
    && (forall username, a :: InHour(d.feedback, username, a) <= AtLeastZero(feedbackLimit))
  }

  lemma CallKeepsBounds(d: Tables, c: Call, exportLimit: int, feedbackLimit: int)
    requires Bounded(d, exportLimit, feedbackLimit) && Steady(c)
    ensures Bounded(Apply(d, c, exportLimit, feedbackLimit), exportLimit, feedbackLimit)
  {
    var d' := Apply(d, c, exportLimit, feedbackLimit);
    match c
    case StartExport(id, server, tenant, windowAt, stampAt) =>
      if d' != d {
        var e := Event(tenant, server, ExportRequested(id, Iso(stampAt)));
        forall other, a
          ensures InDay(d'.events, other, a) <= AtLeastZero(exportLimit)
        {
          OneMoreExport(d.events, e, other, a);
          if Iso(windowAt - DAY * MICROS) <= a {
            DayWithinCount(d.events, tenant, a, Iso(windowAt - DAY * MICROS));
          }
        }
      }
    case LeaveFeedback(username, windowAt, stampAt) =>
      if d' != d {
        var f := FeedbackRow(username, Iso(stampAt));
        forall other, a
          ensures InHour(d'.feedback, other, a) <= AtLeastZero(feedbackLimit)
        {
          OneMoreMessage(d.feedback, f, other, a);
          if Iso(windowAt - HOUR * MICROS) <= a {
            HourWithinCount(d.feedback, username, a, Iso(windowAt - HOUR * MICROS));
          }
        }
      }
    case Others(tables) =>
      if LeavesTheCount(d, tables) {
        var more :| tables.events == d.events + more && forall e | e in more :: !CountsExport(e);
        forall tenant, a
          ensures InDay(tables.events, tenant, a) <= AtLeastZero(exportLimit)
        {
          OthersCountNothing(d.events, more, tenant, a);
        }
      }
  }

  /**
   For every mix of starts, deletions and restarts, and every history of a clock
   that is steady inside each call, however it jumps between calls, any half-open
   day holds at most the daily limit of a tenant's accepted exports, and any closed
   hour at most the limit of a user's messages.
   */
  lemma {:induction false} WindowsStayBounded(calls: seq<Call>, exportLimit: int, feedbackLimit: int)
    requires AllSteady(calls)
    ensures Bounded(Run(calls, exportLimit, feedbackLimit), exportLimit, feedbackLimit)
  {
    if calls != [] {
      var last := |calls| - 1;
      WindowsStayBounded(calls[..last], exportLimit, feedbackLimit);
      CallKeepsBounds(Run(calls[..last], exportLimit, feedbackLimit), calls[last], exportLimit, feedbackLimit);
    }
  }

  // --- a clock that steps back ------------------------------------------------------------

  lemma IsoShifts(second: int, micros: int, n: int)
    ensures Iso(second * MICROS) == second
    ensures Iso(micros - n * MICROS) == Iso(micros) - n
  {
  }

  lemma OneCallMore(calls: seq<Call>, c: Call, exportLimit: int, feedbackLimit: int)
    ensures Run(calls + [c], exportLimit, feedbackLimit)
         == Apply(Run(calls, exportLimit, feedbackLimit), c, exportLimit, feedbackLimit)
  {
    assert (calls + [c])[..|calls|] == calls;
  }

  /** A start with both readings of the clock at the beginning of this second. */
  function StartAt(id: string, server: string, tenant: string, second: int): Call {
    StartExport(id, server, tenant, second * MICROS, second * MICROS)
  }

  /** Other ids than this one, all different. */
  function Drawn(id: string, n: nat): string { id + seq(n + 1, _ => 'a') }

  /** So many exports of one tenant, all started in one second, each under an id of its own. */
  ghost function Starts(id: string, server: string, tenant: string, second: int, n: nat): seq<Event> {
    if n == 0 then []
    else Starts(id, server, tenant, second, n - 1) + [Event(tenant, server, ExportRequested(Drawn(id, n - 1), second))]
  }

  /** No export id is in the log twice. */
  ghost predicate FreshIds(events: seq<Event>) {
    forall i, j | 0 <= i < j < |events| && events[i].kind.ExportRequested? && events[j].kind.ExportRequested? ::
      events[i].kind.id != events[j].kind.id
  }

  lemma {:induction false} StartsAre(id: string, server: string, tenant: string, second: int, n: nat)
    ensures var events := Starts(id, server, tenant, second, n);
            |events| == n && forall i | 0 <= i < n :: events[i] == Event(tenant, server, ExportRequested(Drawn(id, i), second))
  {
    if n > 0 {
      StartsAre(id, server, tenant, second, n - 1);
    }
  }

  lemma StartsAreFresh(id: string, server: string, tenant: string, second: int, n: nat, at: int)
    ensures FreshIds(Starts(id, server, tenant, second, n) + [Event(tenant, server, ExportRequested(id, at))])
  {
    StartsAre(id, server, tenant, second, n);
    assert forall i: nat :: |Drawn(id, i)| == |id| + i + 1;
  }

  lemma {:induction false} StartsCount(id: string, server: string, tenant: string, second: int, n: nat, since: int, a: int)
    ensures var events := Starts(id, server, tenant, second, n);
            && CountExports(events, tenant, since) == (if second > since then n else 0)
            && InDay(events, tenant, a) == (if a < second <= a + DAY then n else 0)
  {
    if n > 0 {
      StartsCount(id, server, tenant, second, n - 1, since, a);
      var init := Starts(id, server, tenant, second, n - 1);
      assert Starts(id, server, tenant, second, n)[..|init|] == init;
    }
  }

  /** With no export there and room in the day, the start is made. */
  lemma StartIsMade(d: Tables, id: string, server: string, tenant: string, windowAt: int, stampAt: int,
                    exportLimit: int, feedbackLimit: int)
    requires d.exports == map[] && CountExports(d.events, tenant, Iso(windowAt) - DAY) < exportLimit
    ensures var d' := Apply(d, StartExport(id, server, tenant, windowAt, stampAt), exportLimit, feedbackLimit);
            d'.events == d.events + [Event(tenant, server, ExportRequested(id, Iso(stampAt)))]
            && d' == d.(events := d'.events, exports := d'.exports)
  {
    IsoShifts(0, windowAt, DAY);
    assert CanReserveExport(d, server, tenant, exportLimit, Iso(windowAt) - DAY);
  }

  /** One server, ready, and this log. */
  function ReadyWith(server: string, tenant: string, events: seq<Event>): Tables {
    EMPTY.(servers := map[server := ServerRow(tenant, Ready)], events := events)
  }

  lemma ServerIsMade(server: string, tenant: string, exportLimit: int, feedbackLimit: int) returns (calls: seq<Call>)
    ensures AllSteady(calls)
    ensures Run(calls, exportLimit, feedbackLimit) == ReadyWith(server, tenant, [])
  {
    assert EMPTY.events + [] == [];
    assert LeavesTheCount(EMPTY, ReadyWith(server, tenant, []));
    OneCallMore([], Others(ReadyWith(server, tenant, [])), exportLimit, feedbackLimit);
    calls := [] + [Others(ReadyWith(server, tenant, []))];
  }

  /** Ending and deleting every export leaves the count. */
  lemma EndingsAreOthers(d: Tables, exportLimit: int, feedbackLimit: int)
    ensures Apply(d, Others(d.(exports := map[])), exportLimit, feedbackLimit) == d.(exports := map[])
  {
    assert d.events == d.events + [];
  }

  /** A tenant may use its whole day in one second, each export ended and deleted before the next. */
  lemma {:induction false} FullSecond(id: string, server: string, tenant: string, second: int, n: nat,
                                      exportLimit: int, feedbackLimit: int)
    returns (calls: seq<Call>)
    requires n <= exportLimit
    ensures AllSteady(calls)
    ensures Run(calls, exportLimit, feedbackLimit) == ReadyWith(server, tenant, Starts(id, server, tenant, second, n))
  {
    if n == 0 {
      calls := ServerIsMade(server, tenant, exportLimit, feedbackLimit);
    } else {
      var init := FullSecond(id, server, tenant, second, n - 1, exportLimit, feedbackLimit);
      calls := OneStartMore(init, id, server, tenant, second, n - 1, exportLimit, feedbackLimit);
    }
  }

  lemma OneStartMore(init: seq<Call>, id: string, server: string, tenant: string, second: int, n: nat,
                     exportLimit: int, feedbackLimit: int)
    returns (calls: seq<Call>)
    requires n < exportLimit && AllSteady(init)
    requires Run(init, exportLimit, feedbackLimit) == ReadyWith(server, tenant, Starts(id, server, tenant, second, n))
    ensures AllSteady(calls)
    ensures Run(calls, exportLimit, feedbackLimit) == ReadyWith(server, tenant, Starts(id, server, tenant, second, n + 1))
  {
    var other := Drawn(id, n);
    var start, d := StartAt(other, server, tenant, second), Run(init, exportLimit, feedbackLimit);
    StartsCount(id, server, tenant, second, n, second - DAY, 0);
    IsoShifts(second, 0, 0);
    StartIsMade(d, other, server, tenant, second * MICROS, second * MICROS, exportLimit, feedbackLimit);
    OneCallMore(init, start, exportLimit, feedbackLimit);
    var started := Run(init + [start], exportLimit, feedbackLimit);
    EndingsAreOthers(started, exportLimit, feedbackLimit);
    OneCallMore(init + [start], Others(started.(exports := map[])), exportLimit, feedbackLimit);
    calls := init + [start] + [Others(started.(exports := map[]))];
  }

  /** When a step back hurts most: as the earlier second leaves the window, or when the step is longer than that. */
  function Worst(window: int, stamp: int, width: int): int { if stamp < window - width then stamp else window - width }

  /** Whenever the clock steps back inside a start, that start, of a ready server, can be one too many for a day. */
  lemma SteppingBackBreaksTheDay(id: string, server: string, tenant: string, windowAt: int, stampAt: int,
                                 exportLimit: int, feedbackLimit: int)
    returns (calls: seq<Call>, a: int)
    requires exportLimit >= 1 && Iso(stampAt) < Iso(windowAt)
    ensures AllSteady(calls)
    ensures var d := Run(calls, exportLimit, feedbackLimit); server in d.servers && d.servers[server] == ServerRow(tenant, Ready)
    ensures var d := Run(calls + [StartExport(id, server, tenant, windowAt, stampAt)], exportLimit, feedbackLimit);
            InDay(d.events, tenant, a) == exportLimit + 1 && FreshIds(d.events)
  {
    var stamp := Iso(stampAt);
    var second := Worst(Iso(windowAt), stamp, DAY);
    a := second - 1;
    calls := FullSecond(id, server, tenant, second, exportLimit, exportLimit, feedbackLimit);
    StartsCount(id, server, tenant, second, exportLimit, Iso(windowAt) - DAY, a);
    var d := Run(calls, exportLimit, feedbackLimit);
    StartIsMade(d, id, server, tenant, windowAt, stampAt, exportLimit, feedbackLimit);
    OneCallMore(calls, StartExport(id, server, tenant, windowAt, stampAt), exportLimit, feedbackLimit);
    OneMoreExport(d.events, Event(tenant, server, ExportRequested(id, stamp)), tenant, a);
    StartsAreFresh(id, server, tenant, second, exportLimit, stamp);
  }

  ghost function Messages(username: string, second: int, n: nat): seq<FeedbackRow> {
    if n == 0 then [] else Messages(username, second, n - 1) + [FeedbackRow(username, second)]
  }

  lemma {:induction false} MessagesCount(username: string, second: int, n: nat, since: int, a: int)
    ensures var rows := Messages(username, second, n);
            && CountFeedback(rows, username, since) == (if second >= since then n else 0)
            && InHour(rows, username, a) == (if a <= second <= a + HOUR then n else 0)
  {
    if n > 0 {
      MessagesCount(username, second, n - 1, since, a);
      var init := Messages(username, second, n - 1);
      assert Messages(username, second, n)[..|init|] == init;
    }
  }

  lemma MessageIsKept(d: Tables, username: string, windowAt: int, stampAt: int, exportLimit: int, feedbackLimit: int)
    requires CountFeedback(d.feedback, username, Iso(windowAt) - HOUR) < feedbackLimit
    ensures Apply(d, LeaveFeedback(username, windowAt, stampAt), exportLimit, feedbackLimit)
         == d.(feedback := d.feedback + [FeedbackRow(username, Iso(stampAt))])
  {
    IsoShifts(0, windowAt, HOUR);
  }

  lemma {:induction false} FullOfMessages(username: string, second: int, n: nat, exportLimit: int, feedbackLimit: int)
    returns (calls: seq<Call>)
    requires n <= feedbackLimit
    ensures AllSteady(calls)
    ensures Run(calls, exportLimit, feedbackLimit) == EMPTY.(feedback := Messages(username, second, n))
  {
    calls := [];
    if n > 0 {
      var init := FullOfMessages(username, second, n - 1, exportLimit, feedbackLimit);
      calls := OneMessageMore(init, username, second, n - 1, exportLimit, feedbackLimit);
    }
  }

  lemma OneMessageMore(init: seq<Call>, username: string, second: int, n: nat, exportLimit: int, feedbackLimit: int)
    returns (calls: seq<Call>)
    requires n < feedbackLimit && AllSteady(init)
    requires Run(init, exportLimit, feedbackLimit) == EMPTY.(feedback := Messages(username, second, n))
    ensures AllSteady(calls)
    ensures Run(calls, exportLimit, feedbackLimit) == EMPTY.(feedback := Messages(username, second, n + 1))
  {
    var message, at := LeaveFeedback(username, second * MICROS, second * MICROS), second * MICROS;
    MessagesCount(username, second, n, second - HOUR, 0);
    IsoShifts(second, 0, 0);
    MessageIsKept(Run(init, exportLimit, feedbackLimit), username, at, at, exportLimit, feedbackLimit);
    OneCallMore(init, message, exportLimit, feedbackLimit);
    calls := init + [message];
  }

  /** So too for a message and its hour. */
  lemma SteppingBackBreaksTheHour(username: string, windowAt: int, stampAt: int, exportLimit: int, feedbackLimit: int)
    returns (calls: seq<Call>, a: int)
    requires feedbackLimit >= 1 && Iso(stampAt) < Iso(windowAt)
    ensures AllSteady(calls)
    ensures var d := Run(calls + [LeaveFeedback(username, windowAt, stampAt)], exportLimit, feedbackLimit);
            InHour(d.feedback, username, a) == feedbackLimit + 1
  {
    var stamp := Iso(stampAt);
    a := Worst(Iso(windowAt), stamp, HOUR + 1);
    calls := FullOfMessages(username, a, feedbackLimit, exportLimit, feedbackLimit);
    MessagesCount(username, a, feedbackLimit, Iso(windowAt) - HOUR, a);
    var d := Run(calls, exportLimit, feedbackLimit);
    MessageIsKept(d, username, windowAt, stampAt, exportLimit, feedbackLimit);
    OneCallMore(calls, LeaveFeedback(username, windowAt, stampAt), exportLimit, feedbackLimit);
    OneMoreMessage(d.feedback, FeedbackRow(username, stamp), username, a);
  }

  /** After every steady history the call leaves both limits standing. */
  ghost predicate AlwaysSafe(c: Call, exportLimit: int, feedbackLimit: int) {
    forall calls | AllSteady(calls) :: Bounded(Run(calls + [c], exportLimit, feedbackLimit), exportLimit, feedbackLimit)
  }

  function LimitOf(c: Call, exportLimit: int, feedbackLimit: int): int {
    if c.StartExport? then exportLimit else feedbackLimit
  }

  /** A call is safe after every steady history exactly when it is steady itself, or its limit lets nothing in. */
  lemma SafeExactlyWhenSteady(c: Call, exportLimit: int, feedbackLimit: int)
    requires !c.Others?
    ensures AlwaysSafe(c, exportLimit, feedbackLimit) <==> Steady(c) || LimitOf(c, exportLimit, feedbackLimit) < 1
  {
    if Steady(c) || LimitOf(c, exportLimit, feedbackLimit) < 1 {
      forall calls | AllSteady(calls)
        ensures Bounded(Run(calls + [c], exportLimit, feedbackLimit), exportLimit, feedbackLimit)
      {
        WindowsStayBounded(calls, exportLimit, feedbackLimit);
        OneCallMore(calls, c, exportLimit, feedbackLimit);
        if Steady(c) {
          CallKeepsBounds(Run(calls, exportLimit, feedbackLimit), c, exportLimit, feedbackLimit);
        }
      }
    } else if c.StartExport? {
      var calls, a := SteppingBackBreaksTheDay(c.id, c.server, c.tenant, c.windowAt, c.stampAt, exportLimit, feedbackLimit);
      assert !Bounded(Run(calls + [c], exportLimit, feedbackLimit), exportLimit, feedbackLimit);
    } else {
      var calls, a := SteppingBackBreaksTheHour(c.username, c.windowAt, c.stampAt, exportLimit, feedbackLimit);
      assert !Bounded(Run(calls + [c], exportLimit, feedbackLimit), exportLimit, feedbackLimit);
    }
  }

  // --- when the next one frees up --------------------------------------------------------

  /** `MIN(at)` of the counted events. */
  function Oldest(events: seq<Event>, tenant: string, since: int): Option<int> {
    if events == [] then None
    else
      var e, rest := events[|events| - 1], Oldest(events[..|events| - 1], tenant, since);
      if !(e.tenant == tenant && e.kind.ExportRequested? && e.kind.at > since) then rest
      else if rest.Some? && rest.value <= e.kind.at then rest
      else Some(e.kind.at)
  }

  /** `int(...)` of a `timedelta` in seconds: truncated towards zero. */
  function Truncated(micros: int): int {
    if micros >= 0 then micros / MICROS else -(-micros / MICROS)
  }

  /** What `_refuse_export` tells a tenant at the limit. */
  function RetryAfter(oldest: Option<int>, now: int, later: int): int {
    var freesAt := if oldest.Some? then (oldest.value + DAY) * MICROS else now + DAY * MICROS;
    var wait := Truncated(freesAt - later);
    if wait < 1 then 1 else wait
  }

  predicate Counted(e: Event, tenant: string, since: int) {
    e.tenant == tenant && e.kind.ExportRequested? && e.kind.at > since
  }

  /** The oldest start reported is a counted one, and the earliest of them; none is reported exactly when none counts. */
  lemma {:induction false} OldestIsCounted(events: seq<Event>, tenant: string, since: int)
    ensures Oldest(events, tenant, since).None? <==> CountExports(events, tenant, since) == 0
    ensures Oldest(events, tenant, since).None? ==> forall e | e in events :: !Counted(e, tenant, since)
    ensures Oldest(events, tenant, since).Some? ==>
              var oldest := Oldest(events, tenant, since).value;
              && CountExports(events, tenant, oldest) < CountExports(events, tenant, since)
              && (exists e :: e in events && Counted(e, tenant, since) && e.kind.at == oldest)
              && (forall e | e in events && Counted(e, tenant, since) :: e.kind.at >= oldest)
  {
    if events != [] {
      var init, e := events[..|events| - 1], events[|events| - 1];
      OldestIsCounted(init, tenant, since);
      assert forall x :: x in events <==> x in init || x == e;
      if Oldest(events, tenant, since).Some? {
        CountFallsWithTime(init, tenant, since, Oldest(events, tenant, since).value);
      }
    }
  }

  lemma {:induction false} CountFallsWithTime(events: seq<Event>, tenant: string, since: int, later: int)
    requires since <= later
    ensures CountExports(events, tenant, later) <= CountExports(events, tenant, since)
  {
    if events != [] {
      CountFallsWithTime(events[..|events| - 1], tenant, since, later);
    }
  }

  lemma {:induction false} CountIsADay(events: seq<Event>, tenant: string, since: int)
    requires forall e | e in events && e.tenant == tenant && e.kind.ExportRequested? :: e.kind.at <= since + DAY
    ensures CountExports(events, tenant, since) == InDay(events, tenant, since)
  {
    if events != [] {
      assert events[|events| - 1] in events && forall e | e in events[..|events| - 1] :: e in events;
      CountIsADay(events[..|events| - 1], tenant, since);
    }
  }

  /**
   A tenant refused at the daily limit is told to wait between one second and a
   day; starting nothing more, it is let in again no later than one second after that.
   */
  lemma RetryAfterIsEnough(calls: seq<Call>, exportLimit: int, feedbackLimit: int, tenant: string,
                           now: int, later: int, more: seq<Event>, again: int)
    requires exportLimit >= 1 && now <= later && AllSteady(calls)
    requires var d := Run(calls, exportLimit, feedbackLimit);
             && CountExports(d.events, tenant, Iso(now - DAY * MICROS)) >= exportLimit
             // the clock has not run backwards past a recorded start
             && forall e | e in d.events && e.tenant == tenant && e.kind.ExportRequested? :: e.kind.at <= Iso(now)
    requires forall e | e in more :: !CountsExport(e)
    ensures var d := Run(calls, exportLimit, feedbackLimit);
            var retry := RetryAfter(Oldest(d.events, tenant, Iso(now - DAY * MICROS)), now, later);
            && 1 <= retry <= 86_400
            && (again >= later + (retry + 1) * MICROS ==>
                  CountExports(d.events + more, tenant, Iso(again - DAY * MICROS)) < exportLimit)
  {
    var d := Run(calls, exportLimit, feedbackLimit);
    var since := Iso(now - DAY * MICROS);
    assert since == Iso(now) - DAY;
    WindowsStayBounded(calls, exportLimit, feedbackLimit);
    CountIsADay(d.events, tenant, since);
    OldestIsCounted(d.events, tenant, since);
    var oldest := Oldest(d.events, tenant, since).value;
    var retry := RetryAfter(Some(oldest), now, later);
    if again >= later + (retry + 1) * MICROS {
      var since' := Iso(again - DAY * MICROS);
      assert since' >= oldest;
      CountFallsWithTime(d.events, tenant, oldest, since');
      OthersCountNothing(d.events, more, tenant, since');
    }
  }

  /** The whole seconds until a start is 24 hours old, and at least one. */
  predicate IsTheWait(start: int, now: int, wait: int) {
    var left := (start + 86_400) * 1_000_000 - now;
    wait >= 1 && if left >= 2_000_000 then wait * 1_000_000 <= left < (wait + 1) * 1_000_000 else wait == 1
  }

  lemma RetryAfterIsTheWait(oldest: int, now: int, later: int)
    ensures IsTheWait(oldest, later, RetryAfter(Some(oldest), now, later))
  {
  }

  /** A tenant with starts in the last 24 hours is told the wait for the first of them. */
  lemma TheFirstIsWaitedFor(events: seq<Event>, tenant: string, window: int, now: int, later: int)
    requires CountExports(events, tenant, Iso(window - DAY * MICROS)) > 0
    ensures exists i: nat ::
              && i in StartsLately(events, tenant, window)
              && (forall j | j in StartsLately(events, tenant, window) :: events[i].kind.at <= events[j].kind.at)
              && IsTheWait(events[i].kind.at, later, RetryAfter(Oldest(events, tenant, Iso(window - DAY * MICROS)), now, later))
  {
    var since := Iso(window - DAY * MICROS);
    OldestIsCounted(events, tenant, since);
    var oldest := Oldest(events, tenant, since).value;
    var e :| e in events && Counted(e, tenant, since) && e.kind.at == oldest;
    var i: nat :| i < |events| && events[i] == e;
    assert i in StartsLately(events, tenant, window);
    forall j | j in StartsLately(events, tenant, window)
      ensures events[i].kind.at <= events[j].kind.at
    {
      assert events[j] in events && Counted(events[j], tenant, since);
    }
    RetryAfterIsTheWait(oldest, now, later);
  }

  /** No shorter wait would do: until then the count stays what it was. */
  lemma RetryAfterIsNeeded(events: seq<Event>, tenant: string, now: int, later: int, again: int)
    requires CountExports(events, tenant, Iso(now - DAY * MICROS)) > 0 && now <= again
    requires var retry := RetryAfter(Oldest(events, tenant, Iso(now - DAY * MICROS)), now, later);
             retry > 1 && again < later + retry * MICROS
    ensures CountExports(events, tenant, Iso(again - DAY * MICROS)) == CountExports(events, tenant, Iso(now - DAY * MICROS))
  {
    var since, since' := Iso(now - DAY * MICROS), Iso(again - DAY * MICROS);
    OldestIsCounted(events, tenant, since);
    var oldest := Oldest(events, tenant, since).value;
    RetryAfterIsTheWait(oldest, now, later);
    assert since' < oldest;
    CountUntilOldest(events, tenant, since, since');
  }

  lemma {:induction false} CountUntilOldest(events: seq<Event>, tenant: string, since: int, later: int)
    requires since <= later && forall e | e in events && Counted(e, tenant, since) :: e.kind.at > later
    ensures CountExports(events, tenant, later) == CountExports(events, tenant, since)
  {
    if events != [] {
      assert events[|events| - 1] in events && forall e | e in events[..|events| - 1] :: e in events;
      CountUntilOldest(events[..|events| - 1], tenant, since, later);
    }
  }

  /** The extra second is needed: half a second past a start, the wait it names is half a second short. */
  lemma TheExtraSecondIsNeeded(tenant: string, server: string)
    ensures var events := [Event(tenant, server, ExportRequested("a", 0))];
            var now := MICROS / 2;
            var retry := RetryAfter(Oldest(events, tenant, Iso(now - DAY * MICROS)), now, now);
            && CountExports(events, tenant, Iso(now + retry * MICROS - DAY * MICROS)) == 1
            && CountExports(events, tenant, Iso(now + (retry + 1) * MICROS - DAY * MICROS)) == 0
  {
    var events := [Event(tenant, server, ExportRequested("a", 0))];
    assert events[..0] == [];
    assert Oldest(events[..0], tenant, -DAY) == None;
    assert Oldest(events, tenant, -DAY) == Some(0);
  }
}
