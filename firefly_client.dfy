// FireflyClient (firefly-tracker/backend/src/firefly/client.rs): the retry
// policy of `request_with_retry` and the sampling schedule of
// `get_account_balances`. The HTTP exchange itself is an input: `reply(k)`
// is what attempt `k` gets back, and `fetch(t)` is the balance request for
// date-time `t`, None when it fails.

module FireflyClient {
  import opened Base
  import opened Calendar
  import opened Sorting

  // ------------------------------------------------------------- retries

  /** What one attempt of `request_with_retry` gets: the request could not
      be cloned, the send failed (network, timeout, connection), or a
      response with a status code whose body did or did not parse as JSON. */
  datatype Reply = CloneFailed | NetworkFailure | Response(status: int, parses: bool)

  predicate IsSuccess(status: int) {
    200 <= status <= 299
  }

  /** `RequestOptions::default().retry_on_status`. */
  const DefaultRetryStatuses: seq<int> := [408, 429, 500, 502, 503, 504]

  /** The result: the parsed body of attempt `attempts`, or the error of
      attempt `attempts` with what that attempt got. */
  datatype RetryOutcome = Parsed(attempts: nat) | Failed(attempts: nat, cause: Reply)

  /** After attempt `k` got `reply`, the loop tries again. */
  predicate RetriesAfter(reply: Reply, k: nat, maxRetries: nat, retryOn: seq<int>) {
    match reply
    case CloneFailed => false
    case NetworkFailure => k <= maxRetries
    case Response(status, _) => !IsSuccess(status) && k <= maxRetries && status in retryOn
  }

  /** The loop from attempt `k` on. */
  function RetryFrom(maxRetries: nat, retryOn: seq<int>, reply: nat -> Reply, k: nat): RetryOutcome
    requires k >= 1
    decreases maxRetries + 1 - k
  {
    if RetriesAfter(reply(k), k, maxRetries, retryOn) then RetryFrom(maxRetries, retryOn, reply, k + 1)
    else if reply(k).Response? && IsSuccess(reply(k).status) && reply(k).parses then Parsed(k)
    else Failed(k, reply(k))
  }

  /** 2 to the power `k`. */
  function Pow2(k: nat): (r: nat)
    ensures r >= 1
  {
    if k == 0 then 1 else 2 * Pow2(k - 1)
  }

  /** The backoff before attempt `k + 1`: `base_delay * 2^(k-1)`. */
  function Backoff(baseDelay: nat, k: nat): nat
    requires k >= 1
  {
    baseDelay * Pow2(k - 1)
  }

  /** `request_with_retry`: `delays` are the sleeps between attempts. */
  method RequestWithRetry(maxRetries: nat, baseDelay: nat, retryOn: seq<int>, reply: nat -> Reply)
    returns (r: RetryOutcome, delays: seq<nat>)
    ensures r == RetryFrom(maxRetries, retryOn, reply, 1)
    ensures |delays| == r.attempts - 1
    ensures forall j :: 0 <= j < |delays| ==> delays[j] == Backoff(baseDelay, j + 1)
  {
    var attempt := 0;
    delays := [];
    while true
      invariant 0 <= attempt <= maxRetries
      invariant RetryFrom(maxRetries, retryOn, reply, attempt + 1) == RetryFrom(maxRetries, retryOn, reply, 1)
      invariant |delays| == attempt
      invariant forall j :: 0 <= j < |delays| ==> delays[j] == Backoff(baseDelay, j + 1)
      decreases maxRetries - attempt
    {
      attempt := attempt + 1;
      var got := reply(attempt);
      match got {
        case CloneFailed =>
          return Failed(attempt, got), delays;
        case Response(status, parses) =>
          if IsSuccess(status) {
            if parses {
              return Parsed(attempt), delays;
            }
            // a body that does not parse is not retried
            return Failed(attempt, got), delays;
          }
          if !(attempt <= maxRetries && status in retryOn) {
            return Failed(attempt, got), delays;
          }
        case NetworkFailure =>
          if !(attempt <= maxRetries) {
            return Failed(attempt, got), delays;
          }
      }
      delays := delays + [baseDelay * Pow2(attempt - 1)];
    }
  }

  /** The outcome as a whole: every attempt before the last one got a reply
      that is retried, the last one did not, and the result is the parsed
      body exactly when the last reply was a success that parsed. */
  lemma {:induction false} RetryCharacterised(maxRetries: nat, retryOn: seq<int>, reply: nat -> Reply, k: nat)
    requires k >= 1
    ensures var r := RetryFrom(maxRetries, retryOn, reply, k);
      && k <= r.attempts <= (if k <= maxRetries + 1 then maxRetries + 1 else k)
      && (forall j :: k <= j < r.attempts ==> RetriesAfter(reply(j), j, maxRetries, retryOn))
      && !RetriesAfter(reply(r.attempts), r.attempts, maxRetries, retryOn)
      && (r.Parsed? <==> reply(r.attempts).Response? && IsSuccess(reply(r.attempts).status) && reply(r.attempts).parses)
      && (r.Failed? ==> r.cause == reply(r.attempts))
    decreases maxRetries + 1 - k
  {
    if RetriesAfter(reply(k), k, maxRetries, retryOn) {
      RetryCharacterised(maxRetries, retryOn, reply, k + 1);
    }
  }

  /** At most `max_retries + 1` attempts are made. */
  lemma AttemptsBounded(maxRetries: nat, retryOn: seq<int>, reply: nat -> Reply)
    ensures 1 <= RetryFrom(maxRetries, retryOn, reply, 1).attempts <= maxRetries + 1
  {
    RetryCharacterised(maxRetries, retryOn, reply, 1);
  }

  /** A success whose body does not parse ends the loop with an error: no
      attempt follows it. */
  lemma ParseFailureNotRetried(maxRetries: nat, retryOn: seq<int>, reply: nat -> Reply, k: nat)
    requires k >= 1 && reply(k).Response? && IsSuccess(reply(k).status) && !reply(k).parses
    ensures RetryFrom(maxRetries, retryOn, reply, 1).attempts <= k
    ensures RetryFrom(maxRetries, retryOn, reply, 1).attempts == k ==> RetryFrom(maxRetries, retryOn, reply, 1).Failed?
  {
    RetryCharacterised(maxRetries, retryOn, reply, 1);
  }

  /** An error status outside the retry list ends the loop with an error. */
  lemma UnlistedStatusNotRetried(maxRetries: nat, retryOn: seq<int>, reply: nat -> Reply, k: nat)
    requires k >= 1 && reply(k).Response? && !IsSuccess(reply(k).status) && reply(k).status !in retryOn
    ensures RetryFrom(maxRetries, retryOn, reply, 1).attempts <= k
    ensures RetryFrom(maxRetries, retryOn, reply, 1).attempts == k ==>
      RetryFrom(maxRetries, retryOn, reply, 1) == Failed(k, reply(k))
  {
    RetryCharacterised(maxRetries, retryOn, reply, 1);
  }

  /** With nothing but network failures, exactly `max_retries + 1` attempts
      are made and the last failure is returned. */
  lemma NetworkFailuresExhaustRetries(maxRetries: nat, retryOn: seq<int>, reply: nat -> Reply)
    requires forall j :: reply(j) == NetworkFailure
    ensures RetryFrom(maxRetries, retryOn, reply, 1) == Failed(maxRetries + 1, NetworkFailure)
  {
    RetryCharacterised(maxRetries, retryOn, reply, 1);
  }

  /** The default list retries the transient statuses only. */
  lemma DefaultRetryStatusesAreTransient(status: int)
    ensures status in DefaultRetryStatuses <==> status in {408, 429, 500, 502, 503, 504}
  {
  }

  // ----------------------------------------------------------- frequency

  datatype Frequency = Auto | Daily | Weekly | Monthly

  /** The frequency `get_account_balances` uses for a range of `days` days:
      an explicit frequency is kept; Auto (or none) is Daily up to 30 days,
      Weekly up to 90 and Monthly beyond. */
  function EffectiveFrequency(frequency: Option<Frequency>, days: int): (f: Frequency)
    ensures f != Auto
    ensures frequency.Some? && frequency.value != Auto ==> f == frequency.value
    ensures frequency.None? || frequency == Some(Auto) ==>
      && (f == Daily <==> days <= 30)
      && (f == Weekly <==> 30 < days <= 90)
      && (f == Monthly <==> 90 < days)
  {
    match frequency.GetOr(Auto)
    case Auto => if days <= 30 then Daily else if days <= 90 then Weekly else Monthly
    case specific => specific
  }

  /** The length of the range, counting both ends:
      `(end.date_naive() - start.date_naive()).num_days() + 1`. */
  function RangeDays(start: DateTime, end: DateTime): int
    requires ValidTime(start) && ValidTime(end)
  {
    DaysBetween(start.date, end.date) + 1
  }

  /** A range that ends `n` days after it starts spans `n + 1` days. */
  lemma RangeDaysCountsBothEnds(start: DateTime, n: nat, time: int)
    requires ValidTime(start) && 0 <= time < DayLength
    ensures RangeDays(start, DateTime(AddDays(start.date, n), time)) == n + 1
  {
    DaysBetweenIsForward(start.date, n);
  }

  /** The days a range reaches back when no start is given. */
  const DefaultRangeDays := 180

  /** The range `get_account_balances` covers: the end given or now, and
      the start given or 180 days before the end, at the same time of day. */
  function Window(startDate: Option<DateTime>, endDate: Option<DateTime>, now: DateTime): (w: (DateTime, DateTime))
    requires ValidTime(now)
    requires startDate.Some? ==> ValidTime(startDate.value)
    requires endDate.Some? ==> ValidTime(endDate.value)
    ensures ValidTime(w.0) && ValidTime(w.1)
    ensures w.1 == (if endDate.Some? then endDate.value else now)
    ensures startDate.Some? ==> w.0 == startDate.value
    ensures startDate.None? ==> AddDaysTime(w.0, DefaultRangeDays) == w.1
  {
    var end := if endDate.Some? then endDate.value else now;
    if startDate.Some? then (startDate.value, end)
    else
      AddSubDays(end.date, DefaultRangeDays);
      (SubDaysTime(end, DefaultRangeDays), end)
  }

  /** Without a start date the range spans 181 days, so without an explicit
      frequency the balances are monthly. */
  lemma DefaultWindowIsMonthly(endDate: Option<DateTime>, now: DateTime, frequency: Option<Frequency>)
    requires ValidTime(now)
    requires endDate.Some? ==> ValidTime(endDate.value)
    requires frequency.None? || frequency == Some(Auto)
    ensures var (start, end) := Window(None, endDate, now);
      RangeDays(start, end) == DefaultRangeDays + 1 && EffectiveFrequency(frequency, RangeDays(start, end)) == Monthly
  {
    var (start, end) := Window(None, endDate, now);
    RangeDaysCountsBothEnds(start, DefaultRangeDays, end.time);
  }

  // ------------------------------------------------------------ schedules

  /** Every month start before month number `idx` that lies in
      [`start`, `end`] is among `dates`. */
  ghost predicate MonthsCovered(start: DateTime, end: DateTime, dates: seq<DateTime>, idx: int) {
    forall y, m :: 1 <= m <= 12 && MonthIndex(y, m) < idx && Stamp(start) <= Stamp(MonthStart(y, m)) <= Stamp(end) ==>
      MonthStart(y, m) in dates
  }

  /** Each of `dates` is a month start in [`start`, `end`]. */
  ghost predicate MonthStartsIn(start: DateTime, end: DateTime, dates: seq<DateTime>) {
    forall i :: 0 <= i < |dates| ==>
      dates[i].date.day == 1 && dates[i].time == 0 && Valid(dates[i].date)
      && Stamp(start) <= Stamp(dates[i]) <= Stamp(end)
  }

  predicate Increasing(dates: seq<DateTime>) {
    forall i, j :: 0 <= i < j < |dates| ==> Stamp(dates[i]) < Stamp(dates[j])
  }

  /** The dates the monthly branch asks for: midnight on the first of every
      month from the month of `start` on, while not after `end`, keeping
      those not before `start`. */
  method MonthlyDates(start: DateTime, end: DateTime) returns (dates: seq<DateTime>)
    requires ValidTime(start) && ValidTime(end)
    ensures MonthStartsIn(start, end, dates)
    ensures Increasing(dates)
    ensures forall y, m :: 1 <= m <= 12 && Stamp(start) <= Stamp(MonthStart(y, m)) <= Stamp(end) ==>
      MonthStart(y, m) in dates
  {
    var year, month := start.date.year, start.date.month;
    dates := [];
    MonthsCoveredInitially(start, end);
    while Stamp(MonthStart(year, month)) <= Stamp(end)
      invariant 1 <= month <= 12
      invariant MonthStartsIn(start, end, dates) && Increasing(dates)
      invariant forall i :: 0 <= i < |dates| ==> Stamp(dates[i]) < Stamp(MonthStart(year, month))
      invariant MonthsCovered(start, end, dates, MonthIndex(year, month))
      decreases Stamp(end) - Stamp(MonthStart(year, month))
    {
      var date := MonthStart(year, month);
      ghost var before := dates;
      if Stamp(date) >= Stamp(start) {
        dates := dates + [date];
      }
      MonthsCoveredStep(start, end, before, dates, year, month);
      var (ny, nm) := NextMonth(year, month);
      MonthStartOrder(year, month, ny, nm);
      year, month := ny, nm;
    }
    MonthsCoveredFinally(start, end, dates, year, month);
  }

  lemma MonthsCoveredInitially(start: DateTime, end: DateTime)
    requires ValidTime(start)
    ensures MonthsCovered(start, end, [], MonthIndex(start.date.year, start.date.month))
  {
    forall y, m | 1 <= m <= 12 && MonthIndex(y, m) < MonthIndex(start.date.year, start.date.month)
      ensures Stamp(MonthStart(y, m)) < Stamp(start)
    {
      StampIsLexicographic(MonthStart(y, m), start);
    }
  }

  lemma MonthsCoveredStep(start: DateTime, end: DateTime, before: seq<DateTime>, after: seq<DateTime>,
                          year: int, month: int)
    requires 1 <= month <= 12
    requires MonthsCovered(start, end, before, MonthIndex(year, month))
    requires after == if Stamp(MonthStart(year, month)) >= Stamp(start) then before + [MonthStart(year, month)] else before
    ensures MonthsCovered(start, end, after, MonthIndex(year, month) + 1)
  {
    forall y, m | 1 <= m <= 12 && MonthIndex(y, m) < MonthIndex(year, month) + 1
      && Stamp(start) <= Stamp(MonthStart(y, m)) <= Stamp(end)
      ensures MonthStart(y, m) in after
    {
      if MonthIndex(y, m) == MonthIndex(year, month) {
        assert y == year && m == month;
      } else {
        assert MonthStart(y, m) in before;
      }
    }
  }

  lemma MonthsCoveredFinally(start: DateTime, end: DateTime, dates: seq<DateTime>, year: int, month: int)
    requires 1 <= month <= 12 && Stamp(end) < Stamp(MonthStart(year, month))
    requires MonthsCovered(start, end, dates, MonthIndex(year, month))
    ensures forall y, m :: 1 <= m <= 12 && Stamp(start) <= Stamp(MonthStart(y, m)) <= Stamp(end) ==>
      MonthStart(y, m) in dates
  {
    forall y, m | 1 <= m <= 12 && Stamp(start) <= Stamp(MonthStart(y, m)) <= Stamp(end)
      ensures MonthStart(y, m) in dates
    {
      MonthStartOrder(year, month, y, m);
    }
  }

  /** `start` moved forward `k` steps of `step` days. */
  function Shifted(start: DateTime, k: nat, step: nat): (t: DateTime)
    requires ValidTime(start)
    ensures ValidTime(t) && t.time == start.time
  {
    if k == 0 then start else AddDaysTime(Shifted(start, k - 1, step), step)
  }

  /** The first `n` dates of the stepped schedule from `start`. */
  function SteppedRun(start: DateTime, n: nat, step: nat): (r: seq<DateTime>)
    requires ValidTime(start)
    ensures |r| == n && forall k {:trigger r[k]} :: 0 <= k < n ==> r[k] == Shifted(start, k, step)
  {
    if n == 0 then [] else SteppedRun(start, n - 1, step) + [Shifted(start, n - 1, step)]
  }

  /** The dates the daily and weekly branch asks for: `start`, then every
      `step` days after it, while not after `end`. */
  method SteppedDates(start: DateTime, end: DateTime, step: nat) returns (dates: seq<DateTime>)
    requires ValidTime(start) && ValidTime(end) && step >= 1
    ensures forall k {:trigger dates[k]} :: 0 <= k < |dates| ==> dates[k] == Shifted(start, k, step) && Stamp(dates[k]) <= Stamp(end)
    ensures Stamp(end) < Stamp(Shifted(start, |dates|, step))
  {
    var current := start;
    dates := [];
    while Stamp(current) <= Stamp(end)
      invariant current == Shifted(start, |dates|, step)
      invariant dates == SteppedRun(start, |dates|, step)
      invariant forall k {:trigger dates[k]} :: 0 <= k < |dates| ==> Stamp(dates[k]) <= Stamp(end)
      decreases Stamp(end) - Stamp(current)
    {
      dates := dates + [current];
      current := AddDaysTime(current, step);
    }
  }


  /** The stepped schedule is strictly increasing. */
  lemma {:induction false} ShiftedIncreasing(start: DateTime, i: nat, j: nat, step: nat)
    requires ValidTime(start) && i < j && step >= 1
    ensures Stamp(Shifted(start, i, step)) < Stamp(Shifted(start, j, step))
    decreases j
  {
    if i < j - 1 {
      ShiftedIncreasing(start, i, j - 1, step);
    }
  }

  // ------------------------------------------------------------- balances

  /** A balance as the client returns it; its date comes from the server. */
  datatype Balance = Balance(date: DateTime, amount: real)

  function BalanceStamp(b: Balance): int {
    Stamp(b.date)
  }

  /** The balances the requests for `dates` return: failed requests are
      skipped. */
  function Gathered(dates: seq<DateTime>, fetch: DateTime -> Option<Balance>): (r: seq<Balance>)
    ensures |r| <= |dates|
  {
    if dates == [] then []
    else
      var rest := Gathered(dates[..|dates| - 1], fetch);
      var last := fetch(dates[|dates| - 1]);
      if last.Some? then rest + [last.value] else rest
  }

  /** The closing sample of the monthly and weekly branches: a request for
      `end` itself, when something was gathered and the last balance is on
      another day and before `end`. */
  function Closing(gathered: seq<Balance>, end: DateTime, fetch: DateTime -> Option<Balance>): seq<Balance> {
    if gathered != [] && gathered[|gathered| - 1].date.date != end.date
       && Stamp(end) > Stamp(gathered[|gathered| - 1].date) && fetch(end).Some?
    then [fetch(end).value]
    else []
  }

  /** The dates requested for a frequency other than Auto. */
  ghost predicate Schedule(start: DateTime, end: DateTime, f: Frequency, dates: seq<DateTime>)
    requires ValidTime(start) && ValidTime(end)
  {
    if f == Monthly then
      && MonthStartsIn(start, end, dates)
      && Increasing(dates)
      && (forall y, m :: 1 <= m <= 12 && Stamp(start) <= Stamp(MonthStart(y, m)) <= Stamp(end) ==>
            MonthStart(y, m) in dates)
    else
      var step := if f == Weekly then 7 else 1;
      && (forall k {:trigger dates[k]} :: 0 <= k < |dates| ==> dates[k] == Shifted(start, k, step) && Stamp(dates[k]) <= Stamp(end))
      && Stamp(end) < Stamp(Shifted(start, |dates|, step))
  }

  /** `get_account_balances` past its cache: the effective frequency, the
      requests of its schedule, the closing sample (monthly and weekly
      only), then a sort by date. */
  method AccountBalances(startDate: Option<DateTime>, endDate: Option<DateTime>, now: DateTime,
                         frequency: Option<Frequency>, fetch: DateTime -> Option<Balance>)
    returns (balances: seq<Balance>, ghost start: DateTime, ghost end: DateTime, ghost f: Frequency, ghost dates: seq<DateTime>)
    requires ValidTime(now)
    requires startDate.Some? ==> ValidTime(startDate.value)
    requires endDate.Some? ==> ValidTime(endDate.value)
    ensures (start, end) == Window(startDate, endDate, now)
    ensures f == EffectiveFrequency(frequency, RangeDays(start, end))
    ensures Schedule(start, end, f, dates)
    ensures var gathered := Gathered(dates, fetch);
      multiset(balances) == multiset(gathered + (if f == Daily then [] else Closing(gathered, end, fetch)))
    ensures SortedBy(balances, BalanceStamp)
  {
    var window := Window(startDate, endDate, now);
    var from, to := window.0, window.1;
    start, end := from, to;
    var effective := EffectiveFrequency(frequency, RangeDays(from, to));
    f := effective;
    var requested := RequestedDates(from, to, effective);
    dates := requested;
    var gathered := GatherBalances(requested, fetch);
    var withClosing := AddClosing(gathered, to, effective, fetch);
    balances := SortBy(withClosing, BalanceStamp);
  }

  /** Outside the daily frequency, the balance at `end` is requested too
      when the last balance is from an earlier day. */
  method AddClosing(gathered: seq<Balance>, end: DateTime, f: Frequency, fetch: DateTime -> Option<Balance>)
    returns (r: seq<Balance>)
    ensures r == gathered + (if f == Daily then [] else Closing(gathered, end, fetch))
  {
    r := gathered;
    if f != Daily && gathered != [] {
      var last := gathered[|gathered| - 1].date;
      if end.date != last.date && Stamp(end) > Stamp(last) {
        var closing := fetch(end);
        if closing.Some? {
          r := gathered + [closing.value];
        }
      }
    }
  }

  /** The dates asked for at frequency `f`. */
  method RequestedDates(start: DateTime, end: DateTime, f: Frequency) returns (dates: seq<DateTime>)
    requires ValidTime(start) && ValidTime(end)
    ensures Schedule(start, end, f, dates)
  {
    if f == Monthly {
      dates := MonthlyDates(start, end);
    } else {
      dates := SteppedDates(start, end, if f == Weekly then 7 else 1);
    }
  }

  /** The request loop: one request per date, keeping the ones that return. */
  method GatherBalances(dates: seq<DateTime>, fetch: DateTime -> Option<Balance>) returns (gathered: seq<Balance>)
    ensures gathered == Gathered(dates, fetch)
  {
    gathered := [];
    for i := 0 to |dates|
      invariant gathered == Gathered(dates[..i], fetch)
    {
      assert dates[..i + 1][..i] == dates[..i];
      var b := fetch(dates[i]);
      if b.Some? {
        gathered := gathered + [b.value];
      }
    }
    assert dates[..|dates|] == dates;
  }

  /** When every request returns a balance, one is gathered per date, in
      the order of the dates. */
  lemma {:induction false} GatheredAll(dates: seq<DateTime>, fetch: DateTime -> Option<Balance>)
    requires forall i :: 0 <= i < |dates| ==> fetch(dates[i]).Some?
    ensures |Gathered(dates, fetch)| == |dates|
    ensures forall i :: 0 <= i < |dates| ==> Gathered(dates, fetch)[i] == fetch(dates[i]).value
  {
    if dates != [] {
      var init := dates[..|dates| - 1];
      GatheredAll(init, fetch);
      assert forall i :: 0 <= i < |init| ==> init[i] == dates[i];
    }
  }

  /** When moreover each balance is dated as asked, the stepped and monthly
      schedules already come out in date order, so the final sort changes
      nothing. */
  lemma GatheredInOrder(dates: seq<DateTime>, fetch: DateTime -> Option<Balance>)
    requires forall i, j :: 0 <= i < j < |dates| ==> Stamp(dates[i]) < Stamp(dates[j])
    requires forall i :: 0 <= i < |dates| ==> fetch(dates[i]).Some? && fetch(dates[i]).value.date == dates[i]
    ensures SortBy(Gathered(dates, fetch), BalanceStamp) == Gathered(dates, fetch)
  {
    GatheredAll(dates, fetch);
    var g := Gathered(dates, fetch);
    assert SortedBy(g, BalanceStamp) by {
      forall i, j | 0 <= i < j < |g|
        ensures BalanceStamp(g[i]) <= BalanceStamp(g[j])
      {
        assert g[i].date == dates[i] && g[j].date == dates[j];
      }
    }
    SortSorted(g, BalanceStamp);
  }
}
