/**
 * The revenue schedule generator (app/ASC606/revenue_schedule.py). Over-time obligations
 * (ASC 606-10-25-27) are cut into dated periods by a cursor that advances monthly,
 * quarterly, yearly or every N months; point-in-time obligations (ASC 606-10-25-30) get
 * one entry, or one per milestone, on the effective date.
 *
 * The `while` loops are specified by `WalkFrom`, which gives the entries a loop appends
 * from a cursor onward and whether it ends normally or raises. `round(x, 2)` is the
 * parameter `round2`; `date.today()` and `datetime.now()` are the parameters `today`
 * and `now`.
 */
module RevenueSchedule {
  import opened Common
  import opened Text
  import opened Calendar
  import opened Asc606Models

  /** The keys of `contract_data` the generator reads; `end_date` may be `None`. */
  datatype ContractTerms = ContractTerms(contractId: string, effectiveDate: Date, endDate: Option<Date>)

  predicate ValidTerms(t: ContractTerms) {
    ValidDate(t.effectiveDate) && (t.endDate.Some? ==> ValidDate(t.endDate.value))
  }

  /** Why the generator raises instead of returning. */
  datatype ScheduleError =
    | UnsupportedRecognitionMethod(name: string)    // ValueError: neither over_time nor point_in_time
    | MissingRecognitionPeriod(obligation: string)  // ValueError: empty or absent recognition_period
    | MissingFrequency(obligation: string)          // KeyError: recognition_period has no "frequency"
    | NoContractEndDate                             // TypeError: comparing a date with end_date None
    | UnsupportedFrequency(frequency: string)       // ValueError: an unknown frequency string
    | IntervalUnbound(frequency: string)            // UnboundLocalError: not of the form every_<n>_months
    | IntervalNotInteger(frequency: string)         // ValueError: int() rejects the <n>
    | IntervalNeverAdvances(frequency: string)      // every_0_months: the loop never ends
    | DateBeforeYearOne(obligation: string)         // a negative interval walks back past year 1
    | LeapDayHasNoSuccessor(obligation: string)     // ValueError: February 29 replaced into a common year

  /** How an over-time obligation's cursor moves. */
  datatype Frequency = Monthly | Quarterly | Yearly | EveryMonths(months: int)

  /** `every_<n>_months`: the `<n>` of the second `_`-separated part, as `int()` reads it. */
  function ParseInterval(f: string): (r: Result<int, ScheduleError>)
    ensures r.Err? ==> r.error == IntervalUnbound(f) || r.error == IntervalNotInteger(f)
  {
    var parts := Split(f, '_');
    if |parts| >= 3 && parts[0] == "every" && parts[2] == "months" then
      match ParseInt(parts[1])
      case Some(n) => Ok(n)
      case None => Err(IntervalNotInteger(f))
    else Err(IntervalUnbound(f))
  }

  /** The frequency dispatch of `_process_over_time_obligation`. */
  function ParseFrequency(f: string): (r: Result<Frequency, ScheduleError>)
    ensures r == Ok(Monthly) <==> f == "monthly"
    ensures r == Ok(Quarterly) <==> f == "quarterly"
    ensures r == Ok(Yearly) <==> f == "yearly"
    ensures r.Ok? && r.value.EveryMonths? ==> StartsWith(f, "every_") && ParseInterval(f) == Ok(r.value.months)
    ensures r == Err(UnsupportedFrequency(f)) <==>
              f != "monthly" && f != "quarterly" && f != "yearly" && !StartsWith(f, "every_")
  {
    if f == "monthly" then Ok(Monthly)
    else if f == "quarterly" then Ok(Quarterly)
    else if f == "yearly" then Ok(Yearly)
    else if StartsWith(f, "every_") then
      match ParseInterval(f)
      case Ok(n) => Ok(EveryMonths(n))
      case Err(e) => Err(e)
    else Err(UnsupportedFrequency(f))
  }

  /** What one over-time loop works with: the fixed parts of every entry it appends. */
  datatype Plan = Plan(
    contractId: string,
    obligationName: string,
    recognitionMethod: string,
    freq: Frequency,
    endDate: Date,
    amount: real,
    today: Date,
    createdAt: string)

  /** The loops below terminate for every frequency except an interval of zero months. */
  predicate PlanOk(p: Plan) {
    ValidDate(p.endDate) && p.freq != EveryMonths(0)
  }

  /** The cursor moves forward (every frequency but a negative interval). */
  predicate Forward(p: Plan) {
    !(p.freq.EveryMonths? && p.freq.months < 0)
  }

  /** `"recognized" if current_date <= date.today() else "deferred"`. */
  function StatusOn(start: Date, today: Date): (s: string)
    ensures s == "recognized" <==> NotAfter(start, today)
    ensures s == "recognized" || s == "deferred"
  {
    if NotAfter(start, today) then "recognized" else "deferred"
  }

  function EntryAt(p: Plan, start: Date, end: Date): ScheduleEntry {
    ScheduleEntry(p.contractId, p.obligationName, start, end, p.amount, p.recognitionMethod,
                  StatusOn(start, p.today), p.createdAt)
  }

  /**
   * The period end a loop computes for cursor `c`, clamped to the end date; `None` where
   * computing it raises (a negative interval reaching before year 1 or `date.min`).
   */
  function PeriodEnd(p: Plan, c: Date): (r: Option<Date>)
    requires PlanOk(p) && ValidDate(c)
    ensures r.Some? ==> ValidDate(r.value) && NotAfter(r.value, p.endDate)
    ensures Forward(p) ==> r.Some?
    ensures Forward(p) && NotAfter(c, p.endDate) ==> NotAfter(c, r.value)
    ensures !Forward(p) && NotAfter(c, p.endDate) && r.Some? ==> Before(r.value, c)
  {
    match p.freq
    case Monthly => Some(Earlier(PrevDay(AddMonths(c, 1)), p.endDate))
    case Quarterly => Some(Earlier(QuarterEnd(c), p.endDate))
    case Yearly => Some(Earlier(YearEnd(c), p.endDate))
    case EveryMonths(n) => IntervalPeriodEnd(c, n, p.endDate)
  }

  /** `_add_months(current_date, interval_months) - timedelta(days=1)`, clamped to `end`. */
  function IntervalPeriodEnd(c: Date, n: int, end: Date): (r: Option<Date>)
    requires ValidDate(c) && ValidDate(end) && n != 0
    ensures r.Some? ==> ValidDate(r.value) && NotAfter(r.value, end)
    ensures n > 0 ==> r.Some?
    ensures n > 0 && NotAfter(c, end) ==> NotAfter(c, r.value)
    ensures n < 0 && r.Some? ==> Before(r.value, c)
  {
    match AddMonthsBy(c, n)
    case None => None
    case Some(t) => if t == Date(1, 1, 1) then None else Some(Earlier(PrevDay(t), end))
  }

  /**
   * The cursor after `c`; `None` where advancing raises (`date.replace` from February 29
   * into a common year, or a negative interval reaching before year 1).
   */
  function Advance(p: Plan, c: Date): (r: Option<Date>)
    requires PlanOk(p) && ValidDate(c)
    ensures r.Some? ==> ValidDate(r.value)
    ensures r.Some? && Forward(p) ==> MonthIndex(r.value) > MonthIndex(c) && Before(c, r.value)
    ensures r.Some? && !Forward(p) ==> MonthIndex(r.value) < MonthIndex(c) && Before(r.value, c)
    ensures Forward(p) && !p.freq.Yearly? ==> r.Some?
    ensures p.freq.Yearly? ==> (r.None? <==> IsLeapDay(c))
  {
    match p.freq
    case Monthly => Some(AddMonths(c, 1))
    case Quarterly =>
      var r := NextQuarterStart(c);
      MonthIndexOrder(c, r);
      Some(r)
    case Yearly => ReplaceYear(c, c.year + 1)
    case EveryMonths(n) => AddMonthsBy(c, n)
  }

  /** The measure the loops decrease: months left before the end date, or before year 1. */
  function WalkMeasure(p: Plan, c: Date): int {
    if Forward(p) then MonthIndex(p.endDate) + 1 - MonthIndex(c) else MonthIndex(c)
  }

  /** The entries a generator loop appends from cursor `c`, and whether it ends without raising. */
  datatype Walk = Walk(entries: seq<ScheduleEntry>, completed: bool)

  /** `while current_date <= end_date:` compute the period end, append an entry, advance. */
  function WalkFrom(p: Plan, c: Date): Walk
    requires PlanOk(p) && ValidDate(c)
    decreases WalkMeasure(p, c)
  {
    if Before(p.endDate, c) then Walk([], true)
    else
      NotAfterMonthIndex(c, p.endDate);
      match PeriodEnd(p, c)
      case None => Walk([], false)
      case Some(e) =>
        match Advance(p, c)
        case None => Walk([EntryAt(p, c, e)], false)
        case Some(next) =>
          var rest := WalkFrom(p, next);
          Walk([EntryAt(p, c, e)] + rest.entries, rest.completed)
  }

  /** One iteration of a generator loop that appends an entry and advances. */
  lemma WalkStep(p: Plan, c: Date)
    requires PlanOk(p) && ValidDate(c) && NotAfter(c, p.endDate)
    requires PeriodEnd(p, c).Some? && Advance(p, c).Some?
    ensures WalkFrom(p, c).entries
            == [EntryAt(p, c, PeriodEnd(p, c).value)] + WalkFrom(p, Advance(p, c).value).entries
    ensures WalkFrom(p, c).completed == WalkFrom(p, Advance(p, c).value).completed
  {
  }

  /** The step of `_generate_monthly_schedule`: the day before the next month is the period end. */
  lemma MonthlyStep(p: Plan, c: Date)
    requires PlanOk(p) && p.freq == Monthly && ValidDate(c) && NotAfter(c, p.endDate)
    ensures var next := AddMonths(c, 1);
      WalkFrom(p, c).entries == [EntryAt(p, c, Earlier(PrevDay(next), p.endDate))] + WalkFrom(p, next).entries
      && WalkFrom(p, c).completed == WalkFrom(p, next).completed
  {
    WalkStep(p, c);
  }

  /** The step of `_generate_quarterly_schedule`: the period ends at the quarter end. */
  lemma QuarterlyStep(p: Plan, c: Date)
    requires PlanOk(p) && p.freq == Quarterly && ValidDate(c) && NotAfter(c, p.endDate)
    ensures var next := NextQuarterStart(c);
      WalkFrom(p, c).entries == [EntryAt(p, c, Earlier(QuarterEnd(c), p.endDate))] + WalkFrom(p, next).entries
      && WalkFrom(p, c).completed == WalkFrom(p, next).completed
  {
    WalkStep(p, c);
  }

  /** `WalkStep` stated entry by entry: the walk's first entry, then the later walk's entries shifted by one. */
  lemma WalkStepIndexed(p: Plan, c: Date)
    requires PlanOk(p) && ValidDate(c) && NotAfter(c, p.endDate)
    requires PeriodEnd(p, c).Some? && Advance(p, c).Some?
    ensures var es := WalkFrom(p, c).entries; var rest := WalkFrom(p, Advance(p, c).value).entries;
      |es| == |rest| + 1 && es[0] == EntryAt(p, c, PeriodEnd(p, c).value)
      && (forall k :: 1 <= k < |es| ==> es[k] == rest[k - 1])
  {
    var es := WalkFrom(p, c).entries;
    var rest := WalkFrom(p, Advance(p, c).value).entries;
    WalkStep(p, c);
    SingletonConcatIndex(EntryAt(p, c, PeriodEnd(p, c).value), rest);
  }

  /** The last iteration of a generator loop: it appends an entry, then advancing raises. */
  lemma WalkStop(p: Plan, c: Date)
    requires PlanOk(p) && ValidDate(c) && NotAfter(c, p.endDate)
    requires PeriodEnd(p, c).Some? && Advance(p, c).None?
    ensures WalkFrom(p, c) == Walk([EntryAt(p, c, PeriodEnd(p, c).value)], false)
  {
  }

  /** The period end and the next cursor of `_generate_yearly_schedule`'s loop. */
  lemma YearlyStep(p: Plan, c: Date)
    requires PlanOk(p) && p.freq == Yearly && ValidDate(c)
    ensures PeriodEnd(p, c) == Some(Earlier(YearEnd(c), p.endDate))
    ensures Advance(p, c) == ReplaceYear(c, c.year + 1)
  {
  }

  /** The step of `_generate_custom_interval_schedule`, which raises when the target date does not exist. */
  lemma CustomStep(p: Plan, c: Date, n: int)
    requires PlanOk(p) && p.freq == EveryMonths(n) && ValidDate(c) && NotAfter(c, p.endDate)
    ensures match AddMonthsBy(c, n)
      case None => WalkFrom(p, c) == Walk([], false)
      case Some(t) =>
        if t == Date(1, 1, 1) then WalkFrom(p, c) == Walk([], false)
        else
          WalkFrom(p, c).entries == [EntryAt(p, c, Earlier(PrevDay(t), p.endDate))] + WalkFrom(p, t).entries
          && WalkFrom(p, c).completed == WalkFrom(p, t).completed
  {
    assert Advance(p, c) == AddMonthsBy(c, n);
  }

  /**
   * `amount / periods` rounded, or `0` when there are no periods (the source's
   * `... if total > 0 else 0`, and `round(0, 2)` is `0`).
   */
  function Share(amount: real, periods: int, round2: real -> real): real {
    if periods > 0 then round2(amount / periods as real) else 0.0
  }

  /**
   * The divisor each generator computes before its loop: `total_months`, `total_quarters`,
   * `total_years`, or `total_months // interval_months` (0 for a non-positive interval).
   */
  function PeriodCount(freq: Frequency, start: Date, end: Date): int {
    var totalMonths := MonthIndex(end) - MonthIndex(start) + 1;
    match freq
    case Monthly => totalMonths
    case Quarterly => (MonthIndex(end) - MonthIndex(start)) / 3 + 1
    case Yearly => end.year - start.year + 1
    case EveryMonths(n) => if n > 0 then totalMonths / n else 0
  }

  /**
   * The plan of an over-time obligation's loop. The custom-interval generator writes
   * `"over_time"` where the other three copy the obligation's recognition method.
   */
  function OverTimePlan(terms: ContractTerms, o: ObligationRecord, freq: Frequency, end: Date,
                        today: Date, now: string, round2: real -> real): Plan
  {
    Plan(terms.contractId, o.name, if freq.EveryMonths? then "over_time" else o.recognitionMethod,
         freq, end, Share(o.allocatedAmount, PeriodCount(freq, terms.effectiveDate, end), round2),
         today, now)
  }

  /** What processing one obligation appends, and the error it raises, if any. */
  datatype Outcome = Outcome(entries: seq<ScheduleEntry>, error: Option<ScheduleError>)

  /** `_process_point_in_time_obligation`: one entry per milestone, or one for the whole amount. */
  function PointInTimeEntries(terms: ContractTerms, o: ObligationRecord, now: string,
                              round2: real -> real): (es: seq<ScheduleEntry>)
    ensures |es| == if |o.milestones| > 0 then |o.milestones| else 1
    ensures forall e :: e in es ==>
      e.periodStart == terms.effectiveDate && e.periodEnd == terms.effectiveDate
      && e.status == "recognized" && e.recognitionMethod == "point_in_time"
      && e.contractId == terms.contractId && e.createdAt == now
    ensures |o.milestones| > 0 ==> forall i :: 0 <= i < |es| ==>
      es[i].obligationName == o.name + " - " + o.milestones[i].name
      && es[i].amount == match o.milestones[i].value { case Some(v) => round2(v) case None => 0.0 }
    ensures |o.milestones| == 0 ==> es[0].obligationName == o.name && es[0].amount == round2(o.allocatedAmount)
  {
    var eff := terms.effectiveDate;
    if |o.milestones| > 0 then
      seq(|o.milestones|, i requires 0 <= i < |o.milestones| =>
        var m := o.milestones[i];
        ScheduleEntry(terms.contractId, o.name + " - " + m.name, eff, eff,
                      match m.value { case Some(v) => round2(v) case None => 0.0 },
                      "point_in_time", "recognized", now))
    else
      [ScheduleEntry(terms.contractId, o.name, eff, eff, round2(o.allocatedAmount),
                     "point_in_time", "recognized", now)]
  }

  /** A generator loop run from the effective date, with the error it ends in, if any. */
  function LoopOutcome(terms: ContractTerms, o: ObligationRecord, freq: Frequency, f: string,
                       end: Date, today: Date, now: string, round2: real -> real): Outcome
    requires ValidTerms(terms) && ValidDate(end)
  {
    if freq == EveryMonths(0) then
      if NotAfter(terms.effectiveDate, end) then Outcome([], Some(IntervalNeverAdvances(f)))
      else Outcome([], None)
    else
      var w := WalkFrom(OverTimePlan(terms, o, freq, end, today, now, round2), terms.effectiveDate);
      Outcome(w.entries,
              if w.completed then None
              else if freq.Yearly? then Some(LeapDayHasNoSuccessor(o.name))
              else Some(DateBeforeYearOne(o.name)))
  }

  /** A loop that terminates ends with the entries of its walk and raises only if the walk does. */
  lemma LoopOutcomeOfWalk(terms: ContractTerms, o: ObligationRecord, freq: Frequency, f: string,
                          end: Date, today: Date, now: string, round2: real -> real)
    requires ValidTerms(terms) && ValidDate(end) && freq != EveryMonths(0)
    ensures var w := WalkFrom(OverTimePlan(terms, o, freq, end, today, now, round2), terms.effectiveDate);
      LoopOutcome(terms, o, freq, f, end, today, now, round2)
      == Outcome(w.entries,
                 if w.completed then None
                 else if freq.Yearly? then Some(LeapDayHasNoSuccessor(o.name))
                 else Some(DateBeforeYearOne(o.name)))
  {
  }

  /** `_process_over_time_obligation`, from the recognition-period check to the generator it calls. */
  function OverTimeOutcome(terms: ContractTerms, o: ObligationRecord, today: Date, now: string,
                           round2: real -> real): Outcome
    requires ValidTerms(terms)
  {
    if o.recognitionPeriod == map[] then Outcome([], Some(MissingRecognitionPeriod(o.name)))
    else if "frequency" !in o.recognitionPeriod then Outcome([], Some(MissingFrequency(o.name)))
    else if terms.endDate.None? then Outcome([], Some(NoContractEndDate))
    else
      var f := o.recognitionPeriod["frequency"];
      match ParseFrequency(f)
      case Err(e) => Outcome([], Some(e))
      case Ok(freq) => LoopOutcome(terms, o, freq, f, terms.endDate.value, today, now, round2)
  }

  /** One iteration of `generate_schedule`'s loop: dispatch on the recognition method. */
  function ObligationOutcome(terms: ContractTerms, o: ObligationRecord, today: Date, now: string,
                             round2: real -> real): Outcome
    requires ValidTerms(terms)
  {
    if o.recognitionMethod == "over_time" then OverTimeOutcome(terms, o, today, now, round2)
    else if o.recognitionMethod == "point_in_time" then
      Outcome(PointInTimeEntries(terms, o, now, round2), None)
    else Outcome([], Some(UnsupportedRecognitionMethod(o.recognitionMethod)))
  }

  /** `generate_schedule`: the obligations in order, stopping at the first that raises. */
  function ScheduleRun(terms: ContractTerms, rs: seq<ObligationRecord>, today: Date, now: string,
                       round2: real -> real): Outcome
    requires ValidTerms(terms)
    decreases |rs|
  {
    if rs == [] then Outcome([], None)
    else
      var prev := ScheduleRun(terms, rs[..|rs| - 1], today, now, round2);
      if prev.error.Some? then prev
      else
        var last := ObligationOutcome(terms, rs[|rs| - 1], today, now, round2);
        Outcome(prev.entries + last.entries, last.error)
  }

  /** One more obligation processed after a prefix that raised nothing. */
  lemma ScheduleRunStep(terms: ContractTerms, rs: seq<ObligationRecord>, i: nat,
                        today: Date, now: string, round2: real -> real)
    requires ValidTerms(terms) && i < |rs|
    requires ScheduleRun(terms, rs[..i], today, now, round2).error.None?
    ensures var prev := ScheduleRun(terms, rs[..i], today, now, round2);
      var last := ObligationOutcome(terms, rs[i], today, now, round2);
      ScheduleRun(terms, rs[..i + 1], today, now, round2) == Outcome(prev.entries + last.entries, last.error)
  {
    assert rs[..i + 1][..i] == rs[..i];
  }

  /** `RevenueScheduleGenerator`: the contract it was built for and the list it appends to. */
  class RevenueScheduleGenerator {
    const contractData: ContractTerms
    var revenueSchedule: seq<ScheduleEntry>

    constructor (contractData: ContractTerms)
      ensures this.contractData == contractData && revenueSchedule == []
    {
      this.contractData := contractData;
      revenueSchedule := [];
    }

    /**
     * Appends the entries of every obligation in order and returns the whole list;
     * `Err` is the exception of the first obligation that raises, after the entries
     * appended up to that point.
     */
    method GenerateSchedule(obligations: seq<PerformanceObligation>, today: Date, now: string,
                            round2: real -> real)
      returns (r: Result<seq<ScheduleEntry>, ScheduleError>)
      requires ValidTerms(contractData)
      modifies this
      ensures var run := ScheduleRun(contractData, Records(obligations), today, now, round2);
        revenueSchedule == old(revenueSchedule) + run.entries
        && r == if run.error.None? then Ok(revenueSchedule) else Err(run.error.value)
    {
      ghost var rs := Records(obligations);
      var effectiveDate := contractData.effectiveDate;
      var endDate := contractData.endDate;
      var i := 0;
      while i < |obligations|
        invariant 0 <= i <= |obligations|
        invariant rs == Records(obligations)
        invariant ScheduleRun(contractData, rs[..i], today, now, round2).error.None?
        invariant revenueSchedule
                  == old(revenueSchedule) + ScheduleRun(contractData, rs[..i], today, now, round2).entries
      {
        var obligation := obligations[i];
        ScheduleRunStep(contractData, rs, i, today, now, round2);
        ConcatAssociative(old(revenueSchedule), ScheduleRun(contractData, rs[..i], today, now, round2).entries,
                          ObligationOutcome(contractData, rs[i], today, now, round2).entries);
        if obligation.recognitionMethod == "over_time" {
          var err := ProcessOverTimeObligation(obligation, effectiveDate, endDate, today, now, round2);
          if err.Some? {
            ScheduleRunStopsAtError(contractData, rs, i + 1, today, now, round2);
            return Err(err.value);
          }
        } else if obligation.recognitionMethod == "point_in_time" {
          ProcessPointInTimeObligation(obligation, effectiveDate, now, round2);
        } else {
          ScheduleRunStopsAtError(contractData, rs, i + 1, today, now, round2);
          return Err(UnsupportedRecognitionMethod(obligation.recognitionMethod));
        }
        i := i + 1;
      }
      assert rs[..i] == rs;
      return Ok(revenueSchedule);
    }

    /** `_process_point_in_time_obligation`. */
    method ProcessPointInTimeObligation(obligation: PerformanceObligation, effectiveDate: Date,
                                        now: string, round2: real -> real)
      modifies this
      ensures revenueSchedule == old(revenueSchedule)
        + PointInTimeEntries(ContractTerms(contractData.contractId, effectiveDate, None),
                             obligation.Record(), now, round2)
    {
      ghost var es := PointInTimeEntries(ContractTerms(contractData.contractId, effectiveDate, None),
                                         obligation.Record(), now, round2);
      var milestones := obligation.milestones;
      if |milestones| > 0 {
        for i := 0 to |milestones|
          invariant revenueSchedule == old(revenueSchedule) + es[..i]
        {
          var milestone := milestones[i];
          var milestoneAmount := match milestone.value { case Some(v) => round2(v) case None => 0.0 };
          var entry := ScheduleEntry(contractData.contractId, obligation.name + " - " + milestone.name,
                                     effectiveDate, effectiveDate, milestoneAmount,
                                     "point_in_time", "recognized", now);
          assert es[..i + 1] == es[..i] + [entry];
          revenueSchedule := revenueSchedule + [entry];
        }
        assert es[..|milestones|] == es;
      } else {
        var entry := ScheduleEntry(contractData.contractId, obligation.name, effectiveDate, effectiveDate,
                                   round2(obligation.allocatedAmount), "point_in_time", "recognized", now);
        revenueSchedule := revenueSchedule + [entry];
      }
    }

    /** `_process_over_time_obligation`: the checks, then the generator its frequency names. */
    method ProcessOverTimeObligation(obligation: PerformanceObligation, effectiveDate: Date,
                                     endDate: Option<Date>, today: Date, now: string,
                                     round2: real -> real)
      returns (err: Option<ScheduleError>)
      requires ValidTerms(ContractTerms(contractData.contractId, effectiveDate, endDate))
      modifies this
      ensures var out := OverTimeOutcome(ContractTerms(contractData.contractId, effectiveDate, endDate),
                                         obligation.Record(), today, now, round2);
        revenueSchedule == old(revenueSchedule) + out.entries && err == out.error
    {
      if obligation.recognitionPeriod == map[] {
        return Some(MissingRecognitionPeriod(obligation.name));
      }
      var periodStart := effectiveDate;
      var periodEnd := endDate;
      if "frequency" !in obligation.recognitionPeriod {
        return Some(MissingFrequency(obligation.name));
      }
      var frequency := obligation.recognitionPeriod["frequency"];
      if periodEnd.None? {
        return Some(NoContractEndDate);
      }
      if frequency == "monthly" {
        GenerateMonthlySchedule(obligation, periodStart, periodEnd.value, today, now, round2);
        err := None;
      } else if frequency == "quarterly" {
        GenerateQuarterlySchedule(obligation, periodStart, periodEnd.value, today, now, round2);
        err := None;
      } else if frequency == "yearly" {
        var ok := GenerateYearlySchedule(obligation, periodStart, periodEnd.value, today, now, round2);
        err := if ok then None else Some(LeapDayHasNoSuccessor(obligation.name));
      } else if StartsWith(frequency, "every_") {
        var parsed := ParseInterval(frequency);
        if parsed.Ok? && parsed.value != 0 {
          LoopOutcomeOfWalk(ContractTerms(contractData.contractId, effectiveDate, endDate), obligation.Record(),
                            EveryMonths(parsed.value), frequency, periodEnd.value, today, now, round2);
        }
        err := GenerateCustomIntervalSchedule(obligation, periodStart, periodEnd.value, frequency,
                                              today, now, round2);
      } else {
        err := Some(UnsupportedFrequency(frequency));
      }
    }

    /** `_generate_monthly_schedule`. */
    method GenerateMonthlySchedule(obligation: PerformanceObligation, startDate: Date, endDate: Date,
                                   today: Date, now: string, round2: real -> real)
      requires ValidDate(startDate) && ValidDate(endDate)
      modifies this
      ensures var p := OverTimePlan(ContractTerms(contractData.contractId, startDate, Some(endDate)),
                                    obligation.Record(), Monthly, endDate, today, now, round2);
        revenueSchedule == old(revenueSchedule) + WalkFrom(p, startDate).entries
        && WalkFrom(p, startDate).completed
    {
      ghost var p := OverTimePlan(ContractTerms(contractData.contractId, startDate, Some(endDate)),
                                  obligation.Record(), Monthly, endDate, today, now, round2);
      var amount := Share(obligation.allocatedAmount, PeriodCount(Monthly, startDate, endDate), round2);
      assert p == Plan(contractData.contractId, obligation.name, obligation.recognitionMethod, Monthly,
                       endDate, amount, today, now);
      var currentDate := startDate;
      ghost var done: seq<ScheduleEntry> := [];
      while NotAfter(currentDate, endDate)
        invariant ValidDate(currentDate)
        invariant done + WalkFrom(p, currentDate).entries == WalkFrom(p, startDate).entries
        invariant revenueSchedule == old(revenueSchedule) + done
        invariant WalkFrom(p, startDate).completed == WalkFrom(p, currentDate).completed
        decreases WalkMeasure(p, currentDate)
      {
        NotAfterMonthIndex(currentDate, endDate);
        var nextMonth := AddMonths(currentDate, 1);
        var periodEnd := PrevDay(nextMonth);
        if Before(endDate, periodEnd) {
          periodEnd := endDate;
        }
        var entry := ScheduleEntry(contractData.contractId, obligation.name, currentDate, periodEnd,
                                   amount, obligation.recognitionMethod,
                                   if NotAfter(currentDate, today) then "recognized" else "deferred", now);
        MonthlyStep(p, currentDate);
        assert entry == EntryAt(p, currentDate, Earlier(PrevDay(nextMonth), p.endDate));
        ConcatAssociative(old(revenueSchedule), done, [entry]);
        ConcatAssociative(done, [entry], WalkFrom(p, nextMonth).entries);
        revenueSchedule := revenueSchedule + [entry];
        done := done + [entry];
        currentDate := nextMonth;
      }
    }

    /** `_generate_quarterly_schedule`. */
    method GenerateQuarterlySchedule(obligation: PerformanceObligation, startDate: Date, endDate: Date,
                                     today: Date, now: string, round2: real -> real)
      requires ValidDate(startDate) && ValidDate(endDate)
      modifies this
      ensures var p := OverTimePlan(ContractTerms(contractData.contractId, startDate, Some(endDate)),
                                    obligation.Record(), Quarterly, endDate, today, now, round2);
        revenueSchedule == old(revenueSchedule) + WalkFrom(p, startDate).entries
        && WalkFrom(p, startDate).completed
    {
      ghost var p := OverTimePlan(ContractTerms(contractData.contractId, startDate, Some(endDate)),
                                  obligation.Record(), Quarterly, endDate, today, now, round2);
      var amount := Share(obligation.allocatedAmount, PeriodCount(Quarterly, startDate, endDate), round2);
      assert p == Plan(contractData.contractId, obligation.name, obligation.recognitionMethod, Quarterly,
                       endDate, amount, today, now);
      var currentDate := startDate;
      ghost var done: seq<ScheduleEntry> := [];
      while NotAfter(currentDate, endDate)
        invariant ValidDate(currentDate)
        invariant done + WalkFrom(p, currentDate).entries == WalkFrom(p, startDate).entries
        invariant revenueSchedule == old(revenueSchedule) + done
        invariant WalkFrom(p, startDate).completed == WalkFrom(p, currentDate).completed
        decreases WalkMeasure(p, currentDate)
      {
        NotAfterMonthIndex(currentDate, endDate);
        var quarterEnd := QuarterEnd(currentDate);
        if Before(endDate, quarterEnd) {
          quarterEnd := endDate;
        }
        var entry := ScheduleEntry(contractData.contractId, obligation.name, currentDate, quarterEnd,
                                   amount, obligation.recognitionMethod,
                                   if NotAfter(currentDate, today) then "recognized" else "deferred", now);
        QuarterlyStep(p, currentDate);
        assert entry == EntryAt(p, currentDate, Earlier(QuarterEnd(currentDate), p.endDate));
        ConcatAssociative(old(revenueSchedule), done, [entry]);
        ConcatAssociative(done, [entry], WalkFrom(p, NextQuarterStart(currentDate)).entries);
        revenueSchedule := revenueSchedule + [entry];
        done := done + [entry];
        currentDate := NextQuarterStart(currentDate);
      }
    }

    /** `_generate_yearly_schedule`; `false` is the `ValueError` of advancing from February 29. */
    method GenerateYearlySchedule(obligation: PerformanceObligation, startDate: Date, endDate: Date,
                                  today: Date, now: string, round2: real -> real)
      returns (ok: bool)
      requires ValidDate(startDate) && ValidDate(endDate)
      modifies this
      ensures var p := OverTimePlan(ContractTerms(contractData.contractId, startDate, Some(endDate)),
                                    obligation.Record(), Yearly, endDate, today, now, round2);
        revenueSchedule == old(revenueSchedule) + WalkFrom(p, startDate).entries
        && ok == WalkFrom(p, startDate).completed
    {
      ghost var p := OverTimePlan(ContractTerms(contractData.contractId, startDate, Some(endDate)),
                                  obligation.Record(), Yearly, endDate, today, now, round2);
      var amount := Share(obligation.allocatedAmount, PeriodCount(Yearly, startDate, endDate), round2);
      assert p == Plan(contractData.contractId, obligation.name, obligation.recognitionMethod, Yearly,
                       endDate, amount, today, now);
      var currentDate := startDate;
      ghost var done: seq<ScheduleEntry> := [];
      while NotAfter(currentDate, endDate)
        invariant ValidDate(currentDate)
        invariant done + WalkFrom(p, currentDate).entries == WalkFrom(p, startDate).entries
        invariant revenueSchedule == old(revenueSchedule) + done
        invariant WalkFrom(p, startDate).completed == WalkFrom(p, currentDate).completed
        decreases WalkMeasure(p, currentDate)
      {
        NotAfterMonthIndex(currentDate, endDate);
        var yearEnd := YearEnd(currentDate);
        if Before(endDate, yearEnd) {
          yearEnd := endDate;
        }
        var entry := ScheduleEntry(contractData.contractId, obligation.name, currentDate, yearEnd,
                                   amount, obligation.recognitionMethod,
                                   if NotAfter(currentDate, today) then "recognized" else "deferred", now);
        YearlyStep(p, currentDate);
        assert entry == EntryAt(p, currentDate, Earlier(YearEnd(currentDate), p.endDate));
        ConcatAssociative(old(revenueSchedule), done, [entry]);
        revenueSchedule := revenueSchedule + [entry];
        var next := ReplaceYear(currentDate, currentDate.year + 1);
        if next.None? {
          WalkStop(p, currentDate);
          return false;
        }
        WalkStep(p, currentDate);
        ConcatAssociative(done, [entry], WalkFrom(p, next.value).entries);
        done := done + [entry];
        currentDate := next.value;
      }
      return true;
    }

    /**
     * `_generate_custom_interval_schedule`. `IntervalNeverAdvances` stands for the loop of
     * an `every_0_months` frequency, which never ends.
     */
    method GenerateCustomIntervalSchedule(obligation: PerformanceObligation, startDate: Date,
                                          endDate: Date, frequency: string, today: Date, now: string,
                                          round2: real -> real)
      returns (err: Option<ScheduleError>)
      requires ValidDate(startDate) && ValidDate(endDate)
      modifies this
      ensures match ParseInterval(frequency)
        case Err(e) => revenueSchedule == old(revenueSchedule) && err == Some(e)
        case Ok(n) =>
          if n == 0 then
            revenueSchedule == old(revenueSchedule)
            && err == if NotAfter(startDate, endDate) then Some(IntervalNeverAdvances(frequency)) else None
          else
            var w := WalkFrom(OverTimePlan(ContractTerms(contractData.contractId, startDate, Some(endDate)),
                                           obligation.Record(), EveryMonths(n), endDate, today, now, round2),
                              startDate);
            revenueSchedule == old(revenueSchedule) + w.entries
            && err == if w.completed then None else Some(DateBeforeYearOne(obligation.name))
    {
      var parsed := ParseInterval(frequency);
      if parsed.Err? {
        return Some(parsed.error);
      }
      var intervalMonths := parsed.value;
      var amount := Share(obligation.allocatedAmount, PeriodCount(EveryMonths(intervalMonths), startDate, endDate), round2);
      if intervalMonths == 0 {
        return if NotAfter(startDate, endDate) then Some(IntervalNeverAdvances(frequency)) else None;
      }
      ghost var p := OverTimePlan(ContractTerms(contractData.contractId, startDate, Some(endDate)),
                                  obligation.Record(), EveryMonths(intervalMonths), endDate,
                                  today, now, round2);
      assert p == Plan(contractData.contractId, obligation.name, "over_time", EveryMonths(intervalMonths),
                       endDate, amount, today, now);
      var currentDate := startDate;
      ghost var done: seq<ScheduleEntry> := [];
      while NotAfter(currentDate, endDate)
        invariant ValidDate(currentDate)
        invariant done + WalkFrom(p, currentDate).entries == WalkFrom(p, startDate).entries
        invariant revenueSchedule == old(revenueSchedule) + done
        invariant WalkFrom(p, startDate).completed == WalkFrom(p, currentDate).completed
        decreases WalkMeasure(p, currentDate)
      {
        NotAfterMonthIndex(currentDate, endDate);
        CustomStep(p, currentDate, intervalMonths);
        var target := AddMonthsBy(currentDate, intervalMonths);
        if target.None? || target.value == Date(1, 1, 1) {
          return Some(DateBeforeYearOne(obligation.name));
        }
        var periodEnd := PrevDay(target.value);
        if Before(endDate, periodEnd) {
          periodEnd := endDate;
        }
        var entry := ScheduleEntry(contractData.contractId, obligation.name, currentDate, periodEnd,
                                   amount, "over_time",
                                   if NotAfter(currentDate, today) then "recognized" else "deferred", now);
        assert entry == EntryAt(p, currentDate, Earlier(PrevDay(target.value), p.endDate));
        ConcatAssociative(old(revenueSchedule), done, [entry]);
        ConcatAssociative(done, [entry], WalkFrom(p, target.value).entries);
        revenueSchedule := revenueSchedule + [entry];
        done := done + [entry];
        currentDate := target.value;
      }
      return None;
    }
  }

  /** Once an obligation raises, the later ones are never processed. */
  lemma {:induction false} ScheduleRunStopsAtError(terms: ContractTerms, rs: seq<ObligationRecord>, k: nat,
                                                   today: Date, now: string, round2: real -> real)
    requires ValidTerms(terms) && k <= |rs|
    requires ScheduleRun(terms, rs[..k], today, now, round2).error.Some?
    ensures ScheduleRun(terms, rs, today, now, round2) == ScheduleRun(terms, rs[..k], today, now, round2)
    decreases |rs| - k
  {
    if k < |rs| {
      assert rs[..|rs| - 1][..k] == rs[..k];
      ScheduleRunStopsAtError(terms, rs[..|rs| - 1], k, today, now, round2);
    } else {
      assert rs[..k] == rs;
    }
  }
}
