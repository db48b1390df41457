/**
 * What the revenue schedule generator's loops produce (app/ASC606/revenue_schedule.py):
 * where the entries of a walk lie, in which order, how the periods of a monthly, quarterly
 * or custom-interval schedule tile the contract, where the yearly schedule leaves gaps and
 * raises, how many monthly entries there are, and how `generate_schedule` stops at the
 * first obligation that raises.
 */
module ScheduleProperties {
  import opened Common
  import opened Calendar
  import opened Asc606Models
  import opened RevenueSchedule

  /**
   * A forward walk has an entry exactly when the cursor is not after the end date; it
   * starts at the cursor, and every entry holds valid dates, starts no earlier than the
   * cursor, ends no earlier than it starts and no later than the end date.
   */
  lemma {:induction false} ForwardWalkBounds(p: Plan, c: Date)
    requires PlanOk(p) && Forward(p) && ValidDate(c)
    ensures var es := WalkFrom(p, c).entries;
      (|es| > 0 <==> NotAfter(c, p.endDate))
      && (|es| > 0 ==> es[0].periodStart == c)
      && forall k :: 0 <= k < |es| ==>
           ValidDate(es[k].periodStart) && ValidDate(es[k].periodEnd)
           && NotAfter(c, es[k].periodStart) && NotAfter(es[k].periodStart, es[k].periodEnd)
           && NotAfter(es[k].periodEnd, p.endDate)
           && es[k] == EntryAt(p, es[k].periodStart, es[k].periodEnd)
    decreases WalkMeasure(p, c)
  {
    if NotAfter(c, p.endDate) {
      NotAfterMonthIndex(c, p.endDate);
      if Advance(p, c).Some? {
        var next := Advance(p, c).value;
        WalkStepIndexed(p, c);
        ForwardWalkBounds(p, next);
        var es := WalkFrom(p, c).entries;
        forall k | 1 <= k < |es|
          ensures NotAfter(c, es[k].periodStart)
        {
          BeforeTransitive(c, next, es[k].periodStart);
        }
      } else {
        WalkStop(p, c);
      }
    }
  }

  /** The entries of a forward walk start on strictly increasing dates. */
  lemma {:induction false} ForwardWalkOrdered(p: Plan, c: Date)
    requires PlanOk(p) && Forward(p) && ValidDate(c)
    ensures var es := WalkFrom(p, c).entries;
      forall k, l :: 0 <= k < l < |es| ==> Before(es[k].periodStart, es[l].periodStart)
    decreases WalkMeasure(p, c)
  {
    if NotAfter(c, p.endDate) && Advance(p, c).Some? {
      NotAfterMonthIndex(c, p.endDate);
      var next := Advance(p, c).value;
      WalkStepIndexed(p, c);
      ForwardWalkOrdered(p, next);
      ForwardWalkBounds(p, next);
      var es := WalkFrom(p, c).entries;
      forall l | 1 <= l < |es|
        ensures Before(es[0].periodStart, es[l].periodStart)
      {
        BeforeTransitive(c, next, es[l].periodStart);
      }
    }
  }

  /**
   * Over-time status: an entry is "recognized" exactly when its period starts on or before
   * today, so the recognized entries of a forward walk come before the deferred ones.
   */
  lemma RecognizedPrefix(p: Plan, c: Date)
    requires PlanOk(p) && Forward(p) && ValidDate(c)
    ensures var es := WalkFrom(p, c).entries;
      (forall k :: 0 <= k < |es| ==>
         (es[k].status == "recognized" <==> NotAfter(es[k].periodStart, p.today))
         && (es[k].status == "recognized" || es[k].status == "deferred"))
      && forall k, l :: 0 <= k < l < |es| && es[l].status == "recognized" ==> es[k].status == "recognized"
  {
    ForwardWalkBounds(p, c);
    ForwardWalkOrdered(p, c);
    var es := WalkFrom(p, c).entries;
    forall k, l | 0 <= k < l < |es| && es[l].status == "recognized"
      ensures es[k].status == "recognized"
    {
      BeforeTransitive(es[k].periodStart, es[l].periodStart, p.today);
    }
  }

  /** A period whose unclamped end is the day before the next cursor, clamped to `end`. */
  lemma ClampTile(u: Date, end: Date)
    requires ValidDate(u) && ValidDate(end)
    ensures NotAfter(NextDay(u), end) ==> Earlier(u, end) == u
    ensures Before(end, NextDay(u)) ==> Earlier(u, end) == end
  {
    if Before(u, end) && Before(end, NextDay(u)) {
      NextDayIsSuccessor(u, end);
    }
  }

  /**
   * One step of a monthly, quarterly or positive-interval walk: the period ends the day
   * before the next cursor when that cursor is still in the contract, and at the end date
   * otherwise.
   */
  lemma TileStep(p: Plan, c: Date)
    requires PlanOk(p) && Forward(p) && !p.freq.Yearly? && ValidDate(c)
    ensures var e := PeriodEnd(p, c).value; var next := Advance(p, c).value;
      (NotAfter(next, p.endDate) ==> NextDay(e) == next)
      && (Before(p.endDate, next) ==> e == p.endDate)
  {
    match p.freq
    case Monthly =>
      var n := AddMonths(c, 1);
      ClampTile(PrevDay(n), p.endDate);
    case Quarterly =>
      QuarterEndPrecedesNextQuarter(c);
      ClampTile(QuarterEnd(c), p.endDate);
    case EveryMonths(m) =>
      var t := AddMonthsBy(c, m).value;
      assert Before(c, t);
      ClampTile(PrevDay(t), p.endDate);
  }

  /**
   * A monthly, quarterly or positive-interval walk ends without raising, each period after
   * the first starts the day after the previous one ends, and the last ends on the end
   * date: with `ForwardWalkBounds`, the periods tile [cursor, end date] with no gap or overlap.
   */
  lemma {:induction false} ForwardWalkTiles(p: Plan, c: Date)
    requires PlanOk(p) && Forward(p) && !p.freq.Yearly? && ValidDate(c)
    ensures var w := WalkFrom(p, c); var es := w.entries;
      w.completed
      && (forall k :: 0 <= k < |es| - 1 ==>
            ValidDate(es[k].periodEnd) && es[k + 1].periodStart == NextDay(es[k].periodEnd))
      && (|es| > 0 ==> es[|es| - 1].periodEnd == p.endDate)
    decreases WalkMeasure(p, c)
  {
    if NotAfter(c, p.endDate) {
      NotAfterMonthIndex(c, p.endDate);
      var next := Advance(p, c).value;
      WalkStepIndexed(p, c);
      WalkStep(p, c);
      TileStep(p, c);
      ForwardWalkTiles(p, next);
      ForwardWalkBounds(p, next);
      ForwardWalkBounds(p, c);
    }
  }

  /**
   * The yearly walk: the k-th entry starts on the cursor's month and day k years later and
   * ends on December 31 of that year or the end date, whichever is earlier; it raises
   * exactly when it starts on a February 29 that is not after the end date.
   */
  lemma {:induction false} YearlyWalk(p: Plan, c: Date)
    requires PlanOk(p) && p.freq == Yearly && ValidDate(c)
    ensures var w := WalkFrom(p, c); var es := w.entries;
      (w.completed <==> !(IsLeapDay(c) && NotAfter(c, p.endDate)))
      && forall k :: 0 <= k < |es| ==>
           es[k].periodStart == Date(c.year + k, c.month, c.day)
           && es[k].periodEnd == Earlier(YearEnd(es[k].periodStart), p.endDate)
    decreases WalkMeasure(p, c)
  {
    if NotAfter(c, p.endDate) {
      NotAfterMonthIndex(c, p.endDate);
      YearlyStep(p, c);
      if Advance(p, c).Some? {
        var next := Advance(p, c).value;
        WalkStepIndexed(p, c);
        WalkStep(p, c);
        YearlyWalk(p, next);
      } else {
        WalkStop(p, c);
      }
    }
  }

  /**
   * The gap the yearly schedule leaves: a contract from 2024-03-15 to 2025-02-01 gets one
   * entry, ending on 2024-12-31, and nothing covers January 2025.
   */
  lemma YearlyGap(p: Plan)
    requires p.freq == Yearly && p.endDate == Date(2025, 2, 1)
    ensures var es := WalkFrom(p, Date(2024, 3, 15)).entries;
      |es| == 1 && es[0].periodStart == Date(2024, 3, 15) && es[0].periodEnd == Date(2024, 12, 31)
      && Before(es[0].periodEnd, p.endDate)
  {
    var c := Date(2024, 3, 15);
    var next := Date(2025, 3, 15);
    YearlyStep(p, c);
    assert Advance(p, c) == Some(next);
    WalkStep(p, c);
    assert WalkFrom(p, next) == Walk([], true);
  }

  /**
   * The monthly walk has either as many entries as the months it spans (the divisor of the
   * per-period amount) or one fewer, when the drifting day of the last cursor falls after
   * the end date's day.
   */
  lemma {:induction false} MonthlyCount(p: Plan, c: Date)
    requires PlanOk(p) && p.freq == Monthly && ValidDate(c)
    requires MonthIndex(c) <= MonthIndex(p.endDate) + 1
    ensures var n := |WalkFrom(p, c).entries|; var t := PeriodCount(Monthly, c, p.endDate);
      n == t || n == t - 1
    decreases WalkMeasure(p, c)
  {
    if NotAfter(c, p.endDate) {
      NotAfterMonthIndex(c, p.endDate);
      var next := AddMonths(c, 1);
      MonthlyStep(p, c);
      MonthlyCount(p, next);
    } else {
      NotAfterMonthIndex(p.endDate, c);
    }
  }

  /** From 2024-02-29 the next cursor, 2024-03-29, is past an end date of 2024-03-15. */
  lemma MonthlyDriftLastStep(p: Plan)
    requires p.freq == Monthly && p.endDate == Date(2024, 3, 15)
    ensures var es := WalkFrom(p, Date(2024, 2, 29)).entries;
      |es| == 1 && es[0].periodStart == Date(2024, 2, 29) && es[0].amount == p.amount
  {
    var c1, c2 := Date(2024, 2, 29), Date(2024, 3, 29);
    assert AddMonths(c1, 1) == c2;
    MonthlyStep(p, c1);
    assert WalkFrom(p, c2) == Walk([], true);
  }

  /**
   * The shorter case happens: walked from 2024-01-31 to an end date of 2024-03-15, the
   * cursors are 2024-01-31, 2024-02-29 and 2024-03-29, so two entries are appended while
   * `total_months` is 3, and the entries carry two of the three monthly shares.
   */
  lemma MonthlyDriftDropsAPeriod(p: Plan)
    requires p.freq == Monthly && p.endDate == Date(2024, 3, 15)
    ensures var c := Date(2024, 1, 31); var es := WalkFrom(p, c).entries;
      |es| == 2 && PeriodCount(Monthly, c, p.endDate) == 3
      && es[0].periodStart == c && es[1].periodStart == Date(2024, 2, 29)
      && es[0].amount == p.amount && es[1].amount == p.amount
  {
    var c0, c1 := Date(2024, 1, 31), Date(2024, 2, 29);
    assert AddMonths(c0, 1) == c1;
    MonthlyStep(p, c0);
    MonthlyDriftLastStep(p);
  }

  /** A `monthly` schedule is the same walk as an `every_1_months` one. */
  lemma {:induction false} MonthlyIsEveryOneMonth(p: Plan, c: Date)
    requires PlanOk(p) && p.freq == Monthly && ValidDate(c)
    ensures WalkFrom(p, c) == WalkFrom(p.(freq := EveryMonths(1)), c)
    decreases WalkMeasure(p, c)
  {
    var q := p.(freq := EveryMonths(1));
    if NotAfter(c, p.endDate) {
      NotAfterMonthIndex(c, p.endDate);
      var next := AddMonths(c, 1);
      assert AddMonthsBy(c, 1) == Some(next);
      assert PeriodEnd(q, c) == PeriodEnd(p, c);
      assert Advance(q, c) == Advance(p, c);
      MonthlyIsEveryOneMonth(p, next);
      WalkStep(p, c);
      WalkStep(q, c);
      assert EntryAt(q, c, PeriodEnd(q, c).value) == EntryAt(p, c, PeriodEnd(p, c).value);
    }
  }

  /**
   * A negative interval moves the cursor backward: every entry ends before it starts, and
   * the walk raises exactly when it starts on or before the end date (the cursor can never
   * pass the end date, so the loop runs until the date falls before year 1).
   */
  lemma {:induction false} BackwardWalkFails(p: Plan, c: Date)
    requires PlanOk(p) && !Forward(p) && ValidDate(c)
    ensures var w := WalkFrom(p, c);
      (w.completed <==> Before(p.endDate, c))
      && forall k :: 0 <= k < |w.entries| ==> Before(w.entries[k].periodEnd, w.entries[k].periodStart)
    decreases WalkMeasure(p, c)
  {
    if NotAfter(c, p.endDate) && PeriodEnd(p, c).Some? && Advance(p, c).Some? {
      var next := Advance(p, c).value;
      WalkStepIndexed(p, c);
      WalkStep(p, c);
      BeforeTransitive(next, c, p.endDate);
      BackwardWalkFails(p, next);
    }
  }

  /**
   * An interval longer than the contract gives `total_periods` 0, so every entry of that
   * schedule carries an amount of 0.
   */
  lemma LongIntervalHasZeroAmount(terms: ContractTerms, o: ObligationRecord, n: int, end: Date,
                                  today: Date, now: string, round2: real -> real)
    requires n > MonthIndex(end) - MonthIndex(terms.effectiveDate) + 1
    ensures OverTimePlan(terms, o, EveryMonths(n), end, today, now, round2).amount == 0.0
  {
    var total := MonthIndex(end) - MonthIndex(terms.effectiveDate) + 1;
    if n > 0 {
      if total >= 0 {
        assert total / n == 0;
      } else {
        assert total / n < 0;
      }
    }
  }

  /**
   * Every entry of an over-time obligation whose cursor moves forward lies within the
   * contract, from the effective date to the end date.
   */
  lemma LoopEntriesWithinContract(terms: ContractTerms, o: ObligationRecord, freq: Frequency, f: string,
                                  end: Date, today: Date, now: string, round2: real -> real)
    requires ValidTerms(terms) && ValidDate(end) && freq != EveryMonths(0)
    requires !(freq.EveryMonths? && freq.months < 0)
    ensures var es := LoopOutcome(terms, o, freq, f, end, today, now, round2).entries;
      forall k :: 0 <= k < |es| ==>
        NotAfter(terms.effectiveDate, es[k].periodStart) && NotAfter(es[k].periodStart, es[k].periodEnd)
        && NotAfter(es[k].periodEnd, end)
  {
    ForwardWalkBounds(OverTimePlan(terms, o, freq, end, today, now, round2), terms.effectiveDate);
  }

  /** `generate_schedule` raises exactly when one of the obligations does. */
  lemma {:induction false} ScheduleRunSucceeds(terms: ContractTerms, rs: seq<ObligationRecord>,
                                               today: Date, now: string, round2: real -> real)
    requires ValidTerms(terms)
    ensures ScheduleRun(terms, rs, today, now, round2).error.None?
            <==> forall i :: 0 <= i < |rs| ==> ObligationOutcome(terms, rs[i], today, now, round2).error.None?
    decreases |rs|
  {
    if rs != [] {
      var init := rs[..|rs| - 1];
      ScheduleRunSucceeds(terms, init, today, now, round2);
      assert forall i :: 0 <= i < |init| ==> init[i] == rs[i];
    }
  }

  /**
   * Processing more obligations only appends: the entries of a prefix of the obligations
   * are a prefix of the entries of the whole list.
   */
  lemma {:induction false} ScheduleRunAppends(terms: ContractTerms, rs: seq<ObligationRecord>, k: nat,
                                              today: Date, now: string, round2: real -> real)
    requires ValidTerms(terms) && k <= |rs|
    ensures var prefix := ScheduleRun(terms, rs[..k], today, now, round2).entries;
      var whole := ScheduleRun(terms, rs, today, now, round2).entries;
      |prefix| <= |whole| && whole[..|prefix|] == prefix
    decreases |rs| - k
  {
    if k < |rs| {
      var init := rs[..|rs| - 1];
      assert init[..k] == rs[..k];
      ScheduleRunAppends(terms, init, k, today, now, round2);
    } else {
      assert rs[..k] == rs;
    }
  }
  predicate ValidEntries(es: seq<ScheduleEntry>) {
    forall k :: 0 <= k < |es| ==> ValidDate(es[k].periodStart) && ValidDate(es[k].periodEnd)
  }

  /** Every entry of every walk, forward or backward, carries valid dates. */
  lemma {:induction false} WalkEntriesValid(p: Plan, c: Date)
    requires PlanOk(p) && ValidDate(c)
    ensures ValidEntries(WalkFrom(p, c).entries)
    decreases WalkMeasure(p, c)
  {
    if !Before(p.endDate, c) {
      NotAfterMonthIndex(c, p.endDate);
      match PeriodEnd(p, c)
      case None =>
      case Some(e) =>
        match Advance(p, c)
        case None => WalkStop(p, c);
        case Some(next) =>
          WalkStepIndexed(p, c);
          WalkEntriesValid(p, next);
    }
  }

  /** The entries of one obligation carry valid dates. */
  lemma ObligationEntriesValid(terms: ContractTerms, o: ObligationRecord, today: Date, now: string,
                               round2: real -> real)
    requires ValidTerms(terms)
    ensures ValidEntries(ObligationOutcome(terms, o, today, now, round2).entries)
  {
    if o.recognitionMethod == "over_time" && o.recognitionPeriod != map[] && "frequency" in o.recognitionPeriod
       && terms.endDate.Some? {
      var f := o.recognitionPeriod["frequency"];
      match ParseFrequency(f)
      case Err(_) =>
      case Ok(freq) =>
        if freq != EveryMonths(0) {
          LoopOutcomeOfWalk(terms, o, freq, f, terms.endDate.value, today, now, round2);
          WalkEntriesValid(OverTimePlan(terms, o, freq, terms.endDate.value, today, now, round2), terms.effectiveDate);
        }
    } else if o.recognitionMethod == "point_in_time" {
      var es := PointInTimeEntries(terms, o, now, round2);
      assert forall k :: 0 <= k < |es| ==> es[k] in es;
    }
  }

  /** Every entry of a schedule run carries valid dates. */
  lemma {:induction false} ScheduleRunEntriesValid(terms: ContractTerms, rs: seq<ObligationRecord>, today: Date,
                                                   now: string, round2: real -> real)
    requires ValidTerms(terms)
    ensures ValidEntries(ScheduleRun(terms, rs, today, now, round2).entries)
    decreases |rs|
  {
    if rs != [] {
      var prev := ScheduleRun(terms, rs[..|rs| - 1], today, now, round2);
      ScheduleRunEntriesValid(terms, rs[..|rs| - 1], today, now, round2);
      if prev.error.None? {
        var last := ObligationOutcome(terms, rs[|rs| - 1], today, now, round2);
        ObligationEntriesValid(terms, rs[|rs| - 1], today, now, round2);
        var es := prev.entries + last.entries;
        assert ScheduleRun(terms, rs, today, now, round2).entries == es;
        forall k | 0 <= k < |es|
          ensures ValidDate(es[k].periodStart) && ValidDate(es[k].periodEnd)
        {
          if k < |prev.entries| {
            assert es[k] == prev.entries[k];
          } else {
            assert es[k] == last.entries[k - |prev.entries|];
          }
        }
      } else {
        assert ScheduleRun(terms, rs, today, now, round2) == prev;
      }
    }
  }
}
