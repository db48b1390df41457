/**
 * The pure parts of the revenue recognition job (app/jobs/revenue_recognition_job.py):
 * the time-saved estimate, the name-to-id map of the stored obligations, and the
 * conversion of the engine's schedule dictionaries into stored schedule rows.
 */
module RevenueRecognitionJob {
  import opened Common
  import opened Calendar
  import Asc606Models
  import ScheduleProperties
  import Engine

  /** Python's `round(x)` on an exact value: to the nearest integer, ties to the even one. */
  function RoundHalfEven(x: real): (n: int)
    ensures n as real - 0.5 <= x <= n as real + 0.5
    ensures x == n as real - 0.5 || x == n as real + 0.5 ==> n % 2 == 0
  {
    var f := x.Floor;
    var frac := x - f as real;
    if frac < 0.5 then f
    else if frac > 0.5 then f + 1
    else if f % 2 == 0 then f
    else f + 1
  }

  /** Rounding never reverses the order of two values. */
  lemma RoundHalfEvenMonotone(x: real, y: real)
    requires x <= y
    ensures RoundHalfEven(x) <= RoundHalfEven(y)
  {
    var fx, fy := x.Floor, y.Floor;
    assert fx <= fy;
    if fx == fy {
      assert x - fx as real <= y - fy as real;
    } else {
      assert RoundHalfEven(x) <= fx + 1 <= fy <= RoundHalfEven(y);
    }
  }

  /** `min(audit_memo_length / 2000, 1.0)`: one hour for a memo of 2000 characters or more. */
  function MemoHours(memoLength: int): (h: real)
    ensures h <= 1.0 && (h == 1.0 || h == memoLength as real / 2000.0)
    ensures memoLength >= 2000 ==> h == 1.0
  {
    var h := memoLength as real / 2000.0;
    if h <= 1.0 then h else 1.0
  }

  /** `min(contract_value / 100000, 1.0)`: one hour for a contract of $100K or more. */
  function ValueHours(contractValue: real): (h: real)
    ensures h <= 1.0 && (h == 1.0 || h == contractValue / 100000.0)
    ensures contractValue >= 100000.0 ==> h == 1.0
  {
    var h := contractValue / 100000.0;
    if h <= 1.0 then h else 1.0
  }

  /** `total_time`: one base hour, 0.75 per obligation, 0.08 per schedule entry, memo and value terms. */
  function TotalHours(obligations: int, schedules: int, memoLength: int, contractValue: real): real {
    1.0 + obligations as real * 0.75 + schedules as real * 0.08 + MemoHours(memoLength) + ValueHours(contractValue)
  }

  /** `calculate_time_saved`: the total hours rounded to the nearest quarter hour. */
  function TimeSaved(obligations: int, schedules: int, memoLength: int, contractValue: real): (r: real)
    ensures (r * 4.0).Floor as real == r * 4.0
    ensures var t := TotalHours(obligations, schedules, memoLength, contractValue);
      r - 0.125 <= t <= r + 0.125
  {
    var n := RoundHalfEven(TotalHours(obligations, schedules, memoLength, contractValue) * 4.0);
    assert n as real / 4.0 * 4.0 == n as real && (n as real).Floor == n;
    n as real / 4.0
  }

  /** With nothing to count the estimate is the one base hour. */
  lemma TimeSavedOfNothing()
    ensures TimeSaved(0, 0, 0, 0.0) == 1.0
  {
    assert TotalHours(0, 0, 0, 0.0) * 4.0 == 4.0;
    assert 4.0.Floor == 4;
  }

  /** The estimate is nondecreasing in each of its arguments. */
  lemma TimeSavedMonotone(o1: int, s1: int, m1: int, v1: real, o2: int, s2: int, m2: int, v2: real)
    requires o1 <= o2 && s1 <= s2 && m1 <= m2 && v1 <= v2
    ensures TimeSaved(o1, s1, m1, v1) <= TimeSaved(o2, s2, m2, v2)
  {
    assert MemoHours(m1) <= MemoHours(m2);
    assert ValueHours(v1) <= ValueHours(v2);
    assert TotalHours(o1, s1, m1, v1) <= TotalHours(o2, s2, m2, v2);
    RoundHalfEvenMonotone(TotalHours(o1, s1, m1, v1) * 4.0, TotalHours(o2, s2, m2, v2) * 4.0);
  }

  /**
   * The estimate the job stores: the engine's result has no `performance_obligations_count`
   * key, so the `.get` default 0 is always used; a missing contract value counts as 0.
   */
  function JobTimeSaved(scheduleCount: nat, memoLength: nat, totalContractValue: Option<real>): (r: real)
    ensures var v := totalContractValue.GetOr(0.0);
      r - 0.125 <= 1.0 + scheduleCount as real * 0.08 + MemoHours(memoLength) + ValueHours(v) <= r + 0.125
    ensures totalContractValue.GetOr(0.0) >= 0.0 ==> r >= 1.0
  {
    var v := totalContractValue.GetOr(0.0);
    if v >= 0.0 then TimeSavedAtLeastBase(scheduleCount, memoLength, v); TimeSaved(0, scheduleCount, memoLength, v)
    else TimeSaved(0, scheduleCount, memoLength, v)
  }

  /** Counts and values that are not negative never bring the estimate below the base hour. */
  lemma TimeSavedAtLeastBase(schedules: nat, memoLength: nat, contractValue: real)
    requires contractValue >= 0.0
    ensures TimeSaved(0, schedules, memoLength, contractValue) >= 1.0
  {
    TimeSavedOfNothing();
    TimeSavedMonotone(0, 0, 0, 0.0, 0, schedules, memoLength, contractValue);
  }

  /** The `obligation_map` after the first `n` obligations: each name bound to its latest id. */
  function NameMap(names: seq<string>, ids: seq<int>): (m: map<string, int>)
    requires |names| == |ids|
    ensures m.Keys == set k | 0 <= k < |names| :: names[k]
    decreases |names|
  {
    if names == [] then map[]
    else NameMap(names[..|names| - 1], ids[..|ids| - 1])[names[|names| - 1] := ids[|ids| - 1]]
  }

  /** Each name maps to the id of its last occurrence: later duplicates overwrite earlier ones. */
  lemma {:induction false} NameMapLastWins(names: seq<string>, ids: seq<int>, k: nat)
    requires |names| == |ids| && k < |names|
    requires forall j :: k < j < |names| ==> names[j] != names[k]
    ensures NameMap(names, ids)[names[k]] == ids[k]
    decreases |names|
  {
    if k < |names| - 1 {
      NameMapLastWins(names[..|names| - 1], ids[..|ids| - 1], k);
    }
  }

  /** The loop that fills `obligation_map`; the ids are those the database assigns on flush. */
  method BuildObligationMap(names: seq<string>, ids: seq<int>) returns (obligationMap: map<string, int>)
    requires |names| == |ids|
    ensures obligationMap == NameMap(names, ids)
  {
    obligationMap := map[];
    for i := 0 to |names|
      invariant obligationMap == NameMap(names[..i], ids[..i])
    {
      assert names[..i + 1][..i] == names[..i] && ids[..i + 1][..i] == ids[..i];
      obligationMap := obligationMap[names[i] := ids[i]];
    }
    assert names[..|names|] == names && ids[..|ids|] == ids;
  }

  /** One dictionary of `revenue_result["revenue_schedule"]` as the job reads it; any key may be missing. */
  datatype ScheduleDict = ScheduleDict(
    obligationName: Option<string>,
    periodStart: Option<string>,
    periodEnd: Option<string>,
    amount: Option<real>,
    status: Option<string>)

  /** The `RevenueSchedule` row the job stores. */
  datatype StoredRow = StoredRow(
    contractPk: int,
    obligationId: Option<int>,
    periodStart: Option<Date>,
    periodEnd: Option<Date>,
    amount: real,
    recognized: bool)

  /** `datetime.fromisoformat(s).date()` on a present string; `None` stays `None`. */
  function ParseDateField(s: Option<string>): (r: Result<Option<Date>, string>)
    ensures r.Err? <==> s.Some? && ParseIsoDate(s.value).None?
    ensures r.Err? ==> r.error == s.value
    ensures r.Ok? ==> (r.value.Some? <==> s.Some?) && (s.Some? ==> ParseIsoDate(s.value) == r.value)
  {
    match s
    case None => Ok(None)
    case Some(t) =>
      match ParseIsoDate(t)
      case Some(d) => Ok(Some(d))
      case None => Err(t)
  }

  /** The row for one dictionary, or the string `fromisoformat` rejects. */
  function RowFor(e: ScheduleDict, obligationMap: map<string, int>, contractPk: int): (r: Result<StoredRow, string>)
    ensures r.Ok? ==>
      r.value.recognized == (e.status == Some("recognized"))
      && r.value.amount == e.amount.GetOr(0.0)
      && r.value.contractPk == contractPk
      && (r.value.obligationId.Some? <==> e.obligationName.GetOr("") in obligationMap)
      && (r.value.obligationId.Some? ==> r.value.obligationId.value == obligationMap[e.obligationName.GetOr("")])
    ensures r.Ok? ==> Ok(r.value.periodStart) == ParseDateField(e.periodStart) && Ok(r.value.periodEnd) == ParseDateField(e.periodEnd)
    ensures r.Err? <==> ParseDateField(e.periodStart).Err? || ParseDateField(e.periodEnd).Err?
    ensures r.Err? ==> r.error == if ParseDateField(e.periodStart).Err? then e.periodStart.value else e.periodEnd.value
  {
    match ParseDateField(e.periodStart)
    case Err(t) => Err(t)
    case Ok(start) =>
      match ParseDateField(e.periodEnd)
      case Err(t) => Err(t)
      case Ok(end) =>
        var name := e.obligationName.GetOr("");
        Ok(StoredRow(contractPk, if name in obligationMap then Some(obligationMap[name]) else None,
                     start, end, e.amount.GetOr(0.0), e.status == Some("recognized")))
  }

  /** The stored rows for the first entries, up to the first date the parser rejects. */
  function RowsFor(es: seq<ScheduleDict>, obligationMap: map<string, int>, contractPk: int): (r: Result<seq<StoredRow>, string>)
    ensures r.Ok? ==> |r.value| == |es| && forall k :: 0 <= k < |es| ==> RowFor(es[k], obligationMap, contractPk) == Ok(r.value[k])
    ensures r.Ok? <==> forall k :: 0 <= k < |es| ==> RowFor(es[k], obligationMap, contractPk).Ok?
    ensures r.Err? ==> exists k :: 0 <= k < |es| && RowFor(es[k], obligationMap, contractPk) == Err(r.error)
                                   && forall j :: 0 <= j < k ==> RowFor(es[j], obligationMap, contractPk).Ok?
    decreases |es|
  {
    if es == [] then Ok([])
    else
      var init := es[..|es| - 1];
      assert forall k :: 0 <= k < |init| ==> init[k] == es[k];
      match RowsFor(init, obligationMap, contractPk)
      case Err(t) => Err(t)
      case Ok(rows) =>
        match RowFor(es[|es| - 1], obligationMap, contractPk)
        case Err(t) =>
          assert RowFor(es[|es| - 1], obligationMap, contractPk) == Err(t);
          Err(t)
        case Ok(row) => Ok(rows + [row])
  }

  /** The loop over `revenue_schedules`: one row per entry, in order; `session.add` is the append. */
  method BuildScheduleRows(revenueSchedules: seq<ScheduleDict>, obligationMap: map<string, int>, contractPk: int)
    returns (r: Result<seq<StoredRow>, string>)
    ensures r == RowsFor(revenueSchedules, obligationMap, contractPk)
  {
    var rows: seq<StoredRow> := [];
    for i := 0 to |revenueSchedules|
      invariant RowsFor(revenueSchedules[..i], obligationMap, contractPk) == Ok(rows)
    {
      var scheduleEntry := revenueSchedules[i];
      assert revenueSchedules[..i + 1][..i] == revenueSchedules[..i];
      var periodStart := ParseDateField(scheduleEntry.periodStart);
      if periodStart.Err? {
        RowsForStopsAtError(revenueSchedules, obligationMap, contractPk, i + 1);
        return Err(periodStart.error);
      }
      var periodEnd := ParseDateField(scheduleEntry.periodEnd);
      if periodEnd.Err? {
        RowsForStopsAtError(revenueSchedules, obligationMap, contractPk, i + 1);
        return Err(periodEnd.error);
      }
      var obligationName := scheduleEntry.obligationName.GetOr("");
      var obligationId := if obligationName in obligationMap then Some(obligationMap[obligationName]) else None;
      var revenueSchedule := StoredRow(contractPk, obligationId, periodStart.value, periodEnd.value,
                                       scheduleEntry.amount.GetOr(0.0), scheduleEntry.status == Some("recognized"));
      rows := rows + [revenueSchedule];
    }
    assert revenueSchedules[..|revenueSchedules|] == revenueSchedules;
    return Ok(rows);
  }

  /** How the job reads one dictionary of the engine's output: every key the engine writes is present. */
  function DictOf(row: Engine.ScheduleRow): ScheduleDict {
    ScheduleDict(Some(row.obligationName), row.periodStart, row.periodEnd, Some(row.amount), Some(row.status))
  }

  function DictsOf(rows: seq<Engine.ScheduleRow>): (ds: seq<ScheduleDict>)
    ensures |ds| == |rows| && forall k :: 0 <= k < |rows| ==> ds[k] == DictOf(rows[k])
  {
    seq(|rows|, k requires 0 <= k < |rows| => DictOf(rows[k]))
  }

  /**
   * The job stores the engine's whole schedule: every row converts, and each stored row
   * carries its entry's dates, amount and status (for years below 10000).
   */
  lemma EngineScheduleIsStored(es: seq<Asc606Models.ScheduleEntry>, obligationMap: map<string, int>, contractPk: int)
    requires ScheduleProperties.ValidEntries(es)
    requires forall k :: 0 <= k < |es| ==> es[k].periodStart.year < 10000 && es[k].periodEnd.year < 10000
    ensures var r := RowsFor(DictsOf(Engine.Rows(es)), obligationMap, contractPk);
      r.Ok? && |r.value| == |es|
      && forall k :: 0 <= k < |es| ==>
        r.value[k].periodStart == Some(es[k].periodStart) && r.value[k].periodEnd == Some(es[k].periodEnd)
        && r.value[k].amount == es[k].amount && r.value[k].recognized == (es[k].status == "recognized")
  {
    var ds := DictsOf(Engine.Rows(es));
    forall k | 0 <= k < |es|
      ensures RowFor(ds[k], obligationMap, contractPk).Ok?
    {
      Engine.RowDatesRoundTrip(es, k);
    }
    var r := RowsFor(ds, obligationMap, contractPk);
    forall k | 0 <= k < |es|
      ensures r.value[k].periodStart == Some(es[k].periodStart) && r.value[k].periodEnd == Some(es[k].periodEnd)
    {
      Engine.RowDatesRoundTrip(es, k);
    }
  }

  /** Once a prefix fails, every longer prefix fails with the same string. */
  lemma {:induction false} RowsForStopsAtError(es: seq<ScheduleDict>, obligationMap: map<string, int>, contractPk: int, n: nat)
    requires n <= |es| && RowsFor(es[..n], obligationMap, contractPk).Err?
    ensures RowsFor(es, obligationMap, contractPk) == RowsFor(es[..n], obligationMap, contractPk)
    decreases |es| - n
  {
    if n < |es| {
      assert es[..n + 1][..n] == es[..n];
      RowsForStopsAtError(es, obligationMap, contractPk, n + 1);
    } else {
      assert es[..n] == es;
    }
  }

  /**
   * A name no obligation carries gets no obligation id; milestone entries, named
   * `<obligation> - <milestone>`, are such names unless an obligation is called that.
   */
  lemma UnknownNameHasNoId(names: seq<string>, ids: seq<int>, e: ScheduleDict, contractPk: int)
    requires |names| == |ids| && RowFor(e, NameMap(names, ids), contractPk).Ok?
    requires forall k :: 0 <= k < |names| ==> names[k] != e.obligationName.GetOr("")
    ensures RowFor(e, NameMap(names, ids), contractPk).value.obligationId.None?
  {
  }
}
