/**
 * The ASC 606 engine (app/ASC606/engine.py): the five steps of ASC 606-10-05-4 run in
 * order on one contract. It builds the performance obligations, parses and applies the
 * discounts, generates the revenue schedule from the discounted obligations and
 * serialises the schedule with ISO dates.
 */
module Engine {
  import opened Common
  import opened Calendar
  import opened Asc606Models
  import opened RevenueSchedule
  import opened Discounts
  import opened ScheduleProperties

  /** One entry of `contract_data["performance_obligations"]`; the last two keys may be missing. */
  datatype ObligationData = ObligationData(
    name: string,
    kind: string,
    ssp: real,
    allocatedValue: real,
    revenueRecognitionMethod: string,
    recognitionTrigger: string,
    recognitionPeriod: Option<map<string, string>>,
    milestones: Option<seq<Milestone>>)

  /** The contract dictionary the engine is given; `discounts` may be missing, `None` or a list. */
  datatype ContractData = ContractData(
    contractId: string,
    effectiveDate: Date,
    endDate: Option<Date>,
    performanceObligations: seq<ObligationData>,
    discounts: DiscountsField)

  predicate ValidContract(cd: ContractData) {
    ValidTerms(Terms(cd))
  }

  /** The part of the contract the schedule generator reads. */
  function Terms(cd: ContractData): ContractTerms {
    ContractTerms(cd.contractId, cd.effectiveDate, cd.endDate)
  }

  /** The obligation `_process_performance_obligations` builds from one entry. */
  function ObligationOf(d: ObligationData): (r: ObligationRecord)
    ensures r.name == d.name && r.kind == d.kind && r.standalonePrice == d.ssp
    ensures r.allocatedAmount == d.allocatedValue && r.discountApplied == 0.0
    ensures r.recognitionMethod == d.revenueRecognitionMethod && r.recognitionTrigger == d.recognitionTrigger
    ensures r.recognitionPeriod == d.recognitionPeriod.GetOr(map[]) && r.milestones == d.milestones.GetOr([])
  {
    ObligationRecord(d.name, d.kind, d.ssp, d.allocatedValue, d.revenueRecognitionMethod,
                     d.recognitionTrigger, d.recognitionPeriod.GetOr(map[]), d.milestones.GetOr([]), 0.0)
  }

  function ObligationsOf(ds: seq<ObligationData>): (rs: seq<ObligationRecord>)
    ensures |rs| == |ds| && forall k :: 0 <= k < |ds| ==> rs[k] == ObligationOf(ds[k])
  {
    seq(|ds|, k requires 0 <= k < |ds| => ObligationOf(ds[k]))
  }

  /** One dictionary of the output `revenue_schedule`. */
  datatype ScheduleRow = ScheduleRow(
    contractId: string,
    obligationName: string,
    periodStart: Option<string>,
    periodEnd: Option<string>,
    amount: real,
    recognitionMethod: string,
    status: string,
    createdAt: Option<string>)

  function RowOf(e: ScheduleEntry): ScheduleRow
    requires ValidDate(e.periodStart) && ValidDate(e.periodEnd)
  {
    ScheduleRow(e.contractId, e.obligationName, Some(IsoFormat(e.periodStart)), Some(IsoFormat(e.periodEnd)),
                e.amount, e.recognitionMethod, e.status, Some(e.createdAt))
  }

  /** The list comprehension of `process_contract`: one row per entry, in order. */
  function Rows(es: seq<ScheduleEntry>): (rows: seq<ScheduleRow>)
    requires ValidEntries(es)
    ensures |rows| == |es| && forall k :: 0 <= k < |es| ==> rows[k] == RowOf(es[k])
  {
    seq(|es|, k requires 0 <= k < |es| => RowOf(es[k]))
  }

  /** Every row's dates read back as the entry's dates (for years below 10000). */
  lemma RowDatesRoundTrip(es: seq<ScheduleEntry>, k: nat)
    requires ValidEntries(es)
    requires k < |es| && es[k].periodStart.year < 10000 && es[k].periodEnd.year < 10000
    ensures Rows(es)[k].periodStart.Some? && ParseIsoDate(Rows(es)[k].periodStart.value) == Some(es[k].periodStart)
    ensures Rows(es)[k].periodEnd.Some? && ParseIsoDate(Rows(es)[k].periodEnd.value) == Some(es[k].periodEnd)
    ensures Rows(es)[k].obligationName == es[k].obligationName && Rows(es)[k].amount == es[k].amount
  {
    IsoRoundTrip(es[k].periodStart);
    IsoRoundTrip(es[k].periodEnd);
  }

  /** What `process_contract` raises: the TypeError of a `None` discount list, or the generator's exception. */
  datatype EngineError = DiscountsNotIterable | ScheduleFailed(error: ScheduleError)

  /** The dictionary `process_contract` returns. */
  datatype EngineOutput = EngineOutput(
    message: string,
    contractData: ContractData,
    revenueSchedule: seq<ScheduleRow>,
    totalDiscountAmount: real,
    discountsApplied: nat)

  /**
   * The obligations after the discount step of one `process_contract`: the engine's earlier
   * obligations followed by the new ones, with every discount parsed so far applied again.
   */
  function AfterDiscounts(before: seq<ObligationRecord>, cd: ContractData, ds: seq<Discount>): Applied {
    var rs := before + ObligationsOf(cd.performanceObligations);
    ApplyAll(rs, ds, SumSsp(rs))
  }

  /** Discounts only move value between `allocated_amount` and `discount_applied`. */
  lemma EngineConservesValue(before: seq<ObligationRecord>, cd: ContractData, ds: seq<Discount>)
    ensures var after := AfterDiscounts(before, cd, ds).records;
      |after| == |before| + |cd.performanceObligations|
      && SumAllocated(after) + SumApplied(after)
         == SumAllocated(before + ObligationsOf(cd.performanceObligations))
            + SumApplied(before + ObligationsOf(cd.performanceObligations))
  {
    var rs := before + ObligationsOf(cd.performanceObligations);
    DiscountsConserveContractValue(rs, ds, SumSsp(rs));
  }

  /** `ASC606Engine`. */
  class Asc606Engine {
    var contractData: Option<ContractData>
    var performanceObligations: seq<PerformanceObligation>
    var revenueSchedule: seq<ScheduleEntry>
    const discountHandler: DiscountHandler
    var revenueScheduleGenerator: RevenueScheduleGenerator?

    /** The engine's obligations are distinct objects: each is created by the engine. */
    predicate Valid()
      reads this
    {
      forall i, j :: 0 <= i < j < |performanceObligations| ==> performanceObligations[i] != performanceObligations[j]
    }

    constructor ()
      ensures Valid() && fresh(discountHandler)
      ensures contractData.None? && performanceObligations == [] && revenueSchedule == []
      ensures discountHandler.discounts == [] && discountHandler.totalDiscountAmount == 0.0
      ensures revenueScheduleGenerator == null
    {
      contractData := None;
      performanceObligations := [];
      revenueSchedule := [];
      discountHandler := new DiscountHandler();
      revenueScheduleGenerator := null;
    }

    /** `_process_performance_obligations`: appends one fresh obligation per entry, in order. */
    method ProcessPerformanceObligations()
      requires Valid() && contractData.Some?
      modifies this
      ensures Valid() && contractData == old(contractData)
      ensures revenueSchedule == old(revenueSchedule) && revenueScheduleGenerator == old(revenueScheduleGenerator)
      ensures |performanceObligations| == |old(performanceObligations)| + |contractData.value.performanceObligations|
      ensures performanceObligations[..|old(performanceObligations)|] == old(performanceObligations)
      ensures forall k :: |old(performanceObligations)| <= k < |performanceObligations| ==> fresh(performanceObligations[k])
      ensures Records(performanceObligations)
              == old(Records(performanceObligations)) + ObligationsOf(contractData.value.performanceObligations)
    {
      var data := contractData.value.performanceObligations;
      ghost var n0 := |performanceObligations|;
      ghost var want := Records(performanceObligations) + ObligationsOf(data);
      for i := 0 to |data|
        invariant Valid() && contractData == old(contractData)
        invariant revenueSchedule == old(revenueSchedule) && revenueScheduleGenerator == old(revenueScheduleGenerator)
        invariant |performanceObligations| == n0 + i
        invariant performanceObligations[..n0] == old(performanceObligations)
        invariant forall k :: n0 <= k < |performanceObligations| ==> fresh(performanceObligations[k])
        invariant forall k :: 0 <= k < |performanceObligations| ==> performanceObligations[k].Record() == want[k]
      {
        var obligationData := data[i];
        var obligation := new PerformanceObligation(obligationData.name, obligationData.kind, obligationData.ssp,
                                                    obligationData.allocatedValue,
                                                    obligationData.revenueRecognitionMethod,
                                                    obligationData.recognitionTrigger,
                                                    obligationData.recognitionPeriod.GetOr(map[]),
                                                    obligationData.milestones.GetOr([]));
        performanceObligations := performanceObligations + [obligation];
      }
    }

    /** `_generate_revenue_schedule`: a new generator over all of the engine's obligations. */
    method GenerateRevenueSchedule(today: Date, now: string, round2: real -> real)
      returns (r: Result<seq<ScheduleEntry>, ScheduleError>)
      requires contractData.Some? && ValidContract(contractData.value)
      modifies this
      ensures contractData == old(contractData) && performanceObligations == old(performanceObligations)
      ensures var run := ScheduleRun(Terms(contractData.value), Records(performanceObligations), today, now, round2);
        if run.error.None? then r == Ok(run.entries) && revenueSchedule == run.entries
        else r == Err(run.error.value) && revenueSchedule == old(revenueSchedule)
    {
      var generator := new RevenueScheduleGenerator(Terms(contractData.value));
      revenueScheduleGenerator := generator;
      ghost var run := ScheduleRun(Terms(contractData.value), Records(performanceObligations), today, now, round2);
      r := generator.GenerateSchedule(performanceObligations, today, now, round2);
      assert generator.revenueSchedule == [] + run.entries == run.entries;
      if r.Ok? {
        revenueSchedule := r.value;
      }
    }

    /**
     * The steps of `process_contract` before the schedule: store the contract, append its
     * obligations, parse its discounts and apply every discount parsed so far.
     */
    method PrepareObligations(cd: ContractData) returns (typeError: bool)
      requires Valid()
      modifies this, discountHandler, performanceObligations
      ensures Valid() && contractData == Some(cd) && revenueSchedule == old(revenueSchedule)
      ensures |old(performanceObligations)| <= |performanceObligations|
      ensures performanceObligations[..|old(performanceObligations)|] == old(performanceObligations)
      ensures typeError <==> cd.discounts.Null?
      ensures typeError ==>
        Records(performanceObligations) == old(Records(performanceObligations)) + ObligationsOf(cd.performanceObligations)
        && discountHandler.discounts == old(discountHandler.discounts)
        && discountHandler.totalDiscountAmount == old(discountHandler.totalDiscountAmount)
      ensures !typeError ==> discountHandler.discounts == old(discountHandler.discounts) + ParseDiscounts(cd.discounts).value
      ensures !typeError ==> var a := AfterDiscounts(old(Records(performanceObligations)), cd, discountHandler.discounts);
        Records(performanceObligations) == a.records
        && discountHandler.totalDiscountAmount == old(discountHandler.totalDiscountAmount) + a.added
    {
      contractData := Some(cd);
      ghost var before := Records(performanceObligations);
      ProcessPerformanceObligations();
      ghost var built := Records(performanceObligations);
      typeError := discountHandler.ProcessDiscounts(cd.discounts);
      assert Records(performanceObligations) == built;
      if typeError {
        return;
      }
      discountHandler.ApplyDiscounts(performanceObligations);
      assert Records(performanceObligations) == AfterDiscounts(before, cd, discountHandler.discounts).records;
    }

    /**
     * `process_contract`. Obligations and parsed discounts accumulate over calls; the
     * schedule is generated from the obligations after every discount has been applied,
     * and replaces the previous one. `Err` is the exception the generator raises.
     */
    method ProcessContract(cd: ContractData, today: Date, now: string, round2: real -> real)
      returns (r: Result<EngineOutput, EngineError>)
      requires Valid() && ValidContract(cd)
      modifies this, discountHandler, performanceObligations
      ensures Valid() && contractData == Some(cd)
      ensures |old(performanceObligations)| <= |performanceObligations|
      ensures performanceObligations[..|old(performanceObligations)|] == old(performanceObligations)
      ensures cd.discounts.Null? ==>
        r == Err(DiscountsNotIterable) && revenueSchedule == old(revenueSchedule)
        && Records(performanceObligations) == old(Records(performanceObligations)) + ObligationsOf(cd.performanceObligations)
        && discountHandler.discounts == old(discountHandler.discounts)
        && discountHandler.totalDiscountAmount == old(discountHandler.totalDiscountAmount)
      ensures !cd.discounts.Null? ==>
        discountHandler.discounts == old(discountHandler.discounts) + ParseDiscounts(cd.discounts).value
      ensures !cd.discounts.Null? ==>
        var a := AfterDiscounts(old(Records(performanceObligations)), cd, discountHandler.discounts);
        Records(performanceObligations) == a.records
        && discountHandler.totalDiscountAmount == old(discountHandler.totalDiscountAmount) + a.added
      ensures !cd.discounts.Null? ==>
        var run := ScheduleRun(Terms(cd), Records(performanceObligations), today, now, round2);
        if run.error.None? then
          revenueSchedule == run.entries
          && ValidEntries(run.entries)
          && r == Ok(EngineOutput("Contract processed successfully.", cd, Rows(run.entries),
                                  discountHandler.totalDiscountAmount, |discountHandler.discounts|))
        else revenueSchedule == old(revenueSchedule) && r == Err(ScheduleFailed(run.error.value))
    {
      var typeError := PrepareObligations(cd);
      if typeError {
        return Err(DiscountsNotIterable);
      }
      ghost var after := Records(performanceObligations);
      var generated := GenerateRevenueSchedule(today, now, round2);
      assert Records(performanceObligations) == after;
      if generated.Err? {
        return Err(ScheduleFailed(generated.error));
      }
      ScheduleRunEntriesValid(Terms(cd), Records(performanceObligations), today, now, round2);
      r := Ok(EngineOutput("Contract processed successfully.", cd, Rows(revenueSchedule),
                           discountHandler.totalDiscountAmount, |discountHandler.discounts|));
    }
  }
}
