/**
 * The records of the ASC 606 engine (app/ASC606/models.py): performance obligations,
 * which the discount handler updates in place and is therefore a class, and the
 * discount and revenue schedule entry records, which are values.
 */
module Asc606Models {
  import opened Common
  import opened Calendar

  /** One milestone of an obligation: its `name` and, when present, its `value`. */
  datatype Milestone = Milestone(name: string, value: Option<real>)

  /**
   * The fields of a performance obligation at one moment. `recognitionPeriod` holds the
   * period dictionary, with `map[]` standing for both an empty dictionary and `None`
   * (the generator only tests its truth value and reads its `frequency` key).
   */
  datatype ObligationRecord = ObligationRecord(
    name: string,
    kind: string,
    standalonePrice: real,
    allocatedAmount: real,
    recognitionMethod: string,
    recognitionTrigger: string,
    recognitionPeriod: map<string, string>,
    milestones: seq<Milestone>,
    discountApplied: real)

  /** `PerformanceObligationModel`: only the two amounts change after construction. */
  class PerformanceObligation {
    const name: string
    const kind: string
    const standalonePrice: real
    var allocatedAmount: real
    const recognitionMethod: string
    const recognitionTrigger: string
    const recognitionPeriod: map<string, string>
    const milestones: seq<Milestone>
    var discountApplied: real

    /** The dataclass constructor; `discount_applied` defaults to `0.0`. */
    constructor (name: string, kind: string, standalonePrice: real, allocatedAmount: real,
                 recognitionMethod: string, recognitionTrigger: string,
                 recognitionPeriod: map<string, string>, milestones: seq<Milestone>)
      ensures Record() == ObligationRecord(name, kind, standalonePrice, allocatedAmount,
                                           recognitionMethod, recognitionTrigger,
                                           recognitionPeriod, milestones, 0.0)
    {
      this.name := name;
      this.kind := kind;
      this.standalonePrice := standalonePrice;
      this.allocatedAmount := allocatedAmount;
      this.recognitionMethod := recognitionMethod;
      this.recognitionTrigger := recognitionTrigger;
      this.recognitionPeriod := recognitionPeriod;
      this.milestones := milestones;
      this.discountApplied := 0.0;
    }

    /** The obligation's current field values. */
    function Record(): ObligationRecord
      reads this
    {
      ObligationRecord(name, kind, standalonePrice, allocatedAmount, recognitionMethod,
                       recognitionTrigger, recognitionPeriod, milestones, discountApplied)
    }
  }

  /** The current field values of a list of obligations, in list order. */
  function Records(obs: seq<PerformanceObligation>): (rs: seq<ObligationRecord>)
    reads obs
    ensures |rs| == |obs|
    ensures forall i :: 0 <= i < |obs| ==> rs[i] == obs[i].Record()
  {
    seq(|obs|, i reads obs requires 0 <= i < |obs| => obs[i].Record())
  }

  /** `DiscountModel`. `targetObligations` is `None` when the contract gives no target list. */
  datatype Discount = Discount(
    name: string,
    kind: string,
    amount: real,
    isPercentage: bool,
    scope: string,
    targetObligations: Option<seq<string>>)

  /** `RevenueScheduleModel`: one dated slice of an obligation's revenue. */
  datatype ScheduleEntry = ScheduleEntry(
    contractId: string,
    obligationName: string,
    periodStart: Date,
    periodEnd: Date,
    amount: real,
    recognitionMethod: string,
    status: string,
    createdAt: string)
}
