/**
 * The records the front end receives from the API (frontend/src/services/api.ts), and the
 * JavaScript `||` fallbacks the components apply to their optional fields.
 */
module ApiTypes {
  import opened Common

  /** `Contract`. */
  datatype Contract = Contract(
    id: int,
    externalId: Option<string>,
    customerName: Option<string>,
    fileName: Option<string>,
    contentType: Option<string>,
    totalValue: Option<real>,
    currency: Option<string>,
    startDate: Option<string>,
    endDate: Option<string>,
    status: string,
    createdAt: string,
    updatedAt: string)

  /** The `obligation` object a schedule row may carry, each field possibly missing. */
  datatype ObligationView = ObligationView(name: Option<string>, kind: Option<string>, recognitionMethod: Option<string>)

  /** `RevenueSchedule`, with the `obligation` the schedule table reads. */
  datatype ScheduleView = ScheduleView(
    id: int,
    contractId: int,
    periodStart: Option<string>,
    periodEnd: Option<string>,
    amount: Option<real>,
    recognized: bool,
    createdAt: string,
    obligation: Option<ObligationView>)

  /** `AuditMemo`. */
  datatype AuditMemo = AuditMemo(id: int, contractId: int, memoText: Option<string>, createdAt: string)

  /** A string JavaScript treats as true: present and not empty. */
  predicate Truthy(s: Option<string>) {
    s.Some? && s.value != ""
  }

  /** `a || b` for an optional string and a fallback. */
  function OrElse(a: Option<string>, b: string): (r: string)
    ensures Truthy(a) ==> r == a.value
    ensures !Truthy(a) ==> r == b
  {
    if Truthy(a) then a.value else b
  }

  /** `x || 0` for an optional number: missing and zero both give 0. */
  function AmountOrZero(x: Option<real>): (r: real)
    ensures x.Some? ==> r == x.value
    ensures x.None? ==> r == 0.0
  {
    x.GetOr(0.0)
  }

  /** A number JavaScript treats as true: present and not zero. */
  predicate NonZero(x: Option<real>) {
    x.Some? && x.value != 0.0
  }
}
