/**
 * The discount handler (app/ASC606/discounts.py). A global discount is spread over all
 * obligations in proportion to their standalone selling prices (a simplified ASC
 * 606-10-32-36); an obligation-specific discount reduces only the obligations it names
 * (ASC 606-10-32-37). The handler lowers each obligation's `allocated_amount` and raises its
 * `discount_applied` in place, and keeps a running `total_discount_amount`.
 *
 * The methods are specified by functions on obligation records: `ApplyGlobal`,
 * `ApplySpecific` and the fold `ApplyAll` over the discount list.
 */
module Discounts {
  import opened Common
  import opened Asc606Models

  /** One entry of `contract_data["discounts"]`: every key may be missing. */
  datatype DiscountData = DiscountData(
    name: Option<string>,
    kind: Option<string>,
    amount: Option<real>,
    isPercentage: Option<bool>,
    scope: Option<string>,
    targetObligations: Option<seq<string>>)

  /** The `DiscountModel` built from one entry, with the defaults of `process_discounts`. */
  function ParseDiscount(d: DiscountData): (r: Discount)
    ensures r.name == d.name.GetOr("") && r.kind == d.kind.GetOr("contract_level")
    ensures r.amount == d.amount.GetOr(0.0) && r.isPercentage == d.isPercentage.GetOr(false)
    ensures r.scope == d.scope.GetOr("global") && r.targetObligations == d.targetObligations
  {
    Discount(d.name.GetOr(""), d.kind.GetOr("contract_level"), d.amount.GetOr(0.0),
             d.isPercentage.GetOr(false), d.scope.GetOr("global"), d.targetObligations)
  }

  /** The `discounts` entry of the contract dictionary: no such key, the key holding `None`, or a list. */
  datatype DiscountsField = Missing | Null | Listed(entries: seq<DiscountData>)

  /**
   * The discounts `process_discounts` parses: none when the key is missing, one model per
   * entry of a list, and `None` for a `None` value, whose iteration raises TypeError.
   */
  function ParseDiscounts(ds: DiscountsField): (r: Option<seq<Discount>>)
    ensures r.None? <==> ds.Null?
    ensures ds.Missing? ==> r == Some([])
    ensures ds.Listed? ==> r.Some? && |r.value| == |ds.entries|
                           && forall k :: 0 <= k < |ds.entries| ==> r.value[k] == ParseDiscount(ds.entries[k])
  {
    match ds
    case Missing => Some([])
    case Null => None
    case Listed(entries) => Some(seq(|entries|, k requires 0 <= k < |entries| => ParseDiscount(entries[k])))
  }

  /** Sum of the standalone selling prices. */
  function SumSsp(rs: seq<ObligationRecord>): real {
    if rs == [] then 0.0 else SumSsp(rs[..|rs| - 1]) + rs[|rs| - 1].standalonePrice
  }

  /** Sum of the discounts applied so far. */
  function SumApplied(rs: seq<ObligationRecord>): real {
    if rs == [] then 0.0 else SumApplied(rs[..|rs| - 1]) + rs[|rs| - 1].discountApplied
  }

  /** Sum of the allocated amounts. */
  function SumAllocated(rs: seq<ObligationRecord>): real {
    if rs == [] then 0.0 else SumAllocated(rs[..|rs| - 1]) + rs[|rs| - 1].allocatedAmount
  }

  /** `discount_applied += x; allocated_amount -= x`. */
  function Discounted(r: ObligationRecord, x: real): (d: ObligationRecord)
    ensures d.allocatedAmount + d.discountApplied == r.allocatedAmount + r.discountApplied
    ensures d.discountApplied == r.discountApplied + x
    ensures d == r.(allocatedAmount := d.allocatedAmount, discountApplied := d.discountApplied)
  {
    r.(discountApplied := r.discountApplied + x, allocatedAmount := r.allocatedAmount - x)
  }

  /** The amount a global discount takes off the contract: a percentage of the total SSP, or flat. */
  function GlobalAmount(d: Discount, totalSsp: real): real {
    if d.isPercentage then totalSsp * (d.amount / 100.0) else d.amount
  }

  /** One obligation's share of a global discount. */
  function GlobalShare(r: ObligationRecord, d: Discount, totalSsp: real): real
    requires totalSsp > 0.0
  {
    (r.standalonePrice / totalSsp) * GlobalAmount(d, totalSsp)
  }

  /** `_apply_global_discount` on the obligations: nothing changes unless `total_ssp > 0`. */
  function ApplyGlobal(rs: seq<ObligationRecord>, d: Discount, totalSsp: real): (out: seq<ObligationRecord>)
    ensures |out| == |rs|
    ensures totalSsp <= 0.0 ==> out == rs
    ensures totalSsp > 0.0 ==> forall i :: 0 <= i < |rs| ==> out[i] == Discounted(rs[i], GlobalShare(rs[i], d, totalSsp))
  {
    if totalSsp > 0.0 then
      seq(|rs|, i requires 0 <= i < |rs| => Discounted(rs[i], GlobalShare(rs[i], d, totalSsp)))
    else rs
  }

  /** `if not discount.target_obligations`: no list, or an empty one. */
  predicate HasTargets(d: Discount) {
    d.targetObligations.Some? && |d.targetObligations.value| > 0
  }

  predicate Targets(d: Discount, r: ObligationRecord) {
    HasTargets(d) && r.name in d.targetObligations.value
  }

  /** A targeted obligation's discount: a percentage of its own SSP, or the full flat amount. */
  function SpecificShare(r: ObligationRecord, d: Discount): real {
    if d.isPercentage then r.standalonePrice * (d.amount / 100.0) else d.amount
  }

  /** `_apply_obligation_specific_discount` on the obligations. */
  function ApplySpecific(rs: seq<ObligationRecord>, d: Discount): (out: seq<ObligationRecord>)
    ensures |out| == |rs|
    ensures forall i :: 0 <= i < |rs| ==>
      out[i] == if Targets(d, rs[i]) then Discounted(rs[i], SpecificShare(rs[i], d)) else rs[i]
  {
    seq(|rs|, i requires 0 <= i < |rs| =>
      if Targets(d, rs[i]) then Discounted(rs[i], SpecificShare(rs[i], d)) else rs[i])
  }

  /** What `_apply_obligation_specific_discount` adds to `total_discount_amount`. */
  function SpecificTotal(rs: seq<ObligationRecord>, d: Discount): real {
    if rs == [] then 0.0
    else SpecificTotal(rs[..|rs| - 1], d) + (if Targets(d, rs[|rs| - 1]) then SpecificShare(rs[|rs| - 1], d) else 0.0)
  }

  /** The obligations after a run of discounts, and how much the run adds to the total. */
  datatype Applied = Applied(records: seq<ObligationRecord>, added: real)

  /** The loop of `apply_discounts`: each discount in order, by scope; other scopes are skipped. */
  function ApplyAll(rs: seq<ObligationRecord>, ds: seq<Discount>, totalSsp: real): (a: Applied)
    ensures |a.records| == |rs|
    decreases |ds|
  {
    if ds == [] then Applied(rs, 0.0)
    else
      var prev := ApplyAll(rs, ds[..|ds| - 1], totalSsp);
      var d := ds[|ds| - 1];
      if d.scope == "global" then
        Applied(ApplyGlobal(prev.records, d, totalSsp), prev.added + GlobalAmount(d, totalSsp))
      else if d.scope == "obligation_specific" then
        Applied(ApplySpecific(prev.records, d), prev.added + SpecificTotal(prev.records, d))
      else prev
  }

  /** Two lists of obligations that differ at most in how their amounts are split. */
  predicate SameButAmounts(a: seq<ObligationRecord>, b: seq<ObligationRecord>) {
    |a| == |b|
    && forall i :: 0 <= i < |a| ==>
         b[i] == a[i].(allocatedAmount := b[i].allocatedAmount, discountApplied := b[i].discountApplied)
         && b[i].allocatedAmount + b[i].discountApplied == a[i].allocatedAmount + a[i].discountApplied
  }

  /**
   * Neither kind of discount changes anything but the two amounts, and for every
   * obligation `allocated_amount + discount_applied` stays what it was.
   */
  lemma {:induction false} ApplyAllConserves(rs: seq<ObligationRecord>, ds: seq<Discount>, totalSsp: real)
    ensures SameButAmounts(rs, ApplyAll(rs, ds, totalSsp).records)
    decreases |ds|
  {
    if ds != [] {
      ApplyAllConserves(rs, ds[..|ds| - 1], totalSsp);
      var prev := ApplyAll(rs, ds[..|ds| - 1], totalSsp).records;
      var d := ds[|ds| - 1];
      if d.scope == "global" {
        GlobalConserves(prev, d, totalSsp);
        SameButAmountsTransitive(rs, prev, ApplyGlobal(prev, d, totalSsp));
      } else if d.scope == "obligation_specific" {
        SpecificConserves(prev, d);
        SameButAmountsTransitive(rs, prev, ApplySpecific(prev, d));
      }
    }
  }

  lemma GlobalConserves(rs: seq<ObligationRecord>, d: Discount, totalSsp: real)
    ensures SameButAmounts(rs, ApplyGlobal(rs, d, totalSsp))
  {
  }

  lemma SpecificConserves(rs: seq<ObligationRecord>, d: Discount)
    ensures SameButAmounts(rs, ApplySpecific(rs, d))
  {
  }

  lemma SameButAmountsTransitive(a: seq<ObligationRecord>, b: seq<ObligationRecord>, c: seq<ObligationRecord>)
    requires SameButAmounts(a, b) && SameButAmounts(b, c)
    ensures SameButAmounts(a, c)
  {
  }

  /**
   * Over a whole run of discounts the contract's value is only moved, never lost:
   * the allocated amounts plus the discounts applied stay what they were.
   */
  lemma DiscountsConserveContractValue(rs: seq<ObligationRecord>, ds: seq<Discount>, totalSsp: real)
    ensures var out := ApplyAll(rs, ds, totalSsp).records;
      SumAllocated(out) + SumApplied(out) == SumAllocated(rs) + SumApplied(rs)
      && SumSsp(out) == SumSsp(rs)
  {
    var out := ApplyAll(rs, ds, totalSsp).records;
    ApplyAllConserves(rs, ds, totalSsp);
    SameButAmountsSums(rs, out);
    SameButAmountsKeepsSsp(rs, out);
  }

  /** A discount whose scope is neither `global` nor `obligation_specific` has no effect at all. */
  lemma UnknownScopeIgnored(rs: seq<ObligationRecord>, ds: seq<Discount>, d: Discount, totalSsp: real)
    requires d.scope != "global" && d.scope != "obligation_specific"
    ensures ApplyAll(rs, ds + [d], totalSsp) == ApplyAll(rs, ds, totalSsp)
  {
    assert (ds + [d])[..|ds|] == ds;
  }

  /** Prices are never changed, so the total SSP computed before the loop stays the total SSP. */
  lemma {:induction false} SameButAmountsKeepsSsp(a: seq<ObligationRecord>, b: seq<ObligationRecord>)
    requires SameButAmounts(a, b)
    ensures SumSsp(b) == SumSsp(a)
    decreases |a|
  {
    if a != [] {
      SameButAmountsKeepsSsp(a[..|a| - 1], b[..|b| - 1]);
    }
  }

  /** The shares of a global discount sum to `SumSsp / total_ssp` times the discount amount. */
  lemma {:induction false} GlobalSharesSum(rs: seq<ObligationRecord>, d: Discount, totalSsp: real)
    requires totalSsp > 0.0
    ensures SumApplied(ApplyGlobal(rs, d, totalSsp))
            == SumApplied(rs) + (SumSsp(rs) / totalSsp) * GlobalAmount(d, totalSsp)
    decreases |rs|
  {
    if rs != [] {
      var init := rs[..|rs| - 1];
      GlobalSharesSum(init, d, totalSsp);
      assert ApplyGlobal(rs, d, totalSsp)[..|rs| - 1] == ApplyGlobal(init, d, totalSsp);
      var a := GlobalAmount(d, totalSsp);
      assert (SumSsp(init) / totalSsp) * a + (rs[|rs| - 1].standalonePrice / totalSsp) * a
             == (SumSsp(rs) / totalSsp) * a;
    }
  }

  /**
   * With `total_ssp` the sum of the prices and positive, the shares of a global discount
   * add up to exactly the discount amount, and the allocated amounts fall by it.
   */
  lemma GlobalDiscountIsFullyAllocated(rs: seq<ObligationRecord>, d: Discount)
    requires SumSsp(rs) > 0.0
    ensures var out := ApplyGlobal(rs, d, SumSsp(rs));
      SumApplied(out) == SumApplied(rs) + GlobalAmount(d, SumSsp(rs))
      && SumAllocated(out) == SumAllocated(rs) - GlobalAmount(d, SumSsp(rs))
  {
    var t := SumSsp(rs);
    GlobalSharesSum(rs, d, t);
    assert t / t == 1.0;
    var out := ApplyGlobal(rs, d, t);
    GlobalConserves(rs, d, t);
    SameButAmountsSums(rs, out);
  }

  /** Moving amounts between the two fields moves the same total between the two sums. */
  lemma {:induction false} SameButAmountsSums(a: seq<ObligationRecord>, b: seq<ObligationRecord>)
    requires SameButAmounts(a, b)
    ensures SumAllocated(b) + SumApplied(b) == SumAllocated(a) + SumApplied(a)
    decreases |a|
  {
    if a != [] {
      SameButAmountsSums(a[..|a| - 1], b[..|b| - 1]);
    }
  }

  /** Global shares are proportional to the standalone prices. */
  lemma GlobalSharesProportional(rs: seq<ObligationRecord>, d: Discount, totalSsp: real, i: nat, j: nat)
    requires totalSsp > 0.0 && i < |rs| && j < |rs|
    ensures var out := ApplyGlobal(rs, d, totalSsp);
      (out[i].discountApplied - rs[i].discountApplied) * rs[j].standalonePrice
      == (out[j].discountApplied - rs[j].discountApplied) * rs[i].standalonePrice
  {
    var a := GlobalAmount(d, totalSsp);
    assert (rs[i].standalonePrice / totalSsp) * a * rs[j].standalonePrice
           == (rs[j].standalonePrice / totalSsp) * a * rs[i].standalonePrice;
  }

  /**
   * An obligation-specific discount changes only the obligations it names, each by its own
   * share, and adds the sum of those shares to the total.
   */
  lemma {:induction false} SpecificTotalIsSumOfShares(rs: seq<ObligationRecord>, d: Discount)
    ensures SumApplied(ApplySpecific(rs, d)) == SumApplied(rs) + SpecificTotal(rs, d)
    decreases |rs|
  {
    if rs != [] {
      var init := rs[..|rs| - 1];
      SpecificTotalIsSumOfShares(init, d);
      assert ApplySpecific(rs, d)[..|rs| - 1] == ApplySpecific(init, d);
    }
  }

  /** `SpecificTotal` over one more obligation. */
  lemma SpecificTotalStep(rs: seq<ObligationRecord>, d: Discount, i: nat)
    requires i < |rs|
    ensures SpecificTotal(rs[..i + 1], d)
            == SpecificTotal(rs[..i], d) + (if Targets(d, rs[i]) then SpecificShare(rs[i], d) else 0.0)
  {
    assert rs[..i + 1][..i] == rs[..i];
  }

  /** Without a target list an obligation-specific discount changes nothing and adds nothing. */
  lemma {:induction false} NoTargetsNoChange(rs: seq<ObligationRecord>, d: Discount)
    requires !HasTargets(d)
    ensures ApplySpecific(rs, d) == rs && SpecificTotal(rs, d) == 0.0
    decreases |rs|
  {
    if rs != [] {
      NoTargetsNoChange(rs[..|rs| - 1], d);
    }
  }

  /** The two field updates both discount kinds make on one obligation. */
  method TakeDiscount(obligation: PerformanceObligation, x: real)
    modifies obligation
    ensures obligation.Record() == Discounted(old(obligation.Record()), x)
  {
    obligation.discountApplied := obligation.discountApplied + x;
    obligation.allocatedAmount := obligation.allocatedAmount - x;
  }

  /** `DiscountHandler`: the parsed discounts and the running total they have taken off. */
  class DiscountHandler {
    var discounts: seq<Discount>
    var totalDiscountAmount: real

    constructor ()
      ensures discounts == [] && totalDiscountAmount == 0.0
    {
      discounts := [];
      totalDiscountAmount := 0.0;
    }

    /**
     * `process_discounts`: appends one model per entry of `discounts`, if the key is present.
     * `typeError` is the TypeError of `for discount_data in None`, raised before any append.
     */
    method ProcessDiscounts(contractDiscounts: DiscountsField) returns (typeError: bool)
      modifies this
      ensures typeError <==> contractDiscounts.Null?
      ensures !typeError ==> discounts == old(discounts) + ParseDiscounts(contractDiscounts).value
      ensures typeError ==> discounts == old(discounts)
      ensures totalDiscountAmount == old(totalDiscountAmount)
    {
      typeError := false;
      if contractDiscounts.Missing? {
        return;
      }
      if contractDiscounts.Null? {
        typeError := true;
        return;
      }
      var entries := contractDiscounts.entries;
      for i := 0 to |entries|
        invariant |discounts| == |old(discounts)| + i
        invariant discounts[..|old(discounts)|] == old(discounts)
        invariant forall k :: 0 <= k < i ==> discounts[|old(discounts)| + k] == ParseDiscount(entries[k])
        invariant totalDiscountAmount == old(totalDiscountAmount)
      {
        var discountData := entries[i];
        var discount := Discount(discountData.name.GetOr(""), discountData.kind.GetOr("contract_level"),
                                 discountData.amount.GetOr(0.0), discountData.isPercentage.GetOr(false),
                                 discountData.scope.GetOr("global"), discountData.targetObligations);
        discounts := discounts + [discount];
      }
      assert discounts == old(discounts) + ParseDiscounts(contractDiscounts).value;
    }

    /**
     * `apply_discounts`: with the total SSP computed once, applies every discount in order.
     * The obligations are distinct objects, as the engine creates them.
     */
    method ApplyDiscounts(obligations: seq<PerformanceObligation>)
      requires forall i, j :: 0 <= i < j < |obligations| ==> obligations[i] != obligations[j]
      modifies this, obligations
      ensures discounts == old(discounts)
      ensures var a := ApplyAll(old(Records(obligations)), discounts, SumSsp(old(Records(obligations))));
        Records(obligations) == a.records && totalDiscountAmount == old(totalDiscountAmount) + a.added
    {
      if discounts == [] {
        return;
      }
      ghost var rs0 := Records(obligations);
      var totalSsp := SumSsp(Records(obligations));
      for i := 0 to |discounts|
        invariant discounts == old(discounts)
        invariant Records(obligations) == ApplyAll(rs0, discounts[..i], totalSsp).records
        invariant totalDiscountAmount == old(totalDiscountAmount) + ApplyAll(rs0, discounts[..i], totalSsp).added
      {
        var discount := discounts[i];
        assert discounts[..i + 1][..i] == discounts[..i];
        if discount.scope == "global" {
          ApplyGlobalDiscount(discount, obligations, totalSsp);
        } else if discount.scope == "obligation_specific" {
          ApplyObligationSpecificDiscount(discount, obligations);
        }
      }
      assert discounts[..|discounts|] == discounts;
    }

    /** `_apply_global_discount`: the full amount is added to the total even when `total_ssp` is 0. */
    method ApplyGlobalDiscount(discount: Discount, obligations: seq<PerformanceObligation>, totalSsp: real)
      requires forall i, j :: 0 <= i < j < |obligations| ==> obligations[i] != obligations[j]
      modifies this, obligations
      ensures discounts == old(discounts)
      ensures Records(obligations) == ApplyGlobal(old(Records(obligations)), discount, totalSsp)
      ensures totalDiscountAmount == old(totalDiscountAmount) + GlobalAmount(discount, totalSsp)
    {
      ghost var rs := Records(obligations);
      ghost var want := ApplyGlobal(rs, discount, totalSsp);
      var discountAmount := if discount.isPercentage then totalSsp * (discount.amount / 100.0) else discount.amount;
      for i := 0 to |obligations|
        invariant forall k :: 0 <= k < |obligations| ==> obligations[k].Record() == if k < i then want[k] else rs[k]
        invariant discounts == old(discounts) && totalDiscountAmount == old(totalDiscountAmount)
      {
        var obligation := obligations[i];
        ghost var before := obligation.Record();
        assert before == rs[i];
        if totalSsp > 0.0 {
          var obligationDiscount := (obligation.standalonePrice / totalSsp) * discountAmount;
          assert obligationDiscount == GlobalShare(before, discount, totalSsp);
          TakeDiscount(obligation, obligationDiscount);
        }
        assert obligation.Record() == want[i];
      }
      totalDiscountAmount := totalDiscountAmount + discountAmount;
    }

    /** The body of the loop of `_apply_obligation_specific_discount`, for one obligation. */
    method DiscountIfTargeted(discount: Discount, targets: seq<string>, obligation: PerformanceObligation)
      requires HasTargets(discount) && targets == discount.targetObligations.value
      modifies this, obligation
      ensures discounts == old(discounts)
      ensures var r := old(obligation.Record());
        if Targets(discount, r) then
          obligation.Record() == Discounted(r, SpecificShare(r, discount))
          && totalDiscountAmount == old(totalDiscountAmount) + SpecificShare(r, discount)
        else
          obligation.Record() == r && totalDiscountAmount == old(totalDiscountAmount)
    {
      if obligation.name in targets {
        var obligationDiscount := if discount.isPercentage then obligation.standalonePrice * (discount.amount / 100.0)
                                  else discount.amount;
        TakeDiscount(obligation, obligationDiscount);
        totalDiscountAmount := totalDiscountAmount + obligationDiscount;
      }
    }

    /** `_apply_obligation_specific_discount`: each named obligation gets its own share. */
    method ApplyObligationSpecificDiscount(discount: Discount, obligations: seq<PerformanceObligation>)
      requires forall i, j :: 0 <= i < j < |obligations| ==> obligations[i] != obligations[j]
      modifies this, obligations
      ensures discounts == old(discounts)
      ensures Records(obligations) == ApplySpecific(old(Records(obligations)), discount)
      ensures totalDiscountAmount == old(totalDiscountAmount) + SpecificTotal(old(Records(obligations)), discount)
    {
      ghost var rs := Records(obligations);
      if discount.targetObligations.None? || |discount.targetObligations.value| == 0 {
        NoTargetsNoChange(rs, discount);
        return;
      }
      var targets := discount.targetObligations.value;
      ghost var want := ApplySpecific(rs, discount);
      for i := 0 to |obligations|
        invariant forall k :: 0 <= k < |obligations| ==> obligations[k].Record() == if k < i then want[k] else rs[k]
        invariant discounts == old(discounts)
        invariant totalDiscountAmount == old(totalDiscountAmount) + SpecificTotal(rs[..i], discount)
      {
        SpecificTotalStep(rs, discount, i);
        DiscountIfTargeted(discount, targets, obligations[i]);
        assert obligations[i].Record() == want[i];
      }
      assert rs[..|obligations|] == rs;
    }
  }
}
