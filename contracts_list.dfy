/**
 * The contract list panel (frontend/src/components/dashboard/ContractsList.tsx): the two
 * status counts in its header, and for each contract row the title, status icon, value,
 * date line and selection highlight. The formatters and `getContractStatusText` are the
 * component's props and are parameters here.
 */
module ContractsList {
  import opened Common
  import opened Text
  import opened ApiTypes
  import Dashboard

  /** The header's "Processed" band: processed or completed. */
  predicate ShownProcessed(status: string) {
    status == "processed" || status == "completed"
  }

  /** The header's "Uploaded" band: uploaded or processing. */
  predicate ShownUploaded(status: string) {
    status == "uploaded" || status == "processing"
  }

  /** `contracts.filter(StatusKept(keep)).length`. */
  function Count(contracts: seq<Contract>, keep: string -> bool): (n: nat)
    ensures n <= |contracts|
  {
    if contracts == [] then 0
    else Count(contracts[..|contracts| - 1], keep) + (if keep(contracts[|contracts| - 1].status) then 1 else 0)
  }

  /** The filter `c => keep(c.status)`. */
  function StatusKept(keep: string -> bool): Contract -> bool {
    (c: Contract) => keep(c.status)
  }

  /** The count is the number of positions whose contract the filter keeps. */
  lemma {:induction false} CountCountsPositions(contracts: seq<Contract>, keep: string -> bool)
    ensures Count(contracts, keep) == |Positions(contracts, StatusKept(keep))|
    decreases |contracts|
  {
    var n := |contracts|;
    if n > 0 {
      CountCountsPositions(contracts[..n - 1], keep);
      PositionsOfLonger(contracts, StatusKept(keep));
    }
  }

  /** No status falls in both bands. */
  lemma BandsDisjoint(status: string)
    ensures !(ShownProcessed(status) && ShownUploaded(status))
  {
    if status == "processed" {
      assert status[7] == 'e';
      assert "processing"[7] == 'i';
    }
  }

  /** The two header counts together never exceed the number of contracts. */
  lemma {:induction false} CountsBounded(contracts: seq<Contract>)
    ensures Count(contracts, ShownProcessed) + Count(contracts, ShownUploaded) <= |contracts|
    decreases |contracts|
  {
    if contracts != [] {
      CountsBounded(contracts[..|contracts| - 1]);
      BandsDisjoint(contracts[|contracts| - 1].status);
    }
  }

  /** A contract whose status is "error" (or any status outside both bands) is counted in neither. */
  lemma {:induction false} OutsideBandsUncounted(contracts: seq<Contract>, c: Contract)
    requires !ShownProcessed(c.status) && !ShownUploaded(c.status)
    ensures Count(contracts + [c], ShownProcessed) == Count(contracts, ShownProcessed)
    ensures Count(contracts + [c], ShownUploaded) == Count(contracts, ShownUploaded)
  {
    assert (contracts + [c])[..|contracts + [c]| - 1] == contracts;
  }

  /**
   * The dashboard header counts only exact "processed" and exact "uploaded", so each of its
   * counts is at most the panel's count of the same name.
   */
  lemma {:induction false} DashboardCountsAtMostPanel(contracts: seq<Contract>)
    ensures Dashboard.CountStatus(contracts, "processed") <= Count(contracts, ShownProcessed)
    ensures Dashboard.CountStatus(contracts, "uploaded") <= Count(contracts, ShownUploaded)
    decreases |contracts|
  {
    if contracts != [] {
      DashboardCountsAtMostPanel(contracts[..|contracts| - 1]);
    }
  }

  /** The row title: customer name, else file name, else "Contract #<id>". */
  function Title(c: Contract): (t: string)
    ensures Truthy(c.customerName) ==> t == c.customerName.value
    ensures !Truthy(c.customerName) && Truthy(c.fileName) ==> t == c.fileName.value
    ensures !Truthy(c.customerName) && !Truthy(c.fileName) ==> t == "Contract #" + IntToString(c.id)
    ensures t != []
  {
    OrElse(c.customerName, OrElse(c.fileName, "Contract #" + IntToString(c.id)))
  }

  /** The row's status icon; `None` renders nothing. */
  datatype Icon = CheckIcon | SpinnerIcon | CrossIcon

  function StatusIcon(status: string): (icon: Option<Icon>)
    ensures icon == Some(CheckIcon) <==> status == "processed"
    ensures icon == Some(SpinnerIcon) <==> status == "processing"
    ensures icon == Some(CrossIcon) <==> status == "error"
    ensures icon.None? <==> status != "processed" && status != "processing" && status != "error"
  {
    if status == "processed" then Some(CheckIcon)
    else if status == "processing" then Some(SpinnerIcon)
    else if status == "error" then Some(CrossIcon)
    else None
  }

  /** A completed contract is counted as processed but carries no icon. */
  lemma CompletedHasNoIcon()
    ensures ShownProcessed("completed") && StatusIcon("completed").None?
  {
    assert "completed" != "processed" && "completed" != "processing" && "completed" != "error";
  }

  /** The value line: the formatted total, or "Pending..." when it is absent or zero. */
  function ValueLabel(c: Contract, formatCurrency: (Option<real>, Option<string>) -> string): (s: string)
    ensures !NonZero(c.totalValue) ==> s == "Pending..."
    ensures NonZero(c.totalValue) ==> s == formatCurrency(c.totalValue, c.currency)
  {
    if NonZero(c.totalValue) then formatCurrency(c.totalValue, c.currency) else "Pending..."
  }

  /**
   * With the dashboard's formatter, the value line never reads "N/A" from a missing total:
   * exactly the totals that formatter would print "N/A" for read "Pending..." here instead.
   */
  lemma PendingWhereDashboardShowsNA(c: Contract, format: (real, string) -> string)
    ensures var fc := (a, cur) => Dashboard.FormatCurrency(a, cur, format);
      !NonZero(c.totalValue) <==> ValueLabel(c, fc) == "Pending..." && fc(c.totalValue, c.currency) == "N/A"
  {
    var fc := (a, cur) => Dashboard.FormatCurrency(a, cur, format);
    if NonZero(c.totalValue) {
      assert fc(c.totalValue, c.currency) == ValueLabel(c, fc);
    }
  }

  /** The second line of a row: the formatted date range, or the status text. */
  datatype DateLine = Range(start: string, end: string) | StatusText(text: string)

  function DateLineOf(c: Contract, formatDate: Option<string> -> string, statusText: Contract -> string): (d: DateLine)
    ensures d.Range? <==> Truthy(c.startDate) && Truthy(c.endDate)
    ensures d.Range? ==> d == Range(formatDate(c.startDate), formatDate(c.endDate))
    ensures d.StatusText? ==> d.text == statusText(c)
  {
    if Truthy(c.startDate) && Truthy(c.endDate) then Range(formatDate(c.startDate), formatDate(c.endDate))
    else StatusText(statusText(c))
  }

  /** `selectedContract?.id === contract.id`. */
  predicate Highlighted(selected: Option<Contract>, c: Contract) {
    selected.Some? && selected.value.id == c.id
  }

  /** Everything the panel derives for one row. */
  datatype Row = Row(title: string, icon: Option<Icon>, value: string, uploaded: string, dateLine: DateLine, highlighted: bool)

  function RowOf(c: Contract, selected: Option<Contract>, formatCurrency: (Option<real>, Option<string>) -> string,
                 formatDate: Option<string> -> string, statusText: Contract -> string): Row
  {
    Row(Title(c), StatusIcon(c.status), ValueLabel(c, formatCurrency), formatDate(Some(c.createdAt)),
        DateLineOf(c, formatDate, statusText), Highlighted(selected, c))
  }

  /** The list body: the empty state, or one row per contract in order. */
  datatype ListBody = NoContracts | Rows(rows: seq<Row>)

  function Body(contracts: seq<Contract>, selected: Option<Contract>, formatCurrency: (Option<real>, Option<string>) -> string,
                formatDate: Option<string> -> string, statusText: Contract -> string): (b: ListBody)
    ensures b.NoContracts? <==> contracts == []
    ensures b.Rows? ==> |b.rows| == |contracts|
    ensures b.Rows? ==>
      forall i :: 0 <= i < |contracts| ==> b.rows[i] == RowOf(contracts[i], selected, formatCurrency, formatDate, statusText)
  {
    if contracts == [] then NoContracts
    else Rows(seq(|contracts|, i requires 0 <= i < |contracts| => RowOf(contracts[i], selected, formatCurrency, formatDate, statusText)))
  }

  /**
   * A row is highlighted exactly when its contract has the selected contract's id; so with
   * distinct ids the selected contract's row is the only highlighted one.
   */
  lemma AtMostOneHighlighted(contracts: seq<Contract>, selected: Option<Contract>,
                             formatCurrency: (Option<real>, Option<string>) -> string,
                             formatDate: Option<string> -> string, statusText: Contract -> string, i: nat, j: nat)
    requires forall a, b :: 0 <= a < b < |contracts| ==> contracts[a].id != contracts[b].id
    requires i < |contracts| && j < |contracts|
    ensures var b := Body(contracts, selected, formatCurrency, formatDate, statusText);
      b.rows[i].highlighted && b.rows[j].highlighted ==> i == j
  {
    var b := Body(contracts, selected, formatCurrency, formatDate, statusText);
    assert b.rows[i].highlighted == Highlighted(selected, contracts[i]);
    assert b.rows[j].highlighted == Highlighted(selected, contracts[j]);
    if i < j {
      assert contracts[i].id != contracts[j].id;
    } else if j < i {
      assert contracts[j].id != contracts[i].id;
    }
  }
}
