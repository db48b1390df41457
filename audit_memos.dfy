/**
 * The audit memo panel (frontend/src/components/dashboard/AuditMemos.tsx): which state it
 * shows, the count badge in its header, and the card record it builds for each plain memo
 * when no structured memos are available. The structured memos are opaque values of type
 * `S`; `formatDate` and `formatCurrency` are the component's props and are parameters here.
 */
module AuditMemos {
  import opened Common
  import opened Text
  import opened ApiTypes

  /** The header: a spinner while loading, the count badge when there are memos, else nothing. */
  datatype Header = LoadingBadge | CountBadge(text: string) | NoBadge

  /** "N memo", with a trailing "s" unless N is 1. */
  function CountLabel(n: nat): (s: string)
    ensures |s| > |NatToString(n)| + 4
    ensures s[..|NatToString(n)|] == NatToString(n)
    ensures s[|s| - 1] == 's' <==> n != 1
  {
    NatToString(n) + " memo" + (if n != 1 then "s" else "")
  }

  /** The number printed in the count badge reads back as the number of memos. */
  lemma CountLabelShowsCount(n: nat)
    ensures var s := CountLabel(n); DigitsValue(s[..|NatToString(n)|]) == n
  {
    NatToStringRoundTrip(n);
  }

  function HeaderOf(loadingDetails: bool, memoCount: nat): (h: Header)
    ensures loadingDetails <==> h == LoadingBadge
    ensures h.CountBadge? <==> !loadingDetails && memoCount > 0
    ensures h.CountBadge? ==> h.text == CountLabel(memoCount)
  {
    if loadingDetails then LoadingBadge
    else if memoCount > 0 then CountBadge(CountLabel(memoCount))
    else NoBadge
  }

  /** The card record built for a plain memo. */
  datatype PlainCard = PlainCard(
    standard: string,
    contractId: string,
    analysisDate: string,
    preparedBy: string,
    provider: string,
    customer: string,
    effectiveDate: string,
    endDate: string,
    totalConsideration: string)

  const Standard: string := "ASC 606 - Revenue from Contracts with Customers"
  const PreparedBy: string := "Automated Revenue Recognition System"

  /** `String(memo.contract_id || selectedContract?.external_id || "")`: a zero id falls through. */
  function CardContractId(memo: AuditMemo, selected: Option<Contract>): (s: string)
    ensures memo.contractId != 0 ==> s == IntToString(memo.contractId)
    ensures memo.contractId == 0 && selected.Some? && Truthy(selected.value.externalId) ==> s == selected.value.externalId.value
    ensures memo.contractId == 0 && !(selected.Some? && Truthy(selected.value.externalId)) ==> s == ""
  {
    if memo.contractId != 0 then IntToString(memo.contractId)
    else if selected.Some? then OrElse(selected.value.externalId, "")
    else ""
  }

  /** `selectedContract?.file_name?.split("_")[0] || ""`. */
  function Provider(selected: Option<Contract>): (p: string)
    ensures selected.None? || selected.value.fileName.None? ==> p == ""
    ensures selected.Some? && selected.value.fileName.Some? ==> p == Split(selected.value.fileName.value, '_')[0]
  {
    if selected.Some? && selected.value.fileName.Some? then Split(selected.value.fileName.value, '_')[0] else ""
  }

  /** The provider is the file name up to (not including) its first underscore. */
  lemma ProviderIsNameBeforeUnderscore(selected: Option<Contract>)
    requires selected.Some? && selected.value.fileName.Some?
    ensures var name := selected.value.fileName.value;
      var k := IndexOf(name, '_');
      Provider(selected) == if k < 0 then name else name[..k]
  {
    SplitFirst(selected.value.fileName.value, '_');
  }

  /** The provider never holds an underscore. */
  lemma ProviderHasNoUnderscore(selected: Option<Contract>)
    ensures '_' !in Provider(selected)
  {
    if selected.Some? && selected.value.fileName.Some? {
      var parts := Split(selected.value.fileName.value, '_');
      SplitPartsOmitSeparator(selected.value.fileName.value, '_');
      assert parts[0] in parts;
    }
  }

  /** A field of the selected contract, or `undefined` when there is none. */
  function Field<T>(selected: Option<Contract>, get: Contract -> Option<T>): (v: Option<T>)
    ensures selected.None? ==> v.None?
    ensures selected.Some? ==> v == get(selected.value)
  {
    if selected.Some? then get(selected.value) else None
  }

  function CardOf(memo: AuditMemo, selected: Option<Contract>, formatDate: Option<string> -> string,
                  formatCurrency: (Option<real>, Option<string>) -> string): (card: PlainCard)
    ensures card.standard == Standard && card.preparedBy == PreparedBy
    ensures card.contractId == CardContractId(memo, selected)
    ensures card.analysisDate == formatDate(Some(memo.createdAt))
    ensures card.provider == Provider(selected)
    ensures card.customer == OrElse(Field(selected, (c: Contract) => c.customerName), "")
    ensures card.effectiveDate == formatDate(Field(selected, (c: Contract) => c.startDate))
    ensures card.endDate == formatDate(Field(selected, (c: Contract) => c.endDate))
    ensures card.totalConsideration == formatCurrency(Field(selected, (c: Contract) => c.totalValue), Field(selected, (c: Contract) => c.currency))
  {
    PlainCard(
      Standard,
      CardContractId(memo, selected),
      formatDate(Some(memo.createdAt)),
      PreparedBy,
      Provider(selected),
      OrElse(Field(selected, (c: Contract) => c.customerName), ""),
      formatDate(Field(selected, (c: Contract) => c.startDate)),
      formatDate(Field(selected, (c: Contract) => c.endDate)),
      formatCurrency(Field(selected, (c: Contract) => c.totalValue), Field(selected, (c: Contract) => c.currency)))
  }

  /** The body of the panel. */
  datatype Body<S> = Loading | Empty | Structured(memos: seq<S>) | Plain(cards: seq<PlainCard>)

  function BodyOf<S>(loadingDetails: bool, auditMemos: seq<AuditMemo>, structuredMemos: seq<S>, selected: Option<Contract>,
                     formatDate: Option<string> -> string,
                     formatCurrency: (Option<real>, Option<string>) -> string): (b: Body<S>)
    ensures loadingDetails <==> b.Loading?
    ensures b.Empty? <==> !loadingDetails && auditMemos == []
    ensures b.Structured? <==> !loadingDetails && auditMemos != [] && structuredMemos != []
    ensures b.Structured? ==> b.memos == structuredMemos
    ensures b.Plain? ==> |b.cards| == |auditMemos|
    ensures b.Plain? ==> forall i :: 0 <= i < |auditMemos| ==> b.cards[i] == CardOf(auditMemos[i], selected, formatDate, formatCurrency)
  {
    if loadingDetails then Loading
    else if auditMemos == [] then Empty
    else if structuredMemos != [] then Structured(structuredMemos)
    else Plain(seq(|auditMemos|, i requires 0 <= i < |auditMemos| => CardOf(auditMemos[i], selected, formatDate, formatCurrency)))
  }

  /** The header shows the count exactly when the body shows memos of either kind. */
  lemma HeaderAgreesWithBody<S>(loadingDetails: bool, auditMemos: seq<AuditMemo>, structuredMemos: seq<S>,
                                selected: Option<Contract>, formatDate: Option<string> -> string,
                                formatCurrency: (Option<real>, Option<string>) -> string)
    ensures var b := BodyOf(loadingDetails, auditMemos, structuredMemos, selected, formatDate, formatCurrency);
      HeaderOf(loadingDetails, |auditMemos|).CountBadge? <==> b.Structured? || b.Plain?
  {
  }

  /** Without plain memos the panel is empty, however many structured memos there are. */
  lemma NoPlainMemosMeansEmpty<S>(structuredMemos: seq<S>, selected: Option<Contract>,
                                  formatDate: Option<string> -> string,
                                  formatCurrency: (Option<real>, Option<string>) -> string)
    ensures BodyOf(false, [], structuredMemos, selected, formatDate, formatCurrency).Empty?
  {
  }
}
