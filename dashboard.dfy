/**
 * The dashboard page (frontend/src/components/Dashboard.tsx): its state, the three
 * asynchronous handlers that load contracts and contract details, the view it chooses,
 * the currency/date fallbacks, the status badge and the header counts. Each API call is
 * replaced by its outcome, given as a parameter; console logging is not modelled.
 */
module Dashboard {
  import opened Common
  import opened ApiTypes

  /** `formatCurrency`: a missing or zero amount reads "N/A"; `format` stands for `Intl.NumberFormat`. */
  function FormatCurrency(amount: Option<real>, currency: Option<string>, format: (real, string) -> string): (s: string)
    ensures !NonZero(amount) ==> s == "N/A"
    ensures NonZero(amount) ==> s == format(amount.value, OrElse(currency, "INR"))
  {
    if !NonZero(amount) then "N/A" else format(amount.value, OrElse(currency, "INR"))
  }

  /** `formatDate`: a missing or empty string reads "N/A"; `localeDate` stands for `toLocaleDateString`. */
  function FormatDate(dateString: Option<string>, localeDate: string -> string): (s: string)
    ensures !Truthy(dateString) ==> s == "N/A"
    ensures Truthy(dateString) ==> s == localeDate(dateString.value)
  {
    if !Truthy(dateString) then "N/A" else localeDate(dateString.value)
  }

  /** The four badges of `getStatusBadge`. */
  datatype Badge = UploadedBadge | ProcessingBadge | CompletedBadge | ErrorBadge

  function BadgeLabel(b: Badge): string {
    match b
    case UploadedBadge => "Uploaded"
    case ProcessingBadge => "Processing"
    case CompletedBadge => "Completed"
    case ErrorBadge => "Error"
  }

  /** `getStatusBadge`: the four known statuses have their own badge; any other falls back to "uploaded". */
  function StatusBadge(status: string): (b: Badge)
    ensures b == ProcessingBadge <==> status == "processing"
    ensures b == CompletedBadge <==> status == "completed"
    ensures b == ErrorBadge <==> status == "error"
    ensures b == UploadedBadge <==> status !in {"processing", "completed", "error"}
  {
    if status == "uploaded" then UploadedBadge
    else if status == "processing" then ProcessingBadge
    else if status == "completed" then CompletedBadge
    else if status == "error" then ErrorBadge
    else UploadedBadge
  }

  /** A contract the backend reports as "processed" still shows the "Uploaded" badge. */
  lemma ProcessedShowsUploaded()
    ensures BadgeLabel(StatusBadge("processed")) == "Uploaded"
  {
    assert "processed" != "processing" by {
      assert "processed"[7] != "processing"[7];
    }
    assert "processed" != "completed" && "processed" != "error" && "processed" != "uploaded";
  }

  /** The number of contracts whose status is exactly `status`. */
  function CountStatus(contracts: seq<Contract>, status: string): (n: nat)
    ensures n <= |contracts|
  {
    if contracts == [] then 0
    else CountStatus(contracts[..|contracts| - 1], status) + (if contracts[|contracts| - 1].status == status then 1 else 0)
  }

  /** The filter `c => c.status === status`. */
  function HasStatus(status: string): Contract -> bool {
    (c: Contract) => c.status == status
  }

  /** The count is the number of positions holding a contract with that status. */
  lemma {:induction false} CountStatusCountsPositions(contracts: seq<Contract>, status: string)
    ensures CountStatus(contracts, status) == |Positions(contracts, HasStatus(status))|
    decreases |contracts|
  {
    var n := |contracts|;
    if n > 0 {
      CountStatusCountsPositions(contracts[..n - 1], status);
      PositionsOfLonger(contracts, HasStatus(status));
    }
  }

  /** The header's "Processed" and "Uploaded" counts never add up to more contracts than there are. */
  lemma {:induction false} HeaderCountsBounded(contracts: seq<Contract>)
    ensures CountStatus(contracts, "processed") + CountStatus(contracts, "uploaded") <= |contracts|
    decreases |contracts|
  {
    if contracts != [] {
      HeaderCountsBounded(contracts[..|contracts| - 1]);
      assert "processed" != "uploaded";
    }
  }

  /** What the component renders at the top level. */
  datatype View = Spinner | ErrorView(message: string) | Main

  /** The outer `if (loading)` / `if (error && !loading)` of the render. */
  function ViewOf(loading: bool, error: string): (v: View)
    ensures loading <==> v == Spinner
    ensures v.ErrorView? <==> !loading && error != ""
    ensures v.ErrorView? ==> v.message == error
  {
    if loading then Spinner else if error != "" then ErrorView(error) else Main
  }

  /** `Dashboard`'s state. */
  class DashboardState {
    var contracts: seq<Contract>
    var selectedContract: Option<Contract>
    var revenueSchedules: seq<ScheduleView>
    var auditMemos: seq<AuditMemo>
    var loading: bool
    var error: string
    var refreshing: bool
    var loadingDetails: bool
    /** The contract ids passed to `getRevenueSchedules` and `getAuditMemos`, in call order. */
    var scheduleRequests: seq<int>
    var memoRequests: seq<int>

    /** The `useState` initial values. */
    constructor ()
      ensures contracts == [] && selectedContract.None? && revenueSchedules == [] && auditMemos == []
      ensures loading && error == "" && !refreshing && !loadingDetails
      ensures scheduleRequests == [] && memoRequests == []
    {
      contracts := [];
      selectedContract := None;
      revenueSchedules := [];
      auditMemos := [];
      loading := true;
      error := "";
      refreshing := false;
      loadingDetails := false;
      scheduleRequests := [];
      memoRequests := [];
    }

    function CurrentView(): View
      reads this
    {
      ViewOf(loading, error)
    }

    /** `loadContracts`, with `response` the outcome of `ApiService.getContracts()`. */
    method LoadContracts(response: Result<seq<Contract>, string>)
      modifies this
      ensures !loading
      ensures response.Ok? ==> contracts == response.value && error == ""
      ensures response.Err? ==> contracts == old(contracts) && error == "Failed to load contracts"
      ensures selectedContract == old(selectedContract) && revenueSchedules == old(revenueSchedules)
      ensures auditMemos == old(auditMemos) && refreshing == old(refreshing) && loadingDetails == old(loadingDetails)
      ensures scheduleRequests == old(scheduleRequests) && memoRequests == old(memoRequests)
    {
      loading := true;
      error := "";
      if response.Ok? {
        contracts := response.value;
      } else {
        error := "Failed to load contracts";
      }
      loading := false;
    }

    /** `refreshContracts`: like `loadContracts` but with its own flag, and it leaves an earlier error standing. */
    method RefreshContracts(response: Result<seq<Contract>, string>)
      modifies this
      ensures !refreshing
      ensures response.Ok? ==> contracts == response.value && error == old(error)
      ensures response.Err? ==> contracts == old(contracts) && error == "Failed to refresh contracts"
      ensures selectedContract == old(selectedContract) && revenueSchedules == old(revenueSchedules)
      ensures auditMemos == old(auditMemos) && loading == old(loading) && loadingDetails == old(loadingDetails)
      ensures scheduleRequests == old(scheduleRequests) && memoRequests == old(memoRequests)
    {
      refreshing := true;
      if response.Ok? {
        contracts := response.value;
      } else {
        error := "Failed to refresh contracts";
      }
      refreshing := false;
    }

    /** The synchronous part of `handleContractSelect`, before the two fetches start. */
    method BeginSelect(contract: Contract)
      modifies this
      ensures selectedContract == Some(contract) && revenueSchedules == [] && auditMemos == []
      ensures loadingDetails && error == ""
      ensures contracts == old(contracts) && loading == old(loading) && refreshing == old(refreshing)
      ensures scheduleRequests == old(scheduleRequests) && memoRequests == old(memoRequests)
    {
      selectedContract := Some(contract);
      revenueSchedules := [];
      auditMemos := [];
      loadingDetails := true;
      error := "";
    }

    /**
     * `handleContractSelect`. Both fetches are keyed by the numeric `contract.id`; the
     * details are applied only when `Promise.all` succeeds, that is when both succeed.
     */
    method HandleContractSelect(contract: Contract, schedules: Result<seq<ScheduleView>, string>,
                                memos: Result<seq<AuditMemo>, string>)
      modifies this
      ensures selectedContract == Some(contract) && !loadingDetails
      ensures scheduleRequests == old(scheduleRequests) + [contract.id]
      ensures memoRequests == old(memoRequests) + [contract.id]
      ensures schedules.Ok? && memos.Ok? ==>
        revenueSchedules == schedules.value && auditMemos == memos.value && error == ""
      ensures !(schedules.Ok? && memos.Ok?) ==>
        revenueSchedules == [] && auditMemos == [] && error == "Failed to load contract details"
      ensures contracts == old(contracts) && loading == old(loading) && refreshing == old(refreshing)
    {
      BeginSelect(contract);
      scheduleRequests := scheduleRequests + [contract.id];
      memoRequests := memoRequests + [contract.id];
      if schedules.Ok? && memos.Ok? {
        revenueSchedules := schedules.value;
        auditMemos := memos.value;
      } else {
        error := "Failed to load contract details";
      }
      loadingDetails := false;
    }
  }

  /** A failed detail load, once contracts are loaded, replaces the whole dashboard with the error view. */
  lemma DetailFailureShowsErrorView(loading: bool)
    requires !loading
    ensures ViewOf(loading, "Failed to load contract details") == ErrorView("Failed to load contract details")
  {
  }
}
