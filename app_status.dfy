/** src/core/app_status.rs: where a tracked app stands relative to its
    newest release. */
module AppStatuses {
  datatype AppStatus = AppInactive | AppPending | NetworkError | AppLatest | AppOutdated | AppNoLocal

  /** Every status but `AppInactive` means the app is being tracked. */
  predicate IsActive(s: AppStatus)
    ensures IsActive(s) <==> s in {AppPending, NetworkError, AppLatest, AppOutdated, AppNoLocal}
  {
    !s.AppInactive?
  }

  /** Up to date: the status described as "Up to date". */
  predicate IsLatest(s: AppStatus)
    ensures IsLatest(s) ==> IsActive(s)
    ensures IsLatest(s) <==> Description(s) == "Up to date"
  {
    s.AppLatest?
  }

  /** A newer release exists: the status described as "Updates available". */
  predicate HasUpdates(s: AppStatus)
    ensures HasUpdates(s) ==> IsActive(s)
    ensures HasUpdates(s) <==> Description(s) == "Updates available"
  {
    s.AppOutdated?
  }

  /** Still being checked: the status described as "Checking for updates...". */
  predicate IsPending(s: AppStatus)
    ensures IsPending(s) ==> IsActive(s)
    ensures IsPending(s) <==> Description(s) == "Checking for updates..."
  {
    s.AppPending?
  }

  /** The check failed: the status described as "Network error". */
  predicate HasError(s: AppStatus)
    ensures HasError(s) ==> IsActive(s)
    ensures HasError(s) <==> Description(s) == "Network error"
  {
    s.NetworkError?
  }

  /** The human-readable text, which is also what `Display` prints. */
  function Description(s: AppStatus): (text: string)
    ensures |text| > 0
  {
    match s
    case AppInactive => "Not tracked"
    case AppPending => "Checking for updates..."
    case NetworkError => "Network error"
    case AppLatest => "Up to date"
    case AppOutdated => "Updates available"
    case AppNoLocal => "No local version"
  }

  /** `AppStatus::default`: an app nobody tracks. */
  function Default(): (s: AppStatus)
    ensures !IsActive(s)
    ensures !IsLatest(s) && !HasUpdates(s) && !IsPending(s) && !HasError(s)
  {
    AppInactive
  }

  /** The four specific queries are mutually exclusive, each implies the
      app is active, and `AppNoLocal` is the one active status none of
      them covers. */
  lemma QueriesPartition(s: AppStatus)
    ensures (IsLatest(s) ==> !HasUpdates(s) && !IsPending(s) && !HasError(s))
    ensures (HasUpdates(s) ==> !IsPending(s) && !HasError(s))
    ensures (IsPending(s) ==> !HasError(s))
    ensures (IsLatest(s) || HasUpdates(s) || IsPending(s) || HasError(s)) ==> IsActive(s)
    ensures (IsActive(s) && !IsLatest(s) && !HasUpdates(s) && !IsPending(s) && !HasError(s))
            <==> s == AppNoLocal
  {
  }

  /** No two statuses share a description, so the text identifies the
      status. */
  lemma DescriptionInjective(a: AppStatus, b: AppStatus)
    requires Description(a) == Description(b)
    ensures a == b
  {
    assert |Description(a)| == |Description(b)|;
  }
}
