/** src/downloader/state.rs: the life cycle of one download task, its
    progress figures and the sliding window of speed samples. Clocks
    (`SystemTime::now`, `Instant::now`) are the parameter `now`; byte counts
    are unbounded naturals (the source's `u64` never wraps on these paths:
    the only subtraction is guarded). */
module DownloadStates {
  import opened Wrappers

  datatype DownloadState = Pending | Downloading | Stopped | Completed | Failed | Cancelled

  /** Finished for good: completed, failed or cancelled. */
  predicate IsTerminal(s: DownloadState)
    ensures IsTerminal(s) <==> !(s.Pending? || s.Downloading? || s.Stopped?)
  {
    s.Completed? || s.Failed? || s.Cancelled?
  }

  /** Still in progress: pending, downloading or paused. */
  predicate IsActive(s: DownloadState)
    ensures IsActive(s) <==> !(s.Completed? || s.Failed? || s.Cancelled?)
  {
    s.Pending? || s.Downloading? || s.Stopped?
  }

  /** Can be taken up again: paused, or failed and worth a retry. */
  predicate IsResumable(s: DownloadState)
    ensures IsResumable(s) <==> !(s.Pending? || s.Downloading? || s.Completed? || s.Cancelled?)
  {
    s.Stopped? || s.Failed?
  }

  /** Can be paused: only a transfer under way. */
  predicate IsPausable(s: DownloadState)
    ensures IsPausable(s) <==> !(s.Pending? || s.Stopped? || s.Completed? || s.Failed? || s.Cancelled?)
  {
    s.Downloading?
  }

  /** Terminal and active split the states in two; only an active state
      can be paused, and `Failed` is the one terminal state that can be
      resumed. */
  lemma StateClasses(s: DownloadState)
    ensures IsTerminal(s) <==> !IsActive(s)
    ensures IsPausable(s) ==> IsActive(s) && !IsResumable(s)
    ensures IsResumable(s) && IsTerminal(s) <==> s == Failed
  {
  }

  datatype DownloadProgress = DownloadProgress(
    downloadedBytes: nat,
    totalBytes: Option<nat>,
    speedBytesPerSec: Option<nat>,
    etaSeconds: Option<nat>)

  /** `DownloadProgress::default`. */
  function NoProgress(): (p: DownloadProgress)
    ensures p.downloadedBytes == 0 && p.totalBytes.None? && p.speedBytesPerSec.None? && p.etaSeconds.None?
  {
    DownloadProgress(0, None, None, None)
  }

  /** `DownloadProgress::with_speed`: the time left, rounded down, when the
      size and a positive speed are known and bytes remain. */
  function WithSpeed(downloaded: nat, total: Option<nat>, speed: Option<nat>): (p: DownloadProgress)
    ensures p.downloadedBytes == downloaded && p.totalBytes == total && p.speedBytesPerSec == speed
    ensures p.etaSeconds.Some? <==> total.Some? && speed.Some? && speed.value > 0 && total.value > downloaded
    ensures p.etaSeconds.Some? ==>
              p.etaSeconds.value * speed.value <= total.value - downloaded < (p.etaSeconds.value + 1) * speed.value
  {
    var eta := match (total, speed)
      case (Some(t), Some(v)) => if v > 0 && t > downloaded then Some((t - downloaded) / v) else None
      case _ => None;
    DownloadProgress(downloaded, total, speed, eta)
  }

  /** Known size, all of it downloaded (or more). */
  predicate IsComplete(p: DownloadProgress) {
    p.totalBytes.Some? && p.downloadedBytes >= p.totalBytes.value
  }

  /** A complete download never reports time left, and an incomplete one
      with a positive speed always does. */
  lemma CompleteHasNoEta(downloaded: nat, total: Option<nat>, speed: Option<nat>)
    ensures IsComplete(WithSpeed(downloaded, total, speed)) ==> WithSpeed(downloaded, total, speed).etaSeconds.None?
    ensures total.Some? && speed.Some? && speed.value > 0 && !IsComplete(WithSpeed(downloaded, total, speed))
            ==> WithSpeed(downloaded, total, speed).etaSeconds.Some?
  {
  }

  datatype TaskInfo = TaskInfo(
    taskId: string,
    url: string,
    destPath: string,
    state: DownloadState,
    progress: DownloadProgress,
    resumeOffset: nat,
    supportsRange: Option<bool>,
    error: Option<string>,
    createdAt: nat,
    startedAt: Option<nat>,
    completedAt: Option<nat>,
    pausedAt: Option<nat>,
    headers: Option<map<string, string>>,
    cookies: Option<map<string, string>>)

  /** `TaskInfo::with_options` (and, with no headers or cookies, `with_id`;
      `new` draws the id from a UUID generator, here the parameter). */
  function NewTask(taskId: string, url: string, destPath: string,
                   headers: Option<map<string, string>>, cookies: Option<map<string, string>>, now: nat)
    : (t: TaskInfo)
    ensures t.taskId == taskId && t.url == url && t.destPath == destPath && t.createdAt == now
    ensures t.state == Pending && t.progress == NoProgress() && t.resumeOffset == 0
    ensures t.error.None? && t.startedAt.None? && t.completedAt.None? && t.pausedAt.None?
    ensures t.supportsRange.None? && t.headers == headers && t.cookies == cookies
  {
    TaskInfo(taskId, url, destPath, Pending, NoProgress(), 0, None, None, now, None, None, None, headers, cookies)
  }

  /** Starting makes the task download and stamps `startedAt`. */
  function MarkStarted(t: TaskInfo, now: nat): (u: TaskInfo)
    ensures u.state == Downloading && u.startedAt == Some(now) && KeepsTask(t, u)
    ensures u.completedAt == t.completedAt && u.pausedAt == t.pausedAt
    ensures u.error == t.error && u.resumeOffset == t.resumeOffset
  {
    t.(state := Downloading, startedAt := Some(now))
  }

  /** Completing ends the task and stamps `completedAt`. */
  function MarkCompleted(t: TaskInfo, now: nat): (u: TaskInfo)
    ensures u.state == Completed && u.completedAt == Some(now) && KeepsTask(t, u)
    ensures u.startedAt == t.startedAt && u.pausedAt == t.pausedAt
    ensures u.error == t.error && u.resumeOffset == t.resumeOffset
  {
    t.(state := Completed, completedAt := Some(now))
  }

  /** Failing ends the task, keeps the message and stamps `completedAt`. */
  function MarkFailed(t: TaskInfo, error: string, now: nat): (u: TaskInfo)
    ensures u.state == Failed && u.error == Some(error) && u.completedAt == Some(now) && KeepsTask(t, u)
    ensures u.startedAt == t.startedAt && u.pausedAt == t.pausedAt && u.resumeOffset == t.resumeOffset
  {
    t.(state := Failed, error := Some(error), completedAt := Some(now))
  }

  /** Cancelling ends the task and stamps `completedAt`. */
  function MarkCancelled(t: TaskInfo, now: nat): (u: TaskInfo)
    ensures u.state == Cancelled && u.completedAt == Some(now) && KeepsTask(t, u)
    ensures u.startedAt == t.startedAt && u.pausedAt == t.pausedAt
    ensures u.error == t.error && u.resumeOffset == t.resumeOffset
  {
    t.(state := Cancelled, completedAt := Some(now))
  }

  /** Pausing remembers how far the download got. */
  function MarkStopped(t: TaskInfo, now: nat): (u: TaskInfo)
    ensures u.state == Stopped && u.resumeOffset == t.progress.downloadedBytes && u.pausedAt == Some(now)
    ensures KeepsTask(t, u) && u.startedAt == t.startedAt && u.completedAt == t.completedAt && u.error == t.error
  {
    t.(state := Stopped, resumeOffset := t.progress.downloadedBytes, pausedAt := Some(now))
  }

  /** Resuming makes the task download again and clears `pausedAt`. */
  function MarkResumed(t: TaskInfo): (u: TaskInfo)
    ensures u.state == Downloading && u.pausedAt.None? && KeepsTask(t, u)
    ensures u.startedAt == t.startedAt && u.completedAt == t.completedAt
    ensures u.error == t.error && u.resumeOffset == t.resumeOffset
  {
    t.(state := Downloading, pausedAt := None)
  }

  /** Every mark lands in its own state: completing, failing and
      cancelling end the task and stamp `completedAt` (failing also keeps
      the message); starting and resuming make it download again (starting
      stamps `startedAt`, resuming clears `pausedAt`); pausing stops it at
      the bytes already downloaded and stamps `pausedAt`. No mark touches
      the task's identity, progress, range support, headers or cookies,
      nor any time stamp or field other than its own. */
  lemma MarksReachTheirStates(t: TaskInfo, error: string, now: nat)
    ensures var u := MarkStarted(t, now);
            u.state == Downloading && IsPausable(u.state) && u.startedAt == Some(now)
            && u.completedAt == t.completedAt && u.pausedAt == t.pausedAt
            && u.error == t.error && u.resumeOffset == t.resumeOffset && KeepsTask(t, u)
    ensures var u := MarkCompleted(t, now);
            u.state == Completed && IsTerminal(u.state) && u.completedAt == Some(now)
            && u.startedAt == t.startedAt && u.pausedAt == t.pausedAt
            && u.error == t.error && u.resumeOffset == t.resumeOffset && KeepsTask(t, u)
    ensures var u := MarkFailed(t, error, now);
            u.state == Failed && IsTerminal(u.state) && u.error == Some(error) && u.completedAt == Some(now)
            && u.startedAt == t.startedAt && u.pausedAt == t.pausedAt
            && u.resumeOffset == t.resumeOffset && KeepsTask(t, u)
    ensures var u := MarkCancelled(t, now);
            u.state == Cancelled && IsTerminal(u.state) && u.completedAt == Some(now)
            && u.startedAt == t.startedAt && u.pausedAt == t.pausedAt
            && u.error == t.error && u.resumeOffset == t.resumeOffset && KeepsTask(t, u)
    ensures var u := MarkStopped(t, now);
            u.state == Stopped && IsResumable(u.state) && u.pausedAt == Some(now)
            && u.resumeOffset == t.progress.downloadedBytes
            && u.startedAt == t.startedAt && u.completedAt == t.completedAt
            && u.error == t.error && KeepsTask(t, u)
    ensures var u := MarkResumed(t);
            u.state == Downloading && IsPausable(u.state) && u.pausedAt.None?
            && u.startedAt == t.startedAt && u.completedAt == t.completedAt
            && u.error == t.error && u.resumeOffset == t.resumeOffset && KeepsTask(t, u)
    ensures MarkResumed(MarkStopped(t, now)).pausedAt.None?
    ensures MarkResumed(MarkStopped(t, now)).resumeOffset == t.progress.downloadedBytes
  {
  }

  /** Same id, URL, destination and creation time. */
  predicate SameTask(a: TaskInfo, b: TaskInfo) {
    a.taskId == b.taskId && a.url == b.url && a.destPath == b.destPath && a.createdAt == b.createdAt
  }

  /** The same task with the same progress, range support, headers and
      cookies. */
  predicate KeepsTask(a: TaskInfo, b: TaskInfo) {
    SameTask(a, b) && a.progress == b.progress && a.supportsRange == b.supportsRange
    && a.headers == b.headers && a.cookies == b.cookies
  }

  /** A speed sample: when it was taken and the bytes downloaded by then. */
  datatype Sample = Sample(time: nat, bytes: nat)

  /** The samples left after dropping, from the front, those taken before
      `cutoff`. */
  function DropStale(samples: seq<Sample>, cutoff: int): (r: seq<Sample>)
    ensures |r| <= |samples|
    ensures r != [] ==> r[0].time >= cutoff
    decreases |samples|
  {
    if samples != [] && samples[0].time < cutoff then DropStale(samples[1..], cutoff) else samples
  }

  /** What `DropStale` keeps is a suffix of what it was given. */
  lemma {:induction false} DropStaleSuffix(samples: seq<Sample>, cutoff: int)
    ensures DropStale(samples, cutoff) == samples[|samples| - |DropStale(samples, cutoff)|..]
    decreases |samples|
  {
    if samples != [] && samples[0].time < cutoff {
      DropStaleSuffix(samples[1..], cutoff);
      assert samples[1..][|samples| - 1 - |DropStale(samples, cutoff)|..] == samples[|samples| - |DropStale(samples, cutoff)|..];
    }
  }

  /** The newest `limit` samples. */
  function KeepLast(samples: seq<Sample>, limit: nat): (r: seq<Sample>)
    ensures |r| == if |samples| > limit then limit else |samples|
    ensures r == samples[|samples| - |r|..]
  {
    if |samples| > limit then samples[|samples| - limit..] else samples
  }

  /** Samples in the order they were taken. */
  predicate InTimeOrder(samples: seq<Sample>) {
    forall i, j :: 0 <= i < j < |samples| ==> samples[i].time <= samples[j].time
  }

  /** Every sample taken within `[low, high]`. */
  predicate Within(samples: seq<Sample>, low: int, high: int) {
    forall i :: 0 <= i < |samples| ==> low <= samples[i].time <= high
  }

  /** A suffix of samples in time order is in time order and within the
      same bounds. */
  lemma SuffixKeepsOrder(samples: seq<Sample>, k: nat, low: int, high: int)
    requires k <= |samples| && InTimeOrder(samples) && Within(samples, low, high)
    ensures InTimeOrder(samples[k..]) && Within(samples[k..], low, high)
  {
    assert forall i :: 0 <= i < |samples| - k ==> samples[k..][i] == samples[k + i];
  }

  /** What the window keeps of ordered samples is ordered and starts at
      the cutoff. */
  lemma DropStaleWindow(samples: seq<Sample>, cutoff: int, high: int)
    requires InTimeOrder(samples) && Within(samples, -1, high)
    ensures InTimeOrder(DropStale(samples, cutoff)) && Within(DropStale(samples, cutoff), cutoff, high)
  {
    var kept := DropStale(samples, cutoff);
    DropStaleSuffix(samples, cutoff);
    SuffixKeepsOrder(samples, |samples| - |kept|, -1, high);
    if kept != [] {
      forall i | 0 <= i < |kept|
        ensures cutoff <= kept[i].time
      {
        assert kept[0].time <= kept[i].time;
      }
    }
  }

  /** A sample no earlier than the ordered ones extends them in order. */
  lemma AppendKeepsOrder(samples: seq<Sample>, x: Sample, low: int)
    requires InTimeOrder(samples) && Within(samples, low, x.time) && low <= x.time
    ensures InTimeOrder(samples + [x]) && Within(samples + [x], low, x.time)
  {
    assert forall i :: 0 <= i < |samples| ==> (samples + [x])[i] == samples[i];
  }

  /** The samples `record` leaves: the stale ones dropped, the new one
      appended, then only the newest `limit` kept. */
  function Recorded(samples: seq<Sample>, windowSecs: nat, limit: nat, now: nat, bytes: nat): (r: seq<Sample>)
    ensures |r| <= limit
  {
    KeepLast(DropStale(samples, now - windowSecs) + [Sample(now, bytes)], limit)
  }

  /** With room for at least one sample, the newest sample is the one
      just recorded. */
  lemma RecordEndsWithSample(samples: seq<Sample>, windowSecs: nat, limit: nat, now: nat, bytes: nat)
    requires limit > 0
    ensures Recorded(samples, windowSecs, limit, now, bytes) != []
    ensures Recorded(samples, windowSecs, limit, now, bytes)[|Recorded(samples, windowSecs, limit, now, bytes)| - 1] == Sample(now, bytes)
  {
    var appended := DropStale(samples, now - windowSecs) + [Sample(now, bytes)];
    var r := Recorded(samples, windowSecs, limit, now, bytes);
    assert r == appended[|appended| - |r|..];
    assert r[|r| - 1] == appended[|appended| - 1];
  }

  /** Recording at a time no earlier than the samples held keeps them in
      time order and within the window. */
  lemma RecordKeepsWindow(samples: seq<Sample>, windowSecs: nat, limit: nat, now: nat, bytes: nat)
    requires InTimeOrder(samples) && Within(samples, -1, now)
    ensures InTimeOrder(Recorded(samples, windowSecs, limit, now, bytes))
    ensures Within(Recorded(samples, windowSecs, limit, now, bytes), now - windowSecs, now)
  {
    var cutoff := now - windowSecs;
    var kept := DropStale(samples, cutoff);
    DropStaleWindow(samples, cutoff, now);
    var appended := kept + [Sample(now, bytes)];
    AppendKeepsOrder(kept, Sample(now, bytes), cutoff);
    var r := Recorded(samples, windowSecs, limit, now, bytes);
    assert r == KeepLast(appended, limit);
    assert r == appended[|appended| - |r|..];
    SuffixKeepsOrder(appended, |appended| - |r|, cutoff, now);
  }

  /** One step of dropping stale samples from the front. */
  lemma DropStaleStep(samples: seq<Sample>, cutoff: int)
    requires samples != [] && samples[0].time < cutoff
    ensures DropStale(samples[1..], cutoff) == DropStale(samples, cutoff)
  {
  }

  /** One step of trimming from the front down to `limit`. */
  lemma KeepLastStep(samples: seq<Sample>, limit: nat)
    requires |samples| > limit
    ensures KeepLast(samples[1..], limit) == KeepLast(samples, limit)
  {
    assert samples[1..][|samples| - 1 - limit..] == samples[|samples| - limit..];
  }

  /** `SpeedCalculator`: the recent samples, at most `maxSamples` (64) of
      them, and the time of the first record. */
  class SpeedCalculator {
    var samples: seq<Sample>
    const windowSecs: nat
    const maxSamples: nat
    var startTime: Option<nat>

    ghost predicate Valid()
      reads this
    {
      maxSamples == 64 && |samples| <= maxSamples
    }

    /** `SpeedCalculator::new` (`default_window` uses 5 seconds). */
    constructor(windowSecs: nat)
      ensures Valid() && samples == [] && startTime.None?
      ensures this.windowSecs == windowSecs
    {
      samples := [];
      this.windowSecs := windowSecs;
      maxSamples := 64;
      startTime := None;
    }

    /** Drops the samples older than the window, appends the new one, then
        drops from the front down to `maxSamples`. */
    method Record(downloadedBytes: nat, now: nat)
      requires Valid()
      modifies this
      ensures Valid()
      ensures samples == Recorded(old(samples), windowSecs, maxSamples, now, downloadedBytes)
      ensures startTime == if old(startTime).None? then Some(now) else old(startTime)
    {
      if startTime.None? {
        startTime := Some(now);
      }
      ghost var start := startTime;
      var cutoff := now - windowSecs;
      while samples != [] && samples[0].time < cutoff
        invariant DropStale(samples, cutoff) == DropStale(old(samples), cutoff)
        invariant startTime == start
        decreases |samples|
      {
        DropStaleStep(samples, cutoff);
        samples := samples[1..];
      }
      ghost var kept := samples;
      assert kept == DropStale(old(samples), cutoff);
      samples := samples + [Sample(now, downloadedBytes)];
      ghost var appended := samples;
      while |samples| > maxSamples
        invariant KeepLast(samples, maxSamples) == KeepLast(appended, maxSamples)
        invariant startTime == start
        decreases |samples|
      {
        KeepLastStep(samples, maxSamples);
        samples := samples[1..];
      }
      assert samples == KeepLast(kept + [Sample(now, downloadedBytes)], maxSamples);
    }

    method Reset()
      modifies this
      ensures samples == [] && startTime.None?
    {
      samples := [];
      startTime := None;
    }
  }
}
