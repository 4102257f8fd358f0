/** src/downloader/config.rs: which downloader to build and its limits,
    from defaults, builder calls or the process environment (here the map
    `env`). */
module DownloaderConfig {
  import opened Wrappers
  import opened Strings

  /** The only backend so far. */
  datatype DownloaderBackend = Trauma

  datatype DownloadConfig = DownloadConfig(
    backend: DownloaderBackend,
    maxConcurrent: nat,
    retries: nat,
    timeoutSeconds: nat,
    customCommand: Option<string>)

  /** One more than the largest `usize` / `u64` on a 64-bit target. */
  const WordLimit: nat := 0x1_0000_0000_0000_0000

  function Default(): (c: DownloadConfig)
    ensures c.backend == Trauma && c.customCommand.None?
    ensures c.maxConcurrent == 4 && c.retries == 3 && c.timeoutSeconds == 300
  {
    DownloadConfig(Trauma, 4, 3, 300, None)
  }

  /** The builder setters each set their own field and keep the rest. */
  function WithBackend(c: DownloadConfig, backend: DownloaderBackend): (r: DownloadConfig)
    ensures r.backend == backend && r.(backend := c.backend) == c
  {
    c.(backend := backend)
  }

  function WithMaxConcurrent(c: DownloadConfig, max: nat): (r: DownloadConfig)
    ensures r.maxConcurrent == max && r.(maxConcurrent := c.maxConcurrent) == c
  {
    c.(maxConcurrent := max)
  }

  function WithRetries(c: DownloadConfig, retries: nat): (r: DownloadConfig)
    ensures r.retries == retries && r.(retries := c.retries) == c
  {
    c.(retries := retries)
  }

  function WithTimeout(c: DownloadConfig, seconds: nat): (r: DownloadConfig)
    ensures r.timeoutSeconds == seconds && r.(timeoutSeconds := c.timeoutSeconds) == c
  {
    c.(timeoutSeconds := seconds)
  }

  function WithCustomCommand(c: DownloadConfig, command: string): (r: DownloadConfig)
    ensures r.customCommand == Some(command) && r.(customCommand := c.customCommand) == c
  {
    c.(customCommand := Some(command))
  }

  /** Each builder sets its own field and no other, so builders on
      different fields commute, and together they reach every
      configuration that has a custom command. */
  lemma BuildersSetOnlyTheirField(c: DownloadConfig, max: nat, retries: nat, seconds: nat, command: string)
    ensures WithMaxConcurrent(c, max) == c.(maxConcurrent := max)
    ensures WithRetries(c, retries).retries == retries && WithRetries(c, retries).(retries := c.retries) == c
    ensures WithTimeout(c, seconds).timeoutSeconds == seconds && WithTimeout(c, seconds).(timeoutSeconds := c.timeoutSeconds) == c
    ensures WithCustomCommand(c, command).customCommand == Some(command)
    ensures WithCustomCommand(c, command).(customCommand := c.customCommand) == c
    ensures WithBackend(c, Trauma) == c
    ensures WithRetries(WithMaxConcurrent(c, max), retries) == WithMaxConcurrent(WithRetries(c, retries), max)
    ensures WithTimeout(WithRetries(c, retries), seconds) == WithRetries(WithTimeout(c, seconds), retries)
  {
  }

  /** Every configuration with a custom command is the default with the
      builders applied. */
  lemma BuildersReachAll(c: DownloadConfig)
    requires c.customCommand.Some?
    ensures WithCustomCommand(WithTimeout(WithRetries(WithMaxConcurrent(WithBackend(Default(), c.backend),
              c.maxConcurrent), c.retries), c.timeoutSeconds), c.customCommand.value) == c
  {
  }

  predicate IsDigit(ch: char) {
    '0' <= ch <= '9'
  }

  predicate AllDigits(s: string) {
    forall i :: 0 <= i < |s| ==> IsDigit(s[i])
  }

  /** The value of a string of decimal digits, most significant first. */
  function DigitsValue(s: string): nat
    requires AllDigits(s)
  {
    if s == [] then 0 else DigitsValue(s[..|s| - 1]) * 10 + (s[|s| - 1] as int - '0' as int)
  }

  /** Rust's `str::parse::<usize>()` (and `u64`): an optional `+`, then one
      or more decimal digits, whose value must fit in 64 bits. */
  function ParseUnsigned(s: string): (r: Option<nat>)
    ensures r.Some? ==> r.value < WordLimit
    ensures r.Some? ==> |s| > 0 && (IsDigit(s[0]) || s[0] == '+')
    ensures |s| > 0 && s[0] == '-' ==> r.None?
  {
    var digits := if |s| > 0 && s[0] == '+' then s[1..] else s;
    if digits != [] && AllDigits(digits) && DigitsValue(digits) < WordLimit then Some(DigitsValue(digits))
    else None
  }

  lemma {:induction false} RenderedDigits(n: nat)
    ensures AllDigits(NatToString(n)) && DigitsValue(NatToString(n)) == n
    decreases n
  {
    if n >= 10 {
      RenderedDigits(n / 10);
      var s := NatToString(n);
      assert s[..|s| - 1] == NatToString(n / 10);
    }
  }

  /** Parsing reads back every 64-bit value Rust prints, with or without a
      leading `+`; one past the largest value is refused. */
  lemma ParseRendered(n: nat)
    requires n < WordLimit
    ensures ParseUnsigned(NatToString(n)) == Some(n)
    ensures ParseUnsigned("+" + NatToString(n)) == Some(n)
    ensures ParseUnsigned(NatToString(WordLimit)) == None
  {
    RenderedDigits(n);
    RenderedDigits(WordLimit);
    assert ("+" + NatToString(n))[1..] == NatToString(n);
  }

  /** Neither an empty string nor a lone sign parses. */
  lemma ParseRejectsBare()
    ensures ParseUnsigned("") == None && ParseUnsigned("+") == None && ParseUnsigned("-") == None
  {
  }

  const BackendVar := "DOWNLOADER_BACKEND"
  const MaxConcurrentVar := "DOWNLOADER_MAX_CONCURRENT"
  const RetriesVar := "DOWNLOADER_RETRIES"
  const TimeoutVar := "DOWNLOADER_TIMEOUT"
  const CommandVar := "FETCHCOMMAND"

  /** The value a numeric variable contributes: its parse, or `fallback`
      when it is unset or does not parse. */
  function NumberFrom(env: map<string, string>, name: string, fallback: nat): (n: nat)
    ensures name !in env ==> n == fallback
    ensures name in env && ParseUnsigned(env[name]).None? ==> n == fallback
    ensures name in env && ParseUnsigned(env[name]).Some? ==> n == ParseUnsigned(env[name]).value
  {
    if name in env && ParseUnsigned(env[name]).Some? then ParseUnsigned(env[name]).value else fallback
  }

  /** `DownloadConfig::from_env`: starts from the defaults and lets each
      variable that is set, and parses, override its field. Any
      `DOWNLOADER_BACKEND`, known or not, selects `Trauma`. */
  method FromEnv(env: map<string, string>) returns (config: DownloadConfig)
    ensures config.backend == Trauma
    ensures config.maxConcurrent == NumberFrom(env, MaxConcurrentVar, 4)
    ensures config.retries == NumberFrom(env, RetriesVar, 3)
    ensures config.timeoutSeconds == NumberFrom(env, TimeoutVar, 300)
    ensures config.customCommand == if CommandVar in env then Some(env[CommandVar]) else None
    ensures MaxConcurrentVar !in env && RetriesVar !in env && TimeoutVar !in env && CommandVar !in env
            ==> config == Default()
  {
    config := Default();
    if BackendVar in env {
      config := config.(backend := if ToLower(env[BackendVar]) == "trauma" then Trauma else Trauma);
    }
    if MaxConcurrentVar in env {
      var max := ParseUnsigned(env[MaxConcurrentVar]);
      if max.Some? {
        config := config.(maxConcurrent := max.value);
      }
    }
    if RetriesVar in env {
      var retryCount := ParseUnsigned(env[RetriesVar]);
      if retryCount.Some? {
        config := config.(retries := retryCount.value);
      }
    }
    if TimeoutVar in env {
      var timeoutSecs := ParseUnsigned(env[TimeoutVar]);
      if timeoutSecs.Some? {
        config := config.(timeoutSeconds := timeoutSecs.value);
      }
    }
    if CommandVar in env {
      config := config.(customCommand := Some(env[CommandVar]));
    }
  }
}
