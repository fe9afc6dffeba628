/** The file-processing pipeline of `FireKeyProcessor`: for every input path,
    answer from the per-file cache when possible, otherwise call the client
    with bounded retries, cache what it returns, and record every failure in
    an append-only error log. A failed or missing file is left out of the
    results without stopping the batch. */
module Processor {
  import opened Base
  import opened Strings

  const DefaultCacheDir := "cache"
  const DefaultLogPath := "logs/firekey-errors.txt"
  const DefaultRetryDelay: real := 3.0
  const DefaultMaxRetries := 3

  /** What a client can raise. `NetworkError` and `APIError` both subclass
      `FireKeyError`; `Other` is any exception outside that hierarchy. */
  datatype ErrorClass = NetworkError | APIError | FireKeyError | Other(name: string)

  predicate IsRetryable(e: ErrorClass)
  {
    e.NetworkError? || e.APIError?
  }

  /** `except FireKeyError` catches exactly these. */
  predicate IsFireKeyError(e: ErrorClass)
  {
    e.NetworkError? || e.APIError? || e.FireKeyError?
  }

  /** One call of the client: the payload it returns, or what it raises. */
  datatype Outcome = Returned(payload: Json) | Raised(error: ErrorClass, message: string)

  /** The client, as a function of the path it is given and of how many calls
      it has answered before (so a scripted or counting client is one value). */
  type Client = (string, nat) -> Outcome

  /** The error an attempt raises out of the retry loop. */
  datatype Failure = Failure(error: ErrorClass, message: string)

  /** One line of the error log, without its `[timestamp] ` prefix. */
  datatype LogEntry =
    | MissingFile(path: string)
    | AttemptFailed(attempt: nat, name: string, message: string)
    | Unrecoverable(name: string, message: string)

  /** The text written after the timestamp. */
  function Message(e: LogEntry): string
  {
    match e
    case MissingFile(p) => "File '" + p + "' does not exist; skipping processing."
    case AttemptFailed(n, name, m) => "Attempt " + IntToString(n) + " for '" + name + "' failed: " + m
    case Unrecoverable(name, m) => "Unrecoverable error for '" + name + "': " + m
  }

  datatype ProcessingResult = ProcessingResult(fileName: string, cachePath: string, wasReprocessed: bool)

  /** What the pipeline changes: the cache directory (file name to payload),
      the error log, and the number of calls the client has answered. */
  datatype State = State(cache: map<string, Json>, log: seq<LogEntry>, calls: nat)

  /** The fixed parts of a processor and of the disk it reads: the input
      files that exist, the cache directory, the client and the retry bound. */
  datatype Setup = Setup(inputs: set<string>, cacheDir: string, client: Client, maxRetries: nat)

  /** Where the last path component of `p[..k]` starts: just after the
      last `/` before `k`, or at 0. */
  function NameStart(p: string, k: nat): (n: nat)
    requires k <= |p|
    ensures n <= k
    decreases k
  {
    if 0 < k && p[k - 1] != '/' then NameStart(p, k - 1) else k
  }

  /** `Path(p).name`: the text after the last `/`. */
  function BaseName(p: string): string
  {
    var n := NameStart(p, |p|);
    seq(|p| - n, i requires 0 <= i < |p| - n => p[n + i])
  }

  lemma {:induction false} NameStartBounds(p: string, k: nat)
    requires k <= |p|
    ensures forall i :: NameStart(p, k) <= i < k ==> p[i] != '/'
    ensures NameStart(p, k) == 0 || p[NameStart(p, k) - 1] == '/'
    decreases k
  {
    if 0 < k && p[k - 1] != '/' {
      NameStartBounds(p, k - 1);
    }
  }

  /** The base name is the end of the path after its last `/` (the whole
      path when it has none), and holds no `/` itself. */
  lemma BaseNameIsLastComponent(p: string)
    ensures var r := BaseName(p);
      && |r| <= |p| && (forall i :: 0 <= i < |r| ==> r[i] == p[|p| - |r| + i])
      && '/' !in r
      && (|r| < |p| ==> p[|p| - |r| - 1] == '/')
  {
    NameStartBounds(p, |p|);
    var r := BaseName(p);
    var n := NameStart(p, |p|);
    forall c | c in r ensures c != '/' {
      var i :| 0 <= i < |r| && r[i] == c;
      assert r[i] == p[n + i];
    }
  }

  function CachePath(cacheDir: string, name: string): string
  {
    cacheDir + "/" + name + ".json"
  }

  /** The constructor's `max(1, max_retries)`. */
  function ClampRetries(n: int): (r: nat)
    ensures r >= 1 && r >= n
    ensures n >= 1 ==> r == n
  {
    if n < 1 then 1 else n
  }

  /** The constructor's `max(0.0, retry_delay)`. */
  function ClampDelay(d: real): (r: real)
    ensures r >= 0.0 && r >= d
    ensures d >= 0.0 ==> r == d
  {
    if d < 0.0 then 0.0 else d
  }

  /** `_process_with_retries` from attempt number `attempt + 1` on. */
  function Retry(client: Client, maxRetries: nat, path: string, attempt: nat, st: State): (Result<Json, Failure>, State)
    decreases maxRetries - attempt
  {
    var n := attempt + 1;
    var out := client(path, st.calls);
    var st1 := st.(calls := st.calls + 1);
    match out
    case Returned(p) => (Ok(p), st1)
    case Raised(e, m) =>
      if IsRetryable(e) then
        var st2 := st1.(log := st1.log + [AttemptFailed(n, BaseName(path), m)]);
        if n >= maxRetries then (Err(Failure(e, m)), st2)
        else Retry(client, maxRetries, path, n, st2)
      else
        (Err(Failure(FireKeyError, m)), st1.(log := st1.log + [Unrecoverable(BaseName(path), m)]))
  }

  /** The four ways one attempt can end, each as an equation on `Retry`. */
  lemma RetryUnfold(client: Client, maxRetries: nat, path: string, attempt: nat, st: State)
    ensures client(path, st.calls).Returned? ==>
      Retry(client, maxRetries, path, attempt, st) == (Ok(client(path, st.calls).payload), st.(calls := st.calls + 1))
    ensures client(path, st.calls).Raised? && IsRetryable(client(path, st.calls).error) ==>
      var out := client(path, st.calls);
      var st2 := st.(calls := st.calls + 1, log := st.log + [AttemptFailed(attempt + 1, BaseName(path), out.message)]);
      Retry(client, maxRetries, path, attempt, st) ==
        if attempt + 1 >= maxRetries then (Err(Failure(out.error, out.message)), st2)
        else Retry(client, maxRetries, path, attempt + 1, st2)
    ensures client(path, st.calls).Raised? && !IsRetryable(client(path, st.calls).error) ==>
      var out := client(path, st.calls);
      Retry(client, maxRetries, path, attempt, st) ==
        (Err(Failure(FireKeyError, out.message)),
         st.(calls := st.calls + 1, log := st.log + [Unrecoverable(BaseName(path), out.message)]))
  {
  }

  /** The log lines of `k` retryable failures, for attempts `attempt + 1` to
      `attempt + k`, when the client is called with call counts from `calls` on. */
  function FailureLines(client: Client, path: string, attempt: nat, calls: nat, k: nat): (r: seq<LogEntry>)
    ensures |r| == k
  {
    seq(k, j requires 0 <= j < k => AttemptFailed(attempt + j + 1, BaseName(path), RaisedMessage(client(path, calls + j))))
  }

  lemma AppendAssoc<T>(a: seq<T>, b: seq<T>, c: seq<T>)
    ensures (a + b) + c == a + (b + c)
  {
  }

  /** The first of `k > 0` failure lines, then the other `k - 1`. */
  lemma FailureLinesCons(client: Client, path: string, attempt: nat, calls: nat, k: nat)
    requires k > 0
    ensures FailureLines(client, path, attempt, calls, k) ==
      [AttemptFailed(attempt + 1, BaseName(path), RaisedMessage(client(path, calls)))]
        + FailureLines(client, path, attempt + 1, calls + 1, k - 1)
  {
    var lines, rest := FailureLines(client, path, attempt, calls, k), FailureLines(client, path, attempt + 1, calls + 1, k - 1);
    assert lines[0] == AttemptFailed(attempt + 0 + 1, BaseName(path), RaisedMessage(client(path, calls + 0)));
    assert forall j :: 0 <= j < k - 1 ==> lines[j + 1] == rest[j];
  }

  function RaisedMessage(o: Outcome): string
  {
    if o.Raised? then o.message else ""
  }

  /** The client raises a retryable error on calls `from` to `from + k - 1`. */
  predicate RetryableFailures(client: Client, path: string, from: nat, k: nat)
  {
    forall c :: from <= c < from + k ==> client(path, c).Raised? && IsRetryable(client(path, c).error)
  }

  /** Retryable failures before the last allowed attempt are logged one line
      each and lead to the next attempt. */
  lemma {:induction false} RetryAfterFailures(client: Client, maxRetries: nat, path: string, attempt: nat, k: nat, st: State)
    requires attempt + k < maxRetries
    requires RetryableFailures(client, path, st.calls, k)
    ensures Retry(client, maxRetries, path, attempt, st) ==
      Retry(client, maxRetries, path, attempt + k,
            st.(calls := st.calls + k, log := st.log + FailureLines(client, path, attempt, st.calls, k)))
    decreases k
  {
    if k > 0 {
      var out := client(path, st.calls);
      var st2 := st.(calls := st.calls + 1, log := st.log + [AttemptFailed(attempt + 1, BaseName(path), out.message)]);
      assert Retry(client, maxRetries, path, attempt, st) == Retry(client, maxRetries, path, attempt + 1, st2) by {
        assert out.Raised? && IsRetryable(out.error);
        RetryUnfold(client, maxRetries, path, attempt, st);
      }
      assert RetryableFailures(client, path, st2.calls, k - 1) by {
        forall c | st2.calls <= c < st2.calls + (k - 1)
          ensures client(path, c).Raised? && IsRetryable(client(path, c).error)
        {
          assert st.calls <= c < st.calls + k;
        }
      }
      RetryAfterFailures(client, maxRetries, path, attempt + 1, k - 1, st2);
      var line := AttemptFailed(attempt + 1, BaseName(path), out.message);
      var rest := FailureLines(client, path, attempt + 1, st2.calls, k - 1);
      assert FailureLines(client, path, attempt, st.calls, k) == [line] + rest by {
        FailureLinesCons(client, path, attempt, st.calls, k);
      }
      assert st2.log + rest == st.log + ([line] + rest) by {
        assert st2.log == st.log + [line];
        AppendAssoc(st.log, [line], rest);
      }
    } else {
      assert st.(calls := st.calls + k, log := st.log + FailureLines(client, path, attempt, st.calls, k)) == st;
    }
  }

  /** Every attempt is one client call; every failed call writes exactly one
      log line; the cache is not touched; at most `maxRetries` calls are made
      (at least one); and whatever escapes is a `FireKeyError`, which is why
      `process_files` catches an exhausted retry as well as a fatal error. */
  lemma {:induction false} RetryBounds(client: Client, maxRetries: nat, path: string, attempt: nat, st: State)
    ensures var (r, st') := Retry(client, maxRetries, path, attempt, st);
      && st'.cache == st.cache
      && st.calls + 1 <= st'.calls <= st.calls + Max(maxRetries - attempt, 1)
      && |st'.log| == |st.log| + (st'.calls - st.calls) - (if r.Ok? then 1 else 0)
      && st'.log[..|st.log|] == st.log
      && (r.Err? ==> IsFireKeyError(r.error.error))
    decreases maxRetries - attempt
  {
    RetryUnfold(client, maxRetries, path, attempt, st);
    var out := client(path, st.calls);
    if out.Raised? && IsRetryable(out.error) && attempt + 1 < maxRetries {
      var st2 := st.(calls := st.calls + 1, log := st.log + [AttemptFailed(attempt + 1, BaseName(path), out.message)]);
      RetryBounds(client, maxRetries, path, attempt + 1, st2);
      var st' := Retry(client, maxRetries, path, attempt + 1, st2).1;
      assert st'.log[..|st.log|] == st'.log[..|st2.log|][..|st.log|];
    }
  }

  /** k retryable failures followed by a success, with k < maxRetries: the
      payload is the result and the log holds exactly the k "Attempt n" lines. */
  lemma RetryThenSucceed(client: Client, maxRetries: nat, path: string, k: nat, p: Json, st: State)
    requires k < maxRetries
    requires RetryableFailures(client, path, st.calls, k)
    requires client(path, st.calls + k) == Returned(p)
    ensures Retry(client, maxRetries, path, 0, st) ==
      (Ok(p), st.(calls := st.calls + k + 1, log := st.log + FailureLines(client, path, 0, st.calls, k)))
  {
    RetryAfterFailures(client, maxRetries, path, 0, k, st);
    var stk := st.(calls := st.calls + k, log := st.log + FailureLines(client, path, 0, st.calls, k));
    RetryUnfold(client, maxRetries, path, k, stk);
  }

  /** A client that only raises retryable errors is called exactly
      `maxRetries` times; the log gets "Attempt 1" to "Attempt maxRetries"
      and the last error is re-raised. */
  lemma RetryExhausted(client: Client, maxRetries: nat, path: string, st: State)
    requires maxRetries >= 1
    requires RetryableFailures(client, path, st.calls, maxRetries)
    ensures var last := client(path, st.calls + maxRetries - 1);
      Retry(client, maxRetries, path, 0, st) ==
        (Err(Failure(if last.Raised? then last.error else FireKeyError, RaisedMessage(last))),
         st.(calls := st.calls + maxRetries, log := st.log + FailureLines(client, path, 0, st.calls, maxRetries)))
  {
    var k := maxRetries - 1;
    assert RetryableFailures(client, path, st.calls, k);
    RetryAfterFailures(client, maxRetries, path, 0, k, st);
    var lines := FailureLines(client, path, 0, st.calls, k);
    var stk := st.(calls := st.calls + k, log := st.log + lines);
    var last := client(path, st.calls + k);
    assert last.Raised? && IsRetryable(last.error);
    RetryUnfold(client, maxRetries, path, k, stk);
    var entry := AttemptFailed(k + 1, BaseName(path), last.message);
    assert Retry(client, maxRetries, path, k, stk) ==
      (Err(Failure(last.error, last.message)), stk.(calls := stk.calls + 1, log := stk.log + [entry]));
    assert lines + [entry] == FailureLines(client, path, 0, st.calls, maxRetries);
    assert stk.log + [entry] == st.log + (lines + [entry]);
  }

  /** A non-retryable error is logged once, not retried, and surfaces as
      `FireKeyError` carrying the original message. */
  lemma FatalNotRetried(client: Client, maxRetries: nat, path: string, st: State)
    requires client(path, st.calls).Raised? && !IsRetryable(client(path, st.calls).error)
    ensures var m := client(path, st.calls).message;
      Retry(client, maxRetries, path, 0, st) ==
        (Err(Failure(FireKeyError, m)), st.(calls := st.calls + 1, log := st.log + [Unrecoverable(BaseName(path), m)]))
  {
    RetryUnfold(client, maxRetries, path, 0, st);
  }

  /** One iteration of the loop in `process_files`. */
  function Step(s: Setup, st: State, results: map<string, ProcessingResult>, path: string, force: bool)
    : (State, map<string, ProcessingResult>)
  {
    if path !in s.inputs then
      (st.(log := st.log + [MissingFile(path)]), results)
    else
      var name := BaseName(path);
      var cacheFile := CachePath(s.cacheDir, name);
      if name in st.cache && !force then
        (st, results[name := ProcessingResult(name, cacheFile, false)])
      else
        var (r, st1) := Retry(s.client, s.maxRetries, path, 0, st);
        match r
        case Err(_) => (st1, results)
        case Ok(p) =>
          (st1.(cache := st1.cache[name := p]), results[name := ProcessingResult(name, cacheFile, force)])
  }

  /** `process_files(paths, force_reprocess=force)` from state `st`. */
  function Run(s: Setup, st: State, paths: seq<string>, force: bool): (State, map<string, ProcessingResult>)
    decreases |paths|
  {
    if paths == [] then (st, map[])
    else
      var (st1, results) := Run(s, st, paths[..|paths| - 1], force);
      Step(s, st1, results, paths[|paths| - 1], force)
  }

  /** How many of `paths` exist on disk. */
  function CountExisting(inputs: set<string>, paths: seq<string>): (n: nat)
    ensures n <= |paths|
  {
    if paths == [] then 0
    else CountExisting(inputs, paths[..|paths| - 1]) + (if paths[|paths| - 1] in inputs then 1 else 0)
  }

  /** The names under which existing paths can appear in the results. */
  function ExistingNames(inputs: set<string>, paths: seq<string>): set<string>
  {
    set p | p in paths && p in inputs :: BaseName(p)
  }

  /** A step adds at most one key to the results and never looks at the
      results it is given. */
  lemma StepResults(s: Setup, st: State, a: map<string, ProcessingResult>, b: map<string, ProcessingResult>,
                    path: string, force: bool)
    ensures Step(s, st, a + b, path, force) == (Step(s, st, b, path, force).0, a + Step(s, st, b, path, force).1)
  {
    if path in s.inputs {
      var name := BaseName(path);
      var hit := ProcessingResult(name, CachePath(s.cacheDir, name), false);
      var made := ProcessingResult(name, CachePath(s.cacheDir, name), force);
      assert (a + b)[name := hit] == a + b[name := hit];
      assert (a + b)[name := made] == a + b[name := made];
    }
  }

  /** A path that exists and is not answered from the cache goes through
      the retry loop; only a successful fetch is cached and reported. */
  lemma StepFetches(s: Setup, st: State, results: map<string, ProcessingResult>, path: string, force: bool)
    requires path in s.inputs && (force || BaseName(path) !in st.cache)
    ensures var name := BaseName(path);
      var fetched := Retry(s.client, s.maxRetries, path, 0, st);
      Step(s, st, results, path, force) ==
        if fetched.0.Ok? then
          (fetched.1.(cache := fetched.1.cache[name := fetched.0.value]),
           results[name := ProcessingResult(name, CachePath(s.cacheDir, name), force)])
        else (fetched.1, results)
  {
  }

  /** The client calls one step makes: none for a missing path or a cache
      hit, otherwise between one and `maxRetries`. */
  lemma StepCalls(s: Setup, st: State, results: map<string, ProcessingResult>, path: string, force: bool)
    ensures var st' := Step(s, st, results, path, force).0;
      if path !in s.inputs || (BaseName(path) in st.cache && !force) then st'.calls == st.calls
      else st.calls + 1 <= st'.calls <= st.calls + Max(s.maxRetries, 1)
  {
    if path in s.inputs && !(BaseName(path) in st.cache && !force) {
      RetryBounds(s.client, s.maxRetries, path, 0, st);
    }
  }

  /** Processing `ps + qs` is processing `ps`, then processing `qs` from the
      state that left: what happens to one file, a failed one included, does
      not stop or change the processing of the files after it. */
  lemma {:induction false} RunConcat(s: Setup, st: State, ps: seq<string>, qs: seq<string>, force: bool)
    ensures var (mid, r1) := Run(s, st, ps, force);
      var (fin, r2) := Run(s, mid, qs, force);
      Run(s, st, ps + qs, force) == (fin, r1 + r2)
    decreases |qs|
  {
    var (mid, r1) := Run(s, st, ps, force);
    if qs == [] {
      assert ps + qs == ps;
      assert r1 + map[] == r1;
    } else {
      var qs' := qs[..|qs| - 1];
      var q := qs[|qs| - 1];
      assert (ps + qs)[..|ps + qs| - 1] == ps + qs';
      assert (ps + qs)[|ps + qs| - 1] == q;
      RunConcat(s, st, ps, qs', force);
      var (x, y) := Run(s, mid, qs', force);
      StepResults(s, x, r1, y, q, force);
    }
  }

  /** Across a run the cache only grows, the log is only appended to, and
      every result names its cache file, which exists afterwards, and says
      `wasReprocessed == force`; only existing inputs produce results. */
  lemma {:induction false} RunInvariants(s: Setup, st: State, paths: seq<string>, force: bool)
    ensures var (st', res) := Run(s, st, paths, force);
      && st.cache.Keys <= st'.cache.Keys
      && |st.log| <= |st'.log| && st'.log[..|st.log|] == st.log
      && st.calls <= st'.calls
      && res.Keys <= ExistingNames(s.inputs, paths)
      && (forall n :: n in res ==> n in st'.cache && res[n] == ProcessingResult(n, CachePath(s.cacheDir, n), force))
    decreases |paths|
  {
    if paths != [] {
      var init := paths[..|paths| - 1];
      var path := paths[|paths| - 1];
      RunInvariants(s, st, init, force);
      var (st1, res1) := Run(s, st, init, force);
      assert ExistingNames(s.inputs, init) <= ExistingNames(s.inputs, paths);
      if path in s.inputs {
        assert BaseName(path) in ExistingNames(s.inputs, paths);
        RetryBounds(s.client, s.maxRetries, path, 0, st1);
        var st2 := Retry(s.client, s.maxRetries, path, 0, st1).1;
        assert st2.log[..|st.log|] == st2.log[..|st1.log|][..|st.log|];
      } else {
        var st2 := st1.(log := st1.log + [MissingFile(path)]);
        assert st2.log[..|st.log|] == st2.log[..|st1.log|][..|st.log|];
      }
    }
  }

  /** Each existing path costs between one and `maxRetries` client calls when
      it is not answered from the cache, and a missing path costs none; with
      `force` no path is answered from the cache. */
  lemma {:induction false} RunCalls(s: Setup, st: State, paths: seq<string>, force: bool)
    ensures var st' := Run(s, st, paths, force).0;
      && st.calls <= st'.calls <= st.calls + Max(s.maxRetries, 1) * CountExisting(s.inputs, paths)
      && (force ==> st'.calls >= st.calls + CountExisting(s.inputs, paths))
    decreases |paths|
  {
    if paths != [] {
      var init := paths[..|paths| - 1];
      var path := paths[|paths| - 1];
      RunCalls(s, st, init, force);
      var (st1, res1) := Run(s, st, init, force);
      RunLast(s, st, paths, force);
      StepCalls(s, st1, res1, path, force);
      var m, c := Max(s.maxRetries, 1), CountExisting(s.inputs, init);
      CountExistingLast(s.inputs, paths);
      if path in s.inputs {
        assert m * (c + 1) == m * c + m;
      }
    }
  }

  /** A run ends with the step for its last path. */
  lemma RunLast(s: Setup, st: State, paths: seq<string>, force: bool)
    requires paths != []
    ensures var (st1, res1) := Run(s, st, paths[..|paths| - 1], force);
      Run(s, st, paths, force) == Step(s, st1, res1, paths[|paths| - 1], force)
  {
  }

  lemma CountExistingLast(inputs: set<string>, paths: seq<string>)
    requires paths != []
    ensures CountExisting(inputs, paths) ==
      CountExisting(inputs, paths[..|paths| - 1]) + (if paths[|paths| - 1] in inputs then 1 else 0)
  {
  }

  /** When every existing path is already cached, a run without `force`
      makes no client call and writes no cache entry. */
  lemma {:induction false} RunFromCacheMakesNoCalls(s: Setup, st: State, paths: seq<string>)
    requires forall p :: p in paths && p in s.inputs ==> BaseName(p) in st.cache
    ensures Run(s, st, paths, false).0.calls == st.calls
    ensures Run(s, st, paths, false).0.cache == st.cache
    decreases |paths|
  {
    if paths != [] {
      var init := paths[..|paths| - 1];
      assert forall p :: p in init ==> p in paths;
      RunFromCacheMakesNoCalls(s, st, init);
    }
  }

  /** A second run without `force`, after a run in which every existing path
      was processed, makes zero client calls. */
  lemma SecondRunMakesNoCalls(s: Setup, st: State, paths: seq<string>)
    requires forall p :: p in paths && p in s.inputs ==> BaseName(p) in Run(s, st, paths, false).1
    ensures var st1 := Run(s, st, paths, false).0;
      Run(s, st1, paths, false).0.calls == st1.calls
  {
    RunInvariants(s, st, paths, false);
    RunFromCacheMakesNoCalls(s, Run(s, st, paths, false).0, paths);
  }

  /** Two forced runs over one existing file call the client exactly twice. */
  lemma ForcedRunsCallEveryTime(s: Setup, st: State, path: string)
    requires path in s.inputs
    requires s.client(path, st.calls).Returned? && s.client(path, st.calls + 1).Returned?
    ensures var st1 := Run(s, st, [path], true).0;
      Run(s, st1, [path], true).0.calls == st.calls + 2
  {
    assert [path][..0] == [];
    RetryUnfold(s.client, s.maxRetries, path, 0, st);
    var st1 := Run(s, st, [path], true).0;
    RetryUnfold(s.client, s.maxRetries, path, 0, st1);
  }

  /** A path that does not exist adds one log line and nothing else: no
      client call, no cache entry, no result. */
  lemma MissingPathSkipped(s: Setup, st: State, ps: seq<string>, path: string, force: bool)
    requires path !in s.inputs
    ensures var (mid, res) := Run(s, st, ps, force);
      Run(s, st, ps + [path], force) == (mid.(log := mid.log + [MissingFile(path)]), res)
  {
    assert (ps + [path])[..|ps|] == ps;
  }

  /** Answering from the cache: no client call, and the result points at
      `<cacheDir>/<name>.json` and is not marked reprocessed. */
  lemma CacheHitAnswersFromCache(s: Setup, st: State, path: string)
    requires path in s.inputs && BaseName(path) in st.cache
    ensures Run(s, st, [path], false) ==
      (st, map[BaseName(path) := ProcessingResult(BaseName(path), CachePath(s.cacheDir, BaseName(path)), false)])
  {
    assert [path][..0] == [];
  }

  /** A file whose client fails k < maxRetries times with a retryable error
      and then returns `p` is cached with exactly `p`, after k "Attempt n" log
      lines, and appears in the results. */
  lemma RetriedFileIsCached(s: Setup, st: State, path: string, force: bool, k: nat, p: Json)
    requires path in s.inputs && (force || BaseName(path) !in st.cache)
    requires k < s.maxRetries
    requires RetryableFailures(s.client, path, st.calls, k)
    requires s.client(path, st.calls + k) == Returned(p)
    ensures var name := BaseName(path);
      Run(s, st, [path], force) ==
        (State(st.cache[name := p], st.log + FailureLines(s.client, path, 0, st.calls, k), st.calls + k + 1),
         map[name := ProcessingResult(name, CachePath(s.cacheDir, name), force)])
  {
    var name := BaseName(path);
    var st' := st.(calls := st.calls + k + 1, log := st.log + FailureLines(s.client, path, 0, st.calls, k));
    assert Retry(s.client, s.maxRetries, path, 0, st) == (Ok(p), st') by {
      RetryThenSucceed(s.client, s.maxRetries, path, k, p, st);
    }
    assert Step(s, st, map[], path, force) ==
      (st'.(cache := st'.cache[name := p]), map[name := ProcessingResult(name, CachePath(s.cacheDir, name), force)]) by {
      StepFetches(s, st, map[], path, force);
    }
    assert Run(s, st, [path], force) == Step(s, st, map[], path, force) by {
      assert [path][..0] == [];
    }
  }

  /** A file whose retries fail (exhausted or fatal) gets no cache entry and
      no result; only the log and the call count change. */
  lemma FailedFileSkipped(s: Setup, st: State, path: string, force: bool)
    requires path in s.inputs && (force || BaseName(path) !in st.cache)
    requires Retry(s.client, s.maxRetries, path, 0, st).0.Err?
    ensures Run(s, st, [path], force).1 == map[]
    ensures Run(s, st, [path], force).0.cache == st.cache
    ensures Run(s, st, [path], force).0 == Retry(s.client, s.maxRetries, path, 0, st).1
  {
    assert [path][..0] == [];
    RetryBounds(s.client, s.maxRetries, path, 0, st);
  }

  /** Within one run without `force`, a later path with the same base name as
      a path that was just processed is answered from the fresh cache entry. */
  lemma SameNameHitsFreshCache(s: Setup, st: State, p1: string, p2: string)
    requires p2 in s.inputs && BaseName(p1) == BaseName(p2)
    requires BaseName(p1) in Run(s, st, [p1], false).1
    ensures Run(s, st, [p1, p2], false).0 == Run(s, st, [p1], false).0
  {
    var (mid, r1) := Run(s, st, [p1], false);
    assert BaseName(p2) in mid.cache by {
      RunInvariants(s, st, [p1], false);
    }
    assert Run(s, st, [p1, p2], false) == Step(s, mid, r1, p2, false) by {
      assert [p1, p2][..1] == [p1];
    }
  }

  class FireKeyProcessor {
    const cacheDir: string
    const logPath: string
    const client: Client
    const maxRetries: nat
    const retryDelay: real
    /** The input files that exist on disk. */
    const inputs: set<string>
    /** The cache directory's `<name>.json` files and their payloads. */
    var cache: map<string, Json>
    /** The error log file, one entry per line. */
    var log: seq<LogEntry>
    /** How many calls the client has answered. */
    var calls: nat

    function Snapshot(): State
      reads this
    {
      State(cache, log, calls)
    }

    function Settings(): Setup
    {
      Setup(inputs, cacheDir, client, maxRetries)
    }

    /** The cache directory and the log file are taken as found on disk. */
    constructor (cacheDir: string, logPath: string, client: Client, maxRetries: int, retryDelay: real,
                 inputs: set<string>, cache: map<string, Json>, log: seq<LogEntry>)
      ensures this.maxRetries == ClampRetries(maxRetries) && this.maxRetries >= 1
      ensures this.retryDelay == ClampDelay(retryDelay) && this.retryDelay >= 0.0
      ensures this.cacheDir == cacheDir && this.logPath == logPath && this.client == client
      ensures this.inputs == inputs && Snapshot() == State(cache, log, 0)
    {
      this.cacheDir := cacheDir;
      this.logPath := logPath;
      this.client := client;
      this.maxRetries := ClampRetries(maxRetries);
      this.retryDelay := ClampDelay(retryDelay);
      this.inputs := inputs;
      this.cache := cache;
      this.log := log;
      this.calls := 0;
    }

    /** `_log_error`: append one line to the log. */
    method LogError(entry: LogEntry)
      modifies this
      ensures log == old(log) + [entry]
      ensures cache == old(cache) && calls == old(calls)
    {
      log := log + [entry];
    }

    /** `_process_with_retries`: call the client until it returns, a
        non-retryable error occurs, or `maxRetries` attempts have failed. */
    method ProcessWithRetries(path: string) returns (r: Result<Json, Failure>)
      modifies this
      ensures (r, Snapshot()) == Retry(client, maxRetries, path, 0, old(Snapshot()))
    {
      var attempt: nat := 0;
      ghost var goal := Retry(client, maxRetries, path, 0, old(Snapshot()));
      while true
        invariant attempt <= maxRetries || attempt == 0
        invariant goal == Retry(client, maxRetries, path, attempt, Snapshot())
        decreases maxRetries - attempt
      {
        ghost var before := Snapshot();
        RetryUnfold(client, maxRetries, path, attempt, before);
        attempt := attempt + 1;
        var out := client(path, calls);
        calls := calls + 1;
        ghost var called := Snapshot();
        assert called == before.(calls := before.calls + 1);
        match out {
          case Returned(p) =>
            return Ok(p);
          case Raised(e, m) =>
            if IsRetryable(e) {
              LogError(AttemptFailed(attempt, BaseName(path), m));
              assert Snapshot() == called.(log := called.log + [AttemptFailed(attempt, BaseName(path), m)]);
              if attempt >= maxRetries {
                return Err(Failure(e, m));
              }
              // time.sleep(retryDelay) happens here.
            } else {
              LogError(Unrecoverable(BaseName(path), m));
              assert Snapshot() == called.(log := called.log + [Unrecoverable(BaseName(path), m)]);
              return Err(Failure(FireKeyError, m));
            }
        }
      }
    }

    /** `process_files` */
    method ProcessFiles(paths: seq<string>, force: bool) returns (results: map<string, ProcessingResult>)
      modifies this
      ensures (Snapshot(), results) == Run(Settings(), old(Snapshot()), paths, force)
    {
      results := map[];
      for i := 0 to |paths|
        invariant (Snapshot(), results) == Run(Settings(), old(Snapshot()), paths[..i], force)
      {
        assert paths[..i + 1][..i] == paths[..i];
        var path := paths[i];
        if path !in inputs {
          LogError(MissingFile(path));
          continue;
        }
        var name := BaseName(path);
        var cacheFile := CachePath(cacheDir, name);
        if name in cache && !force {
          results := results[name := ProcessingResult(name, cacheFile, false)];
          continue;
        }
        var r := ProcessWithRetries(path);
        if r.Err? {
          continue;
        }
        cache := cache[name := r.value];
        results := results[name := ProcessingResult(name, cacheFile, force)];
      }
      assert paths[..|paths|] == paths;
    }
  }
}
