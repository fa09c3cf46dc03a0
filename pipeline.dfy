/** The two pieces of data_pipeline.py outside the indicator numerics: the
    exponential-backoff retry decorator, and the choice of the most traded
    USDT-margined perpetuals. */
module Pipeline {
  import opened Py

  // ---------------------------------------------------------------------
  // Exponential backoff
  // ---------------------------------------------------------------------

  /** The exception an exchange call raised. RateLimitExceeded and
      RequestTimeout are named apart; `NetworkError(kind)` stands for
      NetworkError itself and its other subclasses, `OtherError(name)` for
      any exception outside that family. */
  datatype CallError =
    | RateLimitExceeded
    | RequestTimeout
    | NetworkError(kind: string)
    | OtherError(name: string)

  /** The exceptions the decorator retries. */
  predicate Retryable(e: CallError) {
    !e.OtherError?
  }

  /** What one call of the wrapped coroutine gave. */
  datatype Attempt<T> = Success(value: T) | Failure(error: CallError)

  /** What the decorated call ends with. */
  datatype Ending<T> = Returned(value: T) | Raised(error: CallError)

  /** The ending, the sleeps taken between attempts, and the number of
      attempts made. */
  datatype BackoffResult<T> = BackoffResult(ending: Ending<T>, sleeps: seq<real>, attempts: nat)

  const DEFAULT_MAX_RETRIES: int := 5
  const DEFAULT_BASE_DELAY: real := 1.0
  const DEFAULT_MAX_DELAY: real := 60.0

  /** The decorator's loop from the point where `retries` failures have
      been seen and the next sleep would be `delay`. Attempt number i (from
      0) gives `call(i)`. */
  function Run<T>(maxRetries: int, maxDelay: real, call: nat -> Attempt<T>, retries: nat, delay: real)
    : (r: BackoffResult<T>)
    decreases if maxRetries < retries then 0 else maxRetries - retries
  {
    match call(retries)
    case Success(v) => BackoffResult(Returned(v), [], retries + 1)
    case Failure(e) =>
      if !Retryable(e) || retries + 1 > maxRetries then BackoffResult(Raised(e), [], retries + 1)
      else
        var rest := Run(maxRetries, maxDelay, call, retries + 1, Min(maxDelay, delay * 2.0));
        BackoffResult(rest.ending, [delay] + rest.sleeps, rest.attempts)
  }

  /** `with_exponential_backoff(max_retries, base_delay, max_delay)` applied
      to `call`: the sleeps are returned rather than performed. */
  method WithBackoff<T>(maxRetries: int, baseDelay: real, maxDelay: real, call: nat -> Attempt<T>)
    returns (ending: Ending<T>, sleeps: seq<real>, attempts: nat)
    ensures BackoffResult(ending, sleeps, attempts) == Run(maxRetries, maxDelay, call, 0, baseDelay)
  {
    var retries: nat := 0;
    var delay := baseDelay;
    sleeps := [];
    while true
      invariant retries == 0 || retries <= maxRetries
      invariant var here := Run(maxRetries, maxDelay, call, retries, delay);
        Run(maxRetries, maxDelay, call, 0, baseDelay) == BackoffResult(here.ending, sleeps + here.sleeps, here.attempts)
      decreases maxRetries - retries
    {
      var a := call(retries);
      if a.Success? {
        return Returned(a.value), sleeps, retries + 1;
      }
      if !Retryable(a.error) {
        return Raised(a.error), sleeps, retries + 1;
      }
      ghost var here := Run(maxRetries, maxDelay, call, retries, delay);
      retries := retries + 1;
      if retries > maxRetries {
        return Raised(a.error), sleeps, retries;
      }
      ghost var next := Run(maxRetries, maxDelay, call, retries, Min(maxDelay, delay * 2.0));
      assert here.sleeps == [delay] + next.sleeps;
      assert sleeps + here.sleeps == (sleeps + [delay]) + next.sleeps;
      sleeps := sleeps + [delay];
      delay := Min(maxDelay, delay * 2.0);
    }
  }

  /** The loop calls at least once and at most `max_retries + 1` times, and
      sleeps once between each two attempts. */
  lemma {:induction false} RunAttempts<T>(maxRetries: int, maxDelay: real, call: nat -> Attempt<T>, retries: nat, delay: real)
    ensures var r := Run(maxRetries, maxDelay, call, retries, delay);
      && retries + 1 <= r.attempts
      && (retries <= maxRetries ==> r.attempts <= maxRetries + 1)
      && |r.sleeps| == r.attempts - retries - 1
    decreases if maxRetries < retries then 0 else maxRetries - retries
  {
    match call(retries)
    case Success(v) =>
    case Failure(e) =>
      if !Retryable(e) || retries + 1 > maxRetries {
      } else {
        RunAttempts(maxRetries, maxDelay, call, retries + 1, Min(maxDelay, delay * 2.0));
      }
  }

  /** How the loop ends: every attempt before the last failed with a
      retryable error; the last one either succeeded, and its value is
      returned, or failed, and its error is raised because it is not
      retryable or the retries are used up. */
  lemma {:induction false} RunEnding<T>(maxRetries: int, maxDelay: real, call: nat -> Attempt<T>, retries: nat, delay: real)
    ensures var r := Run(maxRetries, maxDelay, call, retries, delay);
      && r.attempts >= 1
      && (forall i :: retries <= i < r.attempts - 1 ==> call(i).Failure? && Retryable(call(i).error))
      && (r.ending.Returned? ==> call(r.attempts - 1) == Success(r.ending.value))
      && (r.ending.Raised? ==>
            call(r.attempts - 1) == Failure(r.ending.error)
            && (!Retryable(r.ending.error) || r.attempts > maxRetries))
    decreases if maxRetries < retries then 0 else maxRetries - retries
  {
    match call(retries)
    case Success(v) =>
    case Failure(e) =>
      if !Retryable(e) || retries + 1 > maxRetries {
      } else {
        RunEnding(maxRetries, maxDelay, call, retries + 1, Min(maxDelay, delay * 2.0));
      }
  }

  function Pow2(k: nat): (r: real)
    ensures r >= 1.0
  {
    if k == 0 then 1.0 else 2.0 * Pow2(k - 1)
  }

  /** The closed form of the k-th sleep (from 0) of a loop whose first
      sleep is `delay`: uncapped first, then doubled k times and capped. */
  function ScheduledDelay(maxDelay: real, delay: real, k: nat): real {
    if k == 0 then delay else Min(maxDelay, delay * Pow2(k))
  }

  /** The sleeps follow the closed form from any point of the loop on. */
  lemma {:induction false} SleepsFrom<T>(maxRetries: int, maxDelay: real, call: nat -> Attempt<T>, retries: nat, delay: real, k: nat)
    requires maxDelay >= 0.0
    requires k < |Run(maxRetries, maxDelay, call, retries, delay).sleeps|
    ensures Run(maxRetries, maxDelay, call, retries, delay).sleeps[k] == ScheduledDelay(maxDelay, delay, k)
    decreases if maxRetries < retries then 0 else maxRetries - retries
  {
    if k > 0 {
      match call(retries)
      case Success(v) =>
      case Failure(e) =>
        if !Retryable(e) || retries + 1 > maxRetries {
        } else {
          var next := Min(maxDelay, delay * 2.0);
          var rest := Run(maxRetries, maxDelay, call, retries + 1, next);
          assert Run(maxRetries, maxDelay, call, retries, delay).sleeps == [delay] + rest.sleeps;
          SleepsFrom(maxRetries, maxDelay, call, retries + 1, next, k - 1);
          CapTwice(maxDelay, delay, k - 1);
        }
    }
  }

  /** Capping after each doubling is the same as capping once at the end. */
  lemma CapTwice(maxDelay: real, delay: real, j: nat)
    requires maxDelay >= 0.0
    ensures ScheduledDelay(maxDelay, Min(maxDelay, delay * 2.0), j) == ScheduledDelay(maxDelay, delay, j + 1)
  {
    assert Pow2(j + 1) == 2.0 * Pow2(j);
    if j == 0 {
      assert Pow2(1) == 2.0;
    } else if delay * 2.0 > maxDelay {
      assert maxDelay * Pow2(j) >= maxDelay;
      assert delay * Pow2(j + 1) == (delay * 2.0) * Pow2(j);
      assert (delay * 2.0) * Pow2(j) >= maxDelay * Pow2(j);
    } else {
      assert delay * Pow2(j + 1) == (delay * 2.0) * Pow2(j);
    }
  }

  /** The sleeps of a whole run follow the closed form from the base delay;
      none is longer than the maximum when the base delay is not. */
  lemma SleepSchedule<T>(maxRetries: int, baseDelay: real, maxDelay: real, call: nat -> Attempt<T>)
    requires maxDelay >= 0.0
    ensures var s := Run(maxRetries, maxDelay, call, 0, baseDelay).sleeps;
      && (forall k :: 0 <= k < |s| ==> s[k] == ScheduledDelay(maxDelay, baseDelay, k))
      && (baseDelay <= maxDelay ==> forall k :: 0 <= k < |s| ==> s[k] <= maxDelay)
  {
    var s := Run(maxRetries, maxDelay, call, 0, baseDelay).sleeps;
    forall k | 0 <= k < |s|
      ensures s[k] == ScheduledDelay(maxDelay, baseDelay, k)
    {
      SleepsFrom(maxRetries, maxDelay, call, 0, baseDelay, k);
    }
  }

  // ---------------------------------------------------------------------
  // Top altcoins by quote volume
  // ---------------------------------------------------------------------

  /** One entry of `fetch_tickers`: the dictionary key and its 24-hour
      quote volume, None when the key is absent. A key present with the
      value None is not modelled. */
  datatype Ticker = Ticker(symbol: string, quoteVolume: Option<real>)

  /** The key suffix of USDT-margined linear perpetuals. */
  const PERP_SUFFIX: string := "/USDT:USDT"
  const DEFAULT_LIMIT: int := 5
  /** The retries the decorator is given on this coroutine. */
  const TOP_ALTCOINS_MAX_RETRIES: int := 3
  const DEFAULT_EXCLUDE: seq<string> := [
    "BTC/USDT:USDT", "ETH/USDT:USDT", "USDC/USDT:USDT", "FDUSD/USDT:USDT",
    "TUSD/USDT:USDT", "EUR/USDT:USDT", "USDP/USDT:USDT"]

  /** `.get("quoteVolume", 0)`: 0 for an absent key. */
  function Volume(t: Ticker): real {
    t.quoteVolume.GetOr(0.0)
  }

  predicate Eligible(t: Ticker, exclude: seq<string>) {
    EndsWith(t.symbol, PERP_SUFFIX) && t.symbol !in exclude
  }

  /** The dictionary comprehension, which keeps the tickers' order. */
  function EligiblePairs(ts: seq<Ticker>, exclude: seq<string>): (r: seq<Ticker>)
    ensures forall t :: t in r <==> t in ts && Eligible(t, exclude)
    ensures |r| <= |ts|
  {
    if ts == [] then []
    else if Eligible(ts[0], exclude) then [ts[0]] + EligiblePairs(ts[1..], exclude)
    else EligiblePairs(ts[1..], exclude)
  }

  predicate SortedDesc(s: seq<Ticker>) {
    forall i, j :: 0 <= i < j < |s| ==> Volume(s[i]) >= Volume(s[j])
  }

  /** The entries of s with volume v, in order. */
  function WithVolume(s: seq<Ticker>, v: real): seq<Ticker> {
    if s == [] then [] else (if Volume(s[0]) == v then [s[0]] else []) + WithVolume(s[1..], v)
  }

  /** x placed after every entry whose volume is at least its own. */
  function InsertDesc(s: seq<Ticker>, x: Ticker): (r: seq<Ticker>)
  {
    if s == [] then [x]
    else if Volume(s[0]) < Volume(x) then [x] + s
    else
      assert s == [s[0]] + s[1..];
      [s[0]] + InsertDesc(s[1..], x)
  }

  /** `sorted(..., key=volume, reverse=True)`: Python's sort is stable
      also when reversed, so one insertion at a time, each after its
      equals. */
  function SortDesc(s: seq<Ticker>): seq<Ticker> {
    if s == [] then [] else InsertDesc(SortDesc(s[..|s| - 1]), s[|s| - 1])
  }

  /** `s[:limit]`, where a negative limit drops that many from the end. */
  function SliceTo<T>(s: seq<T>, limit: int): (r: seq<T>)
    ensures limit >= 0 ==> |r| == if limit < |s| then limit else |s|
    ensures limit < 0 ==> |r| == if -limit < |s| then |s| + limit else 0
    ensures r == s[..|r|]
  {
    if limit >= 0 then (if limit < |s| then s[..limit] else s)
    else if -limit < |s| then s[..|s| + limit] else []
  }

  function Symbols(s: seq<Ticker>): (r: seq<string>)
    ensures |r| == |s| && forall i :: 0 <= i < |s| ==> r[i] == s[i].symbol
  {
    if s == [] then [] else [s[0].symbol] + Symbols(s[1..])
  }

  /** The chosen entries, highest volume first. */
  function SelectedPairs(ts: seq<Ticker>, limit: int, exclude: seq<string>): seq<Ticker> {
    SliceTo(SortDesc(EligiblePairs(ts, exclude)), limit)
  }

  /** `fetch_top_altcoins_by_volume` once `fetch_tickers` has answered. */
  function TopAltcoins(ts: seq<Ticker>, limit: int, exclude: seq<string>): seq<string> {
    Symbols(SelectedPairs(ts, limit, exclude))
  }

  /** Inserting adds exactly the new ticker. */
  lemma {:induction false} InsertDescPermutation(s: seq<Ticker>, x: Ticker)
    ensures multiset(InsertDesc(s, x)) == multiset(s) + multiset{x}
    decreases |s|
  {
    if s != [] && Volume(s[0]) >= Volume(x) {
      InsertDescPermutation(s[1..], x);
      assert s == [s[0]] + s[1..];
    }
  }

  lemma {:induction false} InsertDescSorted(s: seq<Ticker>, x: Ticker)
    requires SortedDesc(s)
    ensures SortedDesc(InsertDesc(s, x))
  {
    if s != [] && Volume(s[0]) >= Volume(x) {
      InsertDescSorted(s[1..], x);
      InsertDescPermutation(s[1..], x);
      var r := InsertDesc(s, x);
      var tail := InsertDesc(s[1..], x);
      assert r == [s[0]] + tail;
      forall j | 0 < j < |r|
        ensures Volume(r[0]) >= Volume(r[j])
      {
        assert r[j] == tail[j - 1];
        assert r[j] in multiset(tail);
        assert r[j] in s[1..] || r[j] == x;
      }
    }
  }

  /** The sort yields a list that is descending by volume. */
  lemma {:induction false} SortDescSorted(s: seq<Ticker>)
    ensures SortedDesc(SortDesc(s))
    decreases |s|
  {
    if s != [] {
      SortDescSorted(s[..|s| - 1]);
      InsertDescSorted(SortDesc(s[..|s| - 1]), s[|s| - 1]);
    }
  }

  /** The sort is a permutation of its input. */
  lemma {:induction false} SortDescPermutation(s: seq<Ticker>)
    ensures multiset(SortDesc(s)) == multiset(s)
    decreases |s|
  {
    if s != [] {
      var init := s[..|s| - 1];
      var last := s[|s| - 1];
      SortDescPermutation(init);
      assert s == init + [last];
      calc {
        multiset(SortDesc(s));
        multiset(InsertDesc(SortDesc(init), last));
        { InsertDescPermutation(SortDesc(init), last); }
        multiset(SortDesc(init)) + multiset{last};
        multiset(init) + multiset{last};
        multiset(init + [last]);
      }
    }
  }

  lemma {:induction false} WithVolumeConcat(a: seq<Ticker>, b: seq<Ticker>, v: real)
    ensures WithVolume(a + b, v) == WithVolume(a, v) + WithVolume(b, v)
    decreases |a|
  {
    if a != [] {
      var head := if Volume(a[0]) == v then [a[0]] else [];
      assert (a + b)[0] == a[0];
      assert (a + b)[1..] == a[1..] + b;
      WithVolumeConcat(a[1..], b, v);
      assert WithVolume(a + b, v) == head + WithVolume(a[1..] + b, v);
      assert WithVolume(a, v) == head + WithVolume(a[1..], v);
    } else {
      assert a + b == b;
    }
  }

  lemma TailSorted(s: seq<Ticker>)
    requires s != [] && SortedDesc(s)
    ensures SortedDesc(s[1..])
  {
    var tail := s[1..];
    forall i, j | 0 <= i < j < |tail|
      ensures Volume(tail[i]) >= Volume(tail[j])
    {
      assert tail[i] == s[i + 1] && tail[j] == s[j + 1];
    }
  }

  /** A ticker placed before a sorted list of lower volumes comes last
      among the tickers of its volume. */
  lemma InsertFrontStable(s: seq<Ticker>, x: Ticker, v: real)
    requires s != [] && SortedDesc(s) && Volume(s[0]) < Volume(x)
    ensures WithVolume([x] + s, v) == WithVolume(s, v) + WithVolume([x], v)
  {
    var wx := WithVolume([x], v);
    assert [x][1..] == [];
    WithVolumeConcat([x], s, v);
    if Volume(x) == v {
      forall i | 0 <= i < |s|
        ensures Volume(s[i]) < v
      {
        if i > 0 {
          assert Volume(s[0]) >= Volume(s[i]);
        }
      }
      NoneWithVolume(s, v);
      assert [] + wx == wx && wx + [] == wx;
    } else {
      assert wx == [];
      assert [] + WithVolume(s, v) == WithVolume(s, v) + [];
    }
  }

  /** Inserting behind a head of at least the ticker's volume: what holds
      for the tail carries over to the whole list. */
  lemma InsertBehindStable(s: seq<Ticker>, x: Ticker, v: real)
    requires s != [] && Volume(s[0]) >= Volume(x)
    requires WithVolume(InsertDesc(s[1..], x), v) == WithVolume(s[1..], v) + WithVolume([x], v)
    ensures WithVolume(InsertDesc(s, x), v) == WithVolume(s, v) + WithVolume([x], v)
  {
    var tail := s[1..];
    var ins := InsertDesc(tail, x);
    var w0 := WithVolume([s[0]], v);
    var wt := WithVolume(tail, v);
    var wx := WithVolume([x], v);
    calc {
      WithVolume(InsertDesc(s, x), v);
      { assert InsertDesc(s, x) == [s[0]] + ins; }
      WithVolume([s[0]] + ins, v);
      { WithVolumeConcat([s[0]], ins, v); }
      w0 + (wt + wx);
      { AppendAssoc(w0, wt, wx); }
      (w0 + wt) + wx;
      { WithVolumeConcat([s[0]], tail, v); }
      WithVolume([s[0]] + tail, v) + wx;
      { assert [s[0]] + tail == s; }
      WithVolume(s, v) + wx;
    }
  }

  /** Inserting into a sorted list keeps the order among equal volumes. */
  lemma {:induction false} InsertDescStable(s: seq<Ticker>, x: Ticker, v: real)
    requires SortedDesc(s)
    ensures WithVolume(InsertDesc(s, x), v) == WithVolume(s, v) + WithVolume([x], v)
    decreases |s|
  {
    if s == [] {
      assert [] + WithVolume([x], v) == WithVolume([x], v);
    } else if Volume(s[0]) < Volume(x) {
      InsertFrontStable(s, x, v);
    } else {
      TailSorted(s);
      InsertDescStable(s[1..], x, v);
      InsertBehindStable(s, x, v);
    }
  }

  lemma {:induction false} NoneWithVolume(s: seq<Ticker>, v: real)
    requires forall i :: 0 <= i < |s| ==> Volume(s[i]) < v
    ensures WithVolume(s, v) == []
  {
    if s != [] {
      NoneWithVolume(s[1..], v);
    }
  }

  /** The sort is stable: entries of equal volume come out in their input
      order. */
  lemma {:induction false} SortDescStable(s: seq<Ticker>, v: real)
    ensures WithVolume(SortDesc(s), v) == WithVolume(s, v)
    decreases |s|
  {
    if s != [] {
      var init := s[..|s| - 1];
      var last := s[|s| - 1];
      SortDescStable(init, v);
      SortDescSorted(init);
      InsertDescStable(SortDesc(init), last, v);
      assert SortDesc(s) == InsertDesc(SortDesc(init), last);
      assert s == init + [last];
      WithVolumeConcat(init, [last], v);
    }
  }

  /** The selection is a prefix of the stable descending sort of the
      eligible tickers: highest volume first, a permutation of them before
      the cut, equal volumes in their fetched order, no more than a
      non-negative limit and exactly that many when enough are eligible. */
  lemma TopAltcoinsOrder(ts: seq<Ticker>, limit: int, exclude: seq<string>)
    ensures var sorted := SortDesc(EligiblePairs(ts, exclude));
      var sel := SelectedPairs(ts, limit, exclude);
      var r := TopAltcoins(ts, limit, exclude);
      && sel == sorted[..|sel|]
      && r == Symbols(sel)
      && SortedDesc(sel)
      && multiset(sorted) == multiset(EligiblePairs(ts, exclude))
      && (forall v :: WithVolume(sorted, v) == WithVolume(EligiblePairs(ts, exclude), v))
      && (0 <= limit <= |sorted| ==> |r| == limit)
      && (limit > |sorted| ==> |r| == |sorted|)
  {
    var pairs := EligiblePairs(ts, exclude);
    SortDescSorted(pairs);
    SortDescPermutation(pairs);
    forall v {
      SortDescStable(pairs, v);
    }
  }

  /** Every selected ticker was fetched, ends in "/USDT:USDT" and is not
      excluded. */
  lemma TopAltcoinsEligible(ts: seq<Ticker>, limit: int, exclude: seq<string>)
    ensures forall t :: t in SelectedPairs(ts, limit, exclude) ==>
      t in ts && EndsWith(t.symbol, PERP_SUFFIX) && t.symbol !in exclude
  {
    var pairs := EligiblePairs(ts, exclude);
    var sorted := SortDesc(pairs);
    var sel := SelectedPairs(ts, limit, exclude);
    SortDescPermutation(pairs);
    forall t | t in sel
      ensures t in ts && Eligible(t, exclude)
    {
      assert t in sorted;
      assert t in multiset(pairs);
    }
  }

  /** A prefix of a list sorted by falling volume holds every entry of the
      list that outranks one of its own entries. */
  lemma PrefixNoneSkipped(sorted: seq<Ticker>, n: nat, t: Ticker, p: Ticker)
    requires SortedDesc(sorted) && n <= |sorted|
    requires t in sorted && p in sorted[..n] && Volume(t) > Volume(p)
    ensures t in sorted[..n]
  {
    var j :| 0 <= j < |sorted| && sorted[j] == t;
    var i :| 0 <= i < n && sorted[..n][i] == p;
    assert sorted[i] == p;
    assert j < i;
    assert sorted[..n][j] == t;
  }

  /** No eligible ticker is left out while one of lower volume is kept. */
  lemma TopAltcoinsNoneSkipped(ts: seq<Ticker>, limit: int, exclude: seq<string>)
    ensures forall t, p ::
      (t in EligiblePairs(ts, exclude) && p in SelectedPairs(ts, limit, exclude) && Volume(t) > Volume(p))
      ==> t in SelectedPairs(ts, limit, exclude)
  {
    var pairs := EligiblePairs(ts, exclude);
    var sorted := SortDesc(pairs);
    var sel := SelectedPairs(ts, limit, exclude);
    SortDescSorted(pairs);
    SortDescPermutation(pairs);
    assert sel == sorted[..|sel|];
    forall t, p | t in pairs && p in sel && Volume(t) > Volume(p)
      ensures t in sel
    {
      assert t in multiset(sorted);
      PrefixNoneSkipped(sorted, |sel|, t, p);
    }
  }

  /** With the default exclusion list no excluded symbol, BTC and ETH
      among them, is ever returned; with the default limit of 5 the result
      has five symbols, or all eligible ones when there are fewer. */
  lemma DefaultSelection(ts: seq<Ticker>, limit: int)
    ensures forall s | s in TopAltcoins(ts, limit, DEFAULT_EXCLUDE) :: s !in DEFAULT_EXCLUDE
    ensures "BTC/USDT:USDT" !in TopAltcoins(ts, limit, DEFAULT_EXCLUDE)
    ensures "ETH/USDT:USDT" !in TopAltcoins(ts, limit, DEFAULT_EXCLUDE)
    ensures var n := |EligiblePairs(ts, DEFAULT_EXCLUDE)|;
      |TopAltcoins(ts, DEFAULT_LIMIT, DEFAULT_EXCLUDE)| == if n < DEFAULT_LIMIT then n else DEFAULT_LIMIT
  {
    TopAltcoinsEligible(ts, limit, DEFAULT_EXCLUDE);
    TopAltcoinsOrder(ts, DEFAULT_LIMIT, DEFAULT_EXCLUDE);
    var sel := SelectedPairs(ts, limit, DEFAULT_EXCLUDE);
    forall s | s in TopAltcoins(ts, limit, DEFAULT_EXCLUDE)
      ensures s !in DEFAULT_EXCLUDE
    {
      var i :| 0 <= i < |sel| && Symbols(sel)[i] == s;
      assert sel[i] in sel;
    }
    assert "BTC/USDT:USDT" in DEFAULT_EXCLUDE && "ETH/USDT:USDT" in DEFAULT_EXCLUDE;
    SortDescPermutation(EligiblePairs(ts, DEFAULT_EXCLUDE));
    assert |SortDesc(EligiblePairs(ts, DEFAULT_EXCLUDE))| == |EligiblePairs(ts, DEFAULT_EXCLUDE)| by {
      assert |multiset(SortDesc(EligiblePairs(ts, DEFAULT_EXCLUDE)))| == |multiset(EligiblePairs(ts, DEFAULT_EXCLUDE))|;
    }
  }

  /** The decorated coroutine: only `fetch_tickers` can raise, so the
      decorator wraps the ticker fetch and the selection runs on the first
      answer. */
  function FetchTopAltcoins(fetch: nat -> Attempt<seq<Ticker>>, limit: int, exclude: seq<string>)
    : (r: BackoffResult<seq<string>>)
    ensures 1 <= r.attempts <= TOP_ALTCOINS_MAX_RETRIES + 1
    ensures |r.sleeps| == r.attempts - 1 && r.sleeps == [1.0, 2.0, 4.0][..|r.sleeps|]
    ensures r.ending.Returned? ==>
      fetch(r.attempts - 1).Success? && r.ending.value == TopAltcoins(fetch(r.attempts - 1).value, limit, exclude)
  {
    var call := (i: nat) =>
      match fetch(i)
      case Success(ts) => Success(TopAltcoins(ts, limit, exclude))
      case Failure(e) => Failure(e);
    var r := Run(TOP_ALTCOINS_MAX_RETRIES, DEFAULT_MAX_DELAY, call, 0, DEFAULT_BASE_DELAY);
    RunAttempts(TOP_ALTCOINS_MAX_RETRIES, DEFAULT_MAX_DELAY, call, 0, DEFAULT_BASE_DELAY);
    RunEnding(TOP_ALTCOINS_MAX_RETRIES, DEFAULT_MAX_DELAY, call, 0, DEFAULT_BASE_DELAY);
    SleepSchedule(TOP_ALTCOINS_MAX_RETRIES, DEFAULT_BASE_DELAY, DEFAULT_MAX_DELAY, call);
    DefaultSchedule(r.sleeps);
    assert [1.0, 2.0, 4.0, 8.0, 16.0][..|r.sleeps|] == [1.0, 2.0, 4.0][..|r.sleeps|];
    r
  }

  /** With the default base delay and cap, the first five sleeps are 1, 2,
      4, 8 and 16 seconds. */
  lemma DefaultSchedule(s: seq<real>)
    requires |s| <= 5
    requires forall k :: 0 <= k < |s| ==> s[k] == ScheduledDelay(DEFAULT_MAX_DELAY, DEFAULT_BASE_DELAY, k)
    ensures s == [1.0, 2.0, 4.0, 8.0, 16.0][..|s|]
  {
    assert Pow2(1) == 2.0 && Pow2(2) == 4.0 && Pow2(3) == 8.0 && Pow2(4) == 16.0;
  }

  /** The decorator with its default arguments (as on `fetch_ohlcv`): one to
      six attempts, with the sleeps a prefix of 1, 2, 4, 8 and 16 seconds. */
  lemma DefaultBackoff<T>(call: nat -> Attempt<T>)
    ensures var r := Run(DEFAULT_MAX_RETRIES, DEFAULT_MAX_DELAY, call, 0, DEFAULT_BASE_DELAY);
      && 1 <= r.attempts <= DEFAULT_MAX_RETRIES + 1
      && r.sleeps == [1.0, 2.0, 4.0, 8.0, 16.0][..|r.sleeps|]
  {
    RunAttempts(DEFAULT_MAX_RETRIES, DEFAULT_MAX_DELAY, call, 0, DEFAULT_BASE_DELAY);
    SleepSchedule(DEFAULT_MAX_RETRIES, DEFAULT_BASE_DELAY, DEFAULT_MAX_DELAY, call);
    DefaultSchedule(Run(DEFAULT_MAX_RETRIES, DEFAULT_MAX_DELAY, call, 0, DEFAULT_BASE_DELAY).sleeps);
  }
}
