/** Fixed-window counters in Redis, and the rate limiter built on them. */
module Counters {
  import opened Types

  /** A key holds a count only after an INCR. */
  type Positive = n: nat | n > 0 witness 1

  datatype Counter = Counter(count: Positive, expires: Time)

  type Counts = map<string, Counter>

  predicate LiveCount(counts: Counts, key: string, now: Time)
  {
    key in counts && now < counts[key].expires
  }

  /** The counter after one run of the script: INCR, and EXPIRE on the first hit of a window. */
  function Hit(counts: Counts, key: string, ttl: nat, now: Time): Counter
  {
    if LiveCount(counts, key, now)
    then Counter(counts[key].count + 1, counts[key].expires)
    else Counter(1, now + WholeSeconds(ttl))
  }

  datatype Call = Call(key: string, limit: int, window: nat, now: Time)

  function AfterCall(counts: Counts, c: Call): Counts
  {
    counts[c.key := Hit(counts, c.key, c.window, c.now)]
  }

  /** The verdict of `Allow`. */
  predicate Allowed(counts: Counts, c: Call)
  {
    Hit(counts, c.key, c.window, c.now).count <= c.limit
  }

  function AfterCalls(counts: Counts, calls: seq<Call>): Counts
    decreases |calls|
  {
    if calls == [] then counts else AfterCalls(AfterCall(counts, calls[0]), calls[1..])
  }

  lemma OneCall(counts: Counts, c: Call)
    ensures AfterCalls(counts, [c]) == AfterCall(counts, c)
  {
  }

  /** How many of the calls on `key` are allowed. */
  function AllowedCalls(counts: Counts, calls: seq<Call>, key: string): nat
    decreases |calls|
  {
    if calls == [] then 0
    else
      var rest := AllowedCalls(AfterCall(counts, calls[0]), calls[1..], key);
      if calls[0].key == key && Allowed(counts, calls[0]) then rest + 1 else rest
  }

  /** Every call on `key` uses this limit and window and falls in `[from, to)`. */
  ghost predicate Uniform(calls: seq<Call>, key: string, limit: nat, window: nat, from: Time, to: Time)
  {
    forall i | 0 <= i < |calls| && calls[i].key == key ::
      calls[i].limit == limit && calls[i].window == window && from <= calls[i].now < to
  }

  /** What the window that is open for `key` still allows. */
  function Left(counts: Counts, key: string, limit: nat): nat
  {
    if key in counts && counts[key].count <= limit then limit - counts[key].count else 0
  }

  lemma OneWindowLess(next: Time, now: Time, to: Time, windows: nat, w: nat, limit: nat)
    requires next <= now < to <= next + windows * w
    ensures windows > 0 && to <= now + w + (windows - 1) * w && limit * windows == limit * (windows - 1) + limit
  {
    assert windows * w == (windows - 1) * w + w;
  }

  /**
   * If no new window can open before `next`, and at most `windows` can open between then and `to`,
   * the calls are allowed at most `limit` times per such window, plus what the open window has left.
   */
  lemma {:induction false} AllowedByWindows(counts: Counts, calls: seq<Call>, key: string, limit: nat, window: nat,
                                            next: Time, windows: nat, from: Time, to: Time)
    requires Uniform(calls, key, limit, window, from, to)
    requires to <= next + windows * WholeSeconds(window)
    requires next <= from || (key in counts && next <= counts[key].expires)
    ensures AllowedCalls(counts, calls, key) <= Left(counts, key, limit) + limit * windows
    decreases |calls|
  {
    if calls == [] {
    } else {
      var c, rest := calls[0], calls[1..];
      var counts' := AfterCall(counts, c);
      assert Uniform(rest, key, limit, window, from, to);
      if c.key != key || LiveCount(counts, key, c.now) {
        AllowedByWindows(counts', rest, key, limit, window, next, windows, from, to);
      } else {
        var w := WholeSeconds(window);
        OneWindowLess(next, c.now, to, windows, w, limit);
        AllowedByWindows(counts', rest, key, limit, window, c.now + w, windows - 1, from, to);
      }
    }
  }

  /** `a / b` rounded up. */
  function CeilDiv(a: nat, b: nat): nat
    requires b > 0
  {
    if a == 0 then 0 else if a <= b then 1 else CeilDiv(a - b, b) + 1
  }

  /** `n` steps of length `d`. */
  function Steps(n: nat, d: nat): nat
  {
    if n == 0 then 0 else Steps(n - 1, d) + d
  }

  lemma {:induction false} StepsIsProduct(n: nat, d: nat)
    ensures Steps(n, d) == n * d
  {
    if n > 0 {
      StepsIsProduct(n - 1, d);
      assert n * d == (n - 1) * d + d;
    }
  }

  /** That many steps of `b` cover `a`, and one fewer does not. */
  lemma {:induction false} CeilDivCovers(a: nat, b: nat)
    requires b > 0
    ensures a <= Steps(CeilDiv(a, b), b) < a + b
  {
    if a > b {
      CeilDivCovers(a - b, b);
    }
  }

  lemma AllowedInSpan(counts: Counts, calls: seq<Call>, key: string, limit: nat, window: nat, from: Time, span: nat)
    requires Uniform(calls, key, limit, window, from, from + span)
    ensures AllowedCalls(counts, calls, key) <= limit * (CeilDiv(span, WholeSeconds(window)) + 1)
  {
    var windows := CeilDiv(span, WholeSeconds(window));
    CeilDivCovers(span, WholeSeconds(window));
    StepsIsProduct(windows, WholeSeconds(window));
    AllowedByWindows(counts, calls, key, limit, window, from, windows, from, from + span);
    assert limit * (windows + 1) == limit * windows + limit;
  }

  /**
   * Whatever the calls before, those inside a half-open interval of length `span` are allowed at
   * most limit * (ceil(span / W) + 1) times, where W is the window in whole seconds.
   */
  lemma IntervalBound(trace: seq<Call>, i: nat, j: nat, key: string, limit: nat, window: nat, from: Time, span: nat)
    requires i <= j <= |trace| && Uniform(trace[i..j], key, limit, window, from, from + span)
    ensures AllowedCalls(AfterCalls(map[], trace[..i]), trace[i..j], key)
         <= limit * (CeilDiv(span, WholeSeconds(window)) + 1)
  {
    AllowedInSpan(AfterCalls(map[], trace[..i]), trace[i..j], key, limit, window, from, span);
  }

  /** Over one effective window, at most twice the limit. */
  lemma WindowBound(trace: seq<Call>, i: nat, j: nat, key: string, limit: nat, window: nat, from: Time)
    requires i <= j <= |trace|
    requires Uniform(trace[i..j], key, limit, window, from, from + WholeSeconds(window))
    ensures AllowedCalls(AfterCalls(map[], trace[..i]), trace[i..j], key) <= 2 * limit
  {
    var counts := AfterCalls(map[], trace[..i]);
    AllowedByWindows(counts, trace[i..j], key, limit, window, from, 1, from, from + WholeSeconds(window));
  }

  // ---- the counter is the number of hits --------------------------------------------------------

  function HitsOn(calls: seq<Call>, key: string): nat
    decreases |calls|
  {
    if calls == [] then 0 else HitsOn(calls[..|calls| - 1], key) + (if calls[|calls| - 1].key == key then 1 else 0)
  }

  lemma HitsSnoc(calls: seq<Call>, c: Call, key: string)
    ensures HitsOn(calls + [c], key) == HitsOn(calls, key) + (if c.key == key then 1 else 0)
  {
    assert (calls + [c])[..|calls|] == calls;
  }

  lemma {:induction false} AfterCallsSnoc(counts: Counts, calls: seq<Call>, c: Call)
    ensures AfterCalls(counts, calls + [c]) == AfterCall(AfterCalls(counts, calls), c)
    decreases |calls|
  {
    if calls == [] {
      assert [] + [c] == [c];
      assert [c][1..] == [];
    } else {
      assert (calls + [c])[1..] == calls[1..] + [c];
      AfterCallsSnoc(AfterCall(counts, calls[0]), calls[1..], c);
    }
  }

  /** `first` is the call that opened the window the counter of `key` stands for. */
  ghost predicate CountsSince(counts: Counts, calls: seq<Call>, key: string, first: nat)
  {
    && first < |calls| && calls[first].key == key && key in counts
    && counts[key].count == HitsOn(calls[first..], key)
    && counts[key].expires == calls[first].now + WholeSeconds(calls[first].window)
    && (forall i | first < i < |calls| && calls[i].key == key :: calls[i].now < counts[key].expires)
  }

  lemma CountsOneMore(counts: Counts, calls: seq<Call>, key: string, first: nat, c: Call)
    requires CountsSince(counts, calls, key, first) && (c.key == key ==> LiveCount(counts, key, c.now))
    ensures CountsSince(AfterCall(counts, c), calls + [c], key, first)
  {
    assert (calls + [c])[first..] == calls[first..] + [c];
    HitsSnoc(calls[first..], c, key);
  }

  /**
   * After any calls, a stored counter counts the hits from the one that opened its window on, denied
   * ones included, and expires one window after that hit: no later hit moves it.
   */
  lemma {:induction false} CounterCountsHits(calls: seq<Call>, key: string) returns (first: nat)
    requires key in AfterCalls(map[], calls)
    ensures CountsSince(AfterCalls(map[], calls), calls, key, first)
    decreases |calls|
  {
    var last := |calls| - 1;
    var front, c := calls[..last], calls[last];
    assert calls == front + [c];
    AfterCallsSnoc(map[], front, c);
    var before := AfterCalls(map[], front);
    if c.key == key && !LiveCount(before, key, c.now) {
      first := last;
      assert calls[last..] == [] + [c];
      HitsSnoc([], c, key);
    } else {
      first := CounterCountsHits(front, key);
      CountsOneMore(before, front, key, first, c);
    }
  }

  // ---- which hits are allowed ----------------------------------------------------------------------------

  /** All calls on `key` fall in the window that opens at `from`. */
  ghost predicate OneWindow(calls: seq<Call>, key: string, from: Time, window: nat)
  {
    forall i | 0 <= i < |calls| && calls[i].key == key ::
      from <= calls[i].now < from + WholeSeconds(window) && calls[i].window == window
  }

  /** In a window that the calls open, the stored count is the number of hits. */
  lemma {:induction false} WindowCounts(counts: Counts, calls: seq<Call>, key: string, from: Time, window: nat)
    requires !LiveCount(counts, key, from) && OneWindow(calls, key, from, window)
    requires forall i | 0 <= i < |calls| && calls[i].key == key && HitsOn(calls[..i], key) == 0 :: calls[i].now == from
    ensures var after := AfterCalls(counts, calls);
            if HitsOn(calls, key) == 0
            then (key in after <==> key in counts) && (key in counts ==> after[key] == counts[key])
            else key in after && after[key].count == HitsOn(calls, key) && after[key].expires == from + WholeSeconds(window)
    decreases |calls|
  {
    if calls == [] {
    } else {
      var last := |calls| - 1;
      var front, c := calls[..last], calls[last];
      assert calls == front + [c];
      forall i | 0 <= i < |front| && front[i].key == key && HitsOn(front[..i], key) == 0 ensures front[i].now == from {
        assert front[..i] == calls[..i];
      }
      WindowCounts(counts, front, key, from, window);
      AfterCallsSnoc(counts, front, c);
    }
  }

  /**
   * Of the hits of one window, exactly the first `limit` are allowed: hit number n is, if and only if
   * n is at most the limit of the call.
   */
  lemma FirstHitsAllowed(counts: Counts, calls: seq<Call>, key: string, from: Time, window: nat, i: nat)
    requires !LiveCount(counts, key, from) && OneWindow(calls, key, from, window)
    requires forall k | 0 <= k < |calls| && calls[k].key == key && HitsOn(calls[..k], key) == 0 :: calls[k].now == from
    requires i < |calls| && calls[i].key == key
    ensures Allowed(AfterCalls(counts, calls[..i]), calls[i]) <==> HitsOn(calls[..i + 1], key) <= calls[i].limit
  {
    var front := calls[..i];
    forall k | 0 <= k < |front| && front[k].key == key && HitsOn(front[..k], key) == 0 ensures front[k].now == from {
      assert front[..k] == calls[..k];
    }
    WindowCounts(counts, front, key, from, window);
    assert calls[..i + 1] == front + [calls[i]];
    HitsSnoc(front, calls[i], key);
  }

  // ---- the store ---------------------------------------------------------------------------------

  /** The counters of one key prefix; `runIncrExpire` is the only writer but for DEL. */
  class CounterStore {
    var counts: Counts

    constructor ()
      ensures counts == map[]
    {
      counts := map[];
    }

    /** The script is one atomic command; a lost answer still leaves its effect. */
    method IncrExpire(key: string, ttl: nat, now: Time, fault: Fault) returns (n: Option<nat>)
      modifies this
      ensures counts == if fault.Applied() then old(counts)[key := Hit(old(counts), key, ttl, now)] else old(counts)
      ensures n == if fault.NoFault? then Some(Hit(old(counts), key, ttl, now).count) else None
      ensures var open := key in old(counts) && now < old(counts)[key].expires;
              !fault.Refused? ==>
                && key in counts
                && counts[key].count == (if open then old(counts)[key].count + 1 else 1)
                && counts[key].expires == if open then old(counts)[key].expires
                                          else now + (if ttl < 2000 then 1000 else ttl / 1000 * 1000)
    {
      var secs := ttl / SECOND;
      if secs < 1 {
        secs := 1;
      }
      n := None;
      if fault.Applied() {
        var count: Positive := if key in counts && now < counts[key].expires then counts[key].count + 1 else 1;
        if count == 1 {
          counts := counts[key := Counter(count, now + secs * SECOND)];
        } else {
          counts := counts[key := counts[key].(count := count)];
        }
        n := if fault.NoFault? then Some(count) else None;
      }
    }

    /** DEL. */
    method Delete(key: string)
      modifies this
      ensures counts == old(counts) - {key}
    {
      counts := counts - {key};
    }
  }

  class RateLimiter {
    const store: CounterStore

    constructor ()
      ensures fresh(store) && store.counts == map[]
    {
      store := new CounterStore();
    }

    method Allow(key: string, limit: int, window: nat, now: Time, fault: Fault) returns (ok: Result<bool>)
      modifies store
      ensures store.counts == if fault.Applied() then AfterCall(old(store.counts), Call(key, limit, window, now))
                              else old(store.counts)
      ensures ok == if fault.NoFault? then Ok(Allowed(old(store.counts), Call(key, limit, window, now))) else Err(Internal)
      ensures ok == Ok(true) <==>
                (fault.NoFault?
                 && limit >= if key in old(store.counts) && now < old(store.counts)[key].expires
                             then old(store.counts)[key].count + 1 else 1)
    {
      var count := store.IncrExpire(key, window, now, fault);
      ok := if count.None? then Err(Internal) else Ok(count.value <= limit);
    }
  }
}
