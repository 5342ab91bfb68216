/** The in-memory limiter: one lazily refilled bucket per host, and how many calls it can let through. */
module RateLimit {

  datatype Bucket = Bucket(tokens: real, last: real)

  function Min(a: real, b: real): real {
    if a < b then a else b
  }

  function Refill(elapsed: real, rps: real): (r: real)
    ensures 0.0 <= elapsed && 0.0 <= rps ==> 0.0 <= r
  {
    elapsed * rps
  }

  /** The decision on one call, and the bucket after it: only an allowed call moves `last`. */
  function Decide(b: Bucket, now: real, rps: real, burst: real): (bool, Bucket) {
    var tokens := Min(burst, b.tokens + Refill(now - b.last, rps));
    if tokens < 1.0 then (false, b.(tokens := tokens)) else (true, Bucket(tokens - 1.0, now))
  }

  function BucketOf(buckets: map<string, Bucket>, host: string, now: real, burst: real): Bucket {
    if host in buckets then buckets[host] else Bucket(burst, now)
  }

  class Limiter {
    const rps: nat
    const burst: nat
    var buckets: map<string, Bucket>

    constructor (rps: nat, burst: nat)
      ensures this.rps == rps && this.burst == burst && buckets == map[]
    {
      this.rps, this.burst, buckets := rps, burst, map[];
    }

    /** Every other host's bucket stays as it was. */
    method Allow(host: string, now: real) returns (allowed: bool)
      modifies this
      ensures var (ok, b) := Decide(BucketOf(old(buckets), host, now, burst as real), now, rps as real, burst as real);
              allowed == ok && buckets == old(buckets)[host := b]
      ensures host !in old(buckets) ==>
                && (allowed <==> burst >= 1)
                && buckets == old(buckets)[host := Bucket(burst as real - if allowed then 1.0 else 0.0, now)]
      ensures host in old(buckets) ==>
                var b := old(buckets)[host];
                var raw := b.tokens + (now - b.last) * rps as real;
                var filled := if raw <= burst as real then raw else burst as real;
                && (allowed <==> filled >= 1.0)
                && buckets == old(buckets)[host := if allowed then Bucket(filled - 1.0, now)
                                                   else Bucket(filled, b.last)]
    {
      if host !in buckets {
        buckets := buckets[host := Bucket(burst as real, now)];
      }
      var b := buckets[host];
      var elapsed := now - b.last;
      assert elapsed == 0.0 ==> Refill(elapsed, rps as real) == 0.0;
      assert Refill(elapsed, rps as real) == (now - b.last) * rps as real;
      hide Refill;
      b := b.(tokens := Min(burst as real, b.tokens + Refill(elapsed, rps as real)));
      if b.tokens < 1.0 {
        buckets := buckets[host := b];
        return false;
      }
      buckets := buckets[host := Bucket(b.tokens - 1.0, now)];
      return true;
    }
  }

  // ----- All the calls of many hosts -----

  datatype Call = Call(host: string, at: real)

  /** The decisions on a list of calls and the buckets after them. */
  function Serve(
    buckets: map<string, Bucket>, calls: seq<Call>, rps: real, burst: real): (r: (seq<bool>, map<string, Bucket>))
    ensures |r.0| == |calls|
  {
    if calls == [] then ([], buckets)
    else
      var c := calls[|calls| - 1];
      var (decisions, buckets') := Serve(buckets, calls[..|calls| - 1], rps, burst);
      var (ok, b) := Decide(BucketOf(buckets', c.host, c.at, burst), c.at, rps, burst);
      (decisions + [ok], buckets'[c.host := b])
  }

  /** The times of one host's calls. */
  function TimesOf(calls: seq<Call>, host: string): seq<real> {
    if calls == [] then []
    else
      var c, front := calls[|calls| - 1], TimesOf(calls[..|calls| - 1], host);
      if c.host == host then front + [c.at] else front
  }

  function DecisionsOf(calls: seq<Call>, decisions: seq<bool>, host: string): seq<bool>
    requires |decisions| == |calls|
  {
    if calls == [] then []
    else
      var front := DecisionsOf(calls[..|calls| - 1], decisions[..|calls| - 1], host);
      if calls[|calls| - 1].host == host then front + [decisions[|calls| - 1]] else front
  }

  /** One host's calls on its own bucket. */
  function ServeOne(b: Bucket, times: seq<real>, rps: real, burst: real): (r: (seq<bool>, Bucket))
    ensures |r.0| == |times|
  {
    if times == [] then ([], b)
    else
      var (decisions, b') := ServeOne(b, times[..|times| - 1], rps, burst);
      var (ok, b'') := Decide(b', times[|times| - 1], rps, burst);
      (decisions + [ok], b'')
  }

  /** The bucket a host's first call finds. */
  function FirstBucket(times: seq<real>, burst: real): Bucket {
    Bucket(burst, if times == [] then 0.0 else times[0])
  }

  /** Hosts do not influence one another: each is served as if it were alone. */
  lemma {:induction false} HostsAreIndependent(calls: seq<Call>, host: string, rps: real, burst: real)
    ensures var (decisions, buckets) := Serve(map[], calls, rps, burst);
            var (alone, b) := ServeOne(FirstBucket(TimesOf(calls, host), burst), TimesOf(calls, host), rps, burst);
            && DecisionsOf(calls, decisions, host) == alone
            && (host in buckets <==> TimesOf(calls, host) != [])
            && (host in buckets ==> buckets[host] == b)
  {
    if calls != [] {
      var front, c := calls[..|calls| - 1], calls[|calls| - 1];
      HostsAreIndependent(front, host, rps, burst);
      var (decisions, _) := Serve(map[], calls, rps, burst);
      assert decisions[..|front|] == Serve(map[], front, rps, burst).0;
      if c.host == host {
        var times := TimesOf(front, host);
        assert TimesOf(calls, host)[..|times|] == times;
      }
    }
  }

  // ----- The bound for one host -----

  /** Calls in clock order, none before `last`. */
  predicate Ordered(last: real, times: seq<real>) {
    && (forall i :: 0 <= i < |times| ==> last <= times[i])
    && (forall i, j :: 0 <= i < j < |times| ==> times[i] <= times[j])
  }

  function Allowed(decisions: seq<bool>): nat {
    if decisions == [] then 0 else Allowed(decisions[..|decisions| - 1]) + if decisions[|decisions| - 1] then 1 else 0
  }

  /** The time of the last allowed call, or `last` if there was none. */
  function LastAllowed(last: real, times: seq<real>, decisions: seq<bool>): real
    requires |times| == |decisions|
  {
    if times == [] then last
    else if decisions[|times| - 1] then times[|times| - 1]
    else LastAllowed(last, times[..|times| - 1], decisions[..|times| - 1])
  }

  /** Summed over the rejected calls: the time since the last allowed call. */
  function RejectedWait(last: real, times: seq<real>, decisions: seq<bool>): real
    requires |times| == |decisions|
  {
    if times == [] then 0.0
    else
      var n := |times| - 1;
      RejectedWait(last, times[..n], decisions[..n])
      + if decisions[n] then 0.0 else times[n] - LastAllowed(last, times[..n], decisions[..n])
  }

  predicate WithinBurst(b: Bucket, burst: real) {
    0.0 <= b.tokens <= burst
  }

  /** A bucket never holds less than nothing or more than the burst, and a call is charged one token. */
  lemma DecideWithinBurst(b: Bucket, now: real, rps: real, burst: real)
    requires WithinBurst(b, burst) && b.last <= now && 0.0 <= rps
    ensures var (ok, b') := Decide(b, now, rps, burst);
            && WithinBurst(b', burst)
            && b'.tokens + (if ok then 1.0 else 0.0) <= b.tokens + Refill(now - b.last, rps)
            && b'.last == (if ok then now else b.last)
  {
    assert 0.0 <= Refill(now - b.last, rps);
  }

  /** What the cap at the burst cuts off the refill of one call. */
  function Spill(b: Bucket, now: real, rps: real, burst: real): (r: real)
    ensures r >= 0.0
  {
    var full := b.tokens + Refill(now - b.last, rps);
    if full > burst then full - burst else 0.0
  }

  function Spilled(b: Bucket, times: seq<real>, rps: real, burst: real): (r: real)
    ensures r >= 0.0
  {
    if times == [] then 0.0
    else
      var n := |times| - 1;
      Spilled(b, times[..n], rps, burst) + Spill(ServeOne(b, times[..n], rps, burst).1, times[n], rps, burst)
  }

  /**
   The exact account of one host: calls allowed, tokens left and refill spilled at the cap are the tokens found, the
   refill up to the last allowed call, and the refill handed out again at every rejected call, which starts from the
   last allowed call each time.
   */
  ghost predicate Balanced(b: Bucket, times: seq<real>, rps: real, burst: real) {
    var (decisions, b') := ServeOne(b, times, rps, burst);
    && b'.last == LastAllowed(b.last, times, decisions)
    && Allowed(decisions) as real + b'.tokens + Spilled(b, times, rps, burst)
       == b.tokens + Refill(b'.last - b.last + RejectedWait(b.last, times, decisions), rps)
  }

  lemma RefillAdds(x: real, y: real, rps: real)
    ensures Refill(x + y, rps) == Refill(x, rps) + Refill(y, rps)
  {
  }

  lemma {:induction false} ServedWithinBurst(b: Bucket, times: seq<real>, rps: real, burst: real)
    requires WithinBurst(b, burst) && 0.0 <= rps && Ordered(b.last, times)
    ensures var b' := ServeOne(b, times, rps, burst).1;
            && WithinBurst(b', burst)
            && b.last <= b'.last
            && b'.last <= (if times == [] then b.last else times[|times| - 1])
  {
    if times != [] {
      var n := |times| - 1;
      ServedWithinBurst(b, times[..n], rps, burst);
      DecideWithinBurst(ServeOne(b, times[..n], rps, burst).1, times[n], rps, burst);
    }
  }

  /** One decision, to the token. */
  lemma DecideBalances(b: Bucket, now: real, rps: real, burst: real)
    ensures var (ok, b') := Decide(b, now, rps, burst);
            && b'.tokens + (if ok then 1.0 else 0.0) + Spill(b, now, rps, burst) == b.tokens + Refill(now - b.last, rps)
            && b'.last == (if ok then now else b.last)
  {
  }

  lemma {:induction false} AccountBalances(b: Bucket, times: seq<real>, rps: real, burst: real)
    ensures Balanced(b, times, rps, burst)
  {
    if times == [] {
      assert Refill(0.0, rps) == 0.0;
    } else {
      var n := |times| - 1;
      AccountBalances(b, times[..n], rps, burst);
      BalanceOne(b, times[..n], times[n], rps, burst);
      assert times[..n] + [times[n]] == times;
    }
  }

  lemma BalanceOne(b: Bucket, times: seq<real>, now: real, rps: real, burst: real)
    requires Balanced(b, times, rps, burst)
    ensures Balanced(b, times + [now], rps, burst)
  {
    hide Refill, Decide, Spill;
    var n := |times|;
    assert (times + [now])[..n] == times;
    var (front, b1) := ServeOne(b, times, rps, burst);
    var (decisions, b2) := ServeOne(b, times + [now], rps, burst);
    assert decisions == front + [Decide(b1, now, rps, burst).0] && decisions[..n] == front;
    DecideBalances(b1, now, rps, burst);
    RefillAdds(b1.last - b.last + RejectedWait(b.last, times, front), now - b1.last, rps);
  }

  /** A stretch that follows an allowed call at `t`, with that call counted. */
  lemma AfterAllowed(b: Bucket, t: real, stretch: seq<real>, rps: real, burst: real)
    requires Decide(b, t, rps, burst).0
    ensures var b0 := Decide(b, t, rps, burst).1;
            var (decisions, b') := ServeOne(b0, stretch, rps, burst);
            1.0 + Allowed(decisions) as real + b'.tokens + Spilled(b0, stretch, rps, burst)
            == b0.tokens + 1.0 + Refill(LastAllowed(t, stretch, decisions) - t + RejectedWait(t, stretch, decisions),
              rps)
  {
    AccountBalances(Decide(b, t, rps, burst).1, stretch, rps, burst);
  }

  lemma {:induction false} ServeAppend(b: Bucket, first: seq<real>, second: seq<real>, rps: real, burst: real)
    ensures var (d1, b1) := ServeOne(b, first, rps, burst);
            var (d2, b2) := ServeOne(b1, second, rps, burst);
            ServeOne(b, first + second, rps, burst) == (d1 + d2, b2)
  {
    if second == [] {
      assert first + second == first;
      var d1 := ServeOne(b, first, rps, burst).0;
      assert d1 + [] == d1;
    } else {
      var front := second[..|second| - 1];
      assert (first + second)[..|first + second| - 1] == first + front;
      ServeAppend(b, first, front, rps, burst);
      assert (first + second)[|first + second| - 1] == second[|second| - 1];
      var (d1, b1) := ServeOne(b, first, rps, burst);
      var (d2, b2) := ServeOne(b1, front, rps, burst);
      var ok := Decide(b2, second[|second| - 1], rps, burst).0;
      assert d1 + d2 + [ok] == d1 + (d2 + [ok]);
    }
  }

  lemma ServePrefix(b: Bucket, times: seq<real>, n: nat, rps: real, burst: real)
    requires n <= |times|
    ensures var (decisions, b1) := ServeOne(b, times[..n], rps, burst);
            && ServeOne(b, times, rps, burst).0[..n] == decisions
            && ServeOne(b, times, rps, burst).0[n..] == ServeOne(b1, times[n..], rps, burst).0
  {
    assert times == times[..n] + times[n..];
    ServeAppend(b, times[..n], times[n..], rps, burst);
  }

  /** The part of one host's run between two calls, as a run of its own. */
  lemma ServeWindow(b: Bucket, times: seq<real>, i: nat, j: nat, rps: real, burst: real)
    requires i <= j < |times|
    ensures var decisions := ServeOne(b, times, rps, burst).0;
            var b1 := ServeOne(b, times[..i], rps, burst).1;
            && decisions[i] == Decide(b1, times[i], rps, burst).0
            && decisions[i + 1..j + 1]
               == ServeOne(Decide(b1, times[i], rps, burst).1, times[i + 1..j + 1], rps, burst).0
  {
    var decisions := ServeOne(b, times, rps, burst).0;
    var b1 := ServeOne(b, times[..i + 1], rps, burst).1;
    assert times[..i + 1][..i] == times[..i];
    ServePrefix(b, times, i + 1, rps, burst);
    assert decisions[i] == decisions[..i + 1][i];
    ServePrefix(b1, times[i + 1..], j - i, rps, burst);
    assert times[i + 1..][..j - i] == times[i + 1..j + 1];
    assert decisions[i + 1..][..j - i] == decisions[i + 1..j + 1];
  }

  lemma {:induction false} AllowedCons(decisions: seq<bool>)
    requires decisions != []
    ensures Allowed(decisions) == (if decisions[0] then 1 else 0) + Allowed(decisions[1..])
  {
    if |decisions| > 1 {
      var n := |decisions| - 1;
      AllowedCons(decisions[..n]);
      assert decisions[..n][1..] == decisions[1..][..n - 1];
    }
  }

  /** The wait of the rejected calls strictly between two calls of a host. */
  function WaitBetween(times: seq<real>, decisions: seq<bool>, i: nat, j: nat): real
    requires i <= j < |times| == |decisions|
  {
    RejectedWait(times[i], times[i + 1..j + 1], decisions[i + 1..j + 1])
  }

  /** The tokens that the allowed call at `i` found, those the call at `j` left, and what the cap cut off between. */
  datatype Cover = Cover(found: real, left: real, spilled: real)

  function CoverOf(b: Bucket, times: seq<real>, i: nat, j: nat, rps: real, burst: real): Cover
    requires i <= j < |times|
  {
    var b0 := Decide(ServeOne(b, times[..i], rps, burst).1, times[i], rps, burst).1;
    var stretch := times[i + 1..j + 1];
    Cover(b0.tokens + 1.0, ServeOne(b0, stretch, rps, burst).1.tokens, Spilled(b0, stretch, rps, burst))
  }

  lemma LastAllowedIsLast(times: seq<real>, decisions: seq<bool>, i: nat, j: nat)
    requires i <= j < |times| == |decisions| && decisions[j]
    ensures LastAllowed(times[i], times[i + 1..j + 1], decisions[i + 1..j + 1]) == times[j]
  {
  }

  /** Calls allowed, tokens left and refill spilled are the tokens found and the refills. */
  predicate Accounted(times: seq<real>, decisions: seq<bool>, i: nat, j: nat, c: Cover, rps: real)
    requires i <= j < |times| == |decisions|
  {
    Allowed(decisions[i..j + 1]) as real + c.left + c.spilled
    == c.found + Refill(times[j] - times[i] + WaitBetween(times, decisions, i, j), rps)
  }

  lemma AccountOfWindow(times: seq<real>, decisions: seq<bool>, i: nat, j: nat, c: Cover, rps: real)
    requires i <= j < |times| == |decisions| && decisions[i] && decisions[j]
    requires var t, stretch, tail := times[i], times[i + 1..j + 1], decisions[i + 1..j + 1];
             1.0 + Allowed(tail) as real + c.left + c.spilled
             == c.found + Refill(LastAllowed(t, stretch, tail) - t + RejectedWait(t, stretch, tail), rps)
    ensures Accounted(times, decisions, i, j, c, rps)
  {
    LastAllowedIsLast(times, decisions, i, j);
    assert decisions[i..j + 1][1..] == decisions[i + 1..j + 1];
    AllowedCons(decisions[i..j + 1]);
  }

  lemma StretchAccount(b1: Bucket, t: real, stretch: seq<real>, tail: seq<bool>, c: Cover, rps: real, burst: real)
    requires Decide(b1, t, rps, burst).0
    requires var b0 := Decide(b1, t, rps, burst).1;
             && tail == ServeOne(b0, stretch, rps, burst).0
             && c == Cover(b0.tokens + 1.0, ServeOne(b0, stretch, rps, burst).1.tokens,
                Spilled(b0, stretch, rps, burst))
    ensures 1.0 + Allowed(tail) as real + c.left + c.spilled
            == c.found + Refill(LastAllowed(t, stretch, tail) - t + RejectedWait(t, stretch, tail), rps)
  {
    hide Refill, Decide, Spilled, RejectedWait, LastAllowed, ServeOne, Allowed;
    AfterAllowed(b1, t, stretch, rps, burst);
  }

  /** The cover of a window is that of the stretch after its first call. */
  lemma CoverOfStretch(b: Bucket, times: seq<real>, i: nat, j: nat, rps: real, burst: real)
    requires i <= j < |times|
    ensures var b0 := Decide(ServeOne(b, times[..i], rps, burst).1, times[i], rps, burst).1;
            var stretch := times[i + 1..j + 1];
            CoverOf(b, times, i, j, rps, burst)
            == Cover(b0.tokens + 1.0, ServeOne(b0, stretch, rps, burst).1.tokens, Spilled(b0, stretch, rps, burst))
  {
  }

  /** The exact account between two allowed calls of one host, whatever the bucket it started from. */
  lemma WindowAccount(b: Bucket, times: seq<real>, i: nat, j: nat, rps: real, burst: real)
    requires i <= j < |times|
    requires var decisions := ServeOne(b, times, rps, burst).0; decisions[i] && decisions[j]
    ensures Accounted(times, ServeOne(b, times, rps, burst).0, i, j, CoverOf(b, times, i, j, rps, burst), rps)
  {
    hide *;
    var decisions, c := ServeOne(b, times, rps, burst).0, CoverOf(b, times, i, j, rps, burst);
    var b1, t := ServeOne(b, times[..i], rps, burst).1, times[i];
    ServeWindow(b, times, i, j, rps, burst);
    CoverOfStretch(b, times, i, j, rps, burst);
    StretchAccount(b1, t, times[i + 1..j + 1], decisions[i + 1..j + 1], c, rps, burst);
    AccountOfWindow(times, decisions, i, j, c, rps);
  }

  lemma SliceOrdered(last: real, times: seq<real>, i: nat, j: nat)
    requires Ordered(last, times) && i <= j <= |times|
    ensures Ordered(if i == 0 then last else times[i - 1], times[i..j])
  {
  }

  /** With the clock in order no call finds more than the burst and none leaves less than nothing. */
  lemma CoverWithinBurst(b: Bucket, times: seq<real>, i: nat, j: nat, rps: real, burst: real)
    requires WithinBurst(b, burst) && 0.0 <= rps && Ordered(b.last, times) && i <= j < |times|
    requires ServeOne(b, times, rps, burst).0[i]
    ensures var c := CoverOf(b, times, i, j, rps, burst);
            1.0 <= c.found <= burst && 0.0 <= c.left && 0.0 <= c.spilled
  {
    var b1 := ServeOne(b, times[..i], rps, burst).1;
    ServeWindow(b, times, i, j, rps, burst);
    SliceOrdered(b.last, times, 0, i);
    ServedWithinBurst(b, times[..i], rps, burst);
    DecideWithinBurst(b1, times[i], rps, burst);
    FoundWithinBurst(b1, times[i], rps, burst);
    SliceOrdered(b.last, times, i + 1, j + 1);
    ServedWithinBurst(Decide(b1, times[i], rps, burst).1, times[i + 1..j + 1], rps, burst);
  }

  lemma FoundWithinBurst(b: Bucket, now: real, rps: real, burst: real)
    requires Decide(b, now, rps, burst).0
    ensures 0.0 <= Decide(b, now, rps, burst).1.tokens <= burst - 1.0
  {
  }

  /** What a host was allowed between two allowed calls, against the burst and the refills. */
  predicate WithinBound(times: seq<real>, decisions: seq<bool>, i: nat, j: nat, rps: real, burst: real)
    requires i <= j < |times| == |decisions|
  {
    Allowed(decisions[i..j + 1]) as real
    <= burst + Refill(times[j] - times[i] + WaitBetween(times, decisions, i, j), rps)
  }

  /** The same without the waits of the rejected calls. */
  predicate WithinTextbook(times: seq<real>, decisions: seq<bool>, i: nat, j: nat, rps: real, burst: real)
    requires i <= j < |times| == |decisions|
  {
    Allowed(decisions[i..j + 1]) as real <= burst + Refill(times[j] - times[i], rps)
  }

  /** One host, any starting bucket: the bound between two allowed calls. */
  lemma WindowBound(b: Bucket, times: seq<real>, i: nat, j: nat, rps: real, burst: real)
    requires WithinBurst(b, burst) && 0.0 <= rps && Ordered(b.last, times) && i <= j < |times|
    requires var decisions := ServeOne(b, times, rps, burst).0; decisions[i] && decisions[j]
    ensures WithinBound(times, ServeOne(b, times, rps, burst).0, i, j, rps, burst)
  {
    hide Refill, WaitBetween, CoverOf, ServeOne;
    WindowAccount(b, times, i, j, rps, burst);
    CoverWithinBurst(b, times, i, j, rps, burst);
  }

  /** Between two allowed calls, the textbook bound holds exactly when what the waits added is covered. */
  lemma WindowTextbookIff(b: Bucket, times: seq<real>, i: nat, j: nat, rps: real, burst: real)
    requires i <= j < |times|
    requires var decisions := ServeOne(b, times, rps, burst).0; decisions[i] && decisions[j]
    ensures var decisions, c := ServeOne(b, times, rps, burst).0, CoverOf(b, times, i, j, rps, burst);
            WithinTextbook(times, decisions, i, j, rps, burst)
            <==> Refill(WaitBetween(times, decisions, i, j), rps) <= burst - c.found + c.left + c.spilled
  {
    var decisions := ServeOne(b, times, rps, burst).0;
    hide Refill, WaitBetween, CoverOf, ServeOne;
    WindowAccount(b, times, i, j, rps, burst);
    RefillAdds(times[j] - times[i], WaitBetween(times, decisions, i, j), rps);
  }

  // ----- The bound for the limiter -----

  predicate ClockOrdered(calls: seq<Call>) {
    forall i, j :: 0 <= i < j < |calls| ==> calls[i].at <= calls[j].at
  }

  lemma {:induction false} TimesAreOrdered(calls: seq<Call>, host: string)
    requires ClockOrdered(calls)
    ensures var times := TimesOf(calls, host);
            && (times != [] ==> Ordered(times[0], times))
            && (forall i :: 0 <= i < |times| ==> times[i] <= calls[|calls| - 1].at)
  {
    if calls != [] {
      TimesAreOrdered(calls[..|calls| - 1], host);
    }
  }

  /**
   Every run of calls in clock order, whatever hosts make them: between two allowed calls of a host, the calls it was
   allowed are at most the burst, plus the refill for the time between, plus the refill for the waits of the rejected.
   */
  lemma LimiterBound(calls: seq<Call>, host: string, i: nat, j: nat, rps: real, burst: real)
    requires ClockOrdered(calls) && 0.0 <= rps && 0.0 <= burst
    requires i <= j < |TimesOf(calls, host)|
    ensures var times := TimesOf(calls, host);
            var decisions := DecisionsOf(calls, Serve(map[], calls, rps, burst).0, host);
            && |decisions| == |times|
            && (decisions[i] && decisions[j] ==> WithinBound(times, decisions, i, j, rps, burst))
  {
    var times := TimesOf(calls, host);
    HostsAreIndependent(calls, host, rps, burst);
    TimesAreOrdered(calls, host);
    var alone := ServeOne(FirstBucket(times, burst), times, rps, burst).0;
    if alone[i] && alone[j] {
      WindowBound(FirstBucket(times, burst), times, i, j, rps, burst);
    }
  }

  /** Whatever the hosts do, every bucket holds between nothing and the burst. */
  lemma BucketsStayWithinBurst(calls: seq<Call>, host: string, rps: real, burst: real)
    requires ClockOrdered(calls) && 0.0 <= rps && 0.0 <= burst
    ensures var buckets := Serve(map[], calls, rps, burst).1;
            host in buckets ==> WithinBurst(buckets[host], burst)
  {
    var times := TimesOf(calls, host);
    HostsAreIndependent(calls, host, rps, burst);
    TimesAreOrdered(calls, host);
    if times != [] {
      ServedWithinBurst(FirstBucket(times, burst), times, rps, burst);
    }
  }

  /** With no rejection between two allowed calls, or no time between them, the rejected calls add nothing. */
  lemma {:induction false} NoRejectionNoWait(last: real, times: seq<real>, decisions: seq<bool>)
    requires |times| == |decisions|
    requires forall i :: 0 <= i < |times| ==> decisions[i] || times[i] == last
    requires Ordered(last, times)
    ensures RejectedWait(last, times, decisions) == 0.0
    ensures times != [] && times[|times| - 1] == last ==> LastAllowed(last, times, decisions) == last
  {
    if times != [] {
      var n := |times| - 1;
      NoRejectionNoWait(last, times[..n], decisions[..n]);
      if !decisions[n] {
        assert times[n] == last;
        assert forall k :: 0 <= k < n ==> times[k] == last;
      }
    }
  }

  lemma NoWaitBetween(times: seq<real>, decisions: seq<bool>, i: nat, j: nat)
    requires i <= j < |times| == |decisions| && decisions[j] && Ordered(times[i], times[i + 1..j + 1])
    requires forall k :: i < k < j ==> decisions[k] || times[k] == times[i]
    ensures WaitBetween(times, decisions, i, j) == 0.0
  {
    NoRejectionNoWait(times[i], times[i + 1..j + 1], decisions[i + 1..j + 1]);
  }

  /**
   The textbook bound holds wherever no call was rejected after the window's first instant; within one instant it is
   the burst itself.
   */
  lemma UninterruptedBound(calls: seq<Call>, host: string, i: nat, j: nat, rps: real, burst: real)
    requires ClockOrdered(calls) && 0.0 <= rps && 0.0 <= burst
    requires i <= j < |TimesOf(calls, host)|
    ensures var times := TimesOf(calls, host);
            var decisions := DecisionsOf(calls, Serve(map[], calls, rps, burst).0, host);
            && |decisions| == |times|
            && (decisions[i] && decisions[j] && (forall k :: i < k < j ==> decisions[k] || times[k] == times[i]) ==>
                  && Allowed(decisions[i..j + 1]) as real <= burst + Refill(times[j] - times[i], rps)
                  && (times[i] == times[j] ==> Allowed(decisions[i..j + 1]) as real <= burst))
  {
    LimiterBound(calls, host, i, j, rps, burst);
    var times := TimesOf(calls, host);
    var decisions := DecisionsOf(calls, Serve(map[], calls, rps, burst).0, host);
    if decisions[i] && decisions[j] && (forall k :: i < k < j ==> decisions[k] || times[k] == times[i]) {
      TimesAreOrdered(calls, host);
      SliceOrdered(times[0], times, i + 1, j + 1);
      NoWaitBetween(times, decisions, i, j);
      assert Refill(0.0, rps) == 0.0;
    }
  }

  // ----- Where the textbook bound holds -----

  predicate TextbookBetween(calls: seq<Call>, host: string, i: nat, j: nat, rps: real, burst: real) {
    var times := TimesOf(calls, host);
    var decisions := DecisionsOf(calls, Serve(map[], calls, rps, burst).0, host);
    i <= j < |times| == |decisions| && decisions[i] && decisions[j] ==>
      WithinTextbook(times, decisions, i, j, rps, burst)
  }

  /** In every run, between any two allowed calls of a host, at most the burst plus the refill of the time between. */
  ghost predicate TextbookBound(rps: real, burst: real) {
    forall calls: seq<Call>, host: string, i: nat, j: nat :: ClockOrdered(calls) ==>
      TextbookBetween(calls, host, i, j, rps, burst)
  }

  /** The textbook bound holds exactly for the limiters that refill nothing or allow nothing. */
  lemma TextbookBoundIff(rps: nat, burst: nat)
    ensures TextbookBound(rps as real, burst as real) <==> rps == 0 || burst == 0
  {
    var r, n := rps as real, burst as real;
    if rps == 0 || burst == 0 {
      forall calls: seq<Call>, host: string, i: nat, j: nat | ClockOrdered(calls)
        ensures TextbookBetween(calls, host, i, j, r, n)
      {
        NoRefillOrNoBurst(calls, host, i, j, r, n);
      }
    } else {
      RejectionBeatsTheTextbookBound(rps, burst);
    }
  }

  lemma NothingAllowed(b: Bucket, times: seq<real>, i: nat, rps: real)
    requires i < |times|
    ensures !ServeOne(b, times, rps, 0.0).0[i]
  {
    ServeWindow(b, times, i, i, rps, 0.0);
  }

  lemma NoRefillOrNoBurst(calls: seq<Call>, host: string, i: nat, j: nat, rps: real, burst: real)
    requires ClockOrdered(calls) && 0.0 <= rps && 0.0 <= burst && (rps == 0.0 || burst == 0.0)
    ensures TextbookBetween(calls, host, i, j, rps, burst)
  {
    var times := TimesOf(calls, host);
    if i <= j < |times| {
      LimiterBound(calls, host, i, j, rps, burst);
      if burst == 0.0 {
        HostsAreIndependent(calls, host, rps, burst);
        NothingAllowed(FirstBucket(times, burst), times, i, rps);
      }
    }
  }

  lemma ServeSingle(b: Bucket, t: real, rps: real, burst: real)
    ensures ServeOne(b, [t], rps, burst) == ([Decide(b, t, rps, burst).0], Decide(b, t, rps, burst).1)
  {
    assert [t][..0] == [];
    assert ServeOne(b, [], rps, burst) == ([], b);
    assert [] + [Decide(b, t, rps, burst).0] == [Decide(b, t, rps, burst).0];
  }

  /** `n` calls at once. */
  function AtOnce(n: nat): seq<real> {
    seq(n, _ => 0.0)
  }

  function Trues(n: nat): seq<bool> {
    seq(n, _ => true)
  }

  lemma {:induction false} BurstAtOnce(n: nat, rps: real, burst: real)
    requires n as real <= burst
    ensures ServeOne(Bucket(burst, 0.0), AtOnce(n), rps, burst) == (Trues(n), Bucket(burst - n as real, 0.0))
  {
    if n == 0 {
      assert AtOnce(0) == [] && Trues(0) == [];
    } else {
      BurstAtOnce(n - 1, rps, burst);
      assert AtOnce(n)[..n - 1] == AtOnce(n - 1);
      assert Refill(0.0 - 0.0, rps) == 0.0;
      assert Decide(Bucket(burst - (n - 1) as real, 0.0), 0.0, rps, burst) == (true, Bucket(burst - n as real, 0.0));
      assert Trues(n) == Trues(n - 1) + [true];
    }
  }

  /** The time in which half a token is refilled. */
  function HalfToken(rps: nat): (d: real)
    requires rps > 0
    ensures d > 0.0
  {
    1.0 / (2.0 * rps as real)
  }

  lemma HalfTokenRefills(rps: nat)
    requires rps > 0
    ensures Refill(HalfToken(rps), rps as real) == 0.5
  {
  }

  /** Two calls half a token after the burst: the first is rejected, and yet its refill lets the second pass. */
  lemma TwoHalves(rps: nat, burst: nat)
    requires rps > 0 && burst > 0
    ensures var d := HalfToken(rps);
            ServeOne(Bucket(0.0, 0.0), [d, d], rps as real, burst as real).0 == [false, true]
  {
    var d, r, n := HalfToken(rps), rps as real, burst as real;
    HalfTokenRefills(rps);
    assert Decide(Bucket(0.0, 0.0), d, r, n) == (false, Bucket(0.5, 0.0));
    assert Decide(Bucket(0.5, 0.0), d, r, n).0;
    hide Decide, Refill, HalfToken;
    ServeSingle(Bucket(0.0, 0.0), d, r, n);
    ServeSingle(Bucket(0.5, 0.0), d, r, n);
    ServeAppend(Bucket(0.0, 0.0), [d], [d], r, n);
    assert [d] + [d] == [d, d] && [false] + [true] == [false, true];
  }

  function OneHost(times: seq<real>): seq<Call> {
    seq(|times|, i requires 0 <= i < |times| => Call("", times[i]))
  }

  lemma {:induction false} OneHostsTimes(times: seq<real>)
    ensures TimesOf(OneHost(times), "") == times
  {
    if times != [] {
      var n := |times| - 1;
      OneHostsTimes(times[..n]);
      assert OneHost(times)[..n] == OneHost(times[..n]);
    }
  }

  lemma {:induction false} AllowedTrues(n: nat)
    ensures Allowed(Trues(n)) == n
  {
    if n > 0 {
      AllowedTrues(n - 1);
      assert Trues(n)[..n - 1] == Trues(n - 1);
    }
  }

  function Breaking(rps: nat, burst: nat): seq<real>
    requires rps > 0
  {
    AtOnce(burst) + [HalfToken(rps), HalfToken(rps)]
  }

  lemma BreakingDecisions(rps: nat, burst: nat)
    requires rps > 0 && burst > 0
    ensures ServeOne(Bucket(burst as real, 0.0), Breaking(rps, burst), rps as real, burst as real).0
            == Trues(burst) + [false, true]
    ensures Allowed(Trues(burst) + [false, true]) == burst + 1
  {
    var d := HalfToken(rps);
    BurstAtOnce(burst, rps as real, burst as real);
    TwoHalves(rps, burst);
    ServeAppend(Bucket(burst as real, 0.0), AtOnce(burst), [d, d], rps as real, burst as real);
    AllowedTrues(burst);
    assert (Trues(burst) + [false, true])[..burst + 1] == Trues(burst) + [false];
    assert (Trues(burst) + [false])[..burst] == Trues(burst);
  }

  /**
   A rejected call breaks the textbook bound, at every rate and burst: after the whole burst at once, two calls at the
   time of half a token are rejected and allowed, one more than the burst and half a token make.
   */
  lemma RejectionBeatsTheTextbookBound(rps: nat, burst: nat)
    requires rps > 0 && burst > 0
    ensures ClockOrdered(OneHost(Breaking(rps, burst)))
    ensures !TextbookBetween(OneHost(Breaking(rps, burst)), "", 0, burst + 1, rps as real, burst as real)
  {
    var times, r, n := Breaking(rps, burst), rps as real, burst as real;
    var calls := OneHost(times);
    OneHostsTimes(times);
    HostsAreIndependent(calls, "", r, n);
    assert FirstBucket(times, n) == Bucket(n, 0.0);
    BreakingDecisions(rps, burst);
    var decisions := DecisionsOf(calls, Serve(map[], calls, r, n).0, "");
    assert decisions == Trues(burst) + [false, true];
    assert decisions[0..burst + 2] == decisions;
    HalfTokenRefills(rps);
  }
}
