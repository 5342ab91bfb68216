/** The sliding-window script: a sorted set of seconds with an expiry, against the full history of admissions. */
module SlidingWindow {
  import opened Collections

  /** A stored sorted set whose members are their own scores, and when Redis drops it. */
  datatype Window = Window(seconds: set<int>, expireAt: real)

  const EMPTY: Window := Window({}, 0.0)

  /** What the script returns: whether to admit, and how many calls it reports as left. */
  datatype Reply = Reply(admit: bool, left: int)

  /** The members still there at time `t`. */
  function LiveAt(w: Window, t: real): set<int> {
    if t < w.expireAt then w.seconds else {}
  }

  /** What remains of a set after ZREMRANGEBYSCORE from 0 to `now - window`. */
  function Trim(s: set<int>, window: nat, now: int): set<int> {
    set x | x in s && !(0 <= x <= now - window)
  }

  /** One run of the script at time `t`, whose whole seconds are what the script is given. */
  function Script(w: Window, window: nat, limit: nat, t: real): (Reply, Window) {
    var kept := Trim(LiveAt(w, t), window, t.Floor);
    if |kept| < limit
    then (Reply(true, limit - |kept| - 1), Window(kept + {t.Floor}, t + window as real))
    else (Reply(false, 0), Window(kept, w.expireAt))
  }

  function Lookup(keys: map<string, Window>, key: string): Window {
    if key in keys then keys[key] else EMPTY
  }

  /** An absent key and an empty set cannot be told apart, whatever their expiry. */
  predicate Alike(v: Window, w: Window) {
    v.seconds == w.seconds && (v.seconds != {} ==> v.expireAt == w.expireAt)
  }

  class Redis {
    var keys: map<string, Window>

    constructor ()
      ensures keys == map[]
    {
      keys := map[];
    }

    method Eval(key: string, window: nat, limit: nat, t: real) returns (reply: Reply)
      modifies this
      ensures var (r, w) := Script(Lookup(old(keys), key), window, limit, t);
              reply == r && Alike(Lookup(keys, key), w)
      ensures keys - {key} == old(keys) - {key}
      ensures var w := if key in old(keys) then old(keys)[key] else Window({}, 0.0);
              var kept := set x | x in w.seconds && t < w.expireAt && !(0 <= x <= t.Floor - window);
              && (reply.admit <==> |kept| < limit)
              && reply.left == (if reply.admit then limit - |kept| - 1 else 0)
              && (if reply.admit then key in keys && keys[key] == Window(kept + {t.Floor}, t + window as real)
                  else Lookup(keys, key).seconds == kept)
    {
      var now := t.Floor;
      if key in keys && keys[key].expireAt <= t {
        keys := keys - {key};
      }
      if key in keys {
        keys := keys[key := keys[key].(seconds := Trim(keys[key].seconds, window, now))];
      }
      var stored := if key in keys then keys[key].seconds else {};
      ghost var w := Lookup(old(keys), key);
      assert stored == set x | x in w.seconds && t < w.expireAt && !(0 <= x <= now - window);
      var current := |stored|;
      if current < limit {
        keys := keys[key := Window(stored + {now}, t + window as real)];
        return Reply(true, limit - current - 1);
      }
      return Reply(false, 0);
    }
  }

  /** The script cannot tell alike windows apart either, now or later. */
  lemma AlikeServesAlike(v: Window, w: Window, window: nat, limit: nat, t: real)
    requires Alike(v, w)
    ensures Script(v, window, limit, t).0 == Script(w, window, limit, t).0
    ensures Alike(Script(v, window, limit, t).1, Script(w, window, limit, t).1)
  {
    assert LiveAt(v, t) == LiveAt(w, t);
  }

  // ----- The full history -----

  /** The members of `s` in the half-open interval (from, to]. */
  function Within(s: set<int>, from: int, to: int): set<int> {
    set x | x in s && from < x <= to
  }

  /** Never forgets: a call is admitted if fewer than `limit` distinct admitted seconds lie in its window. */
  function Remember(admitted: set<int>, window: nat, limit: nat, t: real): (Reply, set<int>) {
    var recent := Within(admitted, t.Floor - window, t.Floor);
    if |recent| < limit
    then (Reply(true, limit - |recent| - 1), admitted + {t.Floor})
    else (Reply(false, 0), admitted)
  }

  function ScriptRun(times: seq<real>, window: nat, limit: nat): (r: (seq<Reply>, Window))
    ensures |r.0| == |times|
  {
    if times == [] then ([], EMPTY)
    else
      var (replies, w) := ScriptRun(times[..|times| - 1], window, limit);
      var (reply, w') := Script(w, window, limit, times[|times| - 1]);
      (replies + [reply], w')
  }

  function HistoryRun(times: seq<real>, window: nat, limit: nat): (r: (seq<Reply>, set<int>))
    ensures |r.0| == |times|
  {
    if times == [] then ([], {})
    else
      var (replies, admitted) := HistoryRun(times[..|times| - 1], window, limit);
      var (reply, admitted') := Remember(admitted, window, limit, times[|times| - 1]);
      (replies + [reply], admitted')
  }

  /** A clock that starts at the epoch and never goes back. */
  predicate Clock(times: seq<real>) {
    && (forall i :: 0 <= i < |times| ==> 0.0 <= times[i])
    && (forall i, j :: 0 <= i < j < |times| ==> times[i] <= times[j])
  }

  /** The stored set holds what a call at `last` or later can still need of the history. */
  ghost predicate Faithful(w: Window, admitted: set<int>, window: nat, last: real) {
    && (forall x :: x in admitted ==> 0 <= x <= last.Floor)
    && w.seconds <= admitted
    && (forall x :: x in admitted && last.Floor - window < x ==> x in w.seconds)
    && (forall x :: x in admitted ==> (x + window) as real <= w.expireAt)
  }

  lemma TrimIsWithin(w: Window, admitted: set<int>, window: nat, last: real, t: real)
    requires Faithful(w, admitted, window, last) && last <= t
    ensures Trim(LiveAt(w, t), window, t.Floor) == Within(admitted, t.Floor - window, t.Floor)
  {
    forall x
      ensures x in Trim(LiveAt(w, t), window, t.Floor) <==> x in Within(admitted, t.Floor - window, t.Floor)
    {
      if x in admitted && w.expireAt <= t {
        assert (x + window) as real <= t;
      }
    }
  }

  lemma StepStaysFaithful(w: Window, admitted: set<int>, window: nat, limit: nat, last: real, t: real)
    requires Faithful(w, admitted, window, last) && 0.0 <= last <= t
    ensures Script(w, window, limit, t).0 == Remember(admitted, window, limit, t).0
    ensures Faithful(Script(w, window, limit, t).1, Remember(admitted, window, limit, t).1, window, t)
  {
    TrimIsWithin(w, admitted, window, last, t);
    assert last.Floor <= t.Floor;
  }

  function Last(times: seq<real>): real {
    if times == [] then 0.0 else times[|times| - 1]
  }

  lemma {:induction false} RunStaysFaithful(times: seq<real>, window: nat, limit: nat)
    requires Clock(times)
    ensures ScriptRun(times, window, limit).0 == HistoryRun(times, window, limit).0
    ensures Faithful(ScriptRun(times, window, limit).1, HistoryRun(times, window, limit).1, window, Last(times))
  {
    if times != [] {
      var front, t := times[..|times| - 1], times[|times| - 1];
      RunStaysFaithful(front, window, limit);
      StepStaysFaithful(ScriptRun(front, window, limit).1, HistoryRun(front, window, limit).1, window, limit,
        Last(front), t);
    }
  }

  /**
   Trimming and expiry never change a decision: in every run of a shared clock the script answers as one that keeps
   the whole history, and what it stores at the end is, trimmed to any later time, that history's own window.
   */
  lemma ScriptRefinesHistory(times: seq<real>, window: nat, limit: nat, t: real)
    requires Clock(times) && Last(times) <= t
    ensures ScriptRun(times, window, limit).0 == HistoryRun(times, window, limit).0
    ensures Trim(LiveAt(ScriptRun(times, window, limit).1, t), window, t.Floor)
            == Within(HistoryRun(times, window, limit).1, t.Floor - window, t.Floor)
  {
    RunStaysFaithful(times, window, limit);
    TrimIsWithin(ScriptRun(times, window, limit).1, HistoryRun(times, window, limit).1, window, Last(times), t);
  }

  // ----- What a window can hold -----

  /** The seconds in which a run admitted a call. */
  function AdmittedSeconds(times: seq<real>, replies: seq<Reply>): set<int>
    requires |times| == |replies|
  {
    set i | 0 <= i < |times| && replies[i].admit :: times[i].Floor
  }

  lemma {:induction false} HistoryIsAdmitted(times: seq<real>, window: nat, limit: nat)
    ensures HistoryRun(times, window, limit).1 == AdmittedSeconds(times, HistoryRun(times, window, limit).0)
  {
    if times != [] {
      var n := |times| - 1;
      HistoryIsAdmitted(times[..n], window, limit);
      var (replies, admitted) := HistoryRun(times, window, limit);
      var (front, before) := HistoryRun(times[..n], window, limit);
      assert replies[..n] == front;
      forall x
        ensures x in admitted <==> x in AdmittedSeconds(times, replies)
      {
        if x in before {
          var i :| 0 <= i < n && front[i].admit && times[..n][i].Floor == x;
          assert replies[i].admit && times[i].Floor == x;
        }
        if x in AdmittedSeconds(times, replies) {
          var i :| 0 <= i <= n && replies[i].admit && times[i].Floor == x;
          if i < n {
            assert front[i].admit && times[..n][i].Floor == x;
          }
        }
        if replies[n].admit {
          assert times[n].Floor in AdmittedSeconds(times, replies);
        }
      }
    }
  }

  /** One more call keeps every interval one window long within the limit. */
  lemma RememberKeepsBound(before: set<int>, window: nat, limit: nat, t: real, from: int)
    requires |Within(before, from, from + window)| <= limit && forall x :: x in before ==> x <= t.Floor
    ensures var after := Remember(before, window, limit, t).1;
            |Within(after, from, from + window)| <= limit && forall x :: x in after ==> x <= t.Floor
  {
    var after, now := Remember(before, window, limit, t).1, t.Floor;
    if now in before {
      assert after == before;
    } else if after != before && from < now <= from + window {
      var recent := Within(before, now - window, now);
      assert |recent| < limit;
      assert Within(after, from, from + window) - {now} <= recent;
      SubsetCount(Within(after, from, from + window) - {now}, recent);
    } else {
      assert Within(after, from, from + window) == Within(before, from, from + window);
    }
  }

  /** Every interval one window long holds at most `limit` distinct admitted seconds. */
  lemma {:induction false} HistoryWindowBound(times: seq<real>, window: nat, limit: nat, from: int)
    requires Clock(times)
    ensures |Within(HistoryRun(times, window, limit).1, from, from + window)| <= limit
    ensures forall x :: x in HistoryRun(times, window, limit).1 ==> x <= times[|times| - 1].Floor
  {
    hide Within, Remember;
    if times != [] {
      var n := |times| - 1;
      HistoryWindowBound(times[..n], window, limit, from);
      assert n > 0 ==> times[n - 1].Floor <= times[n].Floor;
      RememberKeepsBound(HistoryRun(times[..n], window, limit).1, window, limit, times[n], from);
    } else {
      NothingWithin(from, from + window);
    }
  }

  lemma NothingWithin(from: int, to: int)
    ensures Within({}, from, to) == {}
  {
  }

  lemma WindowBound(times: seq<real>, window: nat, limit: nat, from: int)
    requires Clock(times)
    ensures |Within(AdmittedSeconds(times, ScriptRun(times, window, limit).0), from, from + window)| <= limit
  {
    RunStaysFaithful(times, window, limit);
    HistoryIsAdmitted(times, window, limit);
    HistoryWindowBound(times, window, limit, from);
  }

  // ----- At the window and the limit the middleware passes -----

  /** The window, in whole seconds, that a burst at a rate is given; the limit is the burst itself. */
  function WindowSeconds(burst: nat, rps: nat): nat
    requires rps > 0
  {
    burst / rps
  }

  /** The seconds of the half-open interval (from, from + n]. */
  function Range(from: int, n: nat): (r: set<int>)
    ensures forall x :: x in r <==> from < x <= from + n
    ensures |r| == n
  {
    if n == 0 then {} else Range(from, n - 1) + {from + n}
  }

  /** An interval of `n` seconds holds at most `n` of them, and `n` only if it holds all. */
  lemma WithinSize(s: set<int>, from: int, n: nat)
    ensures |Within(s, from, from + n)| <= n
    ensures |Within(s, from, from + n)| == n <==> Range(from, n) <= s
  {
    var part, all := Within(s, from, from + n), Range(from, n);
    SubsetCount(part, all);
    if |part| == n {
      assert all == part + (all - part);
      assert all == part;
    }
    if all <= s {
      assert part == all;
    }
  }

  lemma TwiceAtMost(q: nat, r: nat)
    requires r >= 2
    ensures q * r >= 2 * q
  {
    assert q * r == 2 * q + q * (r - 2);
  }

  lemma WindowAgainstBurst(burst: nat, rps: nat)
    requires rps > 0
    ensures WindowSeconds(burst, rps) <= burst
    ensures burst > 0 ==> (WindowSeconds(burst, rps) == burst <==> rps == 1)
  {
    var window := WindowSeconds(burst, rps);
    assert burst == rps * window + burst % rps;
    if rps > 1 {
      TwiceAtMost(window, rps);
    }
  }

  /**
   At the middleware's parameters a call is refused only at one call a second, with every second of the window used.
   */
  lemma RefusedIff(admitted: set<int>, burst: nat, rps: nat, t: real)
    requires rps > 0
    ensures !Remember(admitted, WindowSeconds(burst, rps), burst, t).0.admit
            <==> burst == 0 || (rps == 1 && Range(t.Floor - burst, burst) <= admitted)
  {
    var window := WindowSeconds(burst, rps);
    WindowAgainstBurst(burst, rps);
    hide WindowSeconds;
    WithinSize(admitted, t.Floor - window, window);
  }

  lemma {:induction false} HistoryPrefix(times: seq<real>, window: nat, limit: nat, n: nat)
    requires n <= |times|
    ensures HistoryRun(times, window, limit).0[..n] == HistoryRun(times[..n], window, limit).0
  {
    if n == |times| {
      assert times[..n] == times;
    } else {
      HistoryPrefix(times[..|times| - 1], window, limit, n);
      assert times[..|times| - 1][..n] == times[..n];
    }
  }

  lemma HistoryAt(times: seq<real>, window: nat, limit: nat, i: nat)
    requires i < |times|
    ensures HistoryRun(times, window, limit).0[i]
            == Remember(HistoryRun(times[..i], window, limit).1, window, limit, times[i]).0
  {
    HistoryPrefix(times, window, limit, i + 1);
    assert HistoryRun(times, window, limit).0[i] == HistoryRun(times[..i + 1], window, limit).0[i];
    assert times[..i + 1][..i] == times[..i];
  }

  /**
   In every run, call `i` is rejected exactly when nothing may pass at all, or the rate is one call a second and each
   of the last `burst` seconds, its own included, already had an admitted call.
   */
  lemma CallRejectedIff(times: seq<real>, burst: nat, rps: nat, i: nat)
    requires rps > 0 && Clock(times) && i < |times|
    ensures var replies := ScriptRun(times, WindowSeconds(burst, rps), burst).0;
            !replies[i].admit <==>
            || burst == 0
            || (rps == 1 && Range(times[i].Floor - burst, burst) <= AdmittedSeconds(times[..i], replies[..i]))
  {
    var window := WindowSeconds(burst, rps);
    RunStaysFaithful(times, window, burst);
    HistoryAt(times, window, burst, i);
    HistoryPrefix(times, window, burst, i);
    HistoryIsAdmitted(times[..i], window, burst);
    RefusedIff(HistoryRun(times[..i], window, burst).1, burst, rps, times[i]);
  }

  predicate Admits(times: seq<real>, window: nat, limit: nat, i: nat) {
    i < |times| ==> ScriptRun(times, window, limit).0[i].admit
  }

  /** Every call of every run of the clock is admitted. */
  ghost predicate AdmitsEverything(window: nat, limit: nat) {
    forall times: seq<real>, i: nat :: Clock(times) ==> Admits(times, window, limit, i)
  }

  /** One call in each of `n` seconds, and one more in the last of them. */
  function Filling(n: nat): seq<real>
    requires n > 0
  {
    seq(n + 1, k => if k < n then k as real else (n - 1) as real)
  }

  /** For a burst and a rate of at least one the limiter limits nothing exactly when the rate is two or more. */
  lemma LimitsNothingIff(burst: nat, rps: nat)
    requires burst >= 1 && rps >= 1
    ensures AdmitsEverything(WindowSeconds(burst, rps), burst) <==> rps >= 2
  {
    var window := WindowSeconds(burst, rps);
    if rps >= 2 {
      forall times: seq<real>, i: nat | Clock(times)
        ensures Admits(times, window, burst, i)
      {
        if i < |times| {
          CallRejectedIff(times, burst, rps, i);
        }
      }
    } else {
      assert window == burst;
      FillingIsRejected(burst);
    }
  }

  lemma FillingIsClock(n: nat)
    requires n >= 1
    ensures Clock(Filling(n)) && Filling(n)[n].Floor == n - 1
    ensures forall k :: 0 <= k < n ==> Filling(n)[k].Floor == k
  {
  }

  lemma FillingUsesAll(n: nat, replies: seq<Reply>)
    requires n >= 1 && |replies| == n + 1 && forall k :: 0 <= k < n ==> replies[k].admit
    ensures Range(-1, n) <= AdmittedSeconds(Filling(n)[..n], replies[..n])
  {
    var times := Filling(n);
    FillingIsClock(n);
    forall x | x in Range(-1, n)
      ensures x in AdmittedSeconds(times[..n], replies[..n])
    {
      assert times[..n][x].Floor == x && replies[..n][x].admit;
    }
  }

  lemma FillingIsRejected(burst: nat)
    requires burst >= 1
    ensures Clock(Filling(burst)) && exists i: nat :: !Admits(Filling(burst), burst, burst, i)
  {
    var times := Filling(burst);
    var replies := ScriptRun(times, burst, burst).0;
    FillingIsClock(burst);
    hide ScriptRun, Clock, Filling;
    if k: nat :| k < burst && !replies[k].admit {
      assert !Admits(times, burst, burst, k);
    } else {
      FillingUsesAll(burst, replies);
      CallRejectedIff(times, burst, 1, burst);
      assert !Admits(times, burst, burst, burst);
    }
  }

  // ----- Requests rather than seconds -----

  /** The calls admitted at times that satisfy `p`. */
  function CallsThat(times: seq<real>, replies: seq<Reply>, p: real -> bool): nat
    requires |times| == |replies|
  {
    if times == [] then 0
    else
      var n := |times| - 1;
      CallsThat(times[..n], replies[..n], p) + if replies[n].admit && p(times[n]) then 1 else 0
  }

  /** Times whose second lies in (from, to]. */
  function InSeconds(from: int, to: int): real -> bool {
    (t: real) => from < t.Floor <= to
  }

  /** Times in (from, to]. */
  function InTime(from: real, to: real): real -> bool {
    (t: real) => from < t <= to
  }

  lemma {:induction false} NoCallsThat(times: seq<real>, replies: seq<Reply>, p: real -> bool)
    requires |times| == |replies| && forall i :: 0 <= i < |times| && replies[i].admit ==> !p(times[i])
    ensures CallsThat(times, replies, p) == 0
  {
    if times != [] {
      NoCallsThat(times[..|times| - 1], replies[..|times| - 1], p);
    }
  }

  lemma {:induction false} AllCallsThat(times: seq<real>, replies: seq<Reply>, p: real -> bool)
    requires |times| == |replies| && forall i :: 0 <= i < |times| ==> replies[i].admit && p(times[i])
    ensures CallsThat(times, replies, p) == |times|
  {
    if times != [] {
      AllCallsThat(times[..|times| - 1], replies[..|times| - 1], p);
    }
  }

  /** With a limit of one, admitted calls lie a whole window of seconds apart. */
  lemma {:induction false} LimitOneSpreadsCalls(times: seq<real>, window: nat, from: int)
    requires Clock(times)
    ensures CallsThat(times, HistoryRun(times, window, 1).0, InSeconds(from, from + window)) <= 1
  {
    if times != [] {
      var n := |times| - 1;
      var front, p := times[..n], InSeconds(from, from + window);
      var (before, admitted) := HistoryRun(front, window, 1);
      var now := times[n].Floor;
      LimitOneSpreadsCalls(front, window, from);
      assert HistoryRun(times, window, 1).0[..n] == before;
      if Remember(admitted, window, 1, times[n]).0.admit && p(times[n]) {
        assert Within(admitted, now - window, now) == {};
        HistoryIsAdmitted(front, window, 1);
        forall i | 0 <= i < n && before[i].admit
          ensures !p(front[i])
        {
          assert front[i].Floor in admitted && front[i].Floor <= now;
          assert front[i].Floor !in Within(admitted, now - window, now);
        }
        NoCallsThat(front, before, p);
      }
    }
  }

  lemma {:induction false} NoLimitNoCalls(times: seq<real>, window: nat, p: real -> bool)
    ensures CallsThat(times, HistoryRun(times, window, 0).0, p) == 0
  {
    if times != [] {
      var n := |times| - 1;
      NoLimitNoCalls(times[..n], window, p);
      assert HistoryRun(times, window, 0).0[..n] == HistoryRun(times[..n], window, 0).0;
    }
  }

  /** Calls at one instant. */
  function Burst(n: nat, t: real): seq<real> {
    seq(n, _ => t)
  }

  /** Seconds are the members of the set, so with a limit of two the calls of one second are all admitted. */
  lemma {:induction false} OneInstantAdmits(n: nat, t: real, window: nat, limit: nat)
    requires limit >= 2
    ensures forall i :: 0 <= i < n ==> HistoryRun(Burst(n, t), window, limit).0[i].admit
    ensures HistoryRun(Burst(n, t), window, limit).1 <= {t.Floor}
  {
    if n > 0 {
      OneInstantAdmits(n - 1, t, window, limit);
      assert Burst(n, t)[..n - 1] == Burst(n - 1, t);
      var before := HistoryRun(Burst(n - 1, t), window, limit).1;
      SubsetCount(Within(before, t.Floor - window, t.Floor), {t.Floor});
    }
  }

  /** The admitted calls of a run in the window of seconds after `from`. */
  function CallsInSeconds(times: seq<real>, window: nat, limit: nat, from: int): nat {
    CallsThat(times, ScriptRun(times, window, limit).0, InSeconds(from, from + window))
  }

  /** In every run, every interval of one window of seconds sees at most `limit` admitted calls. */
  ghost predicate BoundsRequests(window: nat, limit: nat) {
    forall times: seq<real>, from: int :: Clock(times) ==> CallsInSeconds(times, window, limit, from) <= limit
  }

  /** Requests are bounded as the seconds are exactly when the limit is at most one, or the window is empty. */
  lemma RequestsBoundedIff(window: nat, limit: nat)
    ensures BoundsRequests(window, limit) <==> limit <= 1 || window == 0
  {
    if limit <= 1 || window == 0 {
      forall times: seq<real>, from: int | Clock(times)
        ensures CallsInSeconds(times, window, limit, from) <= limit
      {
        FewCallsInSeconds(times, window, limit, from);
      }
    } else {
      ManyAtOnce(window, limit, 0.0, InSeconds(-1, -1 + window));
      assert CallsInSeconds(Burst(limit + 1, 0.0), window, limit, -1) == limit + 1;
    }
  }

  lemma FewCallsInSeconds(times: seq<real>, window: nat, limit: nat, from: int)
    requires Clock(times) && (limit <= 1 || window == 0)
    ensures CallsInSeconds(times, window, limit, from) <= limit
  {
    hide ScriptRun, HistoryRun, Clock, CallsThat;
    RunStaysFaithful(times, window, limit);
    if window == 0 {
      NoCallsThat(times, ScriptRun(times, window, limit).0, InSeconds(from, from));
    } else if limit == 0 {
      NoLimitNoCalls(times, window, InSeconds(from, from + window));
    } else {
      LimitOneSpreadsCalls(times, window, from);
    }
  }

  lemma ManyAtOnce(window: nat, limit: nat, t: real, p: real -> bool)
    requires limit >= 2 && 0.0 <= t && p(t)
    ensures Clock(Burst(limit + 1, t))
    ensures CallsThat(Burst(limit + 1, t), ScriptRun(Burst(limit + 1, t), window, limit).0, p) == limit + 1
  {
    var times := Burst(limit + 1, t);
    RunStaysFaithful(times, window, limit);
    OneInstantAdmits(limit + 1, t, window, limit);
    AllCallsThat(times, ScriptRun(times, window, limit).0, p);
  }

  function CallsInTime(times: seq<real>, window: nat, limit: nat, from: real): nat {
    CallsThat(times, ScriptRun(times, window, limit).0, InTime(from, from + window as real))
  }

  /** The same for intervals of the clock's own time, which need not begin with a second. */
  ghost predicate BoundsRequestsInTime(window: nat, limit: nat) {
    forall times: seq<real>, from: real :: Clock(times) ==> CallsInTime(times, window, limit, from) <= limit
  }

  /** Whole seconds blur the window: a limiter that admits anything at all does not bound requests in its own time. */
  lemma RequestsBoundedInTimeIff(window: nat, limit: nat)
    ensures BoundsRequestsInTime(window, limit) <==> limit == 0 || window == 0
  {
    if limit == 0 || window == 0 {
      forall times: seq<real>, from: real | Clock(times)
        ensures CallsInTime(times, window, limit, from) <= limit
      {
        FewCallsInTime(times, window, limit, from);
      }
    } else if limit == 1 {
      NineTenthsApart(window);
    } else {
      ManyAtOnce(window, limit, 0.5, InTime(0.0, 0.0 + window as real));
      assert CallsInTime(Burst(limit + 1, 0.5), window, limit, 0.0) == limit + 1;
    }
  }

  lemma FewCallsInTime(times: seq<real>, window: nat, limit: nat, from: real)
    requires Clock(times) && (limit == 0 || window == 0)
    ensures CallsInTime(times, window, limit, from) <= limit
  {
    hide ScriptRun, HistoryRun, Clock, CallsThat;
    RunStaysFaithful(times, window, limit);
    if window == 0 {
      NoCallsThat(times, ScriptRun(times, window, limit).0, InTime(from, from + window as real));
    } else {
      NoLimitNoCalls(times, window, InTime(from, from + window as real));
    }
  }

  /** With a limit of one, a call after 0.9 seconds and one at the end of the window are both admitted. */
  lemma NineTenthsApart(window: nat)
    requires window > 0
    ensures !BoundsRequestsInTime(window, 1)
  {
    TwoCallsInTime(window);
    hide CallsInTime, Clock;
  }

  lemma TwoCallsInTime(window: nat)
    requires window > 0
    ensures Clock([0.9, window as real]) && CallsInTime([0.9, window as real], window, 1, 0.0) == 2
  {
    var times := [0.9, window as real];
    NineTenthsInTime(window);
    hide ScriptRun, HistoryRun, Remember, Clock, InTime, CallsThat;
    BothAreAdmitted(window);
    RunStaysFaithful(times, window, 1);
    AllCallsThat(times, ScriptRun(times, window, 1).0, InTime(0.0, 0.0 + window as real));
  }

  lemma NineTenthsInTime(window: nat)
    requires window > 0
    ensures Clock([0.9, window as real])
    ensures InTime(0.0, 0.0 + window as real)(0.9) && InTime(0.0, 0.0 + window as real)(window as real)
  {
  }

  lemma BothAreAdmitted(window: nat)
    requires window > 0
    ensures var replies := HistoryRun([0.9, window as real], window, 1).0; replies[0].admit && replies[1].admit
  {
    assert Remember({}, window, 1, 0.9) == (Reply(true, 0), {0}) by {
      assert Within({}, (0.9).Floor - window, (0.9).Floor) == {};
    }
    assert Remember({0}, window, 1, window as real).0.admit by {
      assert Within({0}, (window as real).Floor - window, (window as real).Floor) == {};
    }
    hide Remember;
    HistoryAppend([], 0.9, window, 1);
    HistoryAppend([0.9], window as real, window, 1);
    assert [] + [0.9] == [0.9] && [0.9] + [window as real] == [0.9, window as real];
  }

  lemma HistoryAppend(times: seq<real>, t: real, window: nat, limit: nat)
    ensures var (replies, admitted) := HistoryRun(times, window, limit);
            var (reply, admitted') := Remember(admitted, window, limit, t);
            HistoryRun(times + [t], window, limit) == (replies + [reply], admitted')
  {
    assert (times + [t])[..|times|] == times;
  }
}
