/** The finalizer's worker pool: one fetching loop, a semaphore, and one handler per message. */
module WorkerPool {
  import opened Collections

  type Message = string

  /** A handler holds its slot until it has handed its message on and returned. */
  datatype Handler = Handling(m: Message) | Returning(m: Message)

  /** `waiting` is the message the loop has fetched and not yet found a slot for. */
  datatype Pool = Pool(
    maxWorkers: nat,
    stopped: bool,
    fetched: multiset<Message>,
    waiting: Option<Message>,
    slots: nat,
    handlers: seq<Handler>,
    committed: multiset<Message>,
    deadLettered: multiset<Message>
  )

  datatype Action =
    | Cancel
    | Fetch(m: Message)
    | FetchFails
    | Acquire
    | Handled(i: nat, ok: bool)
    | Release(i: nat)

  function Start(maxWorkers: nat): Pool {
    Pool(maxWorkers, false, multiset{}, None, 0, [], multiset{}, multiset{})
  }

  /** Whether the loop or a handler can take the action; the loop blocks while no slot is free. */
  predicate Enabled(p: Pool, a: Action) {
    match a
    case Cancel | FetchFails => !p.stopped && p.waiting.None?
    case Fetch(_) => !p.stopped && p.waiting.None?
    case Acquire => p.waiting.Some? && p.slots < p.maxWorkers
    case Handled(i, _) => i < |p.handlers| && p.handlers[i].Handling?
    case Release(i) => i < |p.handlers| && p.handlers[i].Returning? && p.slots > 0
  }

  function Step(p: Pool, a: Action): Pool {
    if !Enabled(p, a) then p
    else match a
      case Cancel => p.(stopped := true)
      case FetchFails => p
      case Fetch(m) => p.(fetched := p.fetched + multiset{m}, waiting := Some(m))
      case Acquire => p.(waiting := None, slots := p.slots + 1, handlers := p.handlers + [Handling(p.waiting.value)])
      case Handled(i, ok) =>
        var m := p.handlers[i].m;
        var p' := p.(handlers := p.handlers[i := Returning(m)]);
        if ok then p'.(committed := p.committed + multiset{m})
        else p'.(deadLettered := p.deadLettered + multiset{m})
      case Release(i) => p.(slots := p.slots - 1, handlers := p.handlers[..i] + p.handlers[i + 1..])
  }

  function Run(p: Pool, actions: seq<Action>): Pool {
    if actions == [] then p
    else Step(Run(p, actions[..|actions| - 1]), actions[|actions| - 1])
  }

  /** The messages being handled. */
  function Busy(handlers: seq<Handler>): multiset<Message> {
    if handlers == [] then multiset{}
    else
      var last := handlers[|handlers| - 1];
      Busy(handlers[..|handlers| - 1]) + BusyOne(last)
  }

  function Held(waiting: Option<Message>): multiset<Message> {
    if waiting.Some? then multiset{waiting.value} else multiset{}
  }

  function BusyOne(h: Handler): multiset<Message> {
    if h.Handling? then multiset{h.m} else multiset{}
  }

  lemma BusyAppend(handlers: seq<Handler>, h: Handler)
    ensures Busy(handlers + [h]) == Busy(handlers) + BusyOne(h)
  {
    assert (handlers + [h])[..|handlers|] == handlers;
  }

  /** Every handler's message can be counted first. */
  lemma {:induction false} BusySplit(handlers: seq<Handler>, i: nat)
    requires i < |handlers|
    ensures Busy(handlers) == Busy(handlers[..i] + handlers[i + 1..]) + BusyOne(handlers[i])
  {
    var n := |handlers| - 1;
    var front, last := handlers[..n], handlers[n];
    if i == n {
      assert handlers[..i] + handlers[i + 1..] == front;
    } else {
      var rest := front[..i] + front[i + 1..];
      assert handlers[..i] + handlers[i + 1..] == rest + [last];
      calc {
        Busy(handlers);
        Busy(front) + BusyOne(last);
        { BusySplit(front, i); assert front[i] == handlers[i]; }
        Busy(rest) + BusyOne(handlers[i]) + BusyOne(last);
        { Swap(Busy(rest), BusyOne(handlers[i]), BusyOne(last)); }
        Busy(rest) + BusyOne(last) + BusyOne(handlers[i]);
        { BusyAppend(rest, last); }
        Busy(rest + [last]) + BusyOne(handlers[i]);
      }
    }
  }

  lemma Swap(a: multiset<Message>, b: multiset<Message>, c: multiset<Message>)
    ensures a + b + c == a + c + b
  {
  }

  lemma BusyUpdate(handlers: seq<Handler>, i: nat, h: Handler)
    requires i < |handlers|
    ensures Busy(handlers[i := h]) + BusyOne(handlers[i]) == Busy(handlers) + BusyOne(h)
  {
    BusySplit(handlers, i);
    BusySplit(handlers[i := h], i);
    assert handlers[i := h][..i] + handlers[i := h][i + 1..] == handlers[..i] + handlers[i + 1..];
  }

  lemma {:induction false} BusySize(handlers: seq<Handler>)
    ensures |Busy(handlers)| <= |handlers|
  {
    if handlers != [] {
      BusySize(handlers[..|handlers| - 1]);
    }
  }

  /** Every slot is held by one handler, and every fetched message is in exactly one place. */
  ghost predicate Inv(p: Pool) {
    && p.slots == |p.handlers| <= p.maxWorkers
    && p.fetched == Held(p.waiting) + Busy(p.handlers) + p.committed + p.deadLettered
  }

  lemma AcquireKeepsInv(p: Pool)
    requires Inv(p) && Enabled(p, Acquire)
    ensures Inv(Step(p, Acquire))
  {
    BusyAppend(p.handlers, Handling(p.waiting.value));
  }

  lemma HandledKeepsInv(p: Pool, i: nat, ok: bool)
    requires Inv(p) && Enabled(p, Handled(i, ok))
    ensures Inv(Step(p, Handled(i, ok)))
  {
    var m, p' := p.handlers[i].m, Step(p, Handled(i, ok));
    BusyUpdate(p.handlers, i, Returning(m));
    hide Busy;
    MovesOver(Held(p.waiting), Busy(p.handlers), Busy(p'.handlers), p.committed, p.deadLettered, multiset{m});
  }

  /** Messages `m` that leave `busy` and enter one of the other two bags. */
  lemma MovesOver(
    held: multiset<Message>, busy: multiset<Message>, busy': multiset<Message>,
    committed: multiset<Message>, deadLettered: multiset<Message>, m: multiset<Message>)
    requires busy == busy' + m
    ensures held + busy + committed + deadLettered == held + busy' + (committed + m) + deadLettered
    ensures held + busy + committed + deadLettered == held + busy' + committed + (deadLettered + m)
  {
  }

  lemma ReleaseKeepsInv(p: Pool, i: nat)
    requires Inv(p) && Enabled(p, Release(i))
    ensures Inv(Step(p, Release(i)))
  {
    BusySplit(p.handlers, i);
  }

  lemma StepKeepsInv(p: Pool, a: Action)
    requires Inv(p)
    ensures Inv(Step(p, a))
  {
    if Enabled(p, a) {
      match a
      case Acquire => AcquireKeepsInv(p);
      case Handled(i, ok) => HandledKeepsInv(p, i, ok);
      case Release(i) => ReleaseKeepsInv(p, i);
      case _ =>
    }
  }

  lemma {:induction false} RunKeepsInv(maxWorkers: nat, actions: seq<Action>)
    ensures Inv(Run(Start(maxWorkers), actions)) && Run(Start(maxWorkers), actions).maxWorkers == maxWorkers
  {
    if actions != [] {
      RunKeepsInv(maxWorkers, actions[..|actions| - 1]);
      StepKeepsInv(Run(Start(maxWorkers), actions[..|actions| - 1]), actions[|actions| - 1]);
    }
  }

  /**
   In every interleaving: at most `maxWorkers` handlers, each fetched message in exactly one of waiting, handled,
   commit attempted or dead-lettered, and at most one more than `maxWorkers` not finished.
   */
  lemma PoolIsBounded(maxWorkers: nat, actions: seq<Action>)
    ensures var p := Run(Start(maxWorkers), actions);
            && |p.handlers| <= maxWorkers
            && p.fetched == Held(p.waiting) + Busy(p.handlers) + p.committed + p.deadLettered
            && |p.fetched| - |p.committed| - |p.deadLettered| <= maxWorkers + 1
  {
    RunKeepsInv(maxWorkers, actions);
    BusySize(Run(Start(maxWorkers), actions).handlers);
  }

  // ----- Draining -----

  function Effort(h: Handler): nat {
    if h.Handling? then 2 else 1
  }

  function Efforts(handlers: seq<Handler>): nat {
    if handlers == [] then 0 else Efforts(handlers[..|handlers| - 1]) + Effort(handlers[|handlers| - 1])
  }

  /** The steps the fetched messages still need. */
  function Work(p: Pool): nat {
    (if p.waiting.Some? then 3 else 0) + Efforts(p.handlers)
  }

  lemma {:induction false} EffortsSplit(handlers: seq<Handler>, i: nat)
    requires i < |handlers|
    ensures Efforts(handlers) == Efforts(handlers[..i] + handlers[i + 1..]) + Effort(handlers[i])
  {
    var n := |handlers| - 1;
    if i == n {
      assert handlers[..i] + handlers[i + 1..] == handlers[..n];
    } else {
      EffortsSplit(handlers[..n], i);
      var rest := handlers[..i] + handlers[i + 1..];
      assert rest[..|rest| - 1] == handlers[..n][..i] + handlers[..n][i + 1..];
    }
  }

  /** Every step other than fetching does one step of the work: no schedule can postpone the end for ever. */
  lemma StepDoesWork(p: Pool, a: Action)
    requires Inv(p) && Enabled(p, a) && (a.Acquire? || a.Handled? || a.Release?)
    ensures Work(Step(p, a)) == Work(p) - 1
  {
    match a
    case Acquire =>
      assert (p.handlers + [Handling(p.waiting.value)])[..|p.handlers|] == p.handlers;
    case Handled(i, ok) =>
      var after := p.handlers[i := Returning(p.handlers[i].m)];
      EffortsSplit(p.handlers, i);
      EffortsSplit(after, i);
      assert after[..i] + after[i + 1..] == p.handlers[..i] + p.handlers[i + 1..];
    case Release(i) =>
      EffortsSplit(p.handlers, i);
  }

  /** A step that a pool with work left can take, when the handlers of the messages in `good` succeed. */
  function NextOf(p: Pool, good: set<Message>): Action {
    if p.handlers == [] then Acquire
    else if p.handlers[0].Handling? then Handled(0, p.handlers[0].m in good)
    else Release(0)
  }

  /** No deadlock: work is left exactly as long as a message waits or a handler runs, and then a step is enabled. */
  lemma WorkCanBeDone(p: Pool, good: set<Message>)
    requires Inv(p) && p.maxWorkers > 0
    ensures Work(p) == 0 <==> p.waiting.None? && p.handlers == []
    ensures Work(p) > 0 ==> Enabled(p, NextOf(p, good))
  {
  }

  function Drain(p: Pool, good: set<Message>, n: nat): Pool
    decreases n
  {
    if n == 0 then p else Drain(Step(p, NextOf(p, good)), good, n - 1)
  }

  /** One more success, or failure, of a handler. */
  function Outcome(p: Pool, a: Action, ok: bool): multiset<Message> {
    if a.Handled? && a.ok == ok && Enabled(p, a) then multiset{p.handlers[a.i].m} else multiset{}
  }

  /** A success is committed and a failure dead-lettered; nothing else is either. */
  lemma StepOutcome(p: Pool, a: Action)
    ensures Step(p, a).committed == p.committed + Outcome(p, a, true)
    ensures Step(p, a).deadLettered == p.deadLettered + Outcome(p, a, false)
  {
  }

  /** Messages in `good` are not dead-lettered by these steps, and the others not committed. */
  lemma NextDecides(p: Pool, good: set<Message>, m: Message)
    ensures var q := Step(p, NextOf(p, good));
            if m in good then q.deadLettered[m] == p.deadLettered[m] else q.committed[m] == p.committed[m]
  {
    hide Step;
    StepOutcome(p, NextOf(p, good));
  }

  lemma NextIsWork(p: Pool, good: set<Message>)
    requires Inv(p) && p.maxWorkers > 0 && Work(p) > 0
    ensures var q := Step(p, NextOf(p, good));
            Inv(q) && q.maxWorkers == p.maxWorkers && q.fetched == p.fetched && Work(q) == Work(p) - 1
  {
    var a := NextOf(p, good);
    WorkCanBeDone(p, good);
    NextKeepsRest(p, good);
    hide Inv, Work, Step, Enabled, NextOf;
    StepKeepsInv(p, a);
    StepDoesWork(p, a);
  }

  lemma NextKeepsRest(p: Pool, good: set<Message>)
    ensures var a := NextOf(p, good);
            && (a.Acquire? || a.Handled? || a.Release?)
            && Step(p, a).maxWorkers == p.maxWorkers && Step(p, a).fetched == p.fetched
  {
  }

  lemma NothingLeft(p: Pool)
    requires Inv(p) && p.maxWorkers > 0
    ensures Work(p) == 0 ==> p.waiting.None? && p.handlers == [] && p.fetched == p.committed + p.deadLettered
  {
    WorkCanBeDone(p, {});
  }

  /**
   With at least one worker every fetched message ends up committed or dead-lettered: from any reachable pool that
   fetches no more, as many steps as there is work left finish them all. No further copy of a message whose handlers
   succeed is dead-lettered, and none of another one is committed.
   */
  lemma {:induction false} EverythingDrains(p: Pool, good: set<Message>)
    requires Inv(p) && p.maxWorkers > 0
    ensures var q := Drain(p, good, Work(p));
            && q.waiting.None? && q.handlers == [] && q.fetched == p.fetched == q.committed + q.deadLettered
            && forall m: Message ::
                 if m in good
                 then q.deadLettered[m] == p.deadLettered[m] && q.committed[m] == p.fetched[m] - p.deadLettered[m]
                 else q.committed[m] == p.committed[m] && q.deadLettered[m] == p.fetched[m] - p.committed[m]
    decreases Work(p)
  {
    hide Step, Inv, Work, Enabled;
    NothingLeft(p);
    if Work(p) > 0 {
      var p' := Step(p, NextOf(p, good));
      NextIsWork(p, good);
      EverythingDrains(p', good);
      forall m: Message
        ensures if m in good then p'.deadLettered[m] == p.deadLettered[m] else p'.committed[m] == p.committed[m]
      {
        NextDecides(p, good, m);
      }
    }
  }

  // ----- What becomes of a message -----

  /** The messages whose handlers succeeded in the run, or failed. */
  function Outcomes(p: Pool, actions: seq<Action>, ok: bool): multiset<Message> {
    if actions == [] then multiset{}
    else
      var front, a := actions[..|actions| - 1], actions[|actions| - 1];
      Outcomes(p, front, ok) + Outcome(Run(p, front), a, ok)
  }

  /** In every run exactly the messages whose handlers succeeded are committed, and exactly the others dead-lettered. */
  lemma {:induction false} OutcomeDecides(maxWorkers: nat, actions: seq<Action>)
    ensures var p := Run(Start(maxWorkers), actions);
            && p.committed == Outcomes(Start(maxWorkers), actions, true)
            && p.deadLettered == Outcomes(Start(maxWorkers), actions, false)
  {
    hide Step, Outcome;
    if actions != [] {
      OutcomeDecides(maxWorkers, actions[..|actions| - 1]);
      StepOutcome(Run(Start(maxWorkers), actions[..|actions| - 1]), actions[|actions| - 1]);
    }
  }

  /** Once the context is cancelled nothing more is fetched, whatever the handlers still do. */
  lemma {:induction false} NothingFetchedAfterCancel(p: Pool, actions: seq<Action>)
    requires p.stopped
    ensures Run(p, actions).stopped && Run(p, actions).fetched == p.fetched
  {
    if actions != [] {
      NothingFetchedAfterCancel(p, actions[..|actions| - 1]);
    }
  }

  /** The loop fetches exactly when it may: not cancelled, and no message waiting for a slot; so it does at first. */
  lemma FetchedIff(maxWorkers: nat, p: Pool, m: Message)
    ensures Step(Start(maxWorkers), Fetch(m)).fetched == multiset{m}
    ensures Step(p, Fetch(m)).fetched
            == p.fetched + if !p.stopped && p.waiting.None? then multiset{m} else multiset{}
    ensures Step(p, Cancel).stopped <==> p.stopped || p.waiting.None?
  {
  }

  /** Without workers the first message blocks the loop: none is ever handled and no second one is fetched. */
  lemma {:induction false} NoWorkersNoProgress(actions: seq<Action>)
    ensures var p := Run(Start(0), actions);
            p.committed == multiset{} && p.deadLettered == multiset{} && |p.fetched| <= 1
  {
    RunKeepsInv(0, actions);
    if actions != [] {
      NoWorkersNoProgress(actions[..|actions| - 1]);
      RunKeepsInv(0, actions[..|actions| - 1]);
    }
  }
}
