/** Two clients whose store calls interleave in any order: when both are at a stretch of their calls at once. */
module Schedules {
  import opened Protocol

  /** The calls that the first client, or the second, has made after the turns so far. */
  function Made(turns: seq<bool>, first: bool): nat {
    if turns == [] then 0
    else Made(turns[..|turns| - 1], first) + if turns[|turns| - 1] == first then 1 else 0
  }

  /** Between its call number `from` and its call number `to`. */
  predicate Within(turns: seq<bool>, first: bool, from: nat, to: nat) {
    from <= Made(turns, first) < to
  }

  /** At some point both clients are between these calls. */
  predicate Overlapped(turns: seq<bool>, from: nat, to: nat) {
    turns != [] && (
      || Overlapped(turns[..|turns| - 1], from, to)
      || (Within(turns, true, from, to) && Within(turns, false, from, to)))
  }

  /** The client made call `from` when the other one had made call `to`. */
  predicate Late(turns: seq<bool>, first: bool, from: nat, to: nat) {
    turns != [] && (
      var front := turns[..|turns| - 1];
      || Late(front, first, from, to)
      || (turns[|turns| - 1] == first && Made(turns, first) == from && Made(front, !first) >= to))
  }

  /** Who was late was so alone, and overlapped with nobody. */
  predicate LateAlone(turns: seq<bool>, first: bool, from: nat, to: nat) {
    Late(turns, first, from, to) ==>
      && !Overlapped(turns, from, to) && !Late(turns, !first, from, to)
      && Made(turns, first) >= from && Made(turns, !first) >= to
  }

  /** When both have made call `from`, one was late or they overlapped. */
  lemma {:induction false} LateOrOverlapped(turns: seq<bool>, from: nat, to: nat)
    requires 1 <= from < to
    ensures LateAlone(turns, true, from, to) && LateAlone(turns, false, from, to)
    ensures Overlapped(turns, from, to) ==> Made(turns, true) >= from && Made(turns, false) >= from
    ensures Made(turns, true) >= from && Made(turns, false) >= from ==>
              Overlapped(turns, from, to) || Late(turns, true, from, to) || Late(turns, false, from, to)
  {
    if turns != [] {
      LateOrOverlapped(turns[..|turns| - 1], from, to);
    }
  }

  /** One more turn of a client. */
  lemma OneMoreTurn(turns: seq<bool>, first: bool, from: nat, to: nat)
    ensures var more := turns + [first];
            && Made(more, first) == Made(turns, first) + 1 && Made(more, !first) == Made(turns, !first)
            && (Late(more, !first, from, to) <==> Late(turns, !first, from, to))
            && (Late(more, first, from, to) <==>
                  Late(turns, first, from, to) || (Made(turns, first) + 1 == from && Made(turns, !first) >= to))
            && (Overlapped(more, from, to) <==>
                  Overlapped(turns, from, to)
                    || (from <= Made(turns, first) + 1 < to && from <= Made(turns, !first) < to))
  {
    assert (turns + [first])[..|turns|] == turns;
  }

  // ----- As actions of the protocol -----

  /** The first client is number `i`, the second the next one. */
  function Turn(i: nat, first: bool): Action {
    GoOn(if first then i else i + 1)
  }

  function Turns(i: nat, turns: seq<bool>): (r: seq<Action>)
    ensures |r| == |turns|
  {
    if turns == [] then [] else Turns(i, turns[..|turns| - 1]) + [Turn(i, turns[|turns| - 1])]
  }

  /** Both clients start, and take their turns. */
  function BothRun(s: Sys, c: Client, d: Client, turns: seq<bool>): (s': Sys)
    requires Aligned(s)
    ensures Aligned(s')
  {
    Run(s, [Spawn(c), Spawn(d)] + Turns(|s.clients|, turns))
  }

  function BothStarted(s: Sys, c: Client, d: Client): Sys {
    s.(clients := s.clients + [c, d])
  }

  function TakeTurn(s: Sys, i: nat, first: bool): Sys {
    if Aligned(s) then Step(s, Turn(i, first)) else s
  }

  lemma {:induction false} AllTurns(after: (Sys, seq<bool>) -> bool, s: Sys, i: nat, turns: seq<bool>)
    requires Aligned(s) && after(s, [])
    requires forall x: Sys, done: seq<bool>, first: bool ::
               after(x, done) ==> after(TakeTurn(x, i, first), done + [first])
    ensures after(Run(s, Turns(i, turns)), turns)
  {
    hide Step;
    if turns != [] {
      var front, first := turns[..|turns| - 1], turns[|turns| - 1];
      AllTurns(after, s, i, front);
      assert Turns(i, turns)[..|turns| - 1] == Turns(i, front);
      var x := Run(s, Turns(i, front));
      assert after(TakeTurn(x, i, first), front + [first]);
      assert front + [first] == turns;
    }
  }

  lemma StartOne(s: Sys, c: Client)
    requires Aligned(s) && IsStart(c)
    ensures Step(s, Spawn(c)) == s.(clients := s.clients + [c])
  {
  }

  lemma StartBoth(s: Sys, c: Client, d: Client, turns: seq<bool>)
    requires Aligned(s) && IsStart(c) && IsStart(d)
    ensures Aligned(BothStarted(s, c, d))
    ensures BothRun(s, c, d, turns) == Run(BothStarted(s, c, d), Turns(|s.clients|, turns))
  {
    hide Run, Step, Turns;
    var rest, s1 := Turns(|s.clients|, turns), s.(clients := s.clients + [c]);
    StartOne(s, c);
    StartOne(s1, d);
    assert s1.clients + [d] == s.clients + [c, d];
    RunFirst(s, Spawn(c), [Spawn(d)] + rest);
    RunFirst(s1, Spawn(d), rest);
    assert [Spawn(c), Spawn(d)] + rest == [Spawn(c)] + ([Spawn(d)] + rest);
  }

  /** What every turn keeps holds at the end. */
  lemma BothRunKeep(after: (Sys, seq<bool>) -> bool, s: Sys, c: Client, d: Client, turns: seq<bool>)
    requires Aligned(s) && IsStart(c) && IsStart(d) && after(BothStarted(s, c, d), [])
    requires forall x: Sys, done: seq<bool>, first: bool ::
               after(x, done) ==> after(TakeTurn(x, |s.clients|, first), done + [first])
    ensures after(BothRun(s, c, d, turns), turns)
  {
    hide *;
    StartBoth(s, c, d, turns);
    AllTurns(after, BothStarted(s, c, d), |s.clients|, turns);
  }
}
