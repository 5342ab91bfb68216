/** Charges and refunds of one booking in every interleaving: how many, and when two at once both reach the provider. */
module DoubleCharge {
  import opened Collections
  import opened Model
  import opened Protocol
  import opened Effects
  import opened ProtocolInvariant
  import opened Conservation
  import opened Money
  import opened Schedules

  // ----- Two payments at once -----

  /** The calls of a payment: it reads, charges, marks and finalizes. */
  const CALLS: nat := 4

  /** The payment `c` of booking `b`, at any of its calls or at its end. */
  predicate PaymentOf(c: Client, b: BookingId, amount: int) {
    c.Done? || ((c.PayRead? || c.PayCharge? || c.PayMark? || c.PayFinalize?) && c.b == b && c.amount == amount)
  }

  /** What one call of the payment does to its booking, to the charges and to the payment itself. */
  predicate PaysOn(s: Sys, s': Sys, i: nat, b: BookingId, amount: int)
    requires i < |s.clients|
  {
    var c := s.clients[i];
    && |s'.clients| == |s.clients| && s'.clients == s.clients[i := s'.clients[i]]
    && |s'.accounts| == |s.accounts| == |s.store.db.bookings| == |s'.store.db.bookings| && b < |s.accounts|
    && PaymentOf(s'.clients[i], b, amount)
    && (c.Done? ==> s' == s)
    && (c.PayRead? ==>
          s'.store == s.store && (if Payable(s.store, b, amount) then s'.clients[i].PayCharge?
            else s'.clients[i].Done?))
    && (c.PayCharge? ==>
          |s'.store.charges| == |s.store.charges| + 1 && s'.store.db == s.store.db && s'.clients[i].PayMark?)
    && (c.PayMark? ==> s'.store.charges == s.store.charges && s'.store.db.events == s.store.db.events
                       && s'.store.db.bookings[b] == s.store.db.bookings[b].(payment := Paid, amountPaid := amount)
                       && s'.clients[i].PayFinalize?)
    && (c.PayFinalize? ==>
          s'.store.charges == s.store.charges && s'.store.db.bookings[b].status != Pending && s'.clients[i].Done?)
  }

  lemma PayOnce(s: Sys, i: nat, b: BookingId, amount: int)
    requires Aligned(s) && i < |s.clients| && b < |s.accounts| && PaymentOf(s.clients[i], b, amount)
    ensures PaysOn(s, Step(s, GoOn(i)), i, b, amount)
  {
  }

  /** The client's next call is the one after `n` calls, or it was refused. */
  predicate PaymentAt(c: Client, n: nat, late: bool) {
    && (n == 0 ==> c.PayRead?)
    && (n == 1 && !late ==> c.PayCharge?)
    && (n == 2 && !late ==> c.PayMark?)
    && (n == 3 && !late ==> c.PayFinalize?)
    && (n >= CALLS || late ==> c.Done?)
  }

  /** Whether the client has made its provider call after the turns: its second, unless it was refused. */
  function Reached(turns: seq<bool>, first: bool, calls: nat): nat {
    if Made(turns, first) >= 2 && !Late(turns, first, 1, calls) then 1 else 0
  }

  /** Neither client has made its last call. */
  predicate NoneFinished(turns: seq<bool>, calls: nat) {
    Made(turns, true) < calls && Made(turns, false) < calls
  }

  predicate AfterPayments(n: nat, s: Sys, i: nat, b: BookingId, amount: int, amount': int, turns: seq<bool>) {
    && Aligned(s) && i + 1 < |s.clients| && b < |s.accounts|
    && PaymentOf(s.clients[i], b, amount) && PaymentAt(s.clients[i], Made(turns, true), Late(turns, true, 1, CALLS))
    && PaymentOf(s.clients[i + 1], b, amount')
       && PaymentAt(s.clients[i + 1], Made(turns, false), Late(turns, false, 1, CALLS))
    && (Payable(s.store, b, amount) <==> NoneFinished(turns, CALLS))
    && (Payable(s.store, b, amount') <==> NoneFinished(turns, CALLS))
    && |s.store.charges| == n + Reached(turns, true, CALLS) + Reached(turns, false, CALLS)
  }

  lemma OnePaymentTurn(n: nat, s: Sys, i: nat, b: BookingId, amount: int, amount': int, turns: seq<bool>, first: bool)
    requires AfterPayments(n, s, i, b, amount, amount', turns)
    ensures AfterPayments(n, TakeTurn(s, i, first), i, b, amount, amount', turns + [first])
  {
    hide Step;
    assert (turns + [first])[..|turns|] == turns;
    LateOrOverlapped(turns, 1, CALLS);
    PayOnce(s, if first then i else i + 1, b, if first then amount else amount');
  }

  /**
   From any state in which two payments of a booking are acceptable, and whatever the order of their calls until both
   have made all four: the booking is charged once, or twice exactly when at some point both are under way.
   */
  lemma BothChargeIff(s: Sys, b: BookingId, amount: int, amount': int, turns: seq<bool>)
    requires Aligned(s) && Payable(s.store, b, amount) && Payable(s.store, b, amount')
    requires Made(turns, true) >= CALLS && Made(turns, false) >= CALLS
    ensures |BothRun(s, PayRead(b, amount), PayRead(b, amount'), turns).store.charges|
            == |s.store.charges| + if Overlapped(turns, 1, CALLS) then 2 else 1
  {
    var i, n := |s.clients|, |s.store.charges|;
    var after := (x: Sys, done: seq<bool>) => AfterPayments(n, x, i, b, amount, amount', done);
    assert after(BothStarted(s, PayRead(b, amount), PayRead(b, amount')), []);
    hide Run, Step, TakeTurn, BothRun, BothStarted, Payable, AfterPayments;
    forall x: Sys, done: seq<bool>, first: bool | after(x, done)
      ensures after(TakeTurn(x, i, first), done + [first])
    {
      OnePaymentTurn(n, x, i, b, amount, amount', done, first);
    }
    BothRunKeep(after, s, PayRead(b, amount), PayRead(b, amount'), turns);
    LateOrOverlapped(turns, 1, CALLS);
    PaymentsEnd(n, BothRun(s, PayRead(b, amount), PayRead(b, amount'), turns), i, b, amount, amount', turns);
  }

  lemma PaymentsEnd(n: nat, s: Sys, i: nat, b: BookingId, amount: int, amount': int, turns: seq<bool>)
    requires AfterPayments(n, s, i, b, amount, amount', turns)
    ensures |s.store.charges| == n + Reached(turns, true, CALLS) + Reached(turns, false, CALLS)
  {
  }

  // ----- Two refunds at once -----

  /** The calls of a refund: it reads, pays out and marks. */
  const REFUND_CALLS: nat := 3

  predicate Refundable(s: Store, b: BookingId) {
    b < |s.db.bookings| && s.db.bookings[b].payment == Paid && s.db.bookings[b].event in s.db.events
  }

  predicate RefundOf(c: Client, b: BookingId) {
    c.Done? || ((c.RefundRead? || c.RefundPay? || c.RefundMark?) && c.b == b)
  }

  predicate RefundsOn(s: Sys, s': Sys, i: nat, b: BookingId)
    requires i < |s.clients|
  {
    var c := s.clients[i];
    && |s'.clients| == |s.clients| && s'.clients == s.clients[i := s'.clients[i]]
    && s'.accounts == s.accounts && |s'.store.db.bookings| == |s.store.db.bookings|
    && RefundOf(s'.clients[i], b)
    && (c.Done? ==> s' == s)
    && (c.RefundRead? ==>
          s'.store == s.store && (if Refundable(s.store, b) then s'.clients[i].RefundPay? else s'.clients[i].Done?))
    && (c.RefundPay? ==>
          |s'.store.refunds| == |s.store.refunds| + 1 && s'.store.db == s.store.db && s'.clients[i].RefundMark?)
    && (c.RefundMark? ==> s'.store.refunds == s.store.refunds && !Refundable(s'.store, b) && s'.clients[i].Done?)
  }

  lemma RefundOnce(s: Sys, i: nat, b: BookingId)
    requires Aligned(s) && i < |s.clients| && b < |s.accounts| && RefundOf(s.clients[i], b)
    ensures RefundsOn(s, Step(s, GoOn(i)), i, b)
  {
  }

  predicate RefundAt(c: Client, n: nat, late: bool) {
    && (n == 0 ==> c.RefundRead?)
    && (n == 1 && !late ==> c.RefundPay?)
    && (n == 2 && !late ==> c.RefundMark?)
    && (n >= REFUND_CALLS || late ==> c.Done?)
  }

  predicate AfterRefunds(n: nat, s: Sys, i: nat, b: BookingId, turns: seq<bool>) {
    && Aligned(s) && i + 1 < |s.clients| && b < |s.accounts|
    && RefundOf(s.clients[i], b) && RefundAt(s.clients[i], Made(turns, true), Late(turns, true, 1, REFUND_CALLS))
    && RefundOf(s.clients[i + 1], b)
       && RefundAt(s.clients[i + 1], Made(turns, false), Late(turns, false, 1, REFUND_CALLS))
    && (Refundable(s.store, b) <==> NoneFinished(turns, REFUND_CALLS))
    && |s.store.refunds| == n + Reached(turns, true, REFUND_CALLS) + Reached(turns, false, REFUND_CALLS)
  }

  lemma OneRefundTurn(n: nat, s: Sys, i: nat, b: BookingId, turns: seq<bool>, first: bool)
    requires AfterRefunds(n, s, i, b, turns)
    ensures AfterRefunds(n, TakeTurn(s, i, first), i, b, turns + [first])
  {
    hide Step;
    assert (turns + [first])[..|turns|] == turns;
    LateOrOverlapped(turns, 1, REFUND_CALLS);
    RefundOnce(s, if first then i else i + 1, b);
  }

  /** Likewise two refunds of a paid booking both pay out exactly when at some point both are under way. */
  lemma BothRefundIff(s: Sys, b: BookingId, turns: seq<bool>)
    requires Aligned(s) && Refundable(s.store, b)
    requires Made(turns, true) >= REFUND_CALLS && Made(turns, false) >= REFUND_CALLS
    ensures |BothRun(s, RefundRead(b), RefundRead(b), turns).store.refunds|
            == |s.store.refunds| + if Overlapped(turns, 1, REFUND_CALLS) then 2 else 1
  {
    var i, n := |s.clients|, |s.store.refunds|;
    var after := (x: Sys, done: seq<bool>) => AfterRefunds(n, x, i, b, done);
    assert after(BothStarted(s, RefundRead(b), RefundRead(b)), []);
    hide Run, Step, TakeTurn, BothRun, BothStarted, Refundable, AfterRefunds;
    forall x: Sys, done: seq<bool>, first: bool | after(x, done)
      ensures after(TakeTurn(x, i, first), done + [first])
    {
      OneRefundTurn(n, x, i, b, done, first);
    }
    BothRunKeep(after, s, RefundRead(b), RefundRead(b), turns);
    LateOrOverlapped(turns, 1, REFUND_CALLS);
    RefundsEnd(n, BothRun(s, RefundRead(b), RefundRead(b), turns), i, b, turns);
  }

  lemma RefundsEnd(n: nat, s: Sys, i: nat, b: BookingId, turns: seq<bool>)
    requires AfterRefunds(n, s, i, b, turns)
    ensures |s.store.refunds| == n + Reached(turns, true, REFUND_CALLS) + Reached(turns, false, REFUND_CALLS)
  {
  }

  // ----- Any payments, in every interleaving -----

  function ChargeOf(b: BookingId): Charge -> int {
    (charge: Charge) => if charge.booking == b then 1 else 0
  }

  function ChargesOf(s: Sys, b: BookingId): int {
    Sum(s.store.charges, ChargeOf(b))
  }

  /** Past the read of booking `b` and before the provider call, running or stopped there. */
  function StandingAt(b: BookingId): Client -> int {
    (c: Client) => if LastCall(c).PayCharge? && LastCall(c).b == b then 1 else 0
  }

  function Standing(s: Sys, b: BookingId): int {
    Sum(s.clients, StandingAt(b))
  }

  /** The action is a payment's read that accepts booking `b`. */
  predicate Accepts(s: Sys, a: Action, b: BookingId) {
    && a.Go? && a.ok && a.i < |s.clients|
    && s.clients[a.i].PayRead? && s.clients[a.i].b == b && Payable(s.store, b, s.clients[a.i].amount)
  }

  function Accepted(s: Sys, actions: seq<Action>, b: BookingId): nat
    requires Aligned(s)
  {
    if actions == [] then 0
    else
      var front := actions[..|actions| - 1];
      Accepted(s, front, b) + if Accepts(Run(s, front), actions[|actions| - 1], b) then 1 else 0
  }

  lemma ReadStands(s: Sys, i: nat, ok: bool, b: BookingId)
    requires Aligned(s) && i < |s.clients| && s.clients[i].PayRead?
    ensures var s' := GoPay(s, i, ok);
            && s'.store.charges == s.store.charges && |s'.clients| == |s.clients|
               && s'.clients == s.clients[i := s'.clients[i]]
            && StandingAt(b)(s.clients[i]) == 0
            && StandingAt(b)(s'.clients[i]) == if Accepts(s, Go(i, ok, 0, NOBODY), b) then 1 else 0
  {
  }

  lemma ChargeStands(s: Sys, i: nat, ok: bool, b: BookingId)
    requires Aligned(s) && i < |s.clients| && s.clients[i].PayCharge?
    ensures var s' := GoPay(s, i, ok);
            && |s'.clients| == |s.clients| && s'.clients == s.clients[i := s'.clients[i]]
            && ChargesOf(s', b) + StandingAt(b)(s'.clients[i]) == ChargesOf(s, b) + StandingAt(b)(s.clients[i])
  {
    var c := s.clients[i];
    if ok && c.b < |s.accounts| {
      SumAppend(s.store.charges, Charge(c.b, s.store.db.bookings[c.b].event, c.amount), ChargeOf(b));
    }
  }

  lemma OthersStand(c: Client, c': Client, b: BookingId)
    requires Follows(c, c') && !c.PayRead? && !c.PayCharge?
    ensures StandingAt(b)(c') == StandingAt(b)(c)
  {
  }

  lemma ClientCounts(s: Sys, a: Action, b: BookingId)
    requires Aligned(s) && a.Go? && a.i < |s.clients|
    ensures var s' := Step(s, a);
            ChargesOf(s', b) + Standing(s', b) == ChargesOf(s, b) + Standing(s, b) + if Accepts(s, a, b) then 1 else 0
  {
    var i, c, s' := a.i, s.clients[a.i], Step(s, a);
    if c.PayRead? {
      ReadStands(s, i, a.ok, b);
    } else if c.PayCharge? {
      ChargeStands(s, i, a.ok, b);
    } else {
      hide GoClient, Follows, Apply;
      StepEffect(s, a);
      ClientCharges(s, i, a.ok, a.now, a.pick);
      OthersStand(c, s'.clients[i], b);
    }
    SumUpdate(s.clients, i, s'.clients[i], StandingAt(b));
  }

  lemma OtherCounts(s: Sys, a: Action, b: BookingId)
    requires Aligned(s) && (a.Go? ==> a.i >= |s.clients|)
    ensures ChargesOf(Step(s, a), b) + Standing(Step(s, a), b) == ChargesOf(s, b) + Standing(s, b)
  {
    if a.Spawn? && IsStart(a.c) {
      SumAppend(s.clients, a.c, StandingAt(b));
    } else if a.Crash? && a.i < |s.clients| && Running(s.clients[a.i]) {
      SumUpdate(s.clients, a.i, Dead(s.clients[a.i]), StandingAt(b));
    }
  }

  /**
   In every interleaving, with any number of payments of any amounts: a booking has been charged once for each read that
   accepted it, but for the payments that stand or have stopped between the two.
   */
  lemma {:induction false} ChargesAreAcceptedReads(users: set<nat>, actions: seq<Action>, b: BookingId)
    ensures var s := Run(Init(users), actions);
            Accepted(Init(users), actions, b) == ChargesOf(s, b) + Standing(s, b)
  {
    if actions != [] {
      var front, a := actions[..|actions| - 1], actions[|actions| - 1];
      var s := Run(Init(users), front);
      ChargesAreAcceptedReads(users, front, b);
      hide Step, Init, ChargesOf, Standing;
      if a.Go? && a.i < |s.clients| {
        ClientCounts(s, a, b);
      } else {
        OtherCounts(s, a, b);
      }
    }
  }

  // ----- When a booking is charged at most once -----

  /** A payment of booking `b` that has read it and not finalized it, running or stopped. */
  predicate UnderWay(c: Client, b: BookingId) {
    Paying(LastCall(c)) && LastCall(c).b == b
  }

  /** No read accepts the booking while another payment of it is under way or has stopped under way. */
  predicate LonePayment(s: Sys, a: Action, b: BookingId) {
    Accepts(s, a, b) ==> forall c :: c in s.clients ==> !UnderWay(c, b)
  }

  predicate LonePayments(s: Sys, actions: seq<Action>, b: BookingId)
    requires Aligned(s)
  {
    actions == [] || (
      var front := actions[..|actions| - 1];
      LonePayments(s, front, b) && LonePayment(Run(s, front), actions[|actions| - 1], b))
  }

  /** A payment of the booking is under way, or none can be accepted any more. */
  predicate Closed(s: Sys, b: BookingId) {
    || (exists j :: 0 <= j < |s.clients| && UnderWay(s.clients[j], b))
    || (b < |s.store.db.bookings| && s.store.db.bookings[b].status != Pending)
  }

  lemma FinalizeCloses(s: Sys, i: nat, ok: bool)
    requires Aligned(s) && i < |s.clients| && s.clients[i].PayFinalize? && s.clients[i].b < |s.accounts|
    ensures var s', b := GoPay(s, i, ok), s.clients[i].b;
            i < |s'.clients| && (UnderWay(s'.clients[i], b) || s'.store.db.bookings[b].status != Pending)
  {
  }

  lemma StaysUnderWay(c: Client, c': Client, b: BookingId)
    requires Follows(c, c') && UnderWay(c, b) && !c.PayFinalize?
    ensures UnderWay(c', b)
  {
  }

  /** The payment at `j` stays under way, or its booking is not pending any more. */
  lemma UnderWayStep(s: Sys, a: Action, b: BookingId, j: nat)
    requires Inv(s) && j < |s.clients| && UnderWay(s.clients[j], b)
    ensures Closed(Step(s, a), b)
  {
    hide SumsOk, TokensOk;
    var s' := Step(s, a);
    assert ClientOk(s, j);
    if a.Go? && a.i == j && s.clients[j].PayFinalize? {
      FinalizeCloses(s, j, a.ok);
      hide UnderWay;
    } else {
      StepEffect(s, a);
      hide Step, Follows, UnderWay;
      if a.Go? && a.i == j {
        StaysUnderWay(s.clients[j], s'.clients[j], b);
      } else if a.Crash? && a.i == j && Running(s.clients[j]) {
        CrashedUnderWay(s.clients[j], b);
      }
      assert UnderWay(s'.clients[j], b);
    }
  }

  lemma CrashedUnderWay(c: Client, b: BookingId)
    requires UnderWay(c, b) && Running(c)
    ensures UnderWay(Dead(c), b)
  {
  }

  lemma StaysClosed(s: Sys, a: Action, b: BookingId)
    requires Inv(s) && Closed(s, b)
    ensures Closed(Step(s, a), b)
  {
    if b < |s.store.db.bookings| && s.store.db.bookings[b].status != Pending {
      StepGrows(s, a);
      assert Grows(RowAt(s, b), RowAt(Step(s, a), b));
    } else {
      var j :| 0 <= j < |s.clients| && UnderWay(s.clients[j], b);
      UnderWayStep(s, a, b, j);
    }
  }

  lemma AcceptCloses(s: Sys, a: Action, b: BookingId)
    requires Aligned(s) && Accepts(s, a, b)
    ensures Closed(Step(s, a), b)
  {
    assert UnderWay(Step(s, a).clients[a.i], b);
  }

  lemma {:induction false} AcceptedOnce(users: set<nat>, actions: seq<Action>, b: BookingId)
    requires LonePayments(Init(users), actions, b)
    ensures Accepted(Init(users), actions, b) <= 1
    ensures Accepted(Init(users), actions, b) == 1 ==> Closed(Run(Init(users), actions), b)
  {
    if actions != [] {
      var front, a := actions[..|actions| - 1], actions[|actions| - 1];
      var s := Run(Init(users), front);
      AcceptedOnce(users, front, b);
      RunKeepsInv(Init(users), front);
      hide Inv, Step, Init;
      if Accepts(s, a, b) {
        assert forall j :: 0 <= j < |s.clients| ==> s.clients[j] in s.clients;
        AcceptCloses(s, a, b);
      } else if Accepted(Init(users), front, b) == 1 {
        StaysClosed(s, a, b);
      }
    }
  }

  /** So a booking is charged at most once in every interleaving in which its payments are alone. */
  lemma LonePaymentsChargeOnce(users: set<nat>, actions: seq<Action>, b: BookingId)
    requires LonePayments(Init(users), actions, b)
    ensures ChargesOf(Run(Init(users), actions), b) <= 1
  {
    AcceptedOnce(users, actions, b);
    ChargesAreAcceptedReads(users, actions, b);
    SumNonNegative(Run(Init(users), actions).clients, StandingAt(b));
  }
}
