/** Payment limits around a connector call (api/connector_execution.go, db/payment_methods.go): a
    request is checked against the limits, the connector runs, and only a success is recorded. Between
    check and record other requests may be checked, so the limits can be overspent; by how much is
    settled exactly. Amounts are in cents, times in seconds. */
module Spending {
  import opened Options

  const THIRTY_DAYS := 2592000.0

  datatype PaymentMethod = PaymentMethod(user: string, perTransaction: Option<int>, monthly: Option<int>)

  datatype Payment = Payment(methodID: string, amount: Option<int>)

  datatype Transaction = Transaction(methodID: string, amount: int, at: real)

  /** A validated payment whose connector call is under way. */
  datatype Resolved = Resolved(methodID: string, amount: int)

  datatype PaymentError = Missing | AmountRequired | InvalidAmount | NotFound | PerTxLimit | MonthlyLimit

  datatype Result<+T> = Ok(value: T) | Err(error: PaymentError)

  /** The sum of a method's transactions of the last thirty days. */
  function Spend(ledger: seq<Transaction>, methodID: string, now: real): int {
    if ledger == [] then 0
    else
      Spend(ledger[..|ledger| - 1], methodID, now) + InWindow(ledger[|ledger| - 1], methodID, now)
  }

  function InWindow(t: Transaction, methodID: string, now: real): int {
    if t.methodID == methodID && t.at >= now - THIRTY_DAYS then t.amount else 0
  }

  /** The checks, in the order in which they refuse a payment. */
  function Validate(methods: map<string, PaymentMethod>, ledger: seq<Transaction>, now: real, user: string, payment: Option<Payment>): Result<Resolved> {
    if payment.None? || payment.value.methodID == "" then Err(Missing)
    else if payment.value.amount.None? then Err(AmountRequired)
    else
      var id, amount := payment.value.methodID, payment.value.amount.value;
      if amount < 0 then Err(InvalidAmount)
      else if id !in methods || methods[id].user != user then Err(NotFound)
      else
        var m := methods[id];
        if m.perTransaction.Some? && amount > m.perTransaction.value then Err(PerTxLimit)
        else if m.monthly.Some? && amount > m.monthly.value - Spend(ledger, id, now) then Err(MonthlyLimit)
        else Ok(Resolved(id, amount))
  }

  /** A payment passes exactly when it names one of the user's methods and an amount that is not
      negative, within the limit for one payment, and within what the month leaves. */
  lemma AcceptedExactly(methods: map<string, PaymentMethod>, ledger: seq<Transaction>, now: real, user: string, payment: Option<Payment>)
    ensures Validate(methods, ledger, now, user, payment).Ok? <==>
      exists id, amount ::
        && payment == Some(Payment(id, Some(amount))) && id != "" && 0 <= amount
        && id in methods && methods[id].user == user
        && (methods[id].perTransaction.Some? ==> amount <= methods[id].perTransaction.value)
        && (methods[id].monthly.Some? ==> Spend(ledger, id, now) + amount <= methods[id].monthly.value)
  {
    if payment.Some? && payment.value.amount.Some? {
      assert payment == Some(Payment(payment.value.methodID, Some(payment.value.amount.value)));
    }
  }

  /** Spending sums the payments of the method in the last thirty days, one by one. */
  lemma SpendIs(ledger: seq<Transaction>, t: Transaction, methodID: string, now: real)
    ensures Spend([], methodID, now) == 0
    ensures Spend(ledger + [t], methodID, now) ==
      Spend(ledger, methodID, now) + if t.methodID == methodID && now - t.at <= 30.0 * 86400.0 then t.amount else 0
  {
    assert (ledger + [t])[..|ledger|] == ledger;
  }

  /** Each refusal by the first thing wrong with the payment. */
  lemma RefusedExactly(methods: map<string, PaymentMethod>, ledger: seq<Transaction>, now: real, user: string, payment: Option<Payment>)
    ensures var r := Validate(methods, ledger, now, user, payment);
      && (r == Err(Missing) <==> payment == None || payment.value.methodID == "")
      && (r == Err(AmountRequired) <==> payment != None && payment.value.methodID != "" && payment.value.amount == None)
      && (forall id, amount :: payment == Some(Payment(id, Some(amount))) && id != "" ==>
            && (r == Err(InvalidAmount) <==> amount < 0)
            && (r == Err(NotFound) <==> amount >= 0 && !(id in methods && methods[id].user == user))
            && (amount >= 0 && id in methods && methods[id].user == user ==>
                  var m := methods[id];
                  && (r == Err(PerTxLimit) <==> m.perTransaction != None && amount > m.perTransaction.value)
                  && (r == Err(MonthlyLimit) <==>
                        !(m.perTransaction != None && amount > m.perTransaction.value) &&
                        m.monthly != None && Spend(ledger, id, now) + amount > m.monthly.value)
                  && (r.Ok? ==> r.value == Resolved(id, amount))))
  {
  }

  class Payments {
    const methods: map<string, PaymentMethod>
    var ledger: seq<Transaction>

    constructor (methods: map<string, PaymentMethod>)
      ensures this.methods == methods && ledger == []
    {
      this.methods, ledger := methods, [];
    }

    method MonthlySpend(methodID: string, now: real) returns (total: int)
      ensures total == Spend(ledger, methodID, now)
    {
      total := 0;
      for i := 0 to |ledger|
        invariant total == Spend(ledger[..i], methodID, now)
      {
        assert ledger[..i + 1][..i] == ledger[..i];
        if ledger[i].methodID == methodID && ledger[i].at >= now - THIRTY_DAYS {
          total := total + ledger[i].amount;
        }
      }
      assert ledger[..|ledger|] == ledger;
    }

    method ValidatePaymentMethod(user: string, payment: Option<Payment>, now: real) returns (r: Result<Resolved>)
      ensures r == Validate(methods, ledger, now, user, payment)
    {
      if payment.None? || payment.value.methodID == "" {
        return Err(Missing);
      }
      if payment.value.amount.None? {
        return Err(AmountRequired);
      }
      var amount := payment.value.amount.value;
      if amount < 0 {
        return Err(InvalidAmount);
      }
      var id := payment.value.methodID;
      if id !in methods || methods[id].user != user {
        return Err(NotFound);
      }
      var m := methods[id];
      if m.perTransaction.Some? && amount > m.perTransaction.value {
        return Err(PerTxLimit);
      }
      if m.monthly.Some? {
        var spent := MonthlySpend(id, now);
        var remaining := m.monthly.value - spent;
        if amount > remaining {
          return Err(MonthlyLimit);
        }
      }
      return Ok(Resolved(id, amount));
    }

    /** One request on its own: nothing is recorded unless the checks pass, the connector succeeds and
        the insert succeeds; a failing insert does not fail the request. */
    method Execute(user: string, payment: Option<Payment>, now: real, later: real, connectorFails: bool, insertFails: bool)
      returns (done: bool, error: Option<PaymentError>)
      modifies this
      ensures var v := Validate(methods, old(ledger), now, user, payment);
        && error == (if v.Err? then Some(v.error) else None)
        && (done <==> v.Ok? && !connectorFails)
        && ledger == (if done && !insertFails then old(ledger) + [Transaction(v.value.methodID, v.value.amount, later)]
                      else old(ledger))
    {
      var v := ValidatePaymentMethod(user, payment, now);
      if v.Err? {
        return false, Some(v.error);
      }
      if connectorFails {
        return false, None;
      }
      if !insertFails {
        ledger := ledger + [Transaction(v.value.methodID, v.value.amount, later)];
      }
      return true, None;
    }
  }

  // ---- Concurrent requests -----------------------------------------------------------------------

  datatype State = State(methods: map<string, PaymentMethod>, ledger: seq<Transaction>, pending: seq<Resolved>, clock: real)

  /** A connector call ends for the pending request at `index`, in success or failure, and the success
      may or may not get recorded. */
  datatype Step =
    | Check(user: string, payment: Option<Payment>)
    | Finish(index: nat, recorded: bool)
    | Wait(until: real)

  function PendingCount(pending: seq<Resolved>, methodID: string): nat {
    if pending == [] then 0
    else PendingCount(pending[..|pending| - 1], methodID) + (if pending[|pending| - 1].methodID == methodID then 1 else 0)
  }

  function PendingAmount(pending: seq<Resolved>, methodID: string): int {
    if pending == [] then 0
    else
      var last := pending[|pending| - 1];
      PendingAmount(pending[..|pending| - 1], methodID) + (if last.methodID == methodID then last.amount else 0)
  }

  /** At most `k` requests of one payment method are between check and record. */
  predicate Enabled(k: nat, s: State, step: Step) {
    match step
    case Check(user, payment) =>
      var v := Validate(s.methods, s.ledger, s.clock, user, payment);
      v.Ok? && PendingCount(s.pending, v.value.methodID) < k
    case Finish(index, _) => index < |s.pending|
    case Wait(until) => s.clock <= until
  }

  function Next(k: nat, s: State, step: Step): State
    requires Enabled(k, s, step)
  {
    match step
    case Check(user, payment) =>
      s.(pending := s.pending + [Validate(s.methods, s.ledger, s.clock, user, payment).value])
    case Finish(index, recorded) =>
      var r := s.pending[index];
      var rest := s.pending[..index] + s.pending[index + 1..];
      if recorded then s.(pending := rest, ledger := s.ledger + [Transaction(r.methodID, r.amount, s.clock)])
      else s.(pending := rest)
    case Wait(until) => s.(clock := until)
  }

  predicate Possible(k: nat, s: State, steps: seq<Step>)
    decreases steps
  {
    steps == [] || (Enabled(k, s, steps[0]) && Possible(k, Next(k, s, steps[0]), steps[1..]))
  }

  function Run(k: nat, s: State, steps: seq<Step>): State
    requires Possible(k, s, steps)
    decreases steps
  {
    if steps == [] then s else Run(k, Next(k, s, steps[0]), steps[1..])
  }

  /** What is recorded in the window together with what is still under way. */
  function Exposure(s: State, methodID: string): int {
    Spend(s.ledger, methodID, s.clock) + PendingAmount(s.pending, methodID)
  }

  /** The most one payment can be: both limits apply to a single payment. */
  function Largest(m: PaymentMethod): int
    requires m.monthly.Some?
  {
    if m.perTransaction.Some? && m.perTransaction.value < m.monthly.value then m.perTransaction.value else m.monthly.value
  }

  /** The monthly limit and one largest payment more for each further request under way. */
  function Bound(m: PaymentMethod, k: nat): nat
    requires m.monthly.Some?
  {
    if k == 0 || Largest(m) <= 0 then 0 else m.monthly.value + (k - 1) * Largest(m)
  }

  // ---- The bound holds -----------------------------------------------------------------------------

  predicate Sane(s: State, methodID: string)
    requires methodID in s.methods && s.methods[methodID].monthly.Some?
  {
    && (forall i :: 0 <= i < |s.ledger| ==> s.ledger[i].amount >= 0)
    && (forall i :: 0 <= i < |s.pending| ==> s.pending[i].amount >= 0)
    && (forall i :: 0 <= i < |s.pending| && s.pending[i].methodID == methodID ==> s.pending[i].amount <= Largest(s.methods[methodID]))
  }

  lemma {:induction false} SpendFalls(ledger: seq<Transaction>, methodID: string, now: real, later: real)
    requires now <= later && forall i :: 0 <= i < |ledger| ==> ledger[i].amount >= 0
    ensures 0 <= Spend(ledger, methodID, later) <= Spend(ledger, methodID, now)
  {
    if ledger != [] {
      SpendFalls(ledger[..|ledger| - 1], methodID, now, later);
    }
  }

  lemma SpendMore(ledger: seq<Transaction>, t: Transaction, methodID: string, now: real)
    ensures Spend(ledger + [t], methodID, now) == Spend(ledger, methodID, now) + InWindow(t, methodID, now)
  {
    assert (ledger + [t])[..|ledger|] == ledger;
  }

  lemma PendingMore(pending: seq<Resolved>, r: Resolved, methodID: string)
    ensures PendingAmount(pending + [r], methodID) == PendingAmount(pending, methodID) + (if r.methodID == methodID then r.amount else 0)
    ensures PendingCount(pending + [r], methodID) == PendingCount(pending, methodID) + (if r.methodID == methodID then 1 else 0)
  {
    assert (pending + [r])[..|pending|] == pending;
  }

  lemma {:induction false} PendingLess(pending: seq<Resolved>, i: nat, methodID: string)
    requires i < |pending|
    ensures var rest := pending[..i] + pending[i + 1..];
      && PendingAmount(pending, methodID) == PendingAmount(rest, methodID) + (if pending[i].methodID == methodID then pending[i].amount else 0)
      && PendingCount(pending, methodID) == PendingCount(rest, methodID) + (if pending[i].methodID == methodID then 1 else 0)
  {
    var last := |pending| - 1;
    if i == last {
      assert pending[..i] + pending[i + 1..] == pending[..last];
    } else {
      PendingLess(pending[..last], i, methodID);
      assert pending[..i] + pending[i + 1..] == (pending[..last][..i] + pending[..last][i + 1..]) + [pending[last]];
      PendingMore(pending[..last][..i] + pending[..last][i + 1..], pending[last], methodID);
    }
  }

  lemma {:induction false} PendingIsSmall(pending: seq<Resolved>, methodID: string, largest: int)
    requires forall i :: 0 <= i < |pending| ==> pending[i].amount >= 0
    requires forall i :: 0 <= i < |pending| && pending[i].methodID == methodID ==> pending[i].amount <= largest
    ensures 0 <= PendingAmount(pending, methodID) <= PendingCount(pending, methodID) * largest
  {
    if pending != [] {
      PendingIsSmall(pending[..|pending| - 1], methodID, largest);
    }
  }

  lemma CheckStepKeepsBound(k: nat, s: State, step: Step, methodID: string)
    requires methodID in s.methods && s.methods[methodID].monthly.Some?
    requires step.Check? && Enabled(k, s, step)
    requires Sane(s, methodID) && Exposure(s, methodID) <= Bound(s.methods[methodID], k)
    ensures Sane(Next(k, s, step), methodID) && Exposure(Next(k, s, step), methodID) <= Bound(s.methods[methodID], k)
  {
    hide Bound, Spend, PendingAmount, PendingCount;
    var r := Validate(s.methods, s.ledger, s.clock, step.user, step.payment).value;
    PendingMore(s.pending, r, methodID);
    SpendFalls(s.ledger, methodID, s.clock, s.clock);
    if r.methodID == methodID {
      CheckKeepsBound(k, s, methodID, r.amount);
    }
  }

  lemma FinishStepKeepsBound(k: nat, s: State, step: Step, methodID: string)
    requires methodID in s.methods && s.methods[methodID].monthly.Some?
    requires step.Finish? && Enabled(k, s, step)
    requires Sane(s, methodID) && Exposure(s, methodID) <= Bound(s.methods[methodID], k)
    ensures Sane(Next(k, s, step), methodID) && Exposure(Next(k, s, step), methodID) <= Bound(s.methods[methodID], k)
  {
    hide Bound, Largest, Spend, PendingAmount, PendingCount;
    var r := s.pending[step.index];
    PendingLess(s.pending, step.index, methodID);
    SpendMore(s.ledger, Transaction(r.methodID, r.amount, s.clock), methodID, s.clock);
  }

  lemma WaitStepKeepsBound(k: nat, s: State, step: Step, methodID: string)
    requires methodID in s.methods && s.methods[methodID].monthly.Some?
    requires step.Wait? && Enabled(k, s, step)
    requires Sane(s, methodID) && Exposure(s, methodID) <= Bound(s.methods[methodID], k)
    ensures Sane(Next(k, s, step), methodID) && Exposure(Next(k, s, step), methodID) <= Bound(s.methods[methodID], k)
  {
    hide Bound, Largest, Spend, PendingAmount, PendingCount;
    SpendFalls(s.ledger, methodID, s.clock, step.until);
  }

  lemma StepKeepsBound(k: nat, s: State, step: Step, methodID: string)
    requires methodID in s.methods && s.methods[methodID].monthly.Some?
    requires Enabled(k, s, step) && Sane(s, methodID) && Exposure(s, methodID) <= Bound(s.methods[methodID], k)
    ensures Sane(Next(k, s, step), methodID) && Exposure(Next(k, s, step), methodID) <= Bound(s.methods[methodID], k)
  {
    hide Bound, Exposure, Sane, Next, Enabled;
    match step
    case Check(_, _) => CheckStepKeepsBound(k, s, step, methodID);
    case Finish(_, _) => FinishStepKeepsBound(k, s, step, methodID);
    case Wait(_) => WaitStepKeepsBound(k, s, step, methodID);
  }

  lemma CheckKeepsBound(k: nat, s: State, methodID: string, amount: int)
    requires methodID in s.methods && s.methods[methodID].monthly.Some? && Sane(s, methodID)
    requires PendingCount(s.pending, methodID) < k && 0 <= amount <= Largest(s.methods[methodID])
    requires amount <= s.methods[methodID].monthly.value - Spend(s.ledger, methodID, s.clock)
    requires Spend(s.ledger, methodID, s.clock) >= 0 && Exposure(s, methodID) <= Bound(s.methods[methodID], k)
    ensures Exposure(s, methodID) + amount <= Bound(s.methods[methodID], k)
  {
    hide Spend, PendingAmount, PendingCount;
    var largest, count := Largest(s.methods[methodID]), PendingCount(s.pending, methodID);
    if largest > 0 {
      PendingIsSmall(s.pending, methodID, largest);
      MoreRequestsMore(count, k - 1, largest);
    }
  }

  lemma MoreRequestsMore(a: nat, b: nat, largest: nat)
    requires a <= b
    ensures a * largest <= b * largest
  {
  }

  lemma {:induction false} RunKeepsBound(k: nat, s: State, steps: seq<Step>, methodID: string)
    requires methodID in s.methods && s.methods[methodID].monthly.Some?
    requires Possible(k, s, steps) && Sane(s, methodID) && Exposure(s, methodID) <= Bound(s.methods[methodID], k)
    ensures Run(k, s, steps).methods == s.methods && Sane(Run(k, s, steps), methodID)
    ensures Exposure(Run(k, s, steps), methodID) <= Bound(s.methods[methodID], k)
    decreases steps
  {
    hide Sane, Exposure, Bound, Enabled;
    if steps != [] {
      StepKeepsBound(k, s, steps[0], methodID);
      assert Next(k, s, steps[0]).methods == s.methods;
      RunKeepsBound(k, Next(k, s, steps[0]), steps[1..], methodID);
    }
  }

  // ---- The bound is reached --------------------------------------------------------------------------

  function Start(methods: map<string, PaymentMethod>, clock: real): State {
    State(methods, [], [], clock)
  }

  function Pay(m: PaymentMethod, amount: int): Step {
    Check(m.user, Some(Payment("m", Some(amount))))
  }

  /** One payment after the other, each the largest possible, until `total` is recorded. */
  function Serially(m: PaymentMethod, total: nat): seq<Step>
    requires m.monthly.Some? && Largest(m) > 0
  {
    if total == 0 then []
    else
      var amount := if total < Largest(m) then total else Largest(m);
      [Pay(m, amount), Finish(0, true)] + Serially(m, total - amount)
  }

  /** `n` largest payments checked before any of them is recorded. */
  function AtOnce(m: PaymentMethod, n: nat): seq<Step>
    requires m.monthly.Some?
  {
    if n == 0 then [] else [Pay(m, Largest(m))] + AtOnce(m, n - 1)
  }

  lemma {:induction false} Append(k: nat, s: State, steps: seq<Step>, more: seq<Step>)
    requires Possible(k, s, steps) && Possible(k, Run(k, s, steps), more)
    ensures Possible(k, s, steps + more) && Run(k, s, steps + more) == Run(k, Run(k, s, steps), more)
    decreases steps
  {
    if steps == [] {
      assert [] + more == more;
    } else {
      Append(k, Next(k, s, steps[0]), steps[1..], more);
      assert (steps + more)[1..] == steps[1..] + more;
    }
  }

  lemma PayOnce(k: nat, s: State, m: PaymentMethod, amount: int)
    requires k > 0 && m.monthly.Some? && "m" in s.methods && s.methods["m"] == m && 0 <= amount <= Largest(m)
    requires s.pending == [] && Spend(s.ledger, "m", s.clock) + amount <= m.monthly.value
    ensures var steps := [Pay(m, amount), Finish(0, true)];
      Possible(k, s, steps) && Run(k, s, steps) == s.(ledger := s.ledger + [Transaction("m", amount, s.clock)])
  {
    var steps := [Pay(m, amount), Finish(0, true)];
    var s1 := Next(k, s, steps[0]);
    assert s1.pending == [Resolved("m", amount)];
    assert s1.pending[..0] + s1.pending[1..] == [];
    assert steps[1..] == [steps[1]] && steps[1..][1..] == [];
    var s2 := s.(ledger := s.ledger + [Transaction("m", amount, s.clock)]);
    assert Next(k, s1, steps[1]) == s2;
    Stay(k, s2);
    assert Possible(k, s1, steps[1..]) && Run(k, s1, steps[1..]) == s2;
  }

  lemma {:induction false} SeriallyReaches(k: nat, s: State, m: PaymentMethod, total: nat)
    requires k > 0 && m.monthly.Some? && Largest(m) > 0 && "m" in s.methods && s.methods["m"] == m
    requires s.pending == [] && Spend(s.ledger, "m", s.clock) + total <= m.monthly.value
    ensures Possible(k, s, Serially(m, total))
    ensures var e := Run(k, s, Serially(m, total));
      e.methods == s.methods && e.clock == s.clock && e.pending == [] &&
      Spend(e.ledger, "m", e.clock) == Spend(s.ledger, "m", s.clock) + total
    decreases total
  {
    hide Possible, Run, Validate;
    if total == 0 {
      Stay(k, s);
    } else {
      var amount := if total < Largest(m) then total else Largest(m);
      PayOnce(k, s, m, amount);
      var t := Transaction("m", amount, s.clock);
      var s' := s.(ledger := s.ledger + [t]);
      SpendMore(s.ledger, t, "m", s.clock);
      SeriallyReaches(k, s', m, total - amount);
      Append(k, s, [Pay(m, amount), Finish(0, true)], Serially(m, total - amount));
    }
  }

  lemma OneMore(k: nat, s: State, step: Step, rest: seq<Step>)
    requires Enabled(k, s, step) && Possible(k, Next(k, s, step), rest)
    ensures Possible(k, s, [step] + rest) && Run(k, s, [step] + rest) == Run(k, Next(k, s, step), rest)
  {
    assert ([step] + rest)[1..] == rest;
  }

  lemma Stay(k: nat, s: State)
    ensures Possible(k, s, []) && Run(k, s, []) == s
  {
  }

  lemma {:induction false} AtOnceReaches(k: nat, s: State, m: PaymentMethod, n: nat)
    requires m.monthly.Some? && Largest(m) > 0 && "m" in s.methods && s.methods["m"] == m
    requires PendingCount(s.pending, "m") + n <= k && Spend(s.ledger, "m", s.clock) + Largest(m) <= m.monthly.value
    ensures Possible(k, s, AtOnce(m, n))
    ensures Exposure(Run(k, s, AtOnce(m, n)), "m") == Exposure(s, "m") + n * Largest(m)
    decreases n
  {
    hide Possible, Run, Spend;
    if n == 0 {
      Stay(k, s);
    } else {
      var r := Resolved("m", Largest(m));
      PendingMore(s.pending, r, "m");
      var s' := s.(pending := s.pending + [r]);
      assert Next(k, s, Pay(m, Largest(m))) == s';
      AtOnceReaches(k, s', m, n - 1);
      OneMore(k, s, Pay(m, Largest(m)), AtOnce(m, n - 1));
      var largest := Largest(m);
      assert n * largest == (n - 1) * largest + largest;
    }
  }

  /** No run with at most `k` payments of the method under way ever exposes more than `limit`. */
  ghost predicate NeverExceeds(m: PaymentMethod, k: nat, limit: int) {
    forall methods: map<string, PaymentMethod>, id: string, clock: real, steps: seq<Step> ::
      id in methods && methods[id] == m && Possible(k, Start(methods, clock), steps) ==>
        Exposure(Run(k, Start(methods, clock), steps), id) <= limit
  }

  lemma BoundIsReached(m: PaymentMethod, k: nat)
    requires m.monthly.Some?
    ensures exists steps ::
      Possible(k, Start(map["m" := m], 0.0), steps) && Exposure(Run(k, Start(map["m" := m], 0.0), steps), "m") == Bound(m, k)
  {
    hide Possible, Run, Spend, PendingAmount, PendingCount;
    var s := Start(map["m" := m], 0.0);
    NothingExposed(s, "m");
    if k == 0 || Largest(m) <= 0 {
      Stay(k, s);
    } else {
      var before, at := Serially(m, m.monthly.value - Largest(m)), AtOnce(m, k);
      SeriallyReaches(k, s, m, m.monthly.value - Largest(m));
      var paid := Run(k, s, before);
      NothingExposed(paid.(ledger := []), "m");
      AtOnceReaches(k, paid, m, k);
      Append(k, s, before, at);
      var largest := Largest(m);
      assert k * largest == (k - 1) * largest + largest;
    }
  }

  lemma NothingExposed(s: State, methodID: string)
    requires s.ledger == [] && s.pending == []
    ensures Spend(s.ledger, methodID, s.clock) == 0
    ensures PendingAmount(s.pending, methodID) == 0 && PendingCount(s.pending, methodID) == 0
  {
  }

  /** The exact overspend: the monthly limit plus one largest payment for each request beyond the
      first between check and record. */
  lemma OverspendIsExactly(m: PaymentMethod, k: nat, limit: int)
    requires m.monthly.Some?
    ensures NeverExceeds(m, k, limit) <==> Bound(m, k) <= limit
  {
    if Bound(m, k) <= limit {
      forall methods: map<string, PaymentMethod>, id: string, clock: real, steps: seq<Step>
        | id in methods && methods[id] == m && Possible(k, Start(methods, clock), steps)
        ensures Exposure(Run(k, Start(methods, clock), steps), id) <= limit
      {
        RunKeepsBound(k, Start(methods, clock), steps, id);
      }
    } else {
      BoundIsReached(m, k);
    }
  }

  /** One payment at a time: what is recorded in any thirty days never exceeds the monthly limit. */
  lemma SerialSpendingStaysWithinLimit(s: State, steps: seq<Step>, methodID: string)
    requires methodID in s.methods && s.methods[methodID].monthly.Some? && s.methods[methodID].monthly.value >= 0
    requires s.ledger == [] && s.pending == [] && Possible(1, s, steps)
    ensures Spend(Run(1, s, steps).ledger, methodID, Run(1, s, steps).clock) <= s.methods[methodID].monthly.value
  {
    RunKeepsBound(1, s, steps, methodID);
    PendingIsSmall(Run(1, s, steps).pending, methodID, Largest(s.methods[methodID]));
  }

  // ---- Any thirty days -----------------------------------------------------------------------------

  /** A payment may start exactly when the checks pass and fewer than `k` of its method are under way; a call
      under way may end; and time may pass. */
  lemma EnabledExactly(k: nat, s: State, user: string, payment: Option<Payment>, index: nat, recorded: bool, until: real)
    ensures Enabled(k, s, Check(user, payment)) <==>
      Validate(s.methods, s.ledger, s.clock, user, payment).Ok? &&
      PendingCount(s.pending, Validate(s.methods, s.ledger, s.clock, user, payment).value.methodID) < k
    ensures Enabled(k, s, Finish(index, recorded)) <==> index < |s.pending|
    ensures Enabled(k, s, Wait(until)) <==> until >= s.clock
  {
  }

  /** Only a recorded success enters the ledger, with the time of its recording. */
  lemma StepsAre(k: nat, s: State, user: string, payment: Option<Payment>, index: nat, recorded: bool, until: real)
    ensures Enabled(k, s, Check(user, payment)) ==>
      && payment.Some? && payment.value.amount.Some?
      && Next(k, s, Check(user, payment)) ==
           s.(pending := s.pending + [Resolved(payment.value.methodID, payment.value.amount.value)])
    ensures index < |s.pending| ==>
      var s' := Next(k, s, Finish(index, recorded));
      && s'.pending == s.pending[..index] + s.pending[index + 1..] && s'.methods == s.methods && s'.clock == s.clock
      && s'.ledger == s.ledger +
           if recorded then [Transaction(s.pending[index].methodID, s.pending[index].amount, s.clock)] else []
    ensures until >= s.clock ==> Next(k, s, Wait(until)) == s.(clock := until)
  {
  }

  /** What the ledger holds for the method between two moments. */
  function Recorded(ledger: seq<Transaction>, methodID: string, from: real, to: real): int {
    if ledger == [] then 0
    else
      var t := ledger[|ledger| - 1];
      Recorded(ledger[..|ledger| - 1], methodID, from, to) +
      if t.methodID == methodID && from <= t.at <= to then t.amount else 0
  }

  /** When each entry was made, the thirty days before it held no more than the bound. */
  ghost predicate Bounded(ledger: seq<Transaction>, methodID: string, bound: int) {
    && (forall i :: 0 <= i < |ledger| ==> ledger[i].amount >= 0)
    && (forall i :: 0 <= i < |ledger| && ledger[i].methodID == methodID ==> Spend(ledger[..i + 1], methodID, ledger[i].at) <= bound)
  }

  lemma {:induction false} RecordedInWindow(ledger: seq<Transaction>, methodID: string, from: real, to: real, now: real)
    requires now - 30.0 * 86400.0 <= from && forall i :: 0 <= i < |ledger| ==> ledger[i].amount >= 0
    ensures Recorded(ledger, methodID, from, to) <= Spend(ledger, methodID, now)
  {
    if ledger != [] {
      RecordedInWindow(ledger[..|ledger| - 1], methodID, from, to, now);
      SpendIs(ledger[..|ledger| - 1], ledger[|ledger| - 1], methodID, now);
      assert ledger == ledger[..|ledger| - 1] + [ledger[|ledger| - 1]];
    }
  }

  lemma {:induction false} BoundedInAnyWindow(ledger: seq<Transaction>, methodID: string, bound: nat, from: real)
    requires Bounded(ledger, methodID, bound)
    ensures Recorded(ledger, methodID, from, from + 30.0 * 86400.0) <= bound
  {
    hide Spend;
    if ledger != [] {
      var last := ledger[|ledger| - 1];
      if last.methodID == methodID && from <= last.at <= from + 30.0 * 86400.0 {
        assert ledger[..|ledger| - 1 + 1] == ledger;
        RecordedInWindow(ledger, methodID, from, from + 30.0 * 86400.0, last.at);
      } else {
        var before := ledger[..|ledger| - 1];
        assert forall i :: 0 <= i < |before| ==> before[..i + 1] == ledger[..i + 1] && before[i] == ledger[i];
        BoundedInAnyWindow(before, methodID, bound, from);
      }
    }
  }

  lemma StepKeepsBounded(k: nat, s: State, step: Step, methodID: string)
    requires methodID in s.methods && s.methods[methodID].monthly.Some? && Enabled(k, s, step)
    requires Sane(s, methodID) && Exposure(s, methodID) <= Bound(s.methods[methodID], k)
    requires Bounded(s.ledger, methodID, Bound(s.methods[methodID], k))
    ensures Bounded(Next(k, s, step).ledger, methodID, Bound(s.methods[methodID], k))
  {
    StepKeepsBound(k, s, step, methodID);
    hide Spend, Bound, Largest, PendingAmount, PendingCount, Validate;
    var s' := Next(k, s, step);
    if s'.ledger != s.ledger {
      var n := |s.ledger|;
      assert s'.ledger[..n] == s.ledger && s'.ledger[..n + 1] == s'.ledger;
      assert forall i :: 0 <= i < n ==> s'.ledger[..i + 1] == s.ledger[..i + 1] && s'.ledger[i] == s.ledger[i];
      PendingIsSmall(s'.pending, methodID, Largest(s.methods[methodID]));
      assert Spend(s'.ledger, methodID, s'.clock) <= Bound(s.methods[methodID], k);
    }
  }

  lemma {:induction false} RunKeepsBounded(k: nat, s: State, steps: seq<Step>, methodID: string)
    requires methodID in s.methods && s.methods[methodID].monthly.Some? && Possible(k, s, steps)
    requires Sane(s, methodID) && Exposure(s, methodID) <= Bound(s.methods[methodID], k)
    requires Bounded(s.ledger, methodID, Bound(s.methods[methodID], k))
    ensures Bounded(Run(k, s, steps).ledger, methodID, Bound(s.methods[methodID], k))
    decreases steps
  {
    hide Sane, Exposure, Bound, Enabled, Bounded;
    if steps != [] {
      StepKeepsBound(k, s, steps[0], methodID);
      StepKeepsBounded(k, s, steps[0], methodID);
      assert Next(k, s, steps[0]).methods == s.methods;
      RunKeepsBounded(k, Next(k, s, steps[0]), steps[1..], methodID);
    }
  }

  /** Over every run, with at most `k` payments of the method under way at once, any thirty days hold no more
      recorded payments than the bound. */
  lemma AnyThirtyDaysAreBounded(k: nat, s: State, steps: seq<Step>, methodID: string, from: real)
    requires methodID in s.methods && s.methods[methodID].monthly.Some?
    requires s.ledger == [] && s.pending == [] && Possible(k, s, steps)
    ensures Recorded(Run(k, s, steps).ledger, methodID, from, from + 30.0 * 86400.0) <= Bound(s.methods[methodID], k)
  {
    RunKeepsBounded(k, s, steps, methodID);
    BoundedInAnyWindow(Run(k, s, steps).ledger, methodID, Bound(s.methods[methodID], k), from);
  }

  /** One payment at a time, any thirty days stay within the monthly limit. */
  lemma AnyThirtyDaysStayWithinLimit(s: State, steps: seq<Step>, methodID: string, from: real)
    requires methodID in s.methods && s.methods[methodID].monthly.Some? && s.methods[methodID].monthly.value >= 0
    requires s.ledger == [] && s.pending == [] && Possible(1, s, steps)
    ensures Recorded(Run(1, s, steps).ledger, methodID, from, from + 30.0 * 86400.0) <= s.methods[methodID].monthly.value
  {
    AnyThirtyDaysAreBounded(1, s, steps, methodID, from);
  }
}
