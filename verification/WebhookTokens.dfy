/** The wake-webhook token of an agent: the agent's row names a vault secret (api/agent_webhook.go,
    db/agent_webhook.go). Setting and clearing are not transactional, so every statement of every
    request is a step of its own, and requests interleave at will. */
module WebhookTokens {
  import opened Octets
  import opened Options

  type Id = nat

  /** Where a request stands between two statements. `prev` is what it read from the row, `own` the
      secret it created, `target` the secret it deletes last. */
  datatype Request =
    | ToSet(agent: nat, prev: Option<Id>)
    | ToStore(agent: nat, prev: Option<Id>, own: Id)
    | ToClear(agent: nat, prev: Option<Id>)
    | ToDelete(agent: nat, target: Option<Id>)

  /** `rows` gives each agent's token id, `next` a secret id that was never handed out. */
  datatype State = State(vault: set<Id>, rows: map<nat, Option<Id>>, requests: map<nat, Request>, next: Id)

  datatype Step =
    | LoadForPut(p: nat, agent: nat)
    | LoadForDelete(p: nat, agent: nat)
    | Create(p: nat)
    | Store(p: nat)
    | StoreFails(p: nat)
    | Clear(p: nat)
    | Delete(p: nat)
    | Stop(p: nat)

  predicate Enabled(s: State, step: Step) {
    match step
    case LoadForPut(p, agent) => p !in s.requests
    case LoadForDelete(p, agent) => p !in s.requests && agent in s.rows
    case Create(p) => p in s.requests && s.requests[p].ToSet?
    case Store(p) => p in s.requests && s.requests[p].ToStore?
    case StoreFails(p) => p in s.requests && s.requests[p].ToStore?
    case Clear(p) => p in s.requests && s.requests[p].ToClear?
    case Delete(p) => p in s.requests && s.requests[p].ToDelete?
    case Stop(p) => p in s.requests
  }

  function Row(s: State, agent: nat): Option<Id> {
    if agent in s.rows then s.rows[agent] else None
  }

  /** An update of an agent that has no row changes nothing. */
  function Update(rows: map<nat, Option<Id>>, agent: nat, id: Option<Id>): map<nat, Option<Id>> {
    if agent in rows then rows[agent := id] else rows
  }

  function Next(s: State, step: Step): State
    requires Enabled(s, step)
  {
    match step
    case LoadForPut(p, agent) => s.(requests := s.requests[p := ToSet(agent, Row(s, agent))])
    case LoadForDelete(p, agent) => s.(requests := s.requests[p := ToClear(agent, Row(s, agent))])
    case Create(p) =>
      var r := s.requests[p];
      s.(vault := s.vault + {s.next}, next := s.next + 1, requests := s.requests[p := ToStore(r.agent, r.prev, s.next)])
    case Store(p) =>
      var r := s.requests[p];
      s.(rows := Update(s.rows, r.agent, Some(r.own)), requests := s.requests[p := ToDelete(r.agent, r.prev)])
    case StoreFails(p) =>
      var r := s.requests[p];
      s.(requests := s.requests[p := ToDelete(r.agent, Some(r.own))])
    case Clear(p) =>
      var r := s.requests[p];
      s.(rows := Update(s.rows, r.agent, None), requests := s.requests[p := ToDelete(r.agent, r.prev)])
    case Delete(p) =>
      s.(vault := s.vault - Ids(s.requests[p].target), requests := s.requests - {p})
    case Stop(p) => s.(requests := s.requests - {p})
  }

  function Ids(id: Option<Id>): set<Id> {
    if id.Some? then {id.value} else {}
  }

  predicate Possible(s: State, steps: seq<Step>)
    decreases steps
  {
    steps == [] || (Enabled(s, steps[0]) && Possible(Next(s, steps[0]), steps[1..]))
  }

  function Run(s: State, steps: seq<Step>): State
    requires Possible(s, steps)
    decreases steps
  {
    if steps == [] then s else Run(Next(s, steps[0]), steps[1..])
  }

  /** When each statement may run: the next of its request, and a first one for a request that is new; a DELETE
      needs the agent's row. */
  lemma EnabledExactly(s: State, p: nat, agent: nat)
    ensures Enabled(s, LoadForPut(p, agent)) <==> p !in s.requests
    ensures Enabled(s, LoadForDelete(p, agent)) <==> p !in s.requests && agent in s.rows
    ensures Enabled(s, Stop(p)) <==> p in s.requests
    ensures p in s.requests ==>
      match s.requests[p]
      case ToSet(_, _) => Enabled(s, Create(p)) && !Enabled(s, Store(p)) && !Enabled(s, StoreFails(p)) && !Enabled(s, Clear(p)) && !Enabled(s, Delete(p))
      case ToStore(_, _, _) => !Enabled(s, Create(p)) && Enabled(s, Store(p)) && Enabled(s, StoreFails(p)) && !Enabled(s, Clear(p)) && !Enabled(s, Delete(p))
      case ToClear(_, _) => !Enabled(s, Create(p)) && !Enabled(s, Store(p)) && !Enabled(s, StoreFails(p)) && Enabled(s, Clear(p)) && !Enabled(s, Delete(p))
      case ToDelete(_, _) => !Enabled(s, Create(p)) && !Enabled(s, Store(p)) && !Enabled(s, StoreFails(p)) && !Enabled(s, Clear(p)) && Enabled(s, Delete(p))
  {
  }

  // ---- No dangling token -------------------------------------------------------------------------

  predicate OnRow(s: State, agent: nat, id: Id) {
    agent in s.rows && s.rows[agent] == Some(id)
  }

  /** The ids a request read or created and may still act on. */
  function Claims(r: Request): set<Id> {
    match r
    case ToSet(_, prev) => Ids(prev)
    case ToStore(_, prev, own) => Ids(prev) + {own}
    case ToClear(_, prev) => Ids(prev)
    case ToDelete(_, target) => Ids(target)
  }

  ghost predicate RowsSound(s: State, others: set<Id>) {
    && (forall id :: id in s.vault ==> id < s.next)
    && others <= s.vault
    && (forall a, id :: OnRow(s, a, id) ==> id in s.vault && id !in others)
    && (forall a1, a2, id :: OnRow(s, a1, id) && OnRow(s, a2, id) ==> a1 == a2)
  }

  /** What a request may still do never hurts: a secret it created is its alone and not yet on a row,
      a secret it is about to delete is off every row for good, and what it read may be on the row it
      read and nowhere else. */
  ghost predicate RequestSound(s: State, others: set<Id>, p: nat)
    requires p in s.requests
  {
    var r := s.requests[p];
    && (forall id :: id in Claims(r) ==> id < s.next && id !in others)
    && (r.ToStore? ==> r.own in s.vault && Some(r.own) != r.prev && forall a :: !OnRow(s, a, r.own))
    && (r.ToDelete? ==> forall a, id :: id in Ids(r.target) ==> !OnRow(s, a, id))
    && (!r.ToDelete? ==> forall a, id :: id in Ids(r.prev) && OnRow(s, a, id) ==> a == r.agent)
  }

  predicate Apart(s: State, p: nat, q: nat)
    requires p in s.requests && q in s.requests
  {
    s.requests[p].ToStore? ==> s.requests[p].own !in Claims(s.requests[q])
  }

  /** `others` are the secrets the rest of the system keeps in the vault. */
  ghost predicate Inv(s: State, others: set<Id>) {
    && RowsSound(s, others)
    && (forall p :: p in s.requests ==> RequestSound(s, others, p))
    && (forall p, q :: p in s.requests && q in s.requests && p != q ==> Apart(s, p, q))
  }

  /** Only storing and clearing move ids on and off a row, and only on the row of their agent. */
  lemma RowsAfter(s: State, step: Step, a: nat, id: Id)
    requires Enabled(s, step)
    ensures OnRow(Next(s, step), a, id) <==>
      if (step.Store? || step.Clear?) && a == s.requests[step.p].agent
      then step.Store? && a in s.rows && id == s.requests[step.p].own
      else OnRow(s, a, id)
  {
  }

  lemma StepKeepsRows(s: State, step: Step, others: set<Id>)
    requires Inv(s, others) && Enabled(s, step)
    ensures RowsSound(Next(s, step), others)
  {
    var s' := Next(s, step);
    assert step.p in s.requests ==> RequestSound(s, others, step.p);
    forall a, id | OnRow(s', a, id) ensures id in s'.vault && id !in others {
      RowsAfter(s, step, a, id);
    }
    forall a1, a2, id | OnRow(s', a1, id) && OnRow(s', a2, id) ensures a1 == a2 {
      RowsAfter(s, step, a1, id);
      RowsAfter(s, step, a2, id);
    }
  }

  lemma StepKeepsRequest(s: State, step: Step, others: set<Id>, p: nat)
    requires Inv(s, others) && Enabled(s, step) && p in Next(s, step).requests
    ensures RequestSound(Next(s, step), others, p)
  {
    var s' := Next(s, step);
    assert forall id :: id in others ==> id in s.vault;
    assert step.p in s.requests ==> RequestSound(s, others, step.p);
    if p in s.requests {
      assert RequestSound(s, others, p);
      assert step.p in s.requests && p != step.p ==> Apart(s, step.p, p) && Apart(s, p, step.p);
    } else {
      assert forall a, id :: Row(s, a) == Some(id) ==> OnRow(s, a, id);
    }
    forall a, id ensures OnRow(s', a, id) <==>
      if (step.Store? || step.Clear?) && a == s.requests[step.p].agent
      then step.Store? && a in s.rows && id == s.requests[step.p].own
      else OnRow(s, a, id) {
      RowsAfter(s, step, a, id);
    }
  }

  lemma StepKeepsInv(s: State, step: Step, others: set<Id>)
    requires Inv(s, others) && Enabled(s, step)
    ensures Inv(Next(s, step), others)
  {
    var s' := Next(s, step);
    StepKeepsRows(s, step, others);
    forall p | p in s'.requests ensures RequestSound(s', others, p) {
      StepKeepsRequest(s, step, others, p);
    }
    forall p, q | p in s'.requests && q in s'.requests && p != q ensures Apart(s', p, q) {
      StepKeepsApart(s, step, others, p, q);
    }
  }

  lemma StepKeepsApart(s: State, step: Step, others: set<Id>, p: nat, q: nat)
    requires Inv(s, others) && Enabled(s, step) && p != q
    requires p in Next(s, step).requests && q in Next(s, step).requests
    ensures Apart(Next(s, step), p, q)
  {
    assert p in s.requests ==> RequestSound(s, others, p);
    assert q in s.requests ==> RequestSound(s, others, q);
    assert p in s.requests && q in s.requests ==> Apart(s, p, q);
    assert forall a, id :: Row(s, a) == Some(id) ==> OnRow(s, a, id);
  }

  /** Over every interleaving, with any failures: a token id on a row is in the vault, rows share no
      secret, and the rest of the system loses none of its own. */
  lemma {:induction false} NoTokenDangles(s: State, steps: seq<Step>, others: set<Id>)
    requires Inv(s, others) && Possible(s, steps)
    ensures Inv(Run(s, steps), others)
    ensures forall agent, id :: OnRow(Run(s, steps), agent, id) ==> id in Run(s, steps).vault
    ensures others <= Run(s, steps).vault
    decreases steps
  {
    if steps != [] {
      StepKeepsInv(s, steps[0], others);
      NoTokenDangles(Next(s, steps[0]), steps[1..], others);
    }
  }

  // ---- Stores that report an error and took effect ---------------------------------------------------

  /** A statement as its request sees it: it does what it reports, or it stores the token and still
      reports an error, so that the request goes on to delete what is now on the row. */
  datatype Reported = Honest(step: Step) | FalseError(p: nat)

  predicate CanReport(s: State, r: Reported) {
    match r
    case Honest(step) => Enabled(s, step)
    case FalseError(p) => p in s.requests && s.requests[p].ToStore?
  }

  function AfterReport(s: State, r: Reported): State
    requires CanReport(s, r)
  {
    match r
    case Honest(step) => Next(s, step)
    case FalseError(p) =>
      var q := s.requests[p];
      s.(rows := Update(s.rows, q.agent, Some(q.own)), requests := s.requests[p := ToDelete(q.agent, Some(q.own))])
  }

  predicate PossibleReports(s: State, run: seq<Reported>)
    decreases run
  {
    run == [] || (CanReport(s, run[0]) && PossibleReports(AfterReport(s, run[0]), run[1..]))
  }

  function RunReports(s: State, run: seq<Reported>): State
    requires PossibleReports(s, run)
    decreases run
  {
    if run == [] then s else RunReports(AfterReport(s, run[0]), run[1..])
  }

  ghost predicate NothingDangles(s: State) {
    forall agent, id :: OnRow(s, agent, id) ==> id in s.vault
  }

  /** What becomes of a false error: deleting the token leaves the row dangling, and giving up instead
      leaves everything sound. */
  lemma FalseErrorDanglesExactly(s: State, p: nat, deletes: bool, others: set<Id>)
    requires Inv(s, others) && CanReport(s, FalseError(p)) && s.requests[p].agent in s.rows
    ensures var s1 := AfterReport(s, FalseError(p));
      var s2 := Next(s1, if deletes then Delete(p) else Stop(p));
      && (NothingDangles(s2) <==> !deletes)
      && (!deletes ==> Inv(s2, others))
  {
    var q := s.requests[p];
    var s1 := AfterReport(s, FalseError(p));
    var s2 := Next(s1, if deletes then Delete(p) else Stop(p));
    assert RequestSound(s, others, p);
    assert OnRow(s2, q.agent, q.own);
    if !deletes {
      StepKeepsInv(s, Store(p), others);
      StepKeepsInv(Next(s, Store(p)), Stop(p), others);
      assert s2.requests == Next(Next(s, Store(p)), Stop(p)).requests;
      assert s2 == Next(Next(s, Store(p)), Stop(p));
    }
  }

  predicate AllHonest(run: seq<Reported>) {
    forall i :: 0 <= i < |run| ==> run[i].Honest?
  }

  lemma {:induction false} HonestRunsKeepInv(s: State, run: seq<Reported>, others: set<Id>)
    requires Inv(s, others) && PossibleReports(s, run) && AllHonest(run)
    ensures Inv(RunReports(s, run), others)
    decreases run
  {
    hide Inv, Enabled, Next;
    if run != [] {
      assert run[0].Honest?;
      StepKeepsInv(s, run[0].step, others);
      HonestRunsKeepInv(AfterReport(s, run[0]), run[1..], others);
    }
  }

  /** No run dangles, with or without false errors. */
  ghost predicate NeverDangles(falseErrors: bool) {
    forall s: State, run: seq<Reported>, others: set<Id> ::
      Inv(s, others) && PossibleReports(s, run) && (falseErrors || AllHonest(run)) ==> NothingDangles(RunReports(s, run))
  }

  lemma FalseErrorDangles()
    ensures var s := State({0}, map[0 := None], map[0 := ToStore(0, None, 0)], 1);
      var run := [FalseError(0), Honest(Delete(0))];
      Inv(s, {}) && PossibleReports(s, run) && !NothingDangles(RunReports(s, run))
  {
    var s := State({0}, map[0 := None], map[0 := ToStore(0, None, 0)], 1);
    var run := [FalseError(0), Honest(Delete(0))];
    assert run[1..] == [Honest(Delete(0))] && run[1..][1..] == [];
    var s1 := AfterReport(s, run[0]);
    var s2 := AfterReport(s1, run[1]);
    assert RunReports(s1, run[1..]) == s2;
    assert OnRow(s2, 0, 0) && 0 !in s2.vault;
  }

  /** No token ever dangles exactly when a store that reports an error has not taken effect. */
  lemma NeverDanglesExactly(falseErrors: bool)
    ensures NeverDangles(falseErrors) <==> !falseErrors
  {
    if falseErrors {
      FalseErrorDangles();
    } else {
      forall s: State, run: seq<Reported>, others: set<Id>
        | Inv(s, others) && PossibleReports(s, run) && AllHonest(run)
        ensures NothingDangles(RunReports(s, run))
      {
        HonestRunsKeepInv(s, run, others);
      }
    }
  }

  // ---- Lost tokens -------------------------------------------------------------------------------

  ghost predicate Claimed(s: State, id: Id) {
    (exists agent :: OnRow(s, agent, id)) || exists p :: p in s.requests && id in Claims(s.requests[p])
  }

  /** Secrets no row names and no request will delete. */
  ghost function Orphans(s: State, others: set<Id>): set<Id> {
    set id | id in s.vault && id !in others && !Claimed(s, id)
  }

  /** What a step takes off a row, or a request gives up. */
  function Released(s: State, step: Step): set<Id>
    requires Enabled(s, step)
  {
    match step
    case Store(p) => if s.requests[p].agent in s.rows then Ids(Row(s, s.requests[p].agent)) else {s.requests[p].own}
    case Clear(p) => Ids(Row(s, s.requests[p].agent))
    case StoreFails(p) => Ids(s.requests[p].prev)
    case Stop(p) => Claims(s.requests[p])
    case _ => {}
  }

  /** What nobody claims once the step has released it. */
  ghost function Dropped(s: State, step: Step): set<Id>
    requires Enabled(s, step)
  {
    set id | id in Released(s, step) && id in s.vault && !Claimed(Next(s, step), id)
  }

  /** Conservation: a step adds to the lost secrets exactly what it drops; nothing else is ever lost,
      and what is lost stays lost. */
  lemma StepLosesWhatItDrops(s: State, step: Step, others: set<Id>)
    requires Inv(s, others) && Enabled(s, step)
    ensures Orphans(Next(s, step), others) == Orphans(s, others) + Dropped(s, step)
  {
    forall id ensures id in Orphans(Next(s, step), others) <==> id in Orphans(s, others) || id in Dropped(s, step) {
      OrphanAfter(s, step, others, id);
    }
  }

  lemma OrphanAfter(s: State, step: Step, others: set<Id>, id: Id)
    requires Inv(s, others) && Enabled(s, step)
    ensures id in Orphans(Next(s, step), others) <==> id in Orphans(s, others) || id in Dropped(s, step)
  {
    var s' := Next(s, step);
    assert step.p in s.requests ==> RequestSound(s, others, step.p);
    if id in s'.vault && Claimed(s, id) && !Claimed(s', id) {
      if agent :| OnRow(s, agent, id) {
        RowsAfter(s, step, agent, id);
        assert id in Released(s, step);
      } else {
        var p :| p in s.requests && id in Claims(s.requests[p]);
        StillClaimed(s, step, p, id);
      }
    }
    if id in s.vault && id !in others && !Claimed(s, id) {
      StaysUnclaimed(s, step, others, id);
    }
    if id in Released(s, step) {
      assert forall a :: Row(s, a) == Some(id) ==> OnRow(s, a, id);
    }
    if id in s'.vault && id !in s.vault {
      assert id in Claims(s'.requests[step.p]);
    }
  }

  lemma StaysUnclaimed(s: State, step: Step, others: set<Id>, id: Id)
    requires Inv(s, others) && Enabled(s, step) && id in s.vault && !Claimed(s, id)
    ensures !Claimed(Next(s, step), id)
  {
    var s' := Next(s, step);
    assert id < s.next;
    forall agent ensures !OnRow(s', agent, id) {
      RowsAfter(s, step, agent, id);
    }
    assert forall agent :: Row(s, agent) == Some(id) ==> OnRow(s, agent, id);
    forall q | q in s'.requests ensures id !in Claims(s'.requests[q]) {
      assert step.p in s.requests ==> id !in Claims(s.requests[step.p]);
    }
  }

  lemma StillClaimed(s: State, step: Step, p: nat, id: Id)
    requires Enabled(s, step) && p in s.requests && id in Claims(s.requests[p])
    ensures id in Released(s, step) || id !in Next(s, step).vault || Claimed(Next(s, step), id)
  {
    var s' := Next(s, step);
    if p in s'.requests && id in Claims(s'.requests[p]) {
    } else if step.Store? && s.requests[p].agent in s.rows {
      assert OnRow(s', s.requests[p].agent, s.requests[p].own);
    }
  }

  // ---- When nothing is lost ------------------------------------------------------------------------

  function InFlight(s: State, agent: nat): nat {
    |set p | p in s.requests && s.requests[p].agent == agent|
  }

  /** At most `k` requests of one agent are under way, every agent has its row, and a request that has
      created a secret is not cut short; it may stop before, and storing may fail. */
  predicate Admitted(k: nat, s: State, steps: seq<Step>)
    requires Possible(s, steps)
    decreases steps
  {
    steps == [] || (Admits(k, s, steps[0]) && Admitted(k, Next(s, steps[0]), steps[1..]))
  }

  predicate Admits(k: nat, s: State, step: Step)
    requires Enabled(s, step)
  {
    match step
    case LoadForPut(_, agent) => agent in s.rows && InFlight(s, agent) < k
    case LoadForDelete(_, agent) => InFlight(s, agent) < k
    case Stop(p) => s.requests[p].ToSet? || s.requests[p].ToClear?
    case _ => true
  }

  /** A request alone with its agent's row finds there what it read. */
  ghost predicate Alone(s: State) {
    && (forall p, q :: p in s.requests && q in s.requests && s.requests[p].agent == s.requests[q].agent ==> p == q)
    && (forall p :: p in s.requests ==> s.requests[p].agent in s.rows)
    && (forall p :: p in s.requests && !s.requests[p].ToDelete? ==> s.requests[p].prev == Row(s, s.requests[p].agent))
  }

  lemma StepKeepsAlone(s: State, step: Step, others: set<Id>)
    requires Inv(s, others) && Alone(s) && Enabled(s, step) && Admits(1, s, step)
    ensures Alone(Next(s, step))
    ensures Dropped(s, step) == {}
  {
    if step.LoadForPut? || step.LoadForDelete? {
      var same := set p | p in s.requests && s.requests[p].agent == step.agent;
      assert |same| == 0;
      assert forall p :: p in s.requests && s.requests[p].agent == step.agent ==> p in same;
    }
    var s' := Next(s, step);
    forall id | id in Released(s, step) && id in s.vault ensures Claimed(s', id) {
      if step.Store? || step.Clear? {
        assert id in Claims(s'.requests[step.p]);
      } else {
        assert OnRow(s', s.requests[step.p].agent, id);
      }
    }
  }

  lemma {:induction false} AloneLosesNothing(s: State, steps: seq<Step>, others: set<Id>)
    requires Inv(s, others) && Alone(s) && Orphans(s, others) == {}
    requires Possible(s, steps) && Admitted(1, s, steps)
    ensures Inv(Run(s, steps), others) && Orphans(Run(s, steps), others) == {}
    decreases steps
  {
    hide Inv, Orphans, Dropped, Alone, Admits, Enabled;
    if steps != [] {
      StepKeepsInv(s, steps[0], others);
      StepKeepsAlone(s, steps[0], others);
      StepLosesWhatItDrops(s, steps[0], others);
      AloneLosesNothing(Next(s, steps[0]), steps[1..], others);
    }
  }

  /** No request under way, rows and vault in step, nothing lost. */
  ghost predicate Settled(s: State, others: set<Id>) {
    Inv(s, others) && s.requests == map[] && Orphans(s, others) == {}
  }

  function RowIds(s: State): set<Id> {
    set a | a in s.rows && s.rows[a].Some? :: s.rows[a].value
  }

  /** Settled, the vault holds one secret for each configured agent and nothing else of theirs. */
  lemma SettledVault(s: State, others: set<Id>)
    requires Settled(s, others)
    ensures s.vault == RowIds(s) + others && RowIds(s) !! others
    ensures forall a, b :: a in s.rows && b in s.rows && s.rows[a].Some? && s.rows[a] == s.rows[b] ==> a == b
  {
    forall id | id in RowIds(s) ensures id in s.vault && id !in others {
      var a :| a in s.rows && s.rows[a] == Some(id);
      assert OnRow(s, a, id);
    }
    forall id | id in s.vault && id !in others ensures id in RowIds(s) {
      assert id !in Orphans(s, others);
      var a :| OnRow(s, a, id);
      assert a in s.rows && s.rows[a].value == id;
    }
    forall a, b | a in s.rows && b in s.rows && s.rows[a].Some? && s.rows[a] == s.rows[b] ensures a == b {
      assert OnRow(s, a, s.rows[a].value) && OnRow(s, b, s.rows[a].value);
    }
  }

  /** No run that starts settled ever loses a secret. */
  ghost predicate LosesNothing(k: nat) {
    forall s: State, others: set<Id>, steps: seq<Step> ::
      Settled(s, others) && Possible(s, steps) && Admitted(k, s, steps) ==> Orphans(Run(s, steps), others) == {}
  }

  /** Two overlapping PUTs of one agent: both read an empty row, and the second stores over the token
      of the first. */
  function Overlap(): seq<Step> {
    [LoadForPut(0, 0), LoadForPut(1, 0), Create(0), Create(1), Store(0), Store(1)]
  }

  const OVERLAPPED := State({0, 1}, map[0 := Some(1)], map[0 := ToDelete(0, None), 1 := ToDelete(0, None)], 2)

  lemma OverlappingPutsLoseASecret(k: nat)
    requires k >= 2
    ensures var s := State({}, map[0 := None], map[], 0);
      && Settled(s, {}) && Possible(s, Overlap()) && Admitted(k, s, Overlap())
      && Run(s, Overlap()) == OVERLAPPED && 0 in Orphans(OVERLAPPED, {})
  {
    hide Inv, Orphans, Possible, Admitted, Run;
    var s0 := State({}, map[0 := None], map[], 0);
    var s1 := s0.(requests := map[0 := ToSet(0, None)]);
    var s2 := s0.(requests := map[0 := ToSet(0, None), 1 := ToSet(0, None)]);
    var s3 := State({0}, map[0 := None], map[0 := ToStore(0, None, 0), 1 := ToSet(0, None)], 1);
    NoneInFlight(s0, 0);
    assert (set p | p in s1.requests && s1.requests[p].agent == 0) == {0};
    assert Next(s0, LoadForPut(0, 0)) == s1;
    assert Next(s1, LoadForPut(1, 0)) == s2;
    assert Next(s2, Create(0)) == s3;
    OverlapEnds(k);
    var rest := [Create(1), Store(0), Store(1)];
    Unroll(k, s2, Create(0), rest, OVERLAPPED);
    Unroll(k, s1, LoadForPut(1, 0), [Create(0)] + rest, OVERLAPPED);
    Unroll(k, s0, LoadForPut(0, 0), [LoadForPut(1, 0)] + ([Create(0)] + rest), OVERLAPPED);
    assert [LoadForPut(0, 0)] + ([LoadForPut(1, 0)] + ([Create(0)] + rest)) == Overlap();
    EmptyIsSettled(s0);
    FirstIsLost();
  }

  lemma FirstIsLost()
    ensures 0 in Orphans(OVERLAPPED, {})
  {
    assert forall a :: !OnRow(OVERLAPPED, a, 0);
  }

  lemma OverlapEnds(k: nat)
    ensures var s := State({0}, map[0 := None], map[0 := ToStore(0, None, 0), 1 := ToSet(0, None)], 1);
      var steps := [Create(1), Store(0), Store(1)];
      Possible(s, steps) && Admitted(k, s, steps) && Run(s, steps) == OVERLAPPED
  {
    hide Possible, Admitted, Run;
    var s3 := State({0}, map[0 := None], map[0 := ToStore(0, None, 0), 1 := ToSet(0, None)], 1);
    var s4 := State({0, 1}, map[0 := None], map[0 := ToStore(0, None, 0), 1 := ToStore(0, None, 1)], 2);
    var s5 := State({0, 1}, map[0 := Some(0)], map[0 := ToDelete(0, None), 1 := ToStore(0, None, 1)], 2);
    assert Next(s3, Create(1)) == s4;
    assert Next(s4, Store(0)) == s5;
    assert Next(s5, Store(1)) == OVERLAPPED;
    Nothing(k, OVERLAPPED);
    Unroll(k, s5, Store(1), [], OVERLAPPED);
    assert [Store(1)] + [] == [Store(1)] && [Store(0)] + [Store(1)] == [Store(0), Store(1)];
    Unroll(k, s4, Store(0), [Store(1)], OVERLAPPED);
    assert [Create(1)] + [Store(0), Store(1)] == [Create(1), Store(0), Store(1)];
    Unroll(k, s3, Create(1), [Store(0), Store(1)], OVERLAPPED);
  }

  lemma NoneInFlight(s: State, agent: nat)
    requires forall p :: p in s.requests ==> s.requests[p].agent != agent
    ensures InFlight(s, agent) == 0
  {
    assert (set p | p in s.requests && s.requests[p].agent == agent) == {};
  }

  lemma Nothing(k: nat, s: State)
    ensures Possible(s, []) && Admitted(k, s, []) && Run(s, []) == s
  {
  }

  lemma EmptyIsSettled(s: State)
    requires s.vault == {} && s.requests == map[] && forall a :: a in s.rows ==> s.rows[a] == None
    ensures Settled(s, {})
  {
  }

  lemma Unroll(k: nat, s: State, step: Step, rest: seq<Step>, end: State)
    requires Enabled(s, step) && Admits(k, s, step)
    requires Possible(Next(s, step), rest) && Admitted(k, Next(s, step), rest) && Run(Next(s, step), rest) == end
    ensures Possible(s, [step] + rest) && Admitted(k, s, [step] + rest) && Run(s, [step] + rest) == end
  {
    assert ([step] + rest)[1..] == rest;
  }

  /** Nothing is ever lost exactly while the requests of one agent do not overlap; requests of
      different agents may. */
  lemma LosesNothingExactly(k: nat)
    ensures LosesNothing(k) <==> k <= 1
  {
    if k <= 1 {
      forall s: State, others: set<Id>, steps: seq<Step>
        | Settled(s, others) && Possible(s, steps) && Admitted(k, s, steps)
        ensures Orphans(Run(s, steps), others) == {}
      {
        AdmittedByMore(k, s, steps);
        AloneLosesNothing(s, steps, others);
      }
    } else {
      OverlappingPutsLoseASecret(k);
    }
  }

  /** Once no request is under way any more, the vault holds exactly one secret for each configured
      agent again. */
  lemma OneSecretPerConfiguredAgent(s: State, steps: seq<Step>, others: set<Id>)
    requires Settled(s, others) && Possible(s, steps) && Admitted(1, s, steps) && Run(s, steps).requests == map[]
    ensures var end := Run(s, steps);
      && end.vault == RowIds(end) + others && RowIds(end) !! others
      && forall a, b :: a in end.rows && b in end.rows && end.rows[a].Some? && end.rows[a] == end.rows[b] ==> a == b
  {
    AloneLosesNothing(s, steps, others);
    SettledVault(Run(s, steps), others);
  }

  lemma {:induction false} AdmittedByMore(k: nat, s: State, steps: seq<Step>)
    requires k <= 1 && Possible(s, steps) && Admitted(k, s, steps)
    ensures Admitted(1, s, steps)
    decreases steps
  {
    if steps != [] {
      AdmittedByMore(k, Next(s, steps[0]), steps[1..]);
    }
  }

  // ---- The handlers, one request at a time -------------------------------------------------------

  datatype Config = Config(url: Octets, provider: Octets, token: Option<Id>)

  datatype Status = Ok | Unavailable | BadRequest | InternalError

  datatype Fault = LoadFault | CreateFault | StoreFault | DeleteFault

  function ToLower(s: Octets): Octets {
    if s == [] then [] else [if 'A' <= s[0] <= 'Z' then At(s[0] as int + 32) else s[0]] + ToLower(s[1..])
  }

  function NormalizeProvider(raw: Octets): Option<Octets> {
    var p := ToLower(TrimSpace(raw));
    if p == "" || p == "openclaw" then Some("openclaw")
    else if p == "grokbot" then Some("grokbot")
    else None
  }

  datatype PutRequest = PutRequest(agent: nat, url: Octets, token: Octets, provider: Octets)

  /** `allowed` is the check of the webhook address for a provider. */
  function Validate(req: PutRequest, allowed: (Octets, Octets) -> bool): Status {
    if TrimSpace(req.token) == [] then BadRequest
    else
      var p := NormalizeProvider(req.provider);
      if p.None? || !allowed(p.value, TrimSpace(req.url)) then BadRequest else Ok
  }

  /** `lower` spelled with small letters or capitals. */
  predicate Spells(s: Octets, lower: Octets) {
    |s| == |lower| && forall i :: 0 <= i < |s| ==> s[i] == lower[i] || (65 <= s[i] as int <= 90 && s[i] as int + 32 == lower[i] as int)
  }

  lemma {:induction false} LowerAt(s: Octets, i: nat)
    requires i < |s|
    ensures |ToLower(s)| == |s|
    ensures var code := s[i] as int; ToLower(s)[i] as int == if 65 <= code <= 90 then code + 32 else code
  {
    LowerLength(s);
    if i > 0 {
      LowerAt(s[1..], i - 1);
    }
  }

  lemma {:induction false} LowerLength(s: Octets)
    ensures |ToLower(s)| == |s|
  {
    if s != [] {
      LowerLength(s[1..]);
    }
  }

  lemma LowerSpells(s: Octets, lower: Octets)
    requires forall i :: 0 <= i < |lower| ==> !(65 <= lower[i] as int <= 90)
    ensures ToLower(s) == lower <==> Spells(s, lower)
  {
    LowerLength(s);
    forall i | 0 <= i < |s| ensures var code := s[i] as int; ToLower(s)[i] as int == if 65 <= code <= 90 then code + 32 else code {
      LowerAt(s, i);
    }
  }

  /** The providers there are, in any case and with white space around; no name means the first. */
  lemma ProviderExactly(raw: Octets)
    ensures NormalizeProvider(raw) == Some("openclaw") <==> |TrimSpace(raw)| == 0 || Spells(TrimSpace(raw), "openclaw")
    ensures NormalizeProvider(raw) == Some("grokbot") <==> Spells(TrimSpace(raw), "grokbot")
    ensures NormalizeProvider(raw) in {None, Some("openclaw"), Some("grokbot")}
  {
    hide ToLower, TrimSpace;
    var s := TrimSpace(raw);
    LowerSpells(s, "");
    LowerSpells(s, "openclaw");
    LowerSpells(s, "grokbot");
    assert |"openclaw"| == 8 && |"grokbot"| == 7;
  }

  /** A PUT is valid exactly with a token, a provider there is, and an address allowed for it. */
  lemma ValidExactly(req: PutRequest, allowed: (Octets, Octets) -> bool)
    ensures Validate(req, allowed) == Ok <==>
      && |TrimSpace(req.token)| > 0
      && NormalizeProvider(req.provider) != None && allowed(NormalizeProvider(req.provider).value, TrimSpace(req.url))
    ensures Validate(req, allowed) in {Ok, BadRequest}
  {
  }

  /** The steps a valid PUT takes, by the statement that fails. */
  function PutSteps(agent: nat, faults: set<Fault>): seq<Step> {
    if LoadFault in faults then []
    else if CreateFault in faults then [LoadForPut(0, agent), Stop(0)]
    else
      var last := if DeleteFault in faults then Stop(0) else Delete(0);
      [LoadForPut(0, agent), Create(0), if StoreFault in faults then StoreFails(0) else Store(0), last]
  }

  function DeleteSteps(agent: nat, known: bool, vaultConfigured: bool, faults: set<Fault>): seq<Step> {
    if LoadFault in faults || !known then []
    else if StoreFault in faults then [LoadForDelete(0, agent), Stop(0)]
    else
      [LoadForDelete(0, agent), Clear(0), if vaultConfigured && DeleteFault !in faults then Delete(0) else Stop(0)]
  }

  lemma TwoSteps(s: State, a: Step, b: Step)
    requires Enabled(s, a) && Enabled(Next(s, a), b)
    ensures Possible(s, [a, b]) && Run(s, [a, b]) == Next(Next(s, a), b)
  {
    assert [a, b][1..] == [b] && [b][1..] == [];
    assert Run(Next(s, a), [b]) == Next(Next(s, a), b);
  }

  lemma ThreeSteps(s: State, a: Step, b: Step, c: Step)
    requires Enabled(s, a) && Enabled(Next(s, a), b) && Enabled(Next(Next(s, a), b), c)
    ensures Possible(s, [a, b, c]) && Run(s, [a, b, c]) == Next(Next(Next(s, a), b), c)
  {
    TwoSteps(Next(s, a), b, c);
    assert [a, b, c][1..] == [b, c];
  }

  lemma FourSteps(s: State, a: Step, b: Step, c: Step, d: Step)
    requires Enabled(s, a) && Enabled(Next(s, a), b) && Enabled(Next(Next(s, a), b), c)
    requires Enabled(Next(Next(Next(s, a), b), c), d)
    ensures Possible(s, [a, b, c, d]) && Run(s, [a, b, c, d]) == Next(Next(Next(Next(s, a), b), c), d)
  {
    ThreeSteps(Next(s, a), b, c, d);
    assert [a, b, c, d][1..] == [b, c, d];
  }

  /** What the steps of a PUT come to when no other request runs beside it. */
  lemma PutRuns(s: State, agent: nat, faults: set<Fault>)
    requires s.requests == map[]
    ensures Possible(s, PutSteps(agent, faults))
    ensures Run(s, PutSteps(agent, faults)) ==
      if LoadFault in faults || CreateFault in faults then s
      else
        var kept := if StoreFault in faults then s.rows else Update(s.rows, agent, Some(s.next));
        var gone := if DeleteFault in faults then {} else if StoreFault in faults then {s.next} else Ids(Row(s, agent));
        State(s.vault + {s.next} - gone, kept, map[], s.next + 1)
  {
    hide Possible, Run;
    if LoadFault in faults {
      Nothing(1, s);
    } else if CreateFault in faults {
      TwoSteps(s, LoadForPut(0, agent), Stop(0));
    } else {
      var steps := PutSteps(agent, faults);
      FourSteps(s, steps[0], steps[1], steps[2], steps[3]);
      assert steps == [steps[0], steps[1], steps[2], steps[3]];
    }
  }

  lemma DeleteRuns(s: State, agent: nat, vaultConfigured: bool, faults: set<Fault>)
    requires s.requests == map[]
    ensures var steps := DeleteSteps(agent, agent in s.rows, vaultConfigured, faults);
      Possible(s, steps) &&
      Run(s, steps) ==
        if LoadFault in faults || StoreFault in faults || agent !in s.rows then s
        else
          var gone := if vaultConfigured && DeleteFault !in faults then Ids(Row(s, agent)) else {};
          State(s.vault - gone, Update(s.rows, agent, None), map[], s.next)
  {
    hide Possible, Run;
    var steps := DeleteSteps(agent, agent in s.rows, vaultConfigured, faults);
    if LoadFault in faults || agent !in s.rows {
      Nothing(1, s);
    } else if StoreFault in faults {
      TwoSteps(s, LoadForDelete(0, agent), Stop(0));
    } else {
      ThreeSteps(s, steps[0], steps[1], steps[2]);
      assert steps == [steps[0], steps[1], steps[2]];
    }
  }

  class Webhooks {
    var vault: map<Id, Octets>
    var agents: map<nat, Config>
    var next: Id

    constructor (agents: map<nat, Config>, vault: map<Id, Octets>, next: Id)
      ensures this.agents == agents && this.vault == vault && this.next == next
    {
      this.agents, this.vault, this.next := agents, vault, next;
    }

    function View(): State
      reads this
    {
      State(vault.Keys, map a | a in agents :: agents[a].token, map[], next)
    }

    /** The vault's next id is fresh. */
    predicate NextIsNew()
      reads this
    {
      next !in vault && forall a :: a in agents ==> agents[a].token != Some(next)
    }

    /** Creates the new secret, stores it on the agent's row and deletes the one it replaces. */
    method ReplaceToken(agent: nat, url: Octets, token: Octets, provider: Octets, faults: set<Fault>) returns (status: Status)
      requires NextIsNew()
      modifies this
      ensures status == (if LoadFault in faults || CreateFault in faults || StoreFault in faults then InternalError else Ok)
      ensures Possible(old(View()), PutSteps(agent, faults)) && View() == Run(old(View()), PutSteps(agent, faults))
      ensures agents == (if status == Ok && agent in old(agents) then old(agents)[agent := Config(url, provider, Some(old(next)))]
                         else old(agents))
      ensures status == Ok ==> old(next) in vault && vault[old(next)] == token
      ensures forall id :: id in vault && id != old(next) ==> id in old(vault) && vault[id] == old(vault)[id]
    {
      hide Possible, Run, PutSteps;
      ghost var before := View();
      PutRuns(before, agent, faults);
      if LoadFault in faults {
        return InternalError;
      }
      var prev := if agent in agents then agents[agent].token else None;
      if CreateFault in faults {
        return InternalError;
      }
      var id := next;
      vault := vault[id := token];
      next := next + 1;
      if StoreFault in faults {
        if DeleteFault !in faults {
          vault := vault - {id};
        }
        return InternalError;
      }
      if agent in agents {
        agents := agents[agent := Config(url, provider, Some(id))];
      }
      assert View().rows == Update(before.rows, agent, Some(id));
      assert prev == Row(before, agent);
      if prev.Some? && prev.value != id && DeleteFault !in faults {
        vault := vault - {prev.value};
      }
      return Ok;
    }

    /** A PUT: everything it does to rows and vault is what its steps do, and a success stores the
        trimmed address, the provider and a fresh secret holding the trimmed token. */
    method SetAgentWebhook(req: PutRequest, allowed: (Octets, Octets) -> bool, vaultConfigured: bool, faults: set<Fault>)
      returns (status: Status)
      requires NextIsNew()
      modifies this
      ensures !vaultConfigured ==> status == Unavailable
      ensures vaultConfigured && Validate(req, allowed) != Ok ==> status == BadRequest
      ensures status == Unavailable || status == BadRequest ==> View() == old(View()) && agents == old(agents) && vault == old(vault)
      ensures vaultConfigured && Validate(req, allowed) == Ok ==>
        && status == (if LoadFault in faults || CreateFault in faults || StoreFault in faults then InternalError else Ok)
        && Possible(old(View()), PutSteps(req.agent, faults))
        && View() == Run(old(View()), PutSteps(req.agent, faults))
      ensures status == Ok ==>
        && agents == (if req.agent in old(agents)
                      then old(agents)[req.agent := Config(TrimSpace(req.url), NormalizeProvider(req.provider).value, Some(old(next)))]
                      else old(agents))
        && old(next) in vault && vault[old(next)] == TrimSpace(req.token)
      ensures status != Ok ==> agents == old(agents)
      ensures forall id :: id in vault && id != old(next) ==> id in old(vault) && vault[id] == old(vault)[id]
    {
      hide TrimSpace, NormalizeProvider, Possible, Run, PutSteps;
      if !vaultConfigured {
        return Unavailable;
      }
      var url := TrimSpace(req.url);
      var token := TrimSpace(req.token);
      if token == [] {
        return BadRequest;
      }
      var provider := NormalizeProvider(req.provider);
      if provider == None || !allowed(provider.value, url) {
        return BadRequest;
      }
      status := ReplaceToken(req.agent, url, token, provider.value, faults);
    }

    /** A DELETE: the row is cleared before its secret is deleted, and a failure to delete is not
        reported; without a vault configured the secret stays behind. */
    method DeleteAgentWebhook(agent: nat, vaultConfigured: bool, faults: set<Fault>) returns (status: Status)
      modifies this
      ensures status == (if LoadFault in faults || StoreFault in faults || agent !in old(agents) then InternalError else Ok)
      ensures var steps := DeleteSteps(agent, agent in old(agents), vaultConfigured, faults);
        Possible(old(View()), steps) && View() == Run(old(View()), steps)
      ensures agents == (if status == Ok then old(agents)[agent := Config([], "openclaw", None)] else old(agents))
      ensures forall id :: id in vault ==> id in old(vault) && vault[id] == old(vault)[id]
    {
      DeleteRuns(View(), agent, vaultConfigured, faults);
      if LoadFault in faults || agent !in agents {
        return InternalError;
      }
      var prev := agents[agent].token;
      if StoreFault in faults {
        return InternalError;
      }
      agents := agents[agent := Config([], "openclaw", None)];
      if vaultConfigured && prev.Some? && DeleteFault !in faults {
        vault := vault - {prev.value};
      }
      return Ok;
    }
  }
}
