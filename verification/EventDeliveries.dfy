/** Inbound deliveries handled at the same time (api/slack_events.go): looking an event up, handing it to
    the handlers and marking it as processed are steps of their own, and deliveries interleave at will,
    of one event or of many. */
module EventDeliveries {
  import opened EventDedup

  /** Where a delivery stands after its lookup: before the handlers finish, and before the mark. */
  datatype Flight = Dispatching(id: string) | Marking(id: string)

  datatype Entry = Entry(id: string, at: real)

  /** `processed` lists the dispatches that succeeded, `marks` the marks ever made. */
  datatype Server = Server(clock: real, seen: map<string, real>, flights: map<nat, Flight>, processed: seq<Entry>, marks: seq<Entry>)

  datatype Step =
    | Wait(until: real)
    | Lookup(p: nat, id: string)
    | Dispatch(p: nat, succeeds: bool)
    | MarkSeen(p: nat)

  predicate Enabled(s: Server, step: Step) {
    match step
    case Wait(until) => s.clock <= until
    case Lookup(p, _) => p !in s.flights
    case Dispatch(p, _) => p in s.flights && s.flights[p].Dispatching?
    case MarkSeen(p) => p in s.flights && s.flights[p].Marking?
  }

  predicate TurnedAway(ttl: real, s: Server, id: string) {
    id in Unexpired(s.seen, ttl, s.clock)
  }

  function Next(ttl: real, s: Server, step: Step): Server
    requires Enabled(s, step)
  {
    match step
    case Wait(until) => s.(clock := until)
    case Lookup(p, id) =>
      var left := s.(seen := Unexpired(s.seen, ttl, s.clock));
      if TurnedAway(ttl, s, id) then left else left.(flights := s.flights[p := Dispatching(id)])
    case Dispatch(p, succeeds) =>
      var id := s.flights[p].id;
      if succeeds then s.(flights := s.flights[p := Marking(id)], processed := s.processed + [Entry(id, s.clock)])
      else s.(flights := s.flights - {p})
    case MarkSeen(p) =>
      var id := s.flights[p].id;
      s.(seen := s.seen[id := s.clock], flights := s.flights - {p}, marks := s.marks + [Entry(id, s.clock)])
  }

  predicate Possible(ttl: real, s: Server, steps: seq<Step>)
    decreases steps
  {
    steps == [] || (Enabled(s, steps[0]) && Possible(ttl, Next(ttl, s, steps[0]), steps[1..]))
  }

  function Run(ttl: real, s: Server, steps: seq<Step>): Server
    requires Possible(ttl, s, steps)
    decreases steps
  {
    if steps == [] then s else Run(ttl, Next(ttl, s, steps[0]), steps[1..])
  }

  function Start(clock: real): Server {
    Server(clock, map[], map[], [], [])
  }

  /** When each step may be taken: time may pass, a new delivery is looked up, and one under way goes on. */
  lemma EnabledExactly(s: Server, p: nat, id: string, succeeds: bool, until: real)
    ensures Enabled(s, Wait(until)) <==> until >= s.clock
    ensures Enabled(s, Lookup(p, id)) <==> p !in s.flights
    ensures p in s.flights ==>
      match s.flights[p]
      case Dispatching(_) => Enabled(s, Dispatch(p, succeeds)) && !Enabled(s, MarkSeen(p))
      case Marking(_) => Enabled(s, MarkSeen(p)) && !Enabled(s, Dispatch(p, succeeds))
  {
  }

  // ---- Who is turned away --------------------------------------------------------------------------

  predicate Recent(entries: seq<Entry>, ttl: real, id: string, now: real) {
    exists i :: 0 <= i < |entries| && entries[i].id == id && now - entries[i].at <= ttl
  }

  predicate Kept(ttl: real, s: Server, e: Entry) {
    e.at <= s.clock && ((e.id in s.seen && s.seen[e.id] >= e.at) || s.clock - e.at > ttl)
  }

  /** The table holds the latest mark of an event unless that has expired. */
  ghost predicate Remembers(ttl: real, s: Server) {
    && (forall i :: 0 <= i < |s.marks| ==> Kept(ttl, s, s.marks[i]))
    && (forall id :: id in s.seen ==> Entry(id, s.seen[id]) in s.marks)
  }

  lemma StepRemembers(ttl: real, s: Server, step: Step)
    requires Remembers(ttl, s) && Enabled(s, step)
    ensures Remembers(ttl, Next(ttl, s, step))
  {
    var s' := Next(ttl, s, step);
    forall i | 0 <= i < |s'.marks| ensures Kept(ttl, s', s'.marks[i]) {
      assert i < |s.marks| ==> Kept(ttl, s, s.marks[i]);
    }
  }

  lemma {:induction false} RunRemembers(ttl: real, s: Server, steps: seq<Step>)
    requires Remembers(ttl, s) && Possible(ttl, s, steps)
    ensures Remembers(ttl, Run(ttl, s, steps))
    decreases steps
  {
    hide Remembers;
    if steps != [] {
      StepRemembers(ttl, s, steps[0]);
      RunRemembers(ttl, Next(ttl, s, steps[0]), steps[1..]);
    }
  }

  /** Over every interleaving a delivery is turned away exactly when its event was marked within the
      last `ttl` seconds; so a delivery after a failed dispatch gets through. */
  lemma TurnedAwayExactly(ttl: real, clock: real, steps: seq<Step>, id: string)
    requires Possible(ttl, Start(clock), steps)
    ensures var s := Run(ttl, Start(clock), steps);
      TurnedAway(ttl, s, id) <==> Recent(s.marks, ttl, id, s.clock)
  {
    RunRemembers(ttl, Start(clock), steps);
    var s := Run(ttl, Start(clock), steps);
    if i :| 0 <= i < |s.marks| && s.marks[i].id == id && s.clock - s.marks[i].at <= ttl {
      assert Kept(ttl, s, s.marks[i]);
    }
  }

  /** A delivery on its own is its steps, one after the other. */
  lemma HandleIsItsSteps(ttl: real, s: Server, d: Delivery)
    requires s.flights == map[] && s.clock <= d.at <= d.doneAt
    ensures var found := Next(ttl, Next(ttl, s, Wait(d.at)), Lookup(0, d.id));
      if !Dispatches(s.seen, ttl, d) then found.flights == map[] && found.seen == Handle(s.seen, ttl, d)
      else
        && Enabled(found, Dispatch(0, d.succeeds))
        && var called := Next(ttl, found, Dispatch(0, d.succeeds));
           if !d.succeeds then called.flights == map[] && called.seen == Handle(s.seen, ttl, d)
           else
             && Enabled(called, Wait(d.doneAt)) && Enabled(Next(ttl, called, Wait(d.doneAt)), MarkSeen(0))
             && var marked := Next(ttl, Next(ttl, called, Wait(d.doneAt)), MarkSeen(0));
                marked.flights == map[] && marked.seen == Handle(s.seen, ttl, d)
  {
    assert map[0 := Dispatching(d.id)] - {0} == map[];
  }

  // ---- Nothing is processed twice --------------------------------------------------------------------

  function InFlight(s: Server, id: string): nat {
    |set p | p in s.flights && s.flights[p].id == id|
  }

  /** At most `k` deliveries of one event are between lookup and mark; of different events, any number. */
  predicate Admitted(ttl: real, k: nat, s: Server, steps: seq<Step>)
    requires Possible(ttl, s, steps)
    decreases steps
  {
    steps == [] || (Admits(k, s, steps[0]) && Admitted(ttl, k, Next(ttl, s, steps[0]), steps[1..]))
  }

  predicate Admits(k: nat, s: Server, step: Step) {
    step.Lookup? ==> InFlight(s, step.id) < k
  }

  /** Two successes for one event lie more than `ttl` seconds apart. */
  predicate Spaced(ttl: real, entries: seq<Entry>) {
    forall i, j :: 0 <= i < j < |entries| && entries[i].id == entries[j].id ==> entries[j].at - entries[i].at > ttl
  }

  predicate BeingMarked(s: Server, id: string) {
    exists p :: p in s.flights && s.flights[p] == Marking(id)
  }

  /** A success is about to be marked, still remembered, or out of date. */
  predicate Guarded(ttl: real, s: Server, e: Entry) {
    BeingMarked(s, e.id) || Kept(ttl, s, e)
  }

  predicate LongPast(ttl: real, s: Server, id: string) {
    forall i :: 0 <= i < |s.processed| && s.processed[i].id == id ==> s.clock - s.processed[i].at > ttl
  }

  ghost predicate Alone(s: Server) {
    forall p, q :: p in s.flights && q in s.flights && s.flights[p].id == s.flights[q].id ==> p == q
  }

  ghost predicate Inv(ttl: real, s: Server) {
    && Alone(s) && Spaced(ttl, s.processed)
    && (forall i :: 0 <= i < |s.processed| ==> s.processed[i].at <= s.clock && Guarded(ttl, s, s.processed[i]))
    && (forall p :: p in s.flights && s.flights[p].Dispatching? ==> LongPast(ttl, s, s.flights[p].id))
  }

  lemma LookupFindsItPast(ttl: real, s: Server, id: string)
    requires Inv(ttl, s) && InFlight(s, id) < 1 && !TurnedAway(ttl, s, id)
    ensures LongPast(ttl, s, id) && forall p :: p in s.flights ==> s.flights[p].id != id
  {
    var same := set p | p in s.flights && s.flights[p].id == id;
    assert |same| == 0;
    forall p | p in s.flights ensures s.flights[p].id != id {
      assert p !in same;
    }
    forall i | 0 <= i < |s.processed| && s.processed[i].id == id ensures s.clock - s.processed[i].at > ttl {
      assert Guarded(ttl, s, s.processed[i]);
    }
  }

  lemma StepKeepsGuards(ttl: real, s: Server, step: Step)
    requires Inv(ttl, s) && Enabled(s, step) && Admits(1, s, step)
    ensures var s' := Next(ttl, s, step);
      forall i :: 0 <= i < |s'.processed| ==> s'.processed[i].at <= s'.clock && Guarded(ttl, s', s'.processed[i])
  {
    var s' := Next(ttl, s, step);
    forall i | 0 <= i < |s'.processed| ensures s'.processed[i].at <= s'.clock && Guarded(ttl, s', s'.processed[i]) {
      var e := s'.processed[i];
      if i < |s.processed| {
        assert Guarded(ttl, s, s.processed[i]);
        if p :| p in s.flights && s.flights[p] == Marking(e.id) {
          assert p in s'.flights ==> s'.flights[p] == Marking(e.id);
        }
      } else {
        assert s'.flights[step.p] == Marking(e.id);
      }
    }
  }

  lemma StepKeepsInv(ttl: real, s: Server, step: Step)
    requires Inv(ttl, s) && Enabled(s, step) && Admits(1, s, step)
    ensures Inv(ttl, Next(ttl, s, step))
  {
    var s' := Next(ttl, s, step);
    StepKeepsGuards(ttl, s, step);
    if step.Lookup? && !TurnedAway(ttl, s, step.id) {
      LookupFindsItPast(ttl, s, step.id);
    }
    forall p | p in s'.flights && s'.flights[p].Dispatching? ensures LongPast(ttl, s', s'.flights[p].id) {
      assert p in s.flights ==> LongPast(ttl, s, s.flights[p].id);
    }
    if step.Dispatch? {
      assert LongPast(ttl, s, s.flights[step.p].id);
    }
  }

  lemma {:induction false} RunKeepsInv(ttl: real, k: nat, s: Server, steps: seq<Step>)
    requires k <= 1 && Inv(ttl, s) && Possible(ttl, s, steps) && Admitted(ttl, k, s, steps)
    ensures Inv(ttl, Run(ttl, s, steps))
    decreases steps
  {
    hide Inv;
    if steps != [] {
      StepKeepsInv(ttl, s, steps[0]);
      RunKeepsInv(ttl, k, Next(ttl, s, steps[0]), steps[1..]);
    }
  }

  predicate InOrder(s: Server) {
    && (forall i :: 0 <= i < |s.processed| ==> s.processed[i].at <= s.clock)
    && (forall i, j :: 0 <= i < j < |s.processed| ==> s.processed[i].at <= s.processed[j].at)
  }

  lemma {:induction false} RunKeepsOrder(ttl: real, s: Server, steps: seq<Step>)
    requires InOrder(s) && Possible(ttl, s, steps)
    ensures InOrder(Run(ttl, s, steps))
    decreases steps
  {
    if steps != [] {
      RunKeepsOrder(ttl, Next(ttl, s, steps[0]), steps[1..]);
    }
  }

  /** No run with at most `k` deliveries of one event under way processes an event twice within `ttl`
      seconds. */
  ghost predicate ProcessesOnce(ttl: real, k: nat) {
    forall clock: real, steps: seq<Step> ::
      Possible(ttl, Start(clock), steps) && Admitted(ttl, k, Start(clock), steps) ==>
        Spaced(ttl, Run(ttl, Start(clock), steps).processed)
  }

  /** Two deliveries of one event, both looked up before either is marked. */
  function Overlap(): seq<Step> {
    [Lookup(0, "e"), Lookup(1, "e"), Dispatch(0, true), Dispatch(1, true)]
  }

  const OVERLAPPED := Server(0.0, map[], map[0 := Marking("e"), 1 := Marking("e")], [Entry("e", 0.0), Entry("e", 0.0)], [])

  lemma OverlapProcessesTwice(ttl: real, k: nat)
    requires k >= 2
    ensures var s := Start(0.0);
      Possible(ttl, s, Overlap()) && Admitted(ttl, k, s, Overlap()) && Run(ttl, s, Overlap()) == OVERLAPPED
    ensures 0.0 <= ttl ==> !Spaced(ttl, OVERLAPPED.processed)
  {
    hide Possible, Admitted, Run;
    var s0 := Start(0.0);
    var s1 := s0.(flights := map[0 := Dispatching("e")]);
    var s2 := s0.(flights := map[0 := Dispatching("e"), 1 := Dispatching("e")]);
    var s3 := s0.(flights := map[0 := Marking("e"), 1 := Dispatching("e")], processed := [Entry("e", 0.0)]);
    NoneInFlight(s0, "e");
    assert (set p | p in s1.flights && s1.flights[p].id == "e") == {0};
    assert Unexpired(map[], ttl, 0.0) == map[];
    assert Next(ttl, s0, Lookup(0, "e")) == s1;
    assert Next(ttl, s1, Lookup(1, "e")) == s2;
    assert Next(ttl, s2, Dispatch(0, true)) == s3;
    assert Next(ttl, s3, Dispatch(1, true)) == OVERLAPPED;
    Stay(ttl, k, OVERLAPPED);
    OneMore(ttl, k, s3, Dispatch(1, true), [], OVERLAPPED);
    OneMore(ttl, k, s2, Dispatch(0, true), [Dispatch(1, true)] + [], OVERLAPPED);
    OneMore(ttl, k, s1, Lookup(1, "e"), [Dispatch(0, true)] + ([Dispatch(1, true)] + []), OVERLAPPED);
    OneMore(ttl, k, s0, Lookup(0, "e"), [Lookup(1, "e")] + ([Dispatch(0, true)] + ([Dispatch(1, true)] + [])), OVERLAPPED);
    assert [Lookup(0, "e")] + ([Lookup(1, "e")] + ([Dispatch(0, true)] + ([Dispatch(1, true)] + []))) == Overlap();
    assert OVERLAPPED.processed[0].id == OVERLAPPED.processed[1].id;
  }

  lemma NoneInFlight(s: Server, id: string)
    requires forall p :: p in s.flights ==> s.flights[p].id != id
    ensures InFlight(s, id) == 0
  {
    assert (set p | p in s.flights && s.flights[p].id == id) == {};
  }

  lemma Stay(ttl: real, k: nat, s: Server)
    ensures Possible(ttl, s, []) && Admitted(ttl, k, s, []) && Run(ttl, s, []) == s
  {
  }

  lemma OneMore(ttl: real, k: nat, s: Server, step: Step, rest: seq<Step>, end: Server)
    requires Enabled(s, step) && Admits(k, s, step)
    requires Possible(ttl, Next(ttl, s, step), rest) && Admitted(ttl, k, Next(ttl, s, step), rest)
    requires Run(ttl, Next(ttl, s, step), rest) == end
    ensures Possible(ttl, s, [step] + rest) && Admitted(ttl, k, s, [step] + rest) && Run(ttl, s, [step] + rest) == end
  {
    assert ([step] + rest)[1..] == rest;
  }

  /** Nothing is processed twice within the TTL exactly while no two deliveries of one event overlap;
      deliveries of different events may. */
  lemma ProcessesOnceExactly(ttl: real, k: nat)
    ensures ProcessesOnce(ttl, k) <==> k <= 1 || ttl < 0.0
  {
    if k <= 1 || ttl < 0.0 {
      forall clock: real, steps: seq<Step>
        | Possible(ttl, Start(clock), steps) && Admitted(ttl, k, Start(clock), steps)
        ensures Spaced(ttl, Run(ttl, Start(clock), steps).processed)
      {
        if k <= 1 {
          RunKeepsInv(ttl, k, Start(clock), steps);
        } else {
          RunKeepsOrder(ttl, Start(clock), steps);
        }
      }
    } else {
      OverlapProcessesTwice(ttl, k);
    }
  }
}
