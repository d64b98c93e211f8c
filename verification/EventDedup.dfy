/** Inbound events (api/slack_events.go, connectors/events.go): a delivery is skipped when its event id
    was processed within the last `ttl` seconds, otherwise handed to the handlers of its type, and
    marked as processed only when all of them succeed. Expired marks are deleted lazily, on lookup. */
module EventDedup {
  import opened Options

  type Handler = nat

  datatype Event = Event(id: string, kind: string)

  /** What a lookup leaves of the marks. */
  function Unexpired(seen: map<string, real>, ttl: real, now: real): map<string, real> {
    map id | id in seen && !(now - seen[id] > ttl) :: seen[id]
  }

  /** The handlers a dispatch calls: all of them, or those up to the first that fails. */
  function Called(handlers: seq<Handler>, fails: set<Handler>): seq<Handler> {
    if handlers == [] then []
    else if handlers[0] in fails then [handlers[0]]
    else [handlers[0]] + Called(handlers[1..], fails)
  }

  lemma {:induction false} CalledIsPrefix(handlers: seq<Handler>, fails: set<Handler>)
    ensures var c := Called(handlers, fails);
      && c <= handlers
      && (forall i :: 0 <= i < |c| - 1 ==> c[i] !in fails)
      && (c == handlers || (c != [] && c[|c| - 1] in fails))
  {
    if handlers != [] && handlers[0] !in fails {
      CalledIsPrefix(handlers[1..], fails);
    }
  }

  class EventBroker {
    var handlers: map<string, seq<Handler>>

    constructor ()
      ensures handlers == map[]
    {
      handlers := map[];
    }

    function Of(kind: string): seq<Handler>
      reads this
    {
      if kind in handlers then handlers[kind] else []
    }

    method Subscribe(kind: string, handler: Handler)
      modifies this
      ensures handlers == old(handlers)[kind := old(Of(kind)) + [handler]]
    {
      handlers := handlers[kind := Of(kind) + [handler]];
    }

    /** `fails` are the handlers that return an error for this event. */
    method Dispatch(event: Event, fails: set<Handler>) returns (ok: bool, called: seq<Handler>)
      ensures called == Called(Of(event.kind), fails)
      ensures ok <==> forall h :: h in Of(event.kind) ==> h !in fails
    {
      var hs := Of(event.kind);
      called := [];
      for i := 0 to |hs|
        invariant called == hs[..i]
        invariant forall h :: h in hs[..i] ==> h !in fails
        invariant Called(hs, fails) == hs[..i] + Called(hs[i..], fails)
      {
        assert hs[i..][0] == hs[i] && hs[i..][1..] == hs[i + 1..];
        called := called + [hs[i]];
        if hs[i] in fails {
          return false, called;
        }
        assert hs[..i + 1] == hs[..i] + [hs[i]];
      }
      assert hs[..|hs|] == hs;
      return true, called;
    }
  }

  class EventDeduplicator {
    var seen: map<string, real>
    const ttl: real

    constructor (ttl: real)
      ensures this.ttl == ttl && seen == map[]
    {
      this.ttl, seen := ttl, map[];
    }

    method IsSeen(id: string, now: real) returns (yes: bool)
      modifies this
      ensures seen == Unexpired(old(seen), ttl, now)
      ensures yes <==> id in seen
    {
      var ids := seen.Keys;
      while ids != {}
        invariant ids <= seen.Keys <= old(seen).Keys
        invariant forall i :: i in seen ==> seen[i] == old(seen)[i] && (i in ids || !(now - seen[i] > ttl))
        invariant forall i :: i in old(seen) && i !in seen ==> now - old(seen)[i] > ttl
        decreases |ids|
      {
        var i :| i in ids;
        ids := ids - {i};
        if now - seen[i] > ttl {
          seen := seen - {i};
        }
      }
      yes := id in seen;
    }

    method MarkSeen(id: string, now: real)
      modifies this
      ensures seen == old(seen)[id := now]
    {
      seen := seen[id := now];
    }
  }

  datatype Envelope = Envelope(challenge: string, event: Option<Event>)

  /** One delivery, handled alone: `at` and `doneAt` are the clock at the lookup and at the mark. */
  method HandleDelivery(dedup: EventDeduplicator, broker: EventBroker, envelope: Envelope, at: real, doneAt: real, fails: set<Handler>)
    returns (status: int, called: seq<Handler>)
    modifies dedup
    ensures envelope.challenge != "" || envelope.event.None? ==> status == 200 && called == [] && dedup.seen == old(dedup.seen)
    ensures envelope.challenge == "" && envelope.event.Some? ==>
      var event := envelope.event.value;
      var handlers := broker.Of(event.kind);
      var d := Delivery(event.id, at, forall h :: h in handlers ==> h !in fails, doneAt);
      && dedup.seen == Handle(old(dedup.seen), dedup.ttl, d)
      && called == (if Dispatches(old(dedup.seen), dedup.ttl, d) then Called(handlers, fails) else [])
      && status == (if Dispatches(old(dedup.seen), dedup.ttl, d) && !d.succeeds then 500 else 200)
  {
    called := [];
    if envelope.challenge != "" || envelope.event.None? {
      return 200, [];
    }
    var event := envelope.event.value;
    var already := dedup.IsSeen(event.id, at);
    if already {
      return 200, [];
    }
    var ok;
    ok, called := broker.Dispatch(event, fails);
    if !ok {
      return 500, called;
    }
    dedup.MarkSeen(event.id, doneAt);
    status := 200;
  }

  // ---- The table answers as the full history would --------------------------------------------------

  datatype Op = Ask(id: string, at: real) | Mark(id: string, at: real)

  function Apply(seen: map<string, real>, ttl: real, op: Op): map<string, real> {
    match op
    case Ask(_, at) => Unexpired(seen, ttl, at)
    case Mark(id, at) => seen[id := at]
  }

  /** The answers to the lookups of a run, in order. */
  function Answers(seen: map<string, real>, ttl: real, ops: seq<Op>): seq<bool>
    decreases ops
  {
    if ops == [] then []
    else
      var rest := Answers(Apply(seen, ttl, ops[0]), ttl, ops[1..]);
      if ops[0].Ask? then [ops[0].id in Unexpired(seen, ttl, ops[0].at)] + rest else rest
  }

  /** The latest mark of an id in a history from which nothing was ever deleted. */
  function Latest(history: seq<Op>, id: string): Option<real> {
    if history == [] then None
    else
      var last := history[|history| - 1];
      if last.Mark? && last.id == id then Some(last.at) else Latest(history[..|history| - 1], id)
  }

  /** The latest mark of an id is the one after which there is no other. */
  lemma {:induction false} LatestExactly(history: seq<Op>, id: string, at: real)
    ensures Latest(history, id) == Some(at) <==>
      exists i :: 0 <= i < |history| && history[i] == Mark(id, at) && forall j :: i < j < |history| ==> !IsMark(history[j], id)
  {
    if history != [] {
      var n := |history| - 1;
      LatestExactly(history[..n], id, at);
      if IsMark(history[n], id) {
        assert history[n] == Mark(id, history[n].at);
      } else if Latest(history[..n], id) == Some(at) {
        var i :| 0 <= i < n && history[..n][i] == Mark(id, at) && forall j :: i < j < n ==> !IsMark(history[..n][j], id);
        assert history[i] == Mark(id, at);
        assert forall j :: i < j < n ==> history[..n][j] == history[j];
      } else if i :| 0 <= i < |history| && history[i] == Mark(id, at) && forall j :: i < j < |history| ==> !IsMark(history[j], id) {
        assert history[..n][i] == Mark(id, at);
      }
    }
  }

  predicate IsMark(op: Op, id: string) {
    op.Mark? && op.id == id
  }

  predicate Recent(history: seq<Op>, ttl: real, id: string, now: real) {
    Latest(history, id).Some? && now - Latest(history, id).value <= ttl
  }

  function FullAnswers(history: seq<Op>, ttl: real, ops: seq<Op>): seq<bool>
    decreases ops
  {
    if ops == [] then []
    else
      var rest := FullAnswers(history + [ops[0]], ttl, ops[1..]);
      if ops[0].Ask? then [Recent(history, ttl, ops[0].id, ops[0].at)] + rest else rest
  }

  predicate InOrder(now: real, ops: seq<Op>)
    decreases ops
  {
    ops == [] || (now <= ops[0].at && InOrder(ops[0].at, ops[1..]))
  }

  /** The table holds the latest mark of an id unless that mark has expired for good. */
  ghost predicate Remembers(seen: map<string, real>, ttl: real, history: seq<Op>, now: real) {
    forall id :: if id in seen then Latest(history, id) == Some(seen[id]) else !Recent(history, ttl, id, now)
  }

  lemma ApplyRemembers(seen: map<string, real>, ttl: real, history: seq<Op>, now: real, op: Op)
    requires Remembers(seen, ttl, history, now) && now <= op.at
    ensures Remembers(Apply(seen, ttl, op), ttl, history + [op], op.at)
    ensures op.Ask? ==> (op.id in Unexpired(seen, ttl, op.at) <==> Recent(history, ttl, op.id, op.at))
  {
    assert (history + [op])[..|history|] == history;
    forall id ensures Latest(history + [op], id) == if op.Mark? && op.id == id then Some(op.at) else Latest(history, id) {
    }
  }

  /** Lazy deletion is invisible: whatever lookups and marks interleave, with a clock that does not run
      backwards every lookup answers as if nothing had ever been deleted. */
  lemma {:induction false} DeletionIsInvisible(seen: map<string, real>, ttl: real, history: seq<Op>, now: real, ops: seq<Op>)
    requires Remembers(seen, ttl, history, now) && InOrder(now, ops)
    ensures Answers(seen, ttl, ops) == FullAnswers(history, ttl, ops)
    decreases ops
  {
    hide Remembers, Unexpired, Recent;
    if ops != [] {
      ApplyRemembers(seen, ttl, history, now, ops[0]);
      DeletionIsInvisible(Apply(seen, ttl, ops[0]), ttl, history + [ops[0]], ops[0].at, ops[1..]);
    }
  }

  lemma TableRefinesHistory(ttl: real, now: real, ops: seq<Op>)
    requires InOrder(now, ops)
    ensures Answers(map[], ttl, ops) == FullAnswers([], ttl, ops)
  {
    DeletionIsInvisible(map[], ttl, [], now, ops);
  }

  // ---- Deliveries, one after the other -----------------------------------------------------------------

  datatype Delivery = Delivery(id: string, at: real, succeeds: bool, doneAt: real)

  predicate Dispatches(seen: map<string, real>, ttl: real, d: Delivery) {
    d.id !in Unexpired(seen, ttl, d.at)
  }

  function Handle(seen: map<string, real>, ttl: real, d: Delivery): map<string, real> {
    var left := Unexpired(seen, ttl, d.at);
    if d.id !in left && d.succeeds then left[d.id := d.doneAt] else left
  }

  function Dispatched(seen: map<string, real>, ttl: real, ds: seq<Delivery>): (r: seq<bool>)
    ensures |r| == |ds|
    decreases ds
  {
    if ds == [] then [] else [Dispatches(seen, ttl, ds[0])] + Dispatched(Handle(seen, ttl, ds[0]), ttl, ds[1..])
  }

  predicate Serial(now: real, ds: seq<Delivery>)
    decreases ds
  {
    ds == [] || (now <= ds[0].at <= ds[0].doneAt && Serial(ds[0].doneAt, ds[1..]))
  }

  /** Delivery `j` repeats delivery `i`, which was dispatched with success no more than `ttl` before. */
  predicate Repeats(ttl: real, ds: seq<Delivery>, dispatched: seq<bool>, i: nat, j: nat)
    requires i < j < |ds| == |dispatched|
  {
    dispatched[i] && ds[i].succeeds && ds[i].id == ds[j].id && ds[j].at - ds[i].doneAt <= ttl
  }

  lemma {:induction false} DispatchedFrom(seen: map<string, real>, ttl: real, now: real, ds: seq<Delivery>, j: nat)
    requires Serial(now, ds) && j < |ds|
    ensures var r := Dispatched(seen, ttl, ds);
      r[j] <==> !(ds[j].id in seen && ds[j].at - seen[ds[j].id] <= ttl) && !exists i: nat :: i < j && Repeats(ttl, ds, r, i, j)
    decreases j
  {
    var r := Dispatched(seen, ttl, ds);
    if j > 0 {
      var seen' := Handle(seen, ttl, ds[0]);
      var r' := Dispatched(seen', ttl, ds[1..]);
      DispatchedFrom(seen', ttl, ds[0].doneAt, ds[1..], j - 1);
      SerialIsLater(ds[0].doneAt, ds[1..], j - 1);
      forall i: nat | 0 < i < j ensures Repeats(ttl, ds, r, i, j) <==> Repeats(ttl, ds[1..], r', i - 1, j - 1) {
      }
      assert Repeats(ttl, ds, r, 0, j) <==> r[0] && ds[0].succeeds && ds[0].id == ds[j].id && ds[j].at - ds[0].doneAt <= ttl;
      var rest, k := ds[1..], j - 1;
      if i: nat :| i < k && Repeats(ttl, rest, r', i, k) {
        assert Repeats(ttl, ds, r, i + 1, j);
      }
    }
  }

  lemma {:induction false} SerialIsLater(now: real, ds: seq<Delivery>, j: nat)
    requires Serial(now, ds) && j < |ds|
    ensures now <= ds[j].at
    decreases j
  {
    if j > 0 {
      SerialIsLater(ds[0].doneAt, ds[1..], j - 1);
    }
  }

  /** Deliveries processed one at a time: a delivery reaches the handlers exactly when no earlier
      delivery of the same event was processed with success within the last `ttl` seconds. So nothing
      is processed twice within that time, and a failed delivery is always tried again. */
  lemma DispatchedExactly(ttl: real, now: real, ds: seq<Delivery>, j: nat)
    requires Serial(now, ds) && j < |ds|
    ensures var r := Dispatched(map[], ttl, ds);
      r[j] <==>
        forall i :: 0 <= i < j ==> !(r[i] && ds[i].succeeds && ds[i].id == ds[j].id && ds[j].at - ds[i].doneAt <= ttl)
  {
    DispatchedFrom(map[], ttl, now, ds, j);
    var r := Dispatched(map[], ttl, ds);
    assert forall i: nat :: i < j ==>
      (Repeats(ttl, ds, r, i, j) <==> r[i] && ds[i].succeeds && ds[i].id == ds[j].id && ds[j].at - ds[i].doneAt <= ttl);
  }

  /** What a delivery leaves of the table: its own mark when it was dispatched with success, and of the others
      those that are no older than `ttl` at its lookup. */
  lemma HandledExactly(seen: map<string, real>, ttl: real, d: Delivery, id: string, at: real)
    ensures var known := d.id in seen && d.at - seen[d.id] <= ttl;
      (id in Handle(seen, ttl, d) && Handle(seen, ttl, d)[id] == at) <==>
        if !known && d.succeeds && id == d.id then at == d.doneAt
        else id in seen && seen[id] == at && d.at - at <= ttl
  {
  }
}
