/** The approval event broker under concurrency (api/approval_events.go): its read/write lock, with every
    statement under the lock and every single send a step of its own. A send on a closed channel and a
    second close of one would bring the process down. */
module BrokerLocking {
  import opened EventChannels
  import opened Options

  type Id = nat

  /** The threads that hold the lock: senders share it for reading, every other holds it alone.
      `todo` are the channels a sender has still to visit. */
  datatype Holder =
    | Sending(todo: set<Id>, event: Event)
    | Joining(user: string, limit: Option<nat>)
    | Creating(user: string)
    | Inserting(user: string)
    | Leaving(user: string, id: Id)
    | Removed(user: string, id: Id)
    | Closing(user: string, id: Id)

  datatype State = State(subscribers: map<string, set<Id>>, channels: seq<Channel>, holders: map<nat, Holder>, panicked: bool)

  datatype Step =
    | StartNotify(t: nat, to: Option<string>, event: Event)
    | Send(t: nat, id: Id)
    | EndNotify(t: nat)
    | StartJoin(t: nat, user: string, limit: Option<nat>)
    | CheckLimit(t: nat)
    | MakeEntry(t: nat)
    | Insert(t: nat)
    | StartLeave(t: nat, user: string, id: Id)
    | RemoveChannel(t: nat)
    | DropEntry(t: nat)
    | Close(t: nat)
    | Receive(id: Id)

  function Of(s: State, user: string): set<Id> {
    if user in s.subscribers then s.subscribers[user] else {}
  }

  function Everyone(s: State): set<Id> {
    set user, id | user in s.subscribers && id in s.subscribers[user] :: id
  }

  predicate Open(s: State, id: Id) {
    id < |s.channels| && s.channels[id].open
  }

  /** The lock: a reader enters while no writer is inside, a writer while nobody is. */
  predicate Enabled(s: State, step: Step) {
    match step
    case StartNotify(t, _, _) => t !in s.holders && forall q :: q in s.holders ==> s.holders[q].Sending?
    case StartJoin(_, _, _) => s.holders == map[]
    case StartLeave(_, _, _) => s.holders == map[]
    case Send(t, id) => t in s.holders && s.holders[t].Sending? && id in s.holders[t].todo
    case EndNotify(t) => t in s.holders && s.holders[t].Sending? && s.holders[t].todo == {}
    case CheckLimit(t) => t in s.holders && s.holders[t].Joining?
    case MakeEntry(t) => t in s.holders && s.holders[t].Creating?
    case Insert(t) => t in s.holders && s.holders[t].Inserting?
    case RemoveChannel(t) => t in s.holders && s.holders[t].Leaving?
    case DropEntry(t) => t in s.holders && s.holders[t].Removed?
    case Close(t) => t in s.holders && s.holders[t].Closing?
    case Receive(id) => id < |s.channels|
  }

  function Hold(s: State, t: nat, h: Holder): State {
    s.(holders := s.holders[t := h])
  }

  function Release(s: State, t: nat): State {
    s.(holders := s.holders - {t})
  }

  function Next(s: State, step: Step): State
    requires Enabled(s, step)
  {
    match step
    case StartNotify(t, to, event) => Hold(s, t, Sending(if to.Some? then Of(s, to.value) else Everyone(s), event))
    case Send(t, id) =>
      var h := s.holders[t];
      Hold(if Open(s, id) then s.(channels := s.channels[id := Offer(s.channels[id], h.event)]) else s.(panicked := true),
           t, h.(todo := h.todo - {id}))
    case EndNotify(t) => Release(s, t)
    case StartJoin(t, user, limit) => Hold(s, t, Joining(user, limit))
    case CheckLimit(t) =>
      var h := s.holders[t];
      if h.limit.Some? && |Of(s, h.user)| >= h.limit.value then Release(s, t) else Hold(s, t, Creating(h.user))
    case MakeEntry(t) =>
      var user := s.holders[t].user;
      Hold(s.(subscribers := s.subscribers[user := Of(s, user)]), t, Inserting(user))
    case Insert(t) =>
      var user := s.holders[t].user;
      Release(s.(subscribers := s.subscribers[user := Of(s, user) + {|s.channels|}], channels := s.channels + [FRESH]), t)
    case StartLeave(t, user, id) => Hold(s, t, Leaving(user, id))
    case RemoveChannel(t) =>
      var h := s.holders[t];
      if h.id in Of(s, h.user)
      then Hold(s.(subscribers := s.subscribers[h.user := Of(s, h.user) - {h.id}]), t, Removed(h.user, h.id))
      else Release(s, t)
    case DropEntry(t) =>
      var h := s.holders[t];
      Hold(if Of(s, h.user) == {} then s.(subscribers := s.subscribers - {h.user}) else s, t, Closing(h.user, h.id))
    case Close(t) =>
      var id := s.holders[t].id;
      Release(if Open(s, id) then s.(channels := s.channels[id := s.channels[id].(open := false)]) else s.(panicked := true), t)
    case Receive(id) => s.(channels := s.channels[id := Take(s.channels[id])])
  }

  /** Who may enter: a sender while no other kind of thread is inside, anyone else while nobody is; and a
      thread inside may always go on with its next statement. */
  lemma EnabledExactly(s: State, t: nat, to: Option<string>, event: Event, user: string, limit: Option<nat>, id: Id)
    ensures Enabled(s, StartNotify(t, to, event)) <==> t !in s.holders && forall q :: q in s.holders ==> s.holders[q].Sending?
    ensures Enabled(s, StartJoin(t, user, limit)) <==> forall q :: q !in s.holders
    ensures Enabled(s, StartLeave(t, user, id)) <==> forall q :: q !in s.holders
    ensures Enabled(s, Receive(id)) <==> id < |s.channels|
    ensures t in s.holders ==>
      match s.holders[t]
      case Sending(todo, _) => (Enabled(s, Send(t, id)) <==> id in todo) && (Enabled(s, EndNotify(t)) <==> todo == {})
      case Joining(_, _) => Enabled(s, CheckLimit(t))
      case Creating(_) => Enabled(s, MakeEntry(t))
      case Inserting(_) => Enabled(s, Insert(t))
      case Leaving(_, _) => Enabled(s, RemoveChannel(t))
      case Removed(_, _) => Enabled(s, DropEntry(t))
      case Closing(_, _) => Enabled(s, Close(t))
  {
  }

  /** A join goes on exactly without a limit, or while the user has fewer channels than it. */
  lemma LimitExactly(s: State, t: nat)
    requires t in s.holders && s.holders[t].Joining?
    ensures var user, limit := s.holders[t].user, s.holders[t].limit;
      var count := if user in s.subscribers then |s.subscribers[user]| else 0;
      && (t in Next(s, CheckLimit(t)).holders <==> limit == None || count < limit.value)
      && (t in Next(s, CheckLimit(t)).holders ==> Next(s, CheckLimit(t)).holders[t] == Creating(user))
  {
  }

  predicate Possible(s: State, steps: seq<Step>)
    decreases steps
  {
    steps == [] || (Enabled(s, steps[0]) && Possible(Next(s, steps[0]), steps[1..]))
  }

  function Run(s: State, steps: seq<Step>): State
    requires Possible(s, steps)
    decreases steps
  {
    if steps == [] then s else Run(Next(s, steps[0]), steps[1..])
  }

  const START := State(map[], [], map[], false)

  // ---- What every step keeps ---------------------------------------------------------------------

  predicate Registered(s: State, user: string, id: Id) {
    id in Of(s, user)
  }

  ghost predicate ChannelsSound(s: State) {
    && (forall user, id: Id :: Registered(s, user, id) ==> Open(s, id))
    && (forall u, v, id: Id :: Registered(s, u, id) && Registered(s, v, id) ==> u == v)
  }

  /** What a holder relies on for its next statement. */
  ghost predicate HolderSound(s: State, t: nat)
    requires t in s.holders
  {
    match s.holders[t]
    case Sending(todo, _) => forall id :: id in todo ==> id in Everyone(s)
    case Inserting(user) => user in s.subscribers
    case Removed(user, id) => user in s.subscribers && Open(s, id) && forall u :: !Registered(s, u, id)
    case Closing(_, id) => Open(s, id) && forall u :: !Registered(s, u, id)
    case _ => true
  }

  predicate MayBeEmpty(h: Holder, user: string) {
    h == Inserting(user) || (h.Removed? && h.user == user)
  }

  /** An empty entry exists only while a writer is about to fill or drop it. */
  ghost predicate EntriesSound(s: State) {
    forall user :: user in s.subscribers && s.subscribers[user] == {} ==> exists t :: t in s.holders && MayBeEmpty(s.holders[t], user)
  }

  ghost predicate LockSound(s: State) {
    forall t, q :: t in s.holders && q in s.holders && !s.holders[t].Sending? ==> q == t
  }

  ghost predicate Inv(s: State) {
    && !s.panicked && LockSound(s) && ChannelsSound(s) && EntriesSound(s)
    && forall t :: t in s.holders ==> HolderSound(s, t)
  }

  lemma EveryoneIs(s: State, id: Id)
    ensures id in Everyone(s) <==> exists user :: Registered(s, user, id)
  {
    if user :| Registered(s, user, id) {
      assert user in s.subscribers;
    }
    if id in Everyone(s) {
      var user :| user in s.subscribers && id in s.subscribers[user];
      assert Registered(s, user, id);
    }
  }

  /** Only inserting and removing change who is registered. */
  lemma RegisteredAfter(s: State, step: Step, user: string, id: Id)
    requires Enabled(s, step)
    ensures Registered(Next(s, step), user, id) <==>
      match step
      case Insert(t) => Registered(s, user, id) || (user == s.holders[t].user && id == |s.channels|)
      case RemoveChannel(t) => Registered(s, user, id) && !(user == s.holders[t].user && id == s.holders[t].id)
      case _ => Registered(s, user, id)
  {
  }

  lemma StepKeepsChannels(s: State, step: Step)
    requires Inv(s) && Enabled(s, step)
    ensures ChannelsSound(Next(s, step)) && LockSound(Next(s, step)) && !Next(s, step).panicked
  {
    var s' := Next(s, step);
    assert !step.Receive? && step.t in s.holders ==> HolderSound(s, step.t);
    if step.Send? {
      EveryoneIs(s, step.id);
    }
    forall user, id: Id | Registered(s', user, id) ensures Open(s', id) {
      RegisteredAfter(s, step, user, id);
    }
    forall u, v, id: Id | Registered(s', u, id) && Registered(s', v, id) ensures u == v {
      RegisteredAfter(s, step, u, id);
      RegisteredAfter(s, step, v, id);
    }
  }

  lemma StepKeepsEntries(s: State, step: Step)
    requires Inv(s) && Enabled(s, step)
    ensures EntriesSound(Next(s, step))
  {
    var s' := Next(s, step);
    forall user | user in s'.subscribers && s'.subscribers[user] == {}
      ensures exists t :: t in s'.holders && MayBeEmpty(s'.holders[t], user)
    {
      if step.Receive? {
        var t :| t in s.holders && MayBeEmpty(s.holders[t], user);
        assert t in s'.holders && MayBeEmpty(s'.holders[t], user);
      } else {
        assert MayBeEmpty(s'.holders[step.t], user);
      }
    }
  }

  lemma StepKeepsHolder(s: State, step: Step, q: nat)
    requires Inv(s) && Enabled(s, step) && q in Next(s, step).holders
    ensures HolderSound(Next(s, step), q)
  {
    var s' := Next(s, step);
    assert q in s.holders ==> HolderSound(s, q);
    assert !step.Receive? && step.t in s.holders ==> HolderSound(s, step.t);
    if s'.holders[q].Sending? {
      forall id | id in s'.holders[q].todo ensures id in Everyone(s') {
        if step.StartNotify? && step.t == q && step.to.Some? {
          assert Registered(s, step.to.value, id);
          EveryoneIs(s, id);
        }
        assert s'.subscribers == s.subscribers;
      }
    } else if step.RemoveChannel? && q == step.t {
      var h := s.holders[q];
      assert Registered(s, h.user, h.id);
      forall u ensures !Registered(s', u, h.id) {
        RegisteredAfter(s, step, u, h.id);
      }
    } else if s'.holders[q].Closing? || s'.holders[q].Removed? {
      forall u ensures !Registered(s', u, s'.holders[q].id) {
        RegisteredAfter(s, step, u, s'.holders[q].id);
      }
    }
  }

  lemma StepKeepsInv(s: State, step: Step)
    requires Inv(s) && Enabled(s, step)
    ensures Inv(Next(s, step))
  {
    StepKeepsChannels(s, step);
    StepKeepsEntries(s, step);
    forall q | q in Next(s, step).holders ensures HolderSound(Next(s, step), q) {
      StepKeepsHolder(s, step, q);
    }
  }

  lemma {:induction false} RunKeepsInv(s: State, steps: seq<Step>)
    requires Inv(s) && Possible(s, steps)
    ensures Inv(Run(s, steps))
    decreases steps
  {
    hide Inv;
    if steps != [] {
      StepKeepsInv(s, steps[0]);
      RunKeepsInv(Next(s, steps[0]), steps[1..]);
    }
  }

  /** Over every interleaving: nothing is ever sent on a closed channel and no channel is closed twice;
      a registered channel is open and one user's; whenever nobody holds the lock, no user is listed
      without a channel. */
  lemma NoPanic(steps: seq<Step>)
    requires Possible(START, steps)
    ensures var s := Run(START, steps);
      && !s.panicked
      && (forall user, id: Id :: Registered(s, user, id) ==> Open(s, id))
      && (forall u, v, id: Id :: Registered(s, u, id) && Registered(s, v, id) ==> u == v)
      && (s.holders == map[] ==> forall user :: user in s.subscribers ==> s.subscribers[user] != {})
  {
    RunKeepsInv(START, steps);
  }

  /** Every channel ever made is registered, closed, or being closed right now: none is forgotten open. */
  ghost predicate Accounted(s: State) {
    forall id: Id :: id < |s.channels| ==> HasPlace(s, id)
  }

  predicate Vanishing(h: Holder, id: Id) {
    (h.Removed? || h.Closing?) && h.id == id
  }

  ghost predicate HasPlace(s: State, id: Id) {
    || !Open(s, id)
    || (exists user :: Registered(s, user, id))
    || exists t :: t in s.holders && Vanishing(s.holders[t], id)
  }

  lemma StepKeepsAccounts(s: State, step: Step)
    requires Inv(s) && Enabled(s, step) && Accounted(s)
    ensures Accounted(Next(s, step))
  {
    var s' := Next(s, step);
    forall id: Id | id < |s'.channels| ensures HasPlace(s', id) {
      if id == |s.channels| {
        RegisteredAfter(s, step, s.holders[step.t].user, id);
      } else if user :| Registered(s, user, id) {
        RegisteredAfter(s, step, user, id);
        assert Registered(s', user, id) || Vanishing(s'.holders[step.t], id);
      } else if Open(s, id) {
        assert HasPlace(s, id);
        var t :| t in s.holders && Vanishing(s.holders[t], id);
        assert !step.Receive? && step.t in s.holders ==> step.t == t;
        assert !Open(s', id) || (t in s'.holders && Vanishing(s'.holders[t], id));
      }
    }
  }

  lemma {:induction false} NoChannelIsForgotten(s: State, steps: seq<Step>)
    requires Inv(s) && Accounted(s) && Possible(s, steps)
    ensures Accounted(Run(s, steps))
    decreases steps
  {
    hide Inv, Accounted;
    if steps != [] {
      StepKeepsInv(s, steps[0]);
      StepKeepsAccounts(s, steps[0]);
      NoChannelIsForgotten(Next(s, steps[0]), steps[1..]);
    }
  }

  // ---- The limit -----------------------------------------------------------------------------------

  /** The user has at most `limit` channels, and fewer while one is being added. */
  ghost predicate WithinLimit(s: State, user: string, limit: nat) {
    && |Of(s, user)| <= limit
    && (forall t :: t in s.holders && (s.holders[t] == Creating(user) || s.holders[t] == Inserting(user)) ==> |Of(s, user)| < limit)
    && (forall t :: t in s.holders && s.holders[t].Joining? && s.holders[t].user == user ==>
          s.holders[t].limit.Some? && s.holders[t].limit.value <= limit)
  }

  predicate JoinsWithLimit(step: Step, user: string, limit: nat) {
    step.StartJoin? && step.user == user ==> step.limit.Some? && step.limit.value <= limit
  }

  lemma SizeAfter(s: State, step: Step, user: string)
    requires Enabled(s, step)
    ensures |Of(Next(s, step), user)| <= |Of(s, user)| + if step.Insert? && s.holders[step.t].user == user then 1 else 0
  {
    var s' := Next(s, step);
    if step.RemoveChannel? {
      SmallerSet(Of(s', user), Of(s, user));
    } else if step.Insert? && s.holders[step.t].user == user {
      assert Of(s', user) == Of(s, user) + {|s.channels|};
    } else {
      assert Of(s', user) == Of(s, user);
    }
  }

  lemma StepKeepsLimit(s: State, step: Step, user: string, limit: nat)
    requires Inv(s) && Enabled(s, step) && WithinLimit(s, user, limit) && JoinsWithLimit(step, user, limit)
    ensures WithinLimit(Next(s, step), user, limit)
  {
    hide Of, ChannelsSound, EntriesSound, HolderSound;
    SizeAfter(s, step, user);
    if step.MakeEntry? {
      EntryIsEmpty(s, step, user);
    }
  }

  lemma EntryIsEmpty(s: State, step: Step, user: string)
    requires step.MakeEntry? && Enabled(s, step)
    ensures Of(Next(s, step), user) == Of(s, user)
  {
  }

  lemma SmallerSet(a: set<Id>, b: set<Id>)
    requires a <= b
    ensures |a| <= |b|
  {
    assert b == a + (b - a);
  }

  /** Users who join only through the limit check never exceed the limit, at any step of any run. */
  lemma {:induction false} LimitHolds(s: State, steps: seq<Step>, user: string, limit: nat)
    requires Inv(s) && WithinLimit(s, user, limit) && Possible(s, steps)
    requires forall i :: 0 <= i < |steps| ==> JoinsWithLimit(steps[i], user, limit)
    ensures |Of(Run(s, steps), user)| <= limit
    decreases steps
  {
    hide Inv;
    if steps != [] {
      StepKeepsInv(s, steps[0]);
      StepKeepsLimit(s, steps[0], user, limit);
      assert forall i :: 0 <= i < |steps[1..]| ==> steps[1..][i] == steps[i + 1];
      LimitHolds(Next(s, steps[0]), steps[1..], user, limit);
    }
  }

  // ---- Delivery ------------------------------------------------------------------------------------

  /** The events offered to a channel, one for each send to it, in the order of the sends. */
  function Offered(s: State, id: Id, steps: seq<Step>): seq<Event>
    requires Possible(s, steps)
    decreases steps
  {
    if steps == [] then []
    else OfferedBy(s, id, steps[0]) + Offered(Next(s, steps[0]), id, steps[1..])
  }

  function OfferedBy(s: State, id: Id, step: Step): seq<Event>
    requires Enabled(s, step)
  {
    if step.Send? && step.id == id then [s.holders[step.t].event] else []
  }

  /** How many of them met a full buffer. */
  function Dropped(s: State, id: Id, steps: seq<Step>): nat
    requires Possible(s, steps) && id < |s.channels|
    decreases steps
  {
    if steps == [] then 0
    else
      ChannelsStay(s, steps[0]);
      (if SendsTo(steps[0], id) && |s.channels[id].buffer| >= CAPACITY then 1 else 0) +
      Dropped(Next(s, steps[0]), id, steps[1..])
  }

  predicate SendsTo(step: Step, id: Id) {
    step.Send? && step.id == id
  }

  lemma ChannelsStay(s: State, step: Step)
    requires Enabled(s, step)
    ensures |s.channels| <= |Next(s, step).channels|
  {
  }

  lemma StepDelivers(s: State, step: Step, id: Id)
    requires Inv(s) && Enabled(s, step) && id < |s.channels| <= |Next(s, step).channels|
    ensures Delivered(Next(s, step).channels[id]) ==
      Delivered(s.channels[id]) + if |s.channels[id].buffer| < CAPACITY then OfferedBy(s, id, step) else []
  {
    var s', c := Next(s, step), s.channels[id];
    if step.Send? && step.id == id {
      assert HolderSound(s, step.t);
      EveryoneIs(s, id);
      OfferDelivers(c, s.holders[step.t].event);
      assert s'.channels[id] == Offer(c, s.holders[step.t].event);
    } else if step.Receive? && step.id == id {
      TakeKeepsDelivered(c);
    } else {
      assert Delivered(s'.channels[id]) == Delivered(c);
    }
  }

  /** Over every interleaving a channel gets what is offered to it, in that order, less what met a full
      buffer. */
  lemma {:induction false} LockedDeliveryIsInOrder(s: State, steps: seq<Step>, id: Id)
    requires Inv(s) && Possible(s, steps) && id < |s.channels|
    ensures id < |Run(s, steps).channels|
    ensures Delivers(Delivered(s.channels[id]), Delivered(Run(s, steps).channels[id]), Offered(s, id, steps), Dropped(s, id, steps))
    decreases steps
  {
    hide Inv, Enabled, Next, Delivered, Delivers;
    var before := Delivered(s.channels[id]);
    if steps == [] {
      NothingSent(before);
    } else {
      var step := steps[0];
      var s' := Next(s, step);
      StepKeepsInv(s, step);
      ChannelsStay(s, step);
      StepDelivers(s, step, id);
      LockedDeliveryIsInOrder(s', steps[1..], id);
      if SendsTo(step, id) {
        SendThenRest(before, Delivered(s'.channels[id]), Delivered(Run(s, steps).channels[id]), OfferedBy(s, id, step)[0],
                     Offered(s', id, steps[1..]), Dropped(s', id, steps[1..]), |s.channels[id].buffer| >= CAPACITY);
      } else {
        assert Delivered(s'.channels[id]) == before;
        assert Offered(s, id, steps) == Offered(s', id, steps[1..]);
      }
    }
  }

  /** The events of the notifies started for the user, or for everybody. */
  function Started(user: string, steps: seq<Step>): seq<Event>
    decreases steps
  {
    if steps == [] then [] else StartedBy(user, steps[0]) + Started(user, steps[1..])
  }

  function StartedBy(user: string, step: Step): seq<Event> {
    if step.StartNotify? && (step.to.None? || step.to.value == user) then [step.event] else []
  }

  /** The senders that still have the channel before them, with this event. */
  function Pending(s: State, id: Id, event: Event): set<nat> {
    set t | t in s.holders && IsPending(s.holders[t], id, event)
  }

  predicate IsPending(h: Holder, id: Id, event: Event) {
    h.Sending? && id in h.todo && h.event == event
  }

  /** The channel is the user's and nobody is about to unsubscribe it. */
  ghost predicate Subscribed(s: State, user: string, id: Id) {
    Registered(s, user, id) && forall t :: t in s.holders ==> s.holders[t] != Leaving(user, id)
  }

  predicate LeavesAlone(steps: seq<Step>, user: string, id: Id) {
    forall i :: 0 <= i < |steps| && steps[i].StartLeave? ==> steps[i].user != user || steps[i].id != id
  }

  lemma StaysSubscribed(s: State, step: Step, user: string, id: Id)
    requires Inv(s) && Enabled(s, step) && Subscribed(s, user, id)
    requires step.StartLeave? ==> step.user != user || step.id != id
    ensures Subscribed(Next(s, step), user, id)
  {
    RegisteredAfter(s, step, user, id);
  }

  lemma StartAddsPending(s: State, step: Step, user: string, id: Id, event: Event)
    requires Inv(s) && Enabled(s, step) && Registered(s, user, id) && step.StartNotify?
    ensures Pending(Next(s, step), id, event) ==
      Pending(s, id, event) + if StartedBy(user, step) == [event] then {step.t} else {}
  {
    hide HolderSound, EntriesSound, Everyone, Of;
    EveryoneIs(s, id);
    assert step.to.Some? && id in Of(s, step.to.value) ==> Registered(s, step.to.value, id);
    assert step.to == Some(user) ==> id in Of(s, user) by { InOwnSet(s, user, id); }
  }

  lemma InOwnSet(s: State, user: string, id: Id)
    requires Registered(s, user, id)
    ensures id in Of(s, user)
  {
  }

  lemma SendTakesPending(s: State, step: Step, id: Id, event: Event)
    requires Enabled(s, step) && step.Send?
    ensures Pending(Next(s, step), id, event) ==
      Pending(s, id, event) - if OfferedBy(s, id, step) == [event] then {step.t} else {}
    ensures OfferedBy(s, id, step) == [event] ==> step.t in Pending(s, id, event)
  {
    var s' := Next(s, step);
    forall t ensures t in Pending(s', id, event) <==>
      t in Pending(s, id, event) && !(t == step.t && OfferedBy(s, id, step) == [event]) {
    }
  }

  lemma OthersKeepPending(s: State, step: Step, id: Id, event: Event)
    requires Enabled(s, step) && !step.StartNotify? && !step.Send?
    ensures Pending(Next(s, step), id, event) == Pending(s, id, event)
  {
    var s' := Next(s, step);
    forall t ensures t in Pending(s', id, event) <==> t in Pending(s, id, event) {
    }
  }

  /** Every send takes one sender off the pending ones, every start adds one. */
  lemma StepKeepsCount(s: State, step: Step, user: string, id: Id, event: Event)
    requires Inv(s) && Enabled(s, step) && Subscribed(s, user, id)
    ensures multiset(OfferedBy(s, id, step))[event] + |Pending(Next(s, step), id, event)| ==
      |Pending(s, id, event)| + multiset(StartedBy(user, step))[event]
  {
    hide Inv, Next, IsPending;
    if step.StartNotify? {
      StartAddsPending(s, step, user, id, event);
    } else if step.Send? {
      SendTakesPending(s, step, id, event);
    } else {
      OthersKeepPending(s, step, id, event);
    }
  }

  /** Every notify reaches the channel exactly once: over every interleaving in which the channel stays
      subscribed, the events offered to it and those still pending are, event by event, those that were
      pending and those of the notifies started. */
  lemma {:induction false} EveryNotifyOffersOnce(s: State, steps: seq<Step>, user: string, id: Id, event: Event)
    requires Inv(s) && Possible(s, steps) && Subscribed(s, user, id) && LeavesAlone(steps, user, id)
    ensures multiset(Offered(s, id, steps))[event] + |Pending(Run(s, steps), id, event)| ==
      |Pending(s, id, event)| + multiset(Started(user, steps))[event]
    decreases steps
  {
    hide Inv, Enabled, Next, Subscribed, OfferedBy, StartedBy, Pending;
    if steps != [] {
      StepKeepsInv(s, steps[0]);
      StepKeepsCount(s, steps[0], user, id, event);
      StaysSubscribed(s, steps[0], user, id);
      assert LeavesAlone(steps[1..], user, id);
      EveryNotifyOffersOnce(Next(s, steps[0]), steps[1..], user, id, event);
    }
  }

  /** Nobody is sending. */
  predicate Quiet(s: State) {
    forall t :: t in s.holders ==> !s.holders[t].Sending?
  }

  /** From one quiet moment to the next a subscribed channel is offered exactly the events of the notifies
      started meanwhile, and gets them all exactly when none met a full buffer. */
  lemma QuietToQuiet(s: State, steps: seq<Step>, user: string, id: Id)
    requires Inv(s) && Possible(s, steps) && Subscribed(s, user, id) && LeavesAlone(steps, user, id)
    requires Quiet(s) && Quiet(Run(s, steps))
    ensures id < |s.channels| && id < |Run(s, steps).channels|
    ensures multiset(Offered(s, id, steps)) == multiset(Started(user, steps))
    ensures Delivered(Run(s, steps).channels[id]) == Delivered(s.channels[id]) + Offered(s, id, steps)
      <==> Dropped(s, id, steps) == 0
  {
    forall event: Event ensures multiset(Offered(s, id, steps))[event] == multiset(Started(user, steps))[event] {
      EveryNotifyOffersOnce(s, steps, user, id, event);
      assert Pending(s, id, event) == {} && Pending(Run(s, steps), id, event) == {};
    }
    LockedDeliveryIsInOrder(s, steps, id);
    CompleteExactly(Delivered(s.channels[id]), Delivered(Run(s, steps).channels[id]), Offered(s, id, steps), Dropped(s, id, steps));
  }

  lemma {:induction false} RunInTwo(s: State, a: seq<Step>, b: seq<Step>, id: Id)
    requires Possible(s, a + b)
    ensures Possible(s, a) && Possible(Run(s, a), b) && Run(s, a + b) == Run(Run(s, a), b)
    ensures Offered(s, id, a + b) == Offered(s, id, a) + Offered(Run(s, a), id, b)
    decreases a
  {
    hide Enabled, Next, OfferedBy;
    if a == [] {
      assert a + b == b;
    } else {
      assert (a + b)[1..] == a[1..] + b;
      RunInTwo(Next(s, a[0]), a[1..], b, id);
    }
  }

  /** Notifies that do not overlap arrive in their order: with a quiet moment between, everything started
      before it is offered before everything started after it. */
  lemma QuietMomentsKeepOrder(s: State, a: seq<Step>, b: seq<Step>, user: string, id: Id)
    requires Inv(s) && Possible(s, a + b) && Subscribed(s, user, id) && LeavesAlone(a + b, user, id)
    requires Possible(s, a) && Quiet(s) && Quiet(Run(s, a)) && Quiet(Run(s, a + b))
    ensures exists first, second ::
      && Offered(s, id, a + b) == first + second
      && multiset(first) == multiset(Started(user, a)) && multiset(second) == multiset(Started(user, b))
  {
    hide Inv, Subscribed, Enabled, Next, Quiet;
    RunInTwo(s, a, b, id);
    assert LeavesAlone(a, user, id) by { assert forall i :: 0 <= i < |a| ==> a[i] == (a + b)[i]; }
    assert LeavesAlone(b, user, id) by { assert forall i :: 0 <= i < |b| ==> b[i] == (a + b)[|a| + i]; }
    QuietToQuiet(s, a, user, id);
    RunKeepsInv(s, a);
    RunStaysSubscribed(s, a, user, id);
    QuietToQuiet(Run(s, a), b, user, id);
  }

  lemma {:induction false} RunStaysSubscribed(s: State, steps: seq<Step>, user: string, id: Id)
    requires Inv(s) && Possible(s, steps) && Subscribed(s, user, id) && LeavesAlone(steps, user, id)
    ensures Subscribed(Run(s, steps), user, id)
    decreases steps
  {
    hide Inv, Subscribed, Enabled, Next;
    if steps != [] {
      StepKeepsInv(s, steps[0]);
      StaysSubscribed(s, steps[0], user, id);
      assert LeavesAlone(steps[1..], user, id);
      RunStaysSubscribed(Next(s, steps[0]), steps[1..], user, id);
    }
  }

  /** The event stream admits users through the limit of ten connections alone, so that nobody ever has
      more. */
  lemma ServedUsersHaveAtMostTen(steps: seq<Step>, user: string)
    requires Possible(START, steps)
    requires forall i :: 0 <= i < |steps| && steps[i].StartJoin? ==> steps[i].limit == Some(10)
    ensures |Of(Run(START, steps), user)| <= 10
  {
    assert forall i :: 0 <= i < |steps| ==> JoinsWithLimit(steps[i], user, 10);
    LimitHolds(START, steps, user, 10);
  }
}
