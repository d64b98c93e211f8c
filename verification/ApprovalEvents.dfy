/** The broker of approval events (api/approval_events.go): a set of buffered channels for each user;
    an event that meets a full buffer is dropped for that channel. Channels are numbered in the order
    in which they are made. */
module ApprovalEvents {
  import opened EventChannels
  import opened Options

  type Id = nat

  datatype State = State(subscribers: map<string, set<Id>>, channels: seq<Channel>)

  datatype Step =
    | Subscribe(user: string)
    | SubscribeWithLimit(user: string, limit: nat)
    | Unsubscribe(user: string, id: Id)
    | Notify(user: string, event: Event)
    | NotifyAll(event: Event)
    | Receive(id: Id)

  function Of(s: State, user: string): set<Id> {
    if user in s.subscribers then s.subscribers[user] else {}
  }

  function Everyone(s: State): set<Id> {
    set user, id | user in s.subscribers && id in s.subscribers[user] :: id
  }

  function OfferTo(channels: seq<Channel>, ids: set<Id>, event: Event): (r: seq<Channel>)
    ensures |r| == |channels|
  {
    seq(|channels|, i requires 0 <= i < |channels| => if i in ids then Offer(channels[i], event) else channels[i])
  }

  lemma OfferInTwo(channels: seq<Channel>, first: set<Id>, second: set<Id>, event: Event)
    requires first !! second
    ensures OfferTo(OfferTo(channels, first, event), second, event) == OfferTo(channels, first + second, event)
  {
  }

  function Add(s: State, user: string): State {
    State(s.subscribers[user := Of(s, user) + {|s.channels|}], s.channels + [FRESH])
  }

  function Remove(s: State, user: string, id: Id): State
    requires id < |s.channels|
  {
    var rest := Of(s, user) - {id};
    State(if rest == {} then s.subscribers - {user} else s.subscribers[user := rest],
          s.channels[id := s.channels[id].(open := false)])
  }

  function Next(s: State, step: Step): State {
    match step
    case Subscribe(user) => Add(s, user)
    case SubscribeWithLimit(user, limit) => if |Of(s, user)| >= limit then s else Add(s, user)
    case Unsubscribe(user, id) => if id in Of(s, user) && id < |s.channels| then Remove(s, user, id) else s
    case Notify(user, event) => s.(channels := OfferTo(s.channels, Of(s, user), event))
    case NotifyAll(event) => s.(channels := OfferTo(s.channels, Everyone(s), event))
    case Receive(id) => if id < |s.channels| then s.(channels := s.channels[id := Take(s.channels[id])]) else s
  }

  function Run(s: State, steps: seq<Step>): State
    decreases steps
  {
    if steps == [] then s else Run(Next(s, steps[0]), steps[1..])
  }

  predicate Registered(s: State, user: string, id: Id) {
    id in Of(s, user)
  }

  /** A registered channel is open and one user's; nobody is listed without a channel; no buffer
      overflows. */
  ghost predicate Inv(s: State) {
    && (forall user :: user in s.subscribers ==> s.subscribers[user] != {})
    && (forall user, id: Id :: Registered(s, user, id) ==> id < |s.channels| && s.channels[id].open)
    && (forall u, v, id: Id :: Registered(s, u, id) && Registered(s, v, id) ==> u == v)
    && (forall id: Id :: id < |s.channels| ==> |s.channels[id].buffer| <= CAPACITY)
  }

  /** Only joining and leaving change who is registered. */
  lemma RegisteredAfter(s: State, step: Step, user: string, id: Id)
    requires Inv(s)
    ensures Registered(Next(s, step), user, id) <==>
      match step
      case Subscribe(u) => Registered(s, user, id) || (u == user && id == |s.channels|)
      case SubscribeWithLimit(u, limit) => Registered(s, user, id) || (u == user && id == |s.channels| && |Of(s, u)| < limit)
      case Unsubscribe(u, i) => Registered(s, user, id) && !(u == user && i == id)
      case _ => Registered(s, user, id)
  {
    assert step.Unsubscribe? && step.id in Of(s, step.user) ==> Registered(s, step.user, step.id);
  }

  lemma StepKeepsInv(s: State, step: Step)
    requires Inv(s)
    ensures Inv(Next(s, step))
  {
    var s' := Next(s, step);
    assert step.Unsubscribe? && step.id in Of(s, step.user) ==> Registered(s, step.user, step.id);
    forall user, id: Id | Registered(s', user, id) ensures id < |s'.channels| && s'.channels[id].open {
      RegisteredAfter(s, step, user, id);
      assert Registered(s, user, id) || id == |s.channels|;
    }
    forall u, v, id: Id | Registered(s', u, id) && Registered(s', v, id) ensures u == v {
      RegisteredAfter(s, step, u, id);
      RegisteredAfter(s, step, v, id);
    }
  }

  /** Joining makes a new open channel and registers it; with a limit, exactly while the user has fewer
      channels than that. */
  lemma JoinsExactly(s: State, user: string, limit: nat)
    ensures var s' := Next(s, Subscribe(user));
      && s'.channels == s.channels + [Channel(true, [], [])] && user in s'.subscribers
      && s'.subscribers == s.subscribers[user := s'.subscribers[user]]
      && s'.subscribers[user] == (if user in s.subscribers then s.subscribers[user] else {}) + {|s.channels|}
    ensures Next(s, SubscribeWithLimit(user, limit)) ==
      if (if user in s.subscribers then |s.subscribers[user]| else 0) < limit then Next(s, Subscribe(user)) else s
  {
  }

  /** Leaving takes the channel off the user's and closes it, and the user off the list with the last one. */
  lemma LeavesExactly(s: State, user: string, id: Id)
    requires Inv(s)
    ensures var s' := Next(s, Unsubscribe(user, id));
      if user in s.subscribers && id in s.subscribers[user] then
        && id < |s.channels| && s'.channels == s.channels[id := s.channels[id].(open := false)]
        && (s.subscribers[user] == {id} ==> s'.subscribers == s.subscribers - {user})
        && (s.subscribers[user] != {id} ==> s'.subscribers == s.subscribers[user := s.subscribers[user] - {id}])
      else s' == s
  {
    assert user in s.subscribers && id in s.subscribers[user] ==> Registered(s, user, id);
    if user in s.subscribers && id in s.subscribers[user] {
      assert s.subscribers[user] - {id} == {} <==> s.subscribers[user] == {id};
    }
  }

  /** The limit is kept by every run in which the user joins only through it. */
  lemma {:induction false} LimitIsKept(s: State, steps: seq<Step>, user: string, limit: nat)
    requires |Of(s, user)| <= limit
    requires forall i :: 0 <= i < |steps| ==> steps[i] != Subscribe(user)
    requires forall i :: 0 <= i < |steps| && steps[i].SubscribeWithLimit? && steps[i].user == user ==> steps[i].limit <= limit
    ensures |Of(Run(s, steps), user)| <= limit
    decreases steps
  {
    if steps != [] {
      var s' := Next(s, steps[0]);
      assert |Of(s', user)| <= limit by { LimitKeptByStep(s, steps[0], user, limit); }
      assert forall i :: 0 <= i < |steps[1..]| ==> steps[1..][i] == steps[i + 1];
      LimitIsKept(s', steps[1..], user, limit);
    }
  }

  lemma LimitKeptByStep(s: State, step: Step, user: string, limit: nat)
    requires |Of(s, user)| <= limit && step != Subscribe(user)
    requires step.SubscribeWithLimit? && step.user == user ==> step.limit <= limit
    ensures |Of(Next(s, step), user)| <= limit
  {
    if step.Unsubscribe? && step.user == user && step.id in Of(s, user) && step.id < |s.channels| {
      assert Of(Next(s, step), user) == Of(s, user) - {step.id};
    }
  }

  // ---- Delivery ------------------------------------------------------------------------------------

  /** Step `step` sends an event to a channel of this user. */
  predicate Sends(step: Step, user: string) {
    (step.Notify? && step.user == user) || step.NotifyAll?
  }

  /** The events sent to the user, or to everybody, while the channel is subscribed. */
  function Sent(user: string, id: Id, steps: seq<Step>): seq<Event>
    decreases steps
  {
    if steps == [] || steps[0] == Unsubscribe(user, id) then []
    else (if Sends(steps[0], user) then [steps[0].event] else []) + Sent(user, id, steps[1..])
  }

  /** How many of them met a full buffer. */
  function Dropped(s: State, user: string, id: Id, steps: seq<Step>): nat
    requires id < |s.channels|
    decreases steps
  {
    if steps == [] || steps[0] == Unsubscribe(user, id) then 0
    else
      (if Sends(steps[0], user) && |s.channels[id].buffer| >= CAPACITY then 1 else 0) +
      Dropped(Next(s, steps[0]), user, id, steps[1..])
  }

  /** What one step does to a subscribed channel: a send appends the event or drops it, and nothing
      else changes what was delivered. */
  lemma StepDelivers(s: State, step: Step, user: string, id: Id)
    requires Inv(s) && Registered(s, user, id) && step != Unsubscribe(user, id)
    ensures Registered(Next(s, step), user, id) && id < |s.channels| <= |Next(s, step).channels|
    ensures Delivered(Next(s, step).channels[id]) ==
      Delivered(s.channels[id]) + if Sends(step, user) && |s.channels[id].buffer| < CAPACITY then [step.event] else []
  {
    var s' := Next(s, step);
    RegisteredAfter(s, step, user, id);
    assert id in Everyone(s);
    var other := if step.Notify? then step.user else user;
    assert id in Of(s, other) ==> Registered(s, other, id);
    if step.Unsubscribe? && step.id in Of(s, step.user) {
      assert Registered(s, step.user, step.id);
    }
    var c := s.channels[id];
    if step.Receive? && step.id == id {
      TakeKeepsDelivered(c);
    } else if Sends(step, user) {
      OfferDelivers(c, step.event);
      assert s'.channels[id] == Offer(c, step.event);
    } else {
      assert s'.channels[id] == c;
    }
  }

  /** A closed channel gets no more events; its reader may still drain it. */
  lemma {:induction false} NothingAfterUnsubscribe(s: State, steps: seq<Step>, id: Id)
    requires Inv(s) && id < |s.channels| && !s.channels[id].open
    ensures id < |Run(s, steps).channels| && Delivered(Run(s, steps).channels[id]) == Delivered(s.channels[id])
    decreases steps
  {
    if steps != [] {
      StepKeepsInv(s, steps[0]);
      ClosedStaysClosed(s, steps[0], id);
      NothingAfterUnsubscribe(Next(s, steps[0]), steps[1..], id);
    }
  }

  lemma ClosedStaysClosed(s: State, step: Step, id: Id)
    requires Inv(s) && id < |s.channels| && !s.channels[id].open
    ensures id < |Next(s, step).channels| && !Next(s, step).channels[id].open
    ensures Delivered(Next(s, step).channels[id]) == Delivered(s.channels[id])
  {
    forall user ensures id !in Of(s, user) {
      assert id in Of(s, user) ==> Registered(s, user, id);
    }
    assert id in Everyone(s) ==> exists user :: user in s.subscribers && id in Of(s, user);
    if step.Receive? && step.id == id {
      TakeKeepsDelivered(s.channels[id]);
    }
  }

  lemma {:induction false} ChannelsStay(s: State, steps: seq<Step>)
    ensures |s.channels| <= |Run(s, steps).channels|
    decreases steps
  {
    hide Next;
    if steps != [] {
      ChannelsStayByStep(s, steps[0]);
      ChannelsStay(Next(s, steps[0]), steps[1..]);
    }
  }

  lemma ChannelsStayByStep(s: State, step: Step)
    ensures |s.channels| <= |Next(s, step).channels|
  {
  }

  /** Over every run after a subscription: what the channel gets is the events sent to it while it is
      subscribed, in order, less those that met a full buffer. */
  lemma {:induction false} DeliveryIsInOrder(s: State, steps: seq<Step>, user: string, id: Id)
    requires Inv(s) && Registered(s, user, id)
    ensures id < |s.channels| <= |Run(s, steps).channels|
    ensures Delivers(Delivered(s.channels[id]), Delivered(Run(s, steps).channels[id]),
                     Sent(user, id, steps), Dropped(s, user, id, steps))
    decreases steps
  {
    hide Delivered, Inv, Next, Registered, IsSubsequence;
    RegisteredIsMade(s, user, id);
    var before := Delivered(s.channels[id]);
    if steps == [] {
      NothingSent(before);
    } else if steps[0] == Unsubscribe(user, id) {
      StepKeepsInv(s, steps[0]);
      Unsubscribed(s, user, id);
      NothingAfterUnsubscribe(Next(s, steps[0]), steps[1..], id);
      ChannelsStay(Next(s, steps[0]), steps[1..]);
      NothingSent(before);
    } else {
      StepKeepsInv(s, steps[0]);
      StepDelivers(s, steps[0], user, id);
      var s' := Next(s, steps[0]);
      DeliveryIsInOrder(s', steps[1..], user, id);
      if Sends(steps[0], user) {
        SendThenRest(before, Delivered(s'.channels[id]), Delivered(Run(s, steps).channels[id]), steps[0].event,
                     Sent(user, id, steps[1..]), Dropped(s', user, id, steps[1..]), |s.channels[id].buffer| >= CAPACITY);
      } else {
        assert Delivered(s'.channels[id]) == before;
        assert Sent(user, id, steps) == Sent(user, id, steps[1..]);
      }
    }
  }

  lemma RegisteredIsMade(s: State, user: string, id: Id)
    requires Inv(s) && Registered(s, user, id)
    ensures id < |s.channels|
  {
  }

  lemma Unsubscribed(s: State, user: string, id: Id)
    requires Inv(s) && Registered(s, user, id)
    ensures var s' := Next(s, Unsubscribe(user, id));
      |s'.channels| == |s.channels| && id < |s.channels| &&
      !s'.channels[id].open && Delivered(s'.channels[id]) == Delivered(s.channels[id])
  {
  }

  /** A channel gets every event sent to it exactly when no send met a full buffer. */
  lemma DeliveryIsCompleteExactly(s: State, steps: seq<Step>, user: string, id: Id)
    requires Inv(s) && Registered(s, user, id)
    ensures id < |s.channels| <= |Run(s, steps).channels|
    ensures Delivered(Run(s, steps).channels[id]) == Delivered(s.channels[id]) + Sent(user, id, steps)
      <==> Dropped(s, user, id, steps) == 0
  {
    DeliveryIsInOrder(s, steps, user, id);
    CompleteExactly(Delivered(s.channels[id]), Delivered(Run(s, steps).channels[id]),
                    Sent(user, id, steps), Dropped(s, user, id, steps));
  }

  // ---- The broker ----------------------------------------------------------------------------------

  class ApprovalEventBroker {
    var subscribers: map<string, set<Id>>
    var channels: seq<Channel>

    function View(): State
      reads this
    {
      State(subscribers, channels)
    }

    constructor ()
      ensures View() == State(map[], []) && Inv(View())
    {
      subscribers, channels := map[], [];
    }

    method Subscribe(user: string) returns (id: Id)
      modifies this
      ensures View() == Next(old(View()), Step.Subscribe(user)) && id == |old(channels)|
    {
      id := |channels|;
      channels := channels + [FRESH];
      if user !in subscribers {
        subscribers := subscribers[user := {}];
      }
      subscribers := subscribers[user := subscribers[user] + {id}];
    }

    method SubscribeWithLimit(user: string, limit: nat) returns (id: Option<Id>)
      modifies this
      ensures View() == Next(old(View()), Step.SubscribeWithLimit(user, limit))
      ensures id == if |Of(old(View()), user)| >= limit then None else Some(|old(channels)|)
    {
      if |Of(View(), user)| >= limit {
        return None;
      }
      var added := |channels|;
      channels := channels + [FRESH];
      if user !in subscribers {
        subscribers := subscribers[user := {}];
      }
      subscribers := subscribers[user := subscribers[user] + {added}];
      id := Some(added);
    }

    /** A second call for the same channel finds it gone and does nothing. */
    method Unsubscribe(user: string, id: Id)
      requires Inv(View())
      modifies this
      ensures View() == Next(old(View()), Step.Unsubscribe(user, id))
      ensures Next(View(), Step.Unsubscribe(user, id)) == View()
    {
      assert id in Of(View(), user) ==> Registered(View(), user, id);
      if user in subscribers && id in subscribers[user] {
        subscribers := subscribers[user := subscribers[user] - {id}];
        if |subscribers[user]| == 0 {
          subscribers := subscribers - {user};
        }
        channels := channels[id := channels[id].(open := false)];
      }
    }

    /** Offers the event to the channels, one after the other in any order. */
    method Broadcast(ids: set<Id>, event: Event)
      requires forall id :: id in ids ==> id < |channels|
      modifies this`channels
      ensures channels == OfferTo(old(channels), ids, event)
    {
      var todo := ids;
      while todo != {}
        invariant todo <= ids && |channels| == |old(channels)|
        invariant forall i :: 0 <= i < |channels| ==>
          channels[i] == if i in ids && i !in todo then Offer(old(channels)[i], event) else old(channels)[i]
        decreases |todo|
      {
        var id :| id in todo;
        todo := todo - {id};
        if |channels[id].buffer| < CAPACITY {
          channels := channels[id := channels[id].(buffer := channels[id].buffer + [event])];
        }
      }
    }

    method Notify(user: string, event: Event)
      requires Inv(View())
      modifies this`channels
      ensures View() == Next(old(View()), Step.Notify(user, event))
    {
      if user in subscribers {
        assert forall id :: id in subscribers[user] ==> Registered(View(), user, id);
        Broadcast(subscribers[user], event);
      } else {
        assert channels == OfferTo(channels, {}, event);
      }
    }

    method NotifyAll(event: Event)
      requires Inv(View())
      modifies this`channels
      ensures View() == Next(old(View()), Step.NotifyAll(event))
    {
      hide Reached, Everyone, OfferTo, Inv;
      var users := subscribers.Keys;
      ghost var reached: set<Id> := {};
      ghost var before := View();
      ReachNobody(before, event);
      while users != {}
        invariant users <= subscribers.Keys && subscribers == before.subscribers
        invariant Reached(before, users, reached)
        invariant channels == OfferTo(before.channels, reached, event)
        decreases |users|
      {
        var user :| user in users;
        ReachMore(before, users, user, reached);
        OfferInTwo(before.channels, reached, subscribers[user], event);
        users := users - {user};
        Broadcast(subscribers[user], event);
        reached := reached + before.subscribers[user];
      }
      ReachAll(before, reached);
    }

    method Receive(id: Id)
      requires id < |channels|
      modifies this`channels
      ensures View() == Next(old(View()), Step.Receive(id))
    {
      if channels[id].buffer != [] {
        channels := channels[id := Take(channels[id])];
      }
    }

    method SubscriberCount(user: string) returns (n: nat)
      ensures n == |Of(View(), user)|
    {
      n := if user in subscribers then |subscribers[user]| else 0;
    }
  }

  /** The channels of the users already visited. */
  ghost predicate Reached(s: State, users: set<string>, reached: set<Id>) {
    forall id :: id in reached <==> exists u :: u in s.subscribers && u !in users && id in s.subscribers[u]
  }

  lemma ReachNobody(s: State, event: Event)
    ensures Reached(s, s.subscribers.Keys, {}) && OfferTo(s.channels, {}, event) == s.channels
  {
  }

  lemma ReachMore(s: State, users: set<string>, user: string, reached: set<Id>)
    requires Inv(s) && Reached(s, users, reached) && user in users && user in s.subscribers
    ensures reached !! s.subscribers[user] && Reached(s, users - {user}, reached + s.subscribers[user])
    ensures forall id :: id in s.subscribers[user] ==> id < |s.channels|
  {
    assert forall u, id :: u in s.subscribers && id in s.subscribers[u] ==> Registered(s, u, id);
  }

  lemma ReachAll(s: State, reached: set<Id>)
    requires Reached(s, {}, reached)
    ensures reached == Everyone(s)
  {
  }
}
