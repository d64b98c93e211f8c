/** The channel of one event stream (api/approval_events.go): a buffer of sixteen events between the broker
    and the reader. A send does not block: it is dropped when the buffer is full. */
module EventChannels {

  const CAPACITY := 16

  type Event = string

  /** `received` is what the reader has taken out so far. */
  datatype Channel = Channel(open: bool, buffer: seq<Event>, received: seq<Event>)

  const FRESH := Channel(true, [], [])

  function Offer(c: Channel, event: Event): Channel {
    if |c.buffer| < CAPACITY then c.(buffer := c.buffer + [event]) else c
  }

  function Take(c: Channel): Channel {
    if c.buffer == [] then c else c.(buffer := c.buffer[1..], received := c.received + [c.buffer[0]])
  }

  /** Everything the channel got: taken out already, or still buffered. */
  function Delivered(c: Channel): seq<Event> {
    c.received + c.buffer
  }

  lemma TakeKeepsDelivered(c: Channel)
    ensures Delivered(Take(c)) == Delivered(c)
  {
    if c.buffer != [] {
      assert c.received + [c.buffer[0]] + c.buffer[1..] == c.received + c.buffer;
    }
  }

  lemma OfferDelivers(c: Channel, event: Event)
    ensures Delivered(Offer(c, event)) == Delivered(c) + if |c.buffer| < CAPACITY then [event] else []
  {
    assert c.received + (c.buffer + [event]) == c.received + c.buffer + [event];
  }

  /** Sixteen events wait at most; the next ones are dropped until the reader takes one. */
  lemma OfferExactly(c: Channel, event: Event)
    ensures |c.buffer| < 16 ==> Offer(c, event) == Channel(c.open, c.buffer + [event], c.received)
    ensures |c.buffer| >= 16 ==> Offer(c, event) == c
  {
  }

  /** The reader takes the events in the order in which they were buffered. */
  lemma TakeExactly(c: Channel, event: Event, rest: seq<Event>)
    ensures c.buffer == [event] + rest ==> Take(c) == Channel(c.open, rest, c.received + [event])
    ensures c.buffer == [] ==> Take(c) == c
  {
  }

  /** `xs` is `ys` with some elements left out, in the same order. */
  predicate IsSubsequence(xs: seq<Event>, ys: seq<Event>) {
    if xs == [] then true
    else if ys == [] then false
    else if xs[0] == ys[0] && IsSubsequence(xs[1..], ys[1..]) then true
    else IsSubsequence(xs, ys[1..])
  }

  /** One more event was sent, and the channel got it or did not. */
  lemma OneMoreSent(xs: seq<Event>, ys: seq<Event>, event: Event)
    requires IsSubsequence(xs, ys)
    ensures IsSubsequence([event] + xs, [event] + ys) && IsSubsequence(xs, [event] + ys)
  {
    assert ([event] + xs)[1..] == xs && ([event] + ys)[1..] == ys;
  }

  lemma {:induction false} FullSubsequence(xs: seq<Event>, ys: seq<Event>)
    requires IsSubsequence(xs, ys)
    ensures |xs| <= |ys| && (|xs| == |ys| <==> xs == ys)
    decreases |ys|
  {
    if xs != [] {
      if xs[0] == ys[0] && IsSubsequence(xs[1..], ys[1..]) {
        FullSubsequence(xs[1..], ys[1..]);
        assert xs == [xs[0]] + xs[1..] && ys == [ys[0]] + ys[1..];
      } else {
        FullSubsequence(xs, ys[1..]);
      }
    }
  }

  /** Between two moments the channel got `after` more than `before`, out of what it was `sent`, short
      by `dropped`. */
  predicate Delivers(before: seq<Event>, after: seq<Event>, sent: seq<Event>, dropped: nat) {
    && before <= after
    && IsSubsequence(after[|before|..], sent)
    && |after| - |before| == |sent| - dropped
  }

  lemma NothingSent(got: seq<Event>)
    ensures Delivers(got, got, [], 0)
  {
    assert got[|got|..] == [];
  }

  /** A first send, then the rest. */
  lemma SendThenRest(before: seq<Event>, middle: seq<Event>, after: seq<Event>, event: Event, rest: seq<Event>, dropped: nat, full: bool)
    requires middle == before + (if full then [] else [event])
    requires Delivers(middle, after, rest, dropped)
    ensures Delivers(before, after, [event] + rest, dropped + if full then 1 else 0)
  {
    hide IsSubsequence;
    var later := after[|middle|..];
    OneMoreSent(later, rest, event);
    assert after == middle + later;
    assert after[|before|..] == (if full then [] else [event]) + later;
  }

  /** All of it arrived exactly when nothing was dropped. */
  lemma CompleteExactly(before: seq<Event>, after: seq<Event>, sent: seq<Event>, dropped: nat)
    requires Delivers(before, after, sent, dropped)
    ensures after == before + sent <==> dropped == 0
  {
    FullSubsequence(after[|before|..], sent);
    assert after == before + after[|before|..];
  }
}
