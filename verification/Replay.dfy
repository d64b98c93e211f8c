/** Replay protection for signed requests: a signature is verified against a time window, recorded
    in a table of consumed signatures, and its row removed some time later by a background job
    (api/signature.go, api/signature_replay.go, api/agents.go, background_consumed_signatures.go,
    db/consumed_signatures.go). Requests and the cleaner interleave at every step.

    The clock is a real number of seconds; the window check and the cleanup look at whole seconds.
    The table is keyed by the signature itself: its hash is taken to be collision-free. */
module Replay {
  import opened Octets
  import opened Sequences

  const WINDOW := 300
  const SKEW := 60

  type Table = map<Octets, int>

  predicate InWindow(now: int, timestamp: int) {
    var diff := now - timestamp;
    (if diff < 0 then -diff else diff) <= WINDOW
  }

  function ExpiresAt(timestamp: int): int {
    timestamp + WINDOW + SKEW
  }

  /** Insert unless present. */
  function Insert(rows: Table, sig: Octets, expires: int): (Table, bool) {
    if sig in rows then (rows, false) else (rows[sig := expires], true)
  }

  /** Delete the rows whose expiry, in whole seconds, lies before the current whole second. */
  function Purge(rows: Table, now: int): Table {
    map sig | sig in rows && !(rows[sig] < now) :: rows[sig]
  }

  datatype ConsumeResult = Accepted | Rejected | Failed

  class SignatureTable {
    var rows: Table

    constructor ()
      ensures rows == map[]
    {
      rows := map[];
    }

    /** Records the signature and lets the request through, or refuses it: as a replay when it is
        already recorded, and as a failure when the database cannot be written. Without a database
        nothing is recorded and every request is let through. */
    method ConsumeSignatureOrReject(sig: Octets, timestamp: int, database: bool, databaseFails: bool) returns (result: ConsumeResult)
      modifies this
      ensures !database ==> result == Accepted && rows == old(rows)
      ensures database && databaseFails ==> result == Failed && rows == old(rows)
      ensures database && !databaseFails ==>
        (rows, result == Accepted) == Insert(old(rows), sig, ExpiresAt(timestamp)) && result != Failed
    {
      if !database {
        return Accepted;
      }
      if databaseFails {
        return Failed;
      }
      if sig in rows {
        return Rejected;
      }
      rows := rows[sig := timestamp + WINDOW + SKEW];
      return Accepted;
    }

    method CleanupExpired(now: real) returns (deleted: nat)
      modifies this
      ensures rows == Purge(old(rows), now.Floor)
      ensures deleted == |old(rows).Keys - rows.Keys|
    {
      var expired := set sig | sig in rows && rows[sig] < now.Floor;
      deleted := |expired|;
      assert rows.Keys - Purge(rows, now.Floor).Keys == expired;
      rows := rows - expired;
    }
  }

  // ---- The protocol ---------------------------------------------------------------------------

  datatype Verified = Verified(sig: Octets, timestamp: int, at: real)

  /** `accepted` lists the signatures whose request was let through, in order, and `log` when each was
      verified; `database` says whether the server has one. */
  datatype State = State(database: bool, clock: real, pending: map<nat, Verified>, rows: Table, accepted: seq<Octets>, log: seq<Verified>)

  datatype Step =
    | Wait(until: real)
    | Verify(request: nat, sig: Octets, timestamp: int)
    | Refuse(request: nat)
    | Consume(request: nat)
    | Cleanup

  /** `signedAt` gives the one timestamp a signature verifies with: the timestamp is part of the signed
      text. `maxDelay` bounds the time between a request's verification and its consume step. `Refuse`
      is a request stopped after verification, by the rate limiter or by a database failure. */
  predicate Enabled(signedAt: Octets -> int, maxDelay: real, s: State, step: Step) {
    match step
    case Wait(until) => s.clock <= until
    case Verify(request, sig, timestamp) =>
      request !in s.pending && timestamp == signedAt(sig) && InWindow(s.clock.Floor, timestamp)
    case Refuse(request) => request in s.pending
    case Consume(request) => request in s.pending && s.clock - s.pending[request].at <= maxDelay
    case Cleanup => true
  }

  function Next(s: State, step: Step): State
    requires step.Consume? ==> step.request in s.pending
  {
    match step
    case Wait(until) => s.(clock := until)
    case Verify(request, sig, timestamp) =>
      s.(pending := s.pending[request := Verified(sig, timestamp, s.clock)])
    case Refuse(request) => s.(pending := s.pending - {request})
    case Consume(request) =>
      var v := s.pending[request];
      var (rows, inserted) := if s.database then Insert(s.rows, v.sig, ExpiresAt(v.timestamp)) else (s.rows, true);
      s.(rows := rows, pending := s.pending - {request},
         accepted := if inserted then s.accepted + [v.sig] else s.accepted,
         log := if inserted then s.log + [v] else s.log)
    case Cleanup => s.(rows := Purge(s.rows, s.clock.Floor))
  }

  predicate Possible(signedAt: Octets -> int, maxDelay: real, s: State, steps: seq<Step>)
    decreases steps
  {
    steps == [] ||
    (Enabled(signedAt, maxDelay, s, steps[0]) && Possible(signedAt, maxDelay, Next(s, steps[0]), steps[1..]))
  }

  function Run(signedAt: Octets -> int, maxDelay: real, s: State, steps: seq<Step>): State
    requires Possible(signedAt, maxDelay, s, steps)
    decreases steps
  {
    if steps == [] then s else Run(signedAt, maxDelay, Next(s, steps[0]), steps[1..])
  }

  function Start(database: bool, clock: real): State {
    State(database, clock, map[], map[], [], [])
  }

  // ---- What every step keeps ------------------------------------------------------------------

  /** A signature that was accepted is still recorded, or the clock is past its recorded expiry. */
  ghost predicate Inv(signedAt: Octets -> int, s: State) {
    && s.database
    && (forall r :: r in s.pending ==> WasInWindow(signedAt, s, s.pending[r]))
    && (forall sig :: sig in s.rows ==> s.rows[sig] == ExpiresAt(signedAt(sig)) && sig in s.accepted)
    && (forall sig :: sig in s.accepted ==> sig in s.rows || ExpiresAt(signedAt(sig)) < s.clock.Floor)
  }

  predicate WasInWindow(signedAt: Octets -> int, s: State, v: Verified) {
    v.at <= s.clock && v.timestamp == signedAt(v.sig) && InWindow(v.at.Floor, v.timestamp)
  }

  lemma StepKeepsInv(signedAt: Octets -> int, maxDelay: real, s: State, step: Step)
    requires Inv(signedAt, s) && Enabled(signedAt, maxDelay, s, step)
    ensures Inv(signedAt, Next(s, step))
  {
    var s' := Next(s, step);
    if step.Consume? {
      var sig := s.pending[step.request].sig;
      assert WasInWindow(signedAt, s, s.pending[step.request]);
      assert forall x :: x in s'.accepted ==> x in s.accepted || x == sig;
    }
  }

  /** Consumed in time, a verified signature that was accepted before is still in the table. */
  lemma StillRecorded(signedAt: Octets -> int, maxDelay: real, s: State, request: nat)
    requires Inv(signedAt, s) && maxDelay <= SKEW as real && Enabled(signedAt, maxDelay, s, Consume(request))
    requires s.pending[request].sig in s.accepted
    ensures s.pending[request].sig in s.rows
  {
    assert WasInWindow(signedAt, s, s.pending[request]);
  }

  lemma {:induction false} RunKeepsUnique(signedAt: Octets -> int, maxDelay: real, s: State, steps: seq<Step>)
    requires Inv(signedAt, s) && Possible(signedAt, maxDelay, s, steps) && maxDelay <= SKEW as real
    requires Distinct(s.accepted)
    ensures Distinct(Run(signedAt, maxDelay, s, steps).accepted)
    decreases steps
  {
    if steps != [] {
      StepKeepsInv(signedAt, maxDelay, s, steps[0]);
      if steps[0].Consume? && s.pending[steps[0].request].sig in s.accepted {
        StillRecorded(signedAt, maxDelay, s, steps[0].request);
      }
      RunKeepsUnique(signedAt, maxDelay, Next(s, steps[0]), steps[1..]);
    }
  }

  /** No signature lets two requests through, whatever the interleaving. */
  ghost predicate AcceptsAtMostOnce(database: bool, maxDelay: real) {
    forall signedAt: Octets -> int, clock: real, steps: seq<Step> ::
      Possible(signedAt, maxDelay, Start(database, clock), steps) ==>
        Distinct(Run(signedAt, maxDelay, Start(database, clock), steps).accepted)
  }

  /** A request verified in the last second of its window and consumed more than the skew later, just
      after the cleaner removed the row. */
  function ReplayRun(lag: real): seq<Step> {
    [Verify(0, [], 0), Consume(0), Wait(301.0 - lag), Verify(1, [], 0), Wait(361.0), Cleanup, Consume(1)]
  }

  lemma ReplaySucceeds(maxDelay: real, lag: real)
    requires 0.0 < lag < 1.0 && 60.0 + lag <= maxDelay
    ensures Possible(_ => 0, maxDelay, Start(true, 0.0), ReplayRun(lag))
    ensures Run(_ => 0, maxDelay, Start(true, 0.0), ReplayRun(lag)).accepted == [[], []]
  {
    var signedAt: Octets -> int := _ => 0;
    var steps := ReplayRun(lag);
    var s0 := Start(true, 0.0);
    var s1 := Next(s0, steps[0]);
    var s2 := Next(s1, steps[1]);
    var s3 := Next(s2, steps[2]);
    var s4 := Next(s3, steps[3]);
    var s5 := Next(s4, steps[4]);
    var s6 := Next(s5, steps[5]);
    assert (301.0 - lag).Floor == 300;
    assert s6.rows == map[];
    var s7 := Next(s6, steps[6]);
    Unroll(signedAt, maxDelay, s6, steps[6..], s7);
    Unroll(signedAt, maxDelay, s5, steps[5..], s7);
    Unroll(signedAt, maxDelay, s4, steps[4..], s7);
    Unroll(signedAt, maxDelay, s3, steps[3..], s7);
    Unroll(signedAt, maxDelay, s2, steps[2..], s7);
    Unroll(signedAt, maxDelay, s1, steps[1..], s7);
    Unroll(signedAt, maxDelay, s0, steps, s7);
  }

  lemma Unroll(signedAt: Octets -> int, maxDelay: real, s: State, steps: seq<Step>, end: State)
    requires steps != [] && Enabled(signedAt, maxDelay, s, steps[0])
    requires if |steps| == 1 then end == Next(s, steps[0])
             else Possible(signedAt, maxDelay, Next(s, steps[0]), steps[1..]) &&
                  Run(signedAt, maxDelay, Next(s, steps[0]), steps[1..]) == end
    ensures Possible(signedAt, maxDelay, s, steps) && Run(signedAt, maxDelay, s, steps) == end
  {
  }

  /** Without a database the same signature gets through twice at once. */
  lemma UntrackedSignatureRepeats(maxDelay: real)
    requires 0.0 <= maxDelay
    ensures var steps := [Verify(0, [], 0), Consume(0), Verify(0, [], 0), Consume(0)];
      Possible(_ => 0, maxDelay, Start(false, 0.0), steps) &&
      Run(_ => 0, maxDelay, Start(false, 0.0), steps).accepted == [[], []]
  {
    var signedAt: Octets -> int := _ => 0;
    var steps := [Verify(0, [], 0), Consume(0), Verify(0, [], 0), Consume(0)];
    var s0 := Start(false, 0.0);
    var s1 := Next(s0, steps[0]);
    var s2 := Next(s1, steps[1]);
    var s3 := Next(s2, steps[2]);
    var s4 := Next(s3, steps[3]);
    Unroll(signedAt, maxDelay, s3, steps[3..], s4);
    Unroll(signedAt, maxDelay, s2, steps[2..], s4);
    Unroll(signedAt, maxDelay, s1, steps[1..], s4);
    Unroll(signedAt, maxDelay, s0, steps, s4);
  }

  /** A consume step never precedes its verification. */
  predicate VerifiedBefore(s: State) {
    forall r :: r in s.pending ==> s.pending[r].at <= s.clock
  }

  lemma {:induction false} NothingConsumed(signedAt: Octets -> int, maxDelay: real, s: State, steps: seq<Step>)
    requires maxDelay < 0.0 && VerifiedBefore(s) && Possible(signedAt, maxDelay, s, steps)
    ensures Run(signedAt, maxDelay, s, steps).accepted == s.accepted
    decreases steps
  {
    if steps != [] {
      NothingConsumed(signedAt, maxDelay, Next(s, steps[0]), steps[1..]);
    }
  }

  /** The guarantee holds exactly with a database and while every consume follows its verification
      within the 60 seconds of skew: the window and the cleanup both truncate to whole seconds, and the
      truncations cancel. (A bound below zero lets nothing be consumed at all.) */
  lemma AcceptsAtMostOnceExactly(database: bool, maxDelay: real)
    ensures AcceptsAtMostOnce(database, maxDelay) <==> maxDelay < 0.0 || (database && maxDelay <= SKEW as real)
  {
    var twice: seq<Octets> := [[], []];
    assert twice[0] == twice[1] && !Distinct(twice);
    if maxDelay < 0.0 {
      forall signedAt: Octets -> int, clock: real, steps: seq<Step>
        | Possible(signedAt, maxDelay, Start(database, clock), steps)
        ensures Distinct(Run(signedAt, maxDelay, Start(database, clock), steps).accepted)
      {
        NothingConsumed(signedAt, maxDelay, Start(database, clock), steps);
      }
    } else if !database {
      UntrackedSignatureRepeats(maxDelay);
    } else if maxDelay <= SKEW as real {
      forall signedAt: Octets -> int, clock: real, steps: seq<Step>
        | Possible(signedAt, maxDelay, Start(true, clock), steps)
        ensures Distinct(Run(signedAt, maxDelay, Start(true, clock), steps).accepted)
      {
        RunKeepsUnique(signedAt, maxDelay, Start(true, clock), steps);
      }
    } else {
      var lag := if maxDelay < 61.0 then (maxDelay - 60.0) / 2.0 else 0.5;
      ReplaySucceeds(maxDelay, lag);
    }
  }

  lemma {:induction false} RunKeepsInv(signedAt: Octets -> int, maxDelay: real, s: State, steps: seq<Step>)
    requires Inv(signedAt, s) && Possible(signedAt, maxDelay, s, steps)
    ensures Inv(signedAt, Run(signedAt, maxDelay, s, steps))
    decreases steps
  {
    if steps != [] {
      StepKeepsInv(signedAt, maxDelay, s, steps[0]);
      RunKeepsInv(signedAt, maxDelay, Next(s, steps[0]), steps[1..]);
    }
  }

  /** Nothing legitimate is refused: in every run, consuming a signature that was never accepted
      accepts it; a consume step that is refused repeats an accepted signature. */
  lemma FirstUseIsAccepted(signedAt: Octets -> int, maxDelay: real, clock: real, steps: seq<Step>, request: nat)
    requires Possible(signedAt, maxDelay, Start(true, clock), steps)
    requires request in Run(signedAt, maxDelay, Start(true, clock), steps).pending
    ensures var s := Run(signedAt, maxDelay, Start(true, clock), steps);
            var sig := s.pending[request].sig;
            && (sig !in s.accepted ==> Next(s, Consume(request)).accepted == s.accepted + [sig])
            && sig in Next(s, Consume(request)).accepted
  {
    RunKeepsInv(signedAt, maxDelay, Start(true, clock), steps);
  }

  // ---- What each step is, in seconds ---------------------------------------------------------------

  /** A request may be verified exactly when it is new, carries the timestamp that was signed, and that lies
      within 300 seconds of the clock on either side; it may be consumed exactly within the bound; and the
      clock and the cleaner may always go on. */
  lemma EnabledExactly(signedAt: Octets -> int, maxDelay: real, s: State, request: nat, sig: Octets, timestamp: int, until: real)
    ensures Enabled(signedAt, maxDelay, s, Verify(request, sig, timestamp)) <==>
      request !in s.pending && timestamp == signedAt(sig) && s.clock.Floor - 300 <= timestamp <= s.clock.Floor + 300
    ensures Enabled(signedAt, maxDelay, s, Consume(request)) <==> request in s.pending && s.clock <= s.pending[request].at + maxDelay
    ensures Enabled(signedAt, maxDelay, s, Refuse(request)) <==> request in s.pending
    ensures Enabled(signedAt, maxDelay, s, Wait(until)) <==> until >= s.clock
    ensures Enabled(signedAt, maxDelay, s, Cleanup)
  {
  }

  /** A signature is recorded for 360 seconds after it was signed, and the cleaner deletes it as soon as the
      clock is past them, and not before. */
  lemma RecordedFor360Seconds(s: State, request: nat, sig: Octets)
    requires s.database && request in s.pending && s.pending[request].sig !in s.rows
    ensures var v := s.pending[request];
      v.sig in Next(s, Consume(request)).rows && Next(s, Consume(request)).rows[v.sig] == v.timestamp + 360
    ensures sig in Next(s, Cleanup).rows <==> sig in s.rows && s.clock.Floor <= s.rows[sig]
    ensures sig in Next(s, Cleanup).rows ==> Next(s, Cleanup).rows[sig] == s.rows[sig]
  {
  }

  predicate SignedNear(signedAt: Octets -> int, v: Verified) {
    v.timestamp == signedAt(v.sig) && v.at.Floor - 300 <= v.timestamp <= v.at.Floor + 300
  }

  ghost predicate Near(signedAt: Octets -> int, s: State) {
    && (forall r :: r in s.pending ==> SignedNear(signedAt, s.pending[r]))
    && |s.log| == |s.accepted|
    && (forall i :: 0 <= i < |s.log| ==> SignedNear(signedAt, s.log[i]) && s.log[i].sig == s.accepted[i])
  }

  lemma {:induction false} RunKeepsNear(signedAt: Octets -> int, maxDelay: real, s: State, steps: seq<Step>)
    requires Near(signedAt, s) && Possible(signedAt, maxDelay, s, steps)
    ensures Near(signedAt, Run(signedAt, maxDelay, s, steps))
    decreases steps
  {
    if steps != [] {
      var s' := Next(s, steps[0]);
      if steps[0].Consume? {
        assert SignedNear(signedAt, s.pending[steps[0].request]);
      }
      assert Near(signedAt, s');
      RunKeepsNear(signedAt, maxDelay, s', steps[1..]);
    }
  }

  /** Over every interleaving, whatever was accepted was signed within 300 seconds of the moment it was
      verified, before or after. */
  lemma AcceptedWasSignedNear(signedAt: Octets -> int, maxDelay: real, database: bool, clock: real, steps: seq<Step>, i: nat)
    requires Possible(signedAt, maxDelay, Start(database, clock), steps)
    requires i < |Run(signedAt, maxDelay, Start(database, clock), steps).accepted|
    ensures var s := Run(signedAt, maxDelay, Start(database, clock), steps);
      && |s.log| == |s.accepted| && s.log[i].sig == s.accepted[i]
      && s.log[i].at.Floor - 300 <= signedAt(s.accepted[i]) <= s.log[i].at.Floor + 300
  {
    RunKeepsNear(signedAt, maxDelay, Start(database, clock), steps);
    var s := Run(signedAt, maxDelay, Start(database, clock), steps);
    assert SignedNear(signedAt, s.log[i]);
  }
}
