/** What holds in every run of two parties that share one X3DH session. */
module RatchetTheorems {
  import opened Outcomes
  import opened SymbolicCrypto
  import opened Ratchet
  import opened Messages
  import X3dh
  import opened RatchetRun
  import opened RatchetSystem
  import opened RatchetEviction

  ghost predicate IsRun(trace: seq<System>, events: seq<Event>) {
    && |trace| == |events| + 1 && Initial(trace[0])
    && forall i | 0 <= i < |events| :: StepAt(trace, events, i)
  }

  ghost predicate StepAt(trace: seq<System>, events: seq<Event>, i: nat)
    requires i < |events| && |trace| == |events| + 1
  {
    IsStep(trace[i], events[i], trace[i + 1])
  }

  ghost predicate IsStep(sys: System, event: Event, sys': System) {
    Shape(sys) && Enabled(sys, event) && sys' == Next(sys, event)
  }

  lemma {:induction false} StepInvariant(sys: System, event: Event)
    requires Invariant(sys) && Enabled(sys, event)
    ensures Invariant(Next(sys, event))
  {
    match event
    case Send(p, plaintext) => SendInvariant(sys, p, plaintext);
    case Deliver(q, newKey) => DeliverInvariant(sys, q, newKey);
    case Forge(p, m, newKey) => ForgedFails(sys, p, m, newKey);
  }

  lemma {:induction false} RunInvariant(trace: seq<System>, events: seq<Event>, i: nat)
    requires IsRun(trace, events) && i < |trace|
    ensures Invariant(trace[i])
  {
    if i == 0 {
      InitialInvariant(trace[0]);
    } else {
      RunInvariant(trace, events, i - 1);
      RunStep(trace, events, i - 1, trace[i - 1], events[i - 1], trace[i]);
      StepKeeps(trace[i - 1], events[i - 1], trace[i]);
    }
  }

  lemma {:induction false} RunStep(trace: seq<System>, events: seq<Event>, i: nat, sys: System, event: Event, sys': System)
    requires IsRun(trace, events) && i < |events| && trace[i] == sys && events[i] == event && trace[i + 1] == sys'
    ensures IsStep(sys, event, sys')
  {
    assert StepAt(trace, events, i);
  }

  lemma {:induction false} StepKeeps(sys: System, event: Event, sys': System)
    requires Invariant(sys) && IsStep(sys, event, sys')
    ensures Invariant(sys')
  {
    StepInvariant(sys, event);
  }

  /** In every run, a message delivered at any time opens to exactly its plaintext if it was not
      opened before, its cached key was not evicted, and the gaps are within `max_skip`; in every
      other case it does not open at all. */
  lemma {:induction false} DeliveryTheorem(trace: seq<System>, events: seq<Event>, i: nat, q: Position, newKey: PrivateKey)
    requires IsRun(trace, events) && i < |trace| && IsSent(trace[i].log, q)
    ensures Shape(trace[i])
    ensures var sys := trace[i];
            var s, e := sys.parties[Receiver(q)], Own(sys.log, Receiver(q));
            var outcome := Delivery(sys, q, newKey).1;
            if && q !in sys.accepted && q !in sys.evicted
               && (Held(sys.log, s, q) || GapsOk(sys.log, s, e, q))
            then outcome == Opened(sys.log.sent[q.epoch][q.n].plaintext)
            else !outcome.Opened?
  {
    RunInvariant(trace, events, i);
    DeliveryOutcome(trace[i], q, newKey);
  }

  /** In every run, no message opens that was put together without the shared secret, whether under a
      key of the forger's own, by changing a message on its way, or by sending it back. */
  lemma {:induction false} ForgeryTheorem(trace: seq<System>, events: seq<Event>, i: nat, p: nat, m: SignalMessage, newKey: PrivateKey)
    requires IsRun(trace, events) && i < |trace| && p < 2 && Forged(trace[i].log, p, m)
    ensures Shape(trace[i]) && !Attempt(trace[i], p, m, newKey).1.Opened?
  {
    RunInvariant(trace, events, i);
    ForgedFails(trace[i], p, m, newKey);
  }

  // ---- At most once ----

  lemma {:induction false} StepAccepts(sys: System, event: Event)
    requires Shape(sys) && Enabled(sys, event)
    ensures sys.accepted <= Next(sys, event).accepted
    ensures event.Deliver? && Delivery(sys, event.q, event.newKey).1.Opened? ==> event.q in Next(sys, event).accepted
  {
  }

  lemma {:induction false} AcceptedGrows(trace: seq<System>, events: seq<Event>, i: nat, j: nat)
    requires IsRun(trace, events) && i <= j < |trace|
    ensures trace[i].accepted <= trace[j].accepted
  {
    if i < j {
      AcceptedGrows(trace, events, i, j - 1);
      RunStep(trace, events, j - 1, trace[j - 1], events[j - 1], trace[j]);
      StepAccepts(trace[j - 1], events[j - 1]);
    }
  }

  /** No message opens twice, however often and in whatever order the network repeats it. */
  lemma {:induction false} AtMostOnce(trace: seq<System>, events: seq<Event>, i: nat, j: nat)
    requires IsRun(trace, events) && i < j < |events|
    requires events[i].Deliver? && events[j].Deliver? && events[i].q == events[j].q
    ensures Shape(trace[i]) && Enabled(trace[i], events[i]) && Shape(trace[j]) && Enabled(trace[j], events[j])
    ensures Delivery(trace[i], events[i].q, events[i].newKey).1.Opened?
        ==> !Delivery(trace[j], events[j].q, events[j].newKey).1.Opened?
  {
    RunStep(trace, events, i, trace[i], events[i], trace[i + 1]);
    RunStep(trace, events, j, trace[j], events[j], trace[j + 1]);
    var q := events[j].q;
    if Delivery(trace[i], q, events[i].newKey).1.Opened? {
      StepAccepts(trace[i], events[i]);
      AcceptedGrows(trace, events, i + 1, j);
      assert q in trace[j].accepted;
      DeliveryTheorem(trace, events, j, q, events[j].newKey);
    }
  }

  // ---- Nothing is evicted as long as everything fits ----

  /** If the step is a delivery that opens, what its receiver then holds and skips is at most 2000. */
  ghost predicate AllFit(sys: System, event: Event) {
    && Invariant(sys) && Enabled(sys, event)
    && (event.Deliver? && Delivery(sys, event.q, event.newKey).1.Opened? ==> |WantedBy(sys, event.q)| <= MAX_SKIPPED_TOTAL)
  }

  ghost predicate FitAt(trace: seq<System>, events: seq<Event>, i: nat)
    requires i < |events| && i < |trace|
  {
    AllFit(trace[i], events[i])
  }

  lemma {:induction false} StepEvicts(sys: System, event: Event, sys': System)
    requires IsStep(sys, event, sys') && AllFit(sys, event)
    ensures sys'.evicted == sys.evicted
  {
    if event.Deliver? && Delivery(sys, event.q, event.newKey).1.Opened? {
      EvictedExactly(sys, event.q, event.newKey);
      var all := WantedBy(sys, event.q);
      forall r
        ensures !IsOldest(sys.log, all, r)
      {
      }
      assert sys'.evicted == sys.evicted;
    }
  }

  lemma {:induction false} InitialEvicted(sys: System)
    requires Initial(sys)
    ensures sys.evicted == iset{}
  {
  }

  /** As long as every delivery leaves at most 2000 keys to hold, exactly 2000 included, no key has been
      evicted: every message not yet opened, within the gaps, still opens. */
  lemma {:induction false} NoEviction(trace: seq<System>, events: seq<Event>, i: nat)
    requires IsRun(trace, events) && i < |trace|
    requires forall j | 0 <= j < i :: FitAt(trace, events, j)
    ensures trace[i].evicted == iset{}
  {
    if i == 0 {
      InitialEvicted(trace[0]);
    } else {
      NoEviction(trace, events, i - 1);
      RunStep(trace, events, i - 1, trace[i - 1], events[i - 1], trace[i]);
      assert FitAt(trace, events, i - 1);
      StepEvicts(trace[i - 1], events[i - 1], trace[i]);
    }
  }

  // ---- Messages sent before hearing back ----

  lemma {:induction false} SameSession(trace: seq<System>, events: seq<Event>, i: nat)
    requires IsRun(trace, events) && i < |trace|
    ensures Extends(trace[0].log, trace[i].log)
  {
    if i > 0 {
      SameSession(trace, events, i - 1);
      RunStep(trace, events, i - 1, trace[i - 1], events[i - 1], trace[i]);
      StepExtends(trace[i - 1], events[i - 1], trace[i]);
    }
  }

  lemma {:induction false} StepExtends(sys: System, event: Event, sys': System)
    requires IsStep(sys, event, sys')
    ensures Extends(sys.log, sys'.log)
  {
  }

  /** Message `n` of the initiator's first chain, whenever it arrives and whatever arrived before,
      opens at a responder that builds a new session from its preamble, exactly if `n <= 1000`.
      The responder has its own keys and the initiator's identity and ephemeral key, no more. */
  lemma {:induction false} PreambleTheorem(trace: seq<System>, events: seq<Event>, i: nat, n: nat, newKey: PrivateKey,
                        a: PrivateKey, b: PrivateKey, ephemeral: PrivateKey, signedPreKey: PrivateKey,
                        ratchetKey: PrivateKey, bundle: X3dh.Bundle, oneTimePreKey: Option<PrivateKey>)
    requires IsRun(trace, events) && i < |trace| && IsSent(trace[i].log, Position(1, n))
    requires Established(trace[0], a, b, ephemeral, signedPreKey, ratchetKey, bundle, oneTimePreKey)
    ensures var secret := X3dh.Responder(b, signedPreKey, oneTimePreKey, Pub(a), Pub(ephemeral));
            var wire := trace[i].log.sent[1][n];
            var outcome := Receive(InitBob(secret, signedPreKey), wire.message, Pub(a), Pub(b), newKey).1;
            if n <= DEFAULT_MAX_SKIP then outcome == Opened(wire.plaintext) else outcome == TooManySkipped
  {
    RunInvariant(trace, events, i);
    SameSession(trace, events, i);
    var log, q := trace[i].log, Position(1, n);
    var bob := InitBob(log.secret, signedPreKey);
    assert log.keys[0] == log.keys[..2][0] == signedPreKey;
    assert log.sent[1][n].message == MessageAt(log, q, log.sent[1][n].plaintext);
    assert PartyOk(log, bob, 0);
    NewEpoch(log, bob, 0, q, log.sent[1][n].plaintext, newKey);
  }
}
