/** What the sender of src/pywhats/messaging/sender.py hands to the transport: which event makes a
    ciphertext, for whom, with what inside, and when it carries the preamble. */
module SenderOutputs {
  import opened Outcomes
  import opened SymbolicCrypto
  import opened Ratchet
  import opened Messages
  import opened Addressing
  import opened Receiver
  import opened Sender
  import X3dh

  // ---- One ciphertext for each send ----

  /** The plaintext that an event asks to be sent now, and the session it is for. */
  datatype Request = Request(sid: string, plaintext: Plaintext)

  /** A send with a session that can encrypt and a known peer, or a bundle for a send that waits for it. */
  function Asked(w: World, event: Event): Option<Request> {
    match event
    case Begin(_, peer, plaintext) =>
      var sid := SessionId(peer);
      if sid in w.stores.sessions && w.stores.sessions[sid].cks.Some? && (sid in w.meta || sid in w.stores.identities)
      then Some(Request(sid, plaintext)) else None
    case BundleArrives(task, bundle, _, _) =>
      if task in w.waiting && bundle.signatureValid then Some(Request(w.waiting[task].sid, w.waiting[task].plaintext)) else None
    case _ => None
  }

  /** The peer's identity key that the sender holds for a session. */
  function PeerOf(w: World, event: Event, sid: string): Option<PublicKey> {
    if event.BundleArrives? then Some(event.bundle.identity)
    else if sid in w.meta then Some(w.meta[sid].peerIdentity)
    else Lookup(w.stores.identities, sid)
  }

  /** Exactly one ciphertext for the request, authenticated between the client and that peer. */
  ghost predicate Answers(w: World, event: Event, w': World, request: Request) {
    && |w'.outputs| == |w.outputs| + 1 && w.outputs <= w'.outputs
    && var out := w'.outputs[|w.outputs|];
       && out.sid == request.sid && out.message.ciphertext.plaintext == request.plaintext
       && out.message.mac.sender == Pub(w.me.private) && Some(out.message.mac.receiver) == PeerOf(w, event, request.sid)
       && out.message.mac.ciphertext == out.message.ciphertext && out.message.mac.header == out.message.header
       && out.message.mac.key == MacKey(out.message.ciphertext.mk)
  }

  /** A send without a session or a known peer waits for a bundle with its plaintext. */
  ghost predicate Waits(w: World, event: Event, w': World) {
    event.Begin? && (var sid := SessionId(event.peer);
                     (sid !in w.stores.sessions || (sid !in w.meta && sid !in w.stores.identities)) ==>
                       w'.waiting == w.waiting[event.task := Task(sid, event.plaintext)])
  }

  lemma {:induction false} StepSends(w: World, event: Event, w': World)
    requires IsStep(w, event, w')
    ensures if Asked(w, event).Some? then Answers(w, event, w', Asked(w, event).value) else w'.outputs == w.outputs
    ensures event.Begin? ==> Waits(w, event, w')
    ensures w'.me == w.me
  {
  }

  /** In any run each event appends exactly the ciphertext it asks for, and no other event appends any. */
  lemma {:induction false} RunSends(trace: seq<World>, events: seq<Event>, i: nat)
    requires IsRun(trace, events) && i < |events|
    ensures var w, event, w' := trace[i], events[i], trace[i + 1];
            && (if Asked(w, event).Some? then Answers(w, event, w', Asked(w, event).value) else w'.outputs == w.outputs)
            && (event.Begin? ==> Waits(w, event, w'))
  {
    RunStep(trace, events, i, trace[i], events[i], trace[i + 1]);
    StepSends(trace[i], events[i], trace[i + 1]);
  }

  lemma {:induction false} OutputsGrow(trace: seq<World>, events: seq<Event>, i: nat, j: nat)
    requires IsRun(trace, events) && i <= j < |trace|
    ensures trace[i].outputs <= trace[j].outputs
    decreases j
  {
    if i < j {
      OutputsGrow(trace, events, i, j - 1);
      RunSends(trace, events, j - 1);
    }
  }

  /** Event `t` of the run made the ciphertext at `k`. */
  ghost predicate Made(trace: seq<World>, events: seq<Event>, t: nat, k: nat)
    requires t < |events| && |trace| == |events| + 1
  {
    k == |trace[t].outputs| && Asked(trace[t], events[t]).Some?
  }

  /** Every ciphertext was asked for by one event, and holds what that event asked to be sent. */
  lemma {:induction false} MadeOnRequest(trace: seq<World>, events: seq<Event>, j: nat, k: nat) returns (t: nat)
    requires IsRun(trace, events) && j < |trace| && k < |trace[j].outputs|
    ensures t < j && Made(trace, events, t, k) && forall u | 0 <= u < j && Made(trace, events, u, k) :: u == t
    ensures var out, request := trace[j].outputs[k], Asked(trace[t], events[t]).value;
            out.sid == request.sid && out.message.ciphertext.plaintext == request.plaintext
    decreases j
  {
    assert j > 0;
    RunSends(trace, events, j - 1);
    if k < |trace[j - 1].outputs| {
      t := MadeOnRequest(trace, events, j - 1, k);
      assert trace[j].outputs[k] == trace[j - 1].outputs[k];
    } else {
      t := j - 1;
      forall u | 0 <= u < j - 1
        ensures !Made(trace, events, u, k)
      {
        RunSends(trace, events, u);
        OutputsGrow(trace, events, u + 1, j - 1);
      }
    }
  }

  // ---- A send that waits for its bundle ----

  /** The event has nothing to do with the waiting task. */
  predicate LeavesTask(event: Event, task: nat) {
    && !event.Restart?
    && (event.Begin? || event.BundleArrives? || event.BundleFails? ==> event.task != task)
  }

  lemma {:induction false} TaskKept(w: World, event: Event, w': World, task: nat)
    requires IsStep(w, event, w') && LeavesTask(event, task) && task in w.waiting
    ensures task in w'.waiting && w'.waiting[task] == w.waiting[task]
  {
  }

  lemma {:induction false} TaskWaits(trace: seq<World>, events: seq<Event>, i: nat, j: nat, task: nat)
    requires IsRun(trace, events) && i <= j < |trace| && task in trace[i].waiting
    requires forall t | i <= t < j :: LeavesTask(events[t], task)
    ensures task in trace[j].waiting && trace[j].waiting[task] == trace[i].waiting[task]
    decreases j
  {
    if i < j {
      TaskWaits(trace, events, i, j - 1, task);
      RunStep(trace, events, j - 1, trace[j - 1], events[j - 1], trace[j]);
      TaskKept(trace[j - 1], events[j - 1], trace[j], task);
    }
  }

  /** A send without a session: when its bundle arrives, whatever happened in between, one ciphertext goes out for
      that address with the plaintext the send was called with. */
  lemma {:induction false} DeferredSend(trace: seq<World>, events: seq<Event>, i: nat, j: nat, task: nat)
    requires IsRun(trace, events) && i < j < |events| && events[i].Begin? && events[i].task == task
    requires SessionId(events[i].peer) !in trace[i].stores.sessions
    requires forall t | i < t < j :: LeavesTask(events[t], task)
    requires events[j].BundleArrives? && events[j].task == task && events[j].bundle.signatureValid
    ensures Answers(trace[j], events[j], trace[j + 1], Request(SessionId(events[i].peer), events[i].plaintext))
  {
    RunSends(trace, events, i);
    TaskWaits(trace, events, i + 1, j, task);
    RunSends(trace, events, j);
  }

  // ---- The end of the preamble ----

  /** The session will not carry a preamble. */
  predicate Quiet(w: World, sid: string) {
    sid in w.meta ==> w.meta[sid].pending.None?
  }

  /** The events that can give the address a session with a preamble: one is established there or moved there. */
  predicate StartsAt(w: World, event: Event, sid: string) {
    match event
    case BundleArrives(task, bundle, _, _) => task in w.waiting && w.waiting[task].sid == sid && bundle.signatureValid
    case Retry(peer, bundle, _, _) => SessionId(peer) == sid && bundle.signatureValid
    case MigrateSession(_, to) => SessionId(to) == sid
    case _ => false
  }

  lemma {:induction false} QuietKept(w: World, event: Event, w': World, sid: string)
    requires IsStep(w, event, w') && Quiet(w, sid) && !StartsAt(w, event, sid)
    ensures Quiet(w', sid)
    ensures forall k | |w.outputs| <= k < |w'.outputs| && w'.outputs[k].sid == sid :: w'.outputs[k].preamble.None?
  {
  }

  lemma {:induction false} Heard(w: World, event: Event, w': World, sid: string)
    requires IsStep(w, event, w') && event.Inbound? && sid in Aliases(w.lids, event.sender)
    requires DecryptEnc(w.stores, w.me, w.lids, event.sender, event.enc, event.newKey).1.Some?
    ensures Quiet(w', sid) && w'.outputs == w.outputs
  {
  }

  /** Over whole runs: once a message from the peer has been opened, no ciphertext for the peer or its alternate
      address carries a preamble, until a new session is established or moved there. */
  lemma {:induction false} PreambleEnds(trace: seq<World>, events: seq<Event>, i: nat, j: nat, sid: string)
    requires IsRun(trace, events) && i < j < |trace| && events[i].Inbound? && sid in Aliases(trace[i].lids, events[i].sender)
    requires ValidStores(trace[i].stores)
    requires DecryptEnc(trace[i].stores, trace[i].me, trace[i].lids, events[i].sender, events[i].enc, events[i].newKey).1.Some?
    requires forall t | i < t < j :: !StartsAt(trace[t], events[t], sid)
    ensures Quiet(trace[j], sid)
    ensures forall k | |trace[i].outputs| <= k < |trace[j].outputs| && trace[j].outputs[k].sid == sid :: trace[j].outputs[k].preamble.None?
    decreases j
  {
    RunStep(trace, events, j - 1, trace[j - 1], events[j - 1], trace[j]);
    if j == i + 1 {
      Heard(trace[i], events[i], trace[j], sid);
    } else {
      PreambleEnds(trace, events, i, j - 1, sid);
      QuietKept(trace[j - 1], events[j - 1], trace[j], sid);
      RunSends(trace, events, j - 1);
    }
  }

  // ---- What is stored about a peer ----

  /** The same device in the other address space, as far as the map knows it. */
  function Alternate(lids: LidMap, peer: Jid): Option<Jid> {
    if peer.server == "lid"
    then if peer.user in lids.lidToPn then Some(Jid(lids.lidToPn[peer.user], "s.whatsapp.net", peer.device)) else None
    else if peer.user in lids.pnToLid then Some(Jid(lids.pnToLid[peer.user], "lid", peer.device)) else None
  }

  /** The address is the peer's or that of its alternate. */
  predicate IsPeer(lids: LidMap, peer: Jid, x: string) {
    x == SessionId(peer) || (Alternate(lids, peer).Some? && x == SessionId(Alternate(lids, peer).value))
  }

  lemma {:induction false} AliasesAre(lids: LidMap, peer: Jid, x: string)
    ensures x in Aliases(lids, peer) <==> IsPeer(lids, peer, x)
  {
  }

  /** A drop takes session, identity and preamble from the peer and its alternate, and from no other address. */
  lemma {:induction false} DropExactly(w: World, peer: Jid, w': World, x: string)
    requires IsStep(w, Drop(peer), w')
    ensures Lookup(w'.stores.sessions, x) == if IsPeer(w.lids, peer, x) then None else Lookup(w.stores.sessions, x)
    ensures Lookup(w'.stores.identities, x) == if IsPeer(w.lids, peer, x) then None else Lookup(w.stores.identities, x)
    ensures Lookup(w'.meta, x) == if IsPeer(w.lids, peer, x) then None else Lookup(w.meta, x)
  {
    AliasesAre(w.lids, peer, x);
  }

  /** A retry receipt with a bundle drops the peer and its alternate, and puts a new session with its preamble at the
      peer's address if the bundle's signature verifies. */
  lemma {:induction false} RetryExactly(w: World, peer: Jid, bundle: X3dh.Bundle, ephemeral: PrivateKey, ratchetKey: PrivateKey, w': World,
                                        x: string)
    requires IsStep(w, Retry(peer, bundle, ephemeral, ratchetKey), w')
    ensures if bundle.signatureValid && x == SessionId(peer) then
              var r := X3dh.Initiator(w.me.private, bundle, ephemeral).value;
              && Lookup(w'.stores.sessions, x) == Some(InitAlice(r.secret, bundle.signedPreKey, ratchetKey))
              && Lookup(w'.meta, x) == Some(Meta(bundle.identity, Some(PendingPreKey(r.oneTimePreKeyId, r.signedPreKeyId, Pub(ephemeral),
                                                                                     Pub(w.me.private)))))
            else
              && Lookup(w'.stores.sessions, x) == (if IsPeer(w.lids, peer, x) then None else Lookup(w.stores.sessions, x))
              && Lookup(w'.meta, x) == (if IsPeer(w.lids, peer, x) then None else Lookup(w.meta, x))
    ensures Lookup(w'.stores.identities, x) == if IsPeer(w.lids, peer, x) then None else Lookup(w.stores.identities, x)
  {
    AliasesAre(w.lids, peer, x);
  }

  /** A move takes session, identity and preamble to the new address, exactly if there is a session to move and none there. */
  lemma {:induction false} MoveExactly(w: World, from: Jid, to: Jid, w': World, x: string)
    requires IsStep(w, MigrateSession(from, to), w') && SessionId(from) != SessionId(to)
    ensures var a, b := SessionId(from), SessionId(to);
            if a !in w.stores.sessions || b in w.stores.sessions then w' == w
            else
              && Lookup(w'.stores.sessions, x) == Renamed(w.stores.sessions, a, b, x)
              && (a in w.stores.identities ==> Lookup(w'.stores.identities, x) == Renamed(w.stores.identities, a, b, x))
              && (a in w.meta ==> Lookup(w'.meta, x) == Renamed(w.meta, a, b, x))
  {
  }

  /** What is at `x` once the entry at `a` has been moved to `b`. */
  function Renamed<T>(m: map<string, T>, a: string, b: string, x: string): Option<T> {
    if x == b then Lookup(m, a) else if x == a then None else Lookup(m, x)
  }

  /** The pairings learnt before event `i`. */
  function Learnt(events: seq<Event>, i: nat): seq<Pairing>
    requires i <= |events|
  {
    if i == 0 then []
    else Learnt(events, i - 1) + if events[i - 1].Learn? then [Pairing(events[i - 1].pn, events[i - 1].lid)] else []
  }

  lemma {:induction false} StepLearns(w: World, event: Event, w': World)
    requires IsStep(w, event, w')
    ensures w'.lids == if event.Learn? then Put(w.lids, event.pn, event.lid) else w.lids
  {
  }

  lemma {:induction false} PutLast(m: LidMap, before: seq<Pairing>, event: Event, all: seq<Pairing>)
    requires all == before + if event.Learn? then [Pairing(event.pn, event.lid)] else []
    ensures PutAll(m, all) == if event.Learn? then Put(PutAll(m, before), event.pn, event.lid) else PutAll(m, before)
  {
    if event.Learn? {
      assert all[..|all| - 1] == before;
    } else {
      assert all == before;
    }
  }

  /** The map holds what was learnt, in order, and nothing else changes it. */
  lemma {:induction false} MapIsLearnt(trace: seq<World>, events: seq<Event>, i: nat)
    requires IsRun(trace, events) && i < |trace|
    ensures trace[i].lids == PutAll(trace[0].lids, Learnt(events, i))
  {
    if i > 0 {
      MapIsLearnt(trace, events, i - 1);
      RunStep(trace, events, i - 1, trace[i - 1], events[i - 1], trace[i]);
      StepLearns(trace[i - 1], events[i - 1], trace[i]);
      PutLast(trace[0].lids, Learnt(events, i - 1), events[i - 1], Learnt(events, i));
    }
  }

  // ---- Across a restart ----

  /** The event keeps a session, perhaps further along, and the identity at the address. */
  ghost predicate KeepsPeer(w: World, event: Event, sid: string)
    requires ValidStores(w.stores)
  {
    match event
    case Drop(peer) => sid !in Aliases(w.lids, peer)
    case Retry(peer, _, _, _) => sid !in Aliases(w.lids, peer)
    case BundleArrives(task, _, _, _) => task in w.waiting && w.waiting[task].sid != sid
    case MigrateSession(from, to) => sid != SessionId(from) && sid != SessionId(to)
    case Inbound(sender, _, _) => sid !in Aliases(w.lids, sender)
    case _ => true
  }

  /** A session that can send to that peer. */
  predicate CanSend(w: World, sid: string, peer: PublicKey) {
    && sid in w.stores.sessions && w.stores.sessions[sid].cks.Some?
    && Lookup(w.stores.identities, sid) == Some(peer) && (sid in w.meta ==> w.meta[sid].peerIdentity == peer)
  }

  lemma {:induction false} KeepsSending(w: World, event: Event, w': World, sid: string, peer: PublicKey)
    requires IsStep(w, event, w') && CanSend(w, sid, peer) && KeepsPeer(w, event, sid)
    ensures CanSend(w', sid, peer)
  {
    match event
    case Inbound(sender, enc, newKey) => InboundKeeps(w, sender, enc, newKey, sid);
    case Begin(task, to, plaintext) => BeginKeeps(w, task, SessionId(to), plaintext, sid, peer);
    case BundleArrives(task, bundle, ephemeral, ratchetKey) => BundleKeeps(w, task, bundle, ephemeral, ratchetKey, sid, peer);
    case _ =>
  }

  lemma {:induction false} BundleKeeps(w: World, task: nat, bundle: X3dh.Bundle, ephemeral: PrivateKey, ratchetKey: PrivateKey, sid: string,
                                       peer: PublicKey)
    requires CanSend(w, sid, peer) && task in w.waiting && w.waiting[task].sid != sid
    ensures CanSend(AfterBundle(w, task, bundle, ephemeral, ratchetKey), sid, peer)
  {
  }

  lemma {:induction false} BeginKeeps(w: World, task: nat, to: string, plaintext: Plaintext, sid: string, peer: PublicKey)
    requires CanSend(w, sid, peer)
    ensures CanSend(AfterBegin(w, task, to, plaintext), sid, peer)
  {
  }

  lemma {:induction false} InboundKeeps(w: World, sender: Jid, enc: Enc, newKey: PrivateKey, sid: string)
    requires ValidStores(w.stores) && sid !in Aliases(w.lids, sender)
    ensures var st := DecryptEnc(w.stores, w.me, w.lids, sender, enc, newKey).0;
            Lookup(st.sessions, sid) == Lookup(w.stores.sessions, sid) && Lookup(st.identities, sid) == Lookup(w.stores.identities, sid)
  {
    DecryptFrame(w.stores, w.me, w.lids, sender, enc, newKey, sid);
    var st1 := MigrateKnown(w.stores, w.lids, sender);
    assert Lookup(st1.sessions, sid) == Lookup(w.stores.sessions, sid) && Lookup(st1.identities, sid) == Lookup(w.stores.identities, sid);
  }

  lemma {:induction false} RunKeepsSending(trace: seq<World>, events: seq<Event>, i: nat, j: nat, sid: string, peer: PublicKey)
    requires IsRun(trace, events) && i <= j < |trace| && CanSend(trace[i], sid, peer)
    requires forall t | i <= t < j :: ValidStores(trace[t].stores) && KeepsPeer(trace[t], events[t], sid)
    ensures CanSend(trace[j], sid, peer)
    decreases j
  {
    if i < j {
      RunKeepsSending(trace, events, i, j - 1, sid, peer);
      RunStep(trace, events, j - 1, trace[j - 1], events[j - 1], trace[j]);
      KeepsSending(trace[j - 1], events[j - 1], trace[j], sid, peer);
    }
  }

  lemma {:induction false} EstablishedSends(w: World, event: Event, w': World, sid: string)
    requires IsStep(w, event, w') && event.BundleArrives? && event.bundle.signatureValid && w.waiting[event.task].sid == sid
    ensures CanSend(w', sid, event.bundle.identity)
  {
  }

  /** A session established at event `i` survives a restart at event `r`: a later send needs no new bundle and goes to the
      same peer, without the preamble. */
  lemma {:induction false} RestartSends(trace: seq<World>, events: seq<Event>, i: nat, r: nat, j: nat, sid: string)
    requires IsRun(trace, events) && i < r < j < |events| && events[r].Restart?
    requires events[i].BundleArrives? && events[i].bundle.signatureValid && events[i].task in trace[i].waiting
    requires sid == trace[i].waiting[events[i].task].sid
    requires forall t | i < t < j :: ValidStores(trace[t].stores) && KeepsPeer(trace[t], events[t], sid)
    requires events[j].Begin? && SessionId(events[j].peer) == sid
    ensures Answers(trace[j], events[j], trace[j + 1], Request(sid, events[j].plaintext))
    ensures var out := trace[j + 1].outputs[|trace[j].outputs|];
            out.preamble.None? && out.message.mac.receiver == events[i].bundle.identity
  {
    RunStep(trace, events, i, trace[i], events[i], trace[i + 1]);
    EstablishedSends(trace[i], events[i], trace[i + 1], sid);
    RunKeepsSending(trace, events, i + 1, j, sid, events[i].bundle.identity);
    RunStep(trace, events, r, trace[r], events[r], trace[r + 1]);
    StaysQuiet(trace, events, r + 1, j, sid);
    RunSends(trace, events, j);
    RunStep(trace, events, j, trace[j], events[j], trace[j + 1]);
    QuietKept(trace[j], events[j], trace[j + 1], sid);
  }

  lemma {:induction false} StaysQuiet(trace: seq<World>, events: seq<Event>, i: nat, j: nat, sid: string)
    requires IsRun(trace, events) && i <= j < |trace| && Quiet(trace[i], sid)
    requires forall t | i <= t < j :: ValidStores(trace[t].stores) && KeepsPeer(trace[t], events[t], sid)
    ensures Quiet(trace[j], sid)
    decreases j
  {
    if i < j {
      StaysQuiet(trace, events, i, j - 1, sid);
      RunStep(trace, events, j - 1, trace[j - 1], events[j - 1], trace[j]);
      NotStarted(trace[j - 1], events[j - 1], sid);
      QuietKept(trace[j - 1], events[j - 1], trace[j], sid);
    }
  }

  lemma {:induction false} NotStarted(w: World, event: Event, sid: string)
    requires ValidStores(w.stores) && KeepsPeer(w, event, sid)
    ensures !StartsAt(w, event, sid)
  {
  }
}
