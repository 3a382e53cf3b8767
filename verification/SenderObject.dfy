/** The mutable sender of src/pywhats/messaging/sender.py: each method is one stretch between awaits,
    proved to be the corresponding step of module Sender. */
module SenderObject {
  import opened Outcomes
  import opened SymbolicCrypto
  import opened Ratchet
  import opened RatchetObject
  import opened Messages
  import opened Addressing
  import opened Receiver
  import opened Sender
  import X3dh

  /** The session ids of a list of addresses. */
  function Ids(peers: seq<Jid>): set<string> {
    set i | 0 <= i < |peers| :: SessionId(peers[i])
  }

  lemma {:induction false} IdsNext(peers: seq<Jid>, i: nat)
    requires i < |peers|
    ensures Ids(peers[..i + 1]) == Ids(peers[..i]) + {SessionId(peers[i])}
  {
    var xs, ys := Ids(peers[..i + 1]), Ids(peers[..i]) + {SessionId(peers[i])};
    forall x
      ensures x in xs <==> x in ys
    {
      if x in xs {
        var j :| 0 <= j < i + 1 && SessionId(peers[..i + 1][j]) == x;
        if j < i {
          assert peers[..i][j] == peers[j];
        }
      }
      if x in Ids(peers[..i]) {
        var j :| 0 <= j < i && SessionId(peers[..i][j]) == x;
        assert peers[..i + 1][j] == peers[j];
      }
      if x == SessionId(peers[i]) {
        assert peers[..i + 1][i] == peers[i];
      }
    }
  }

  class MessageSender {
    const me: Identity
    var sessions: map<string, State>
    var identities: map<string, PublicKey>
    var lids: LidMap
    var meta: map<string, Meta>
    var outputs: seq<Output>
    ghost var oneTimePreKeys: map<nat, PrivateKey>  // not used by the sender
    ghost var waiting: map<nat, Task>               // coroutines that await a bundle
    ghost var seen: set<PrivateKey>

    ghost function View(): World
      reads this
    {
      World(me, Stores(sessions, identities, oneTimePreKeys), lids, meta, waiting, outputs, seen)
    }

    constructor (w: World)
      ensures View() == w
    {
      me, lids, meta, outputs := w.me, w.lids, w.meta, w.outputs;
      sessions, identities, oneTimePreKeys := w.stores.sessions, w.stores.identities, w.stores.oneTimePreKeys;
      waiting, seen := w.waiting, w.seen;
    }

    method PeerAndLidAlt(peer: Jid) returns (peers: seq<Jid>)
      ensures Ids(peers) == Aliases(lids, peer)
    {
      peers := [peer];
      if peer.server == "lid" {
        if peer.user in lids.lidToPn {
          peers := peers + [Jid(lids.lidToPn[peer.user], "s.whatsapp.net", peer.device)];
        }
      } else if peer.user in lids.pnToLid {
        peers := peers + [Jid(lids.pnToLid[peer.user], "lid", peer.device)];
      }
      assert Ids(peers[..0]) == {} && peers[..|peers|] == peers;
      IdsNext(peers, 0);
      if |peers| == 2 {
        IdsNext(peers, 1);
      }
    }

    method DropPeerSession(peer: Jid)
      modifies this
      ensures View() == AfterDrop(old(View()), peer)
    {
      var peers := PeerAndLidAlt(peer);
      ghost var w := View();
      for i := 0 to |peers|
        invariant View() == w.(stores := w.stores.(sessions := w.stores.sessions - Ids(peers[..i]),
                                                   identities := w.stores.identities - Ids(peers[..i])),
                               meta := w.meta - Ids(peers[..i]))
      {
        var sid := SessionId(peers[i]);
        IdsNext(peers, i);
        sessions := sessions - {sid};
        meta := meta - {sid};
        identities := identities - {sid};
        assert sessions == w.stores.sessions - Ids(peers[..i + 1]);
        assert identities == w.stores.identities - Ids(peers[..i + 1]);
        assert meta == w.meta - Ids(peers[..i + 1]);
      }
      assert peers[..|peers|] == peers;
    }

    method NoteIncomingDecrypted(peer: Jid)
      modifies this
      ensures View() == old(View()).(meta := Acknowledged(old(meta), Aliases(old(lids), peer)))
    {
      var peers := PeerAndLidAlt(peer);
      ghost var w := View();
      assert meta == Acknowledged(w.meta, Ids(peers[..0]));
      for i := 0 to |peers|
        invariant View() == w.(meta := Acknowledged(w.meta, Ids(peers[..i])))
      {
        var sid := SessionId(peers[i]);
        IdsNext(peers, i);
        if sid in meta {
          meta := meta[sid := meta[sid].(pending := None)];
        }
        assert meta == Acknowledged(w.meta, Ids(peers[..i + 1]));
      }
      assert peers[..|peers|] == peers;
    }

    /** From the loaded state to the ciphertext: the state advances in place and is saved. */
    method Emit(sid: string, state: RatchetState, about: Meta, plaintext: Plaintext)
      modifies this, state
      ensures View() == EncryptAndSave(old(View()), sid, old(state.View()), about, plaintext)
    {
      var sent := state.RatchetEncrypt(plaintext);
      if sent.Some? {
        sessions := sessions[sid := state.View()];
        outputs := outputs + [Output(sid, about.pending, Envelope(sent.value, Pub(me.private), about.peerIdentity))];
      }
    }

    /** `_encrypt_for_peer` up to its ciphertext, or up to the request for a bundle. */
    method EncryptForPeer(task: nat, peer: Jid, plaintext: Plaintext)
      modifies this
      ensures View() == AfterBegin(old(View()), task, SessionId(peer), plaintext)
    {
      var sid := SessionId(peer);
      var about := if sid in meta then Some(meta[sid]) else None;
      if sid in sessions && about.None? && sid in identities {
        about := Some(Meta(identities[sid], None));
      }
      if sid !in sessions || about.None? {
        waiting := waiting[task := Task(sid, plaintext)];
        return;
      }
      assert MetaFor(old(View()), sid) == about;
      meta := meta[sid := about.value];
      var state := new RatchetState.Load(sessions[sid]);
      Emit(sid, state, about.value, plaintext);
    }

    method EstablishFromBundle(bundle: X3dh.Bundle, ephemeral: PrivateKey, ratchetKey: PrivateKey)
      returns (state: Option<RatchetState>, about: Meta)
      ensures match Establish(View(), bundle, ephemeral, ratchetKey)
              case None => state.None?
              case Some((s, m)) => state.Some? && fresh(state.value) && state.value.View() == s && about == m
    {
      var r := X3dh.Initiator(me.private, bundle, ephemeral);
      if r.None? {
        return None, Meta(bundle.identity, None);
      }
      var fields := r.value;
      var s := new RatchetState.Alice(fields.secret, bundle.signedPreKey, ratchetKey);
      state := Some(s);
      about := Meta(bundle.identity, Some(PendingPreKey(fields.oneTimePreKeyId, fields.signedPreKeyId,
                                                        fields.ephemeral, fields.identity)));
    }

    /** The rest of `_encrypt_for_peer`, once the bundle has arrived. */
    method ResumeWithBundle(ghost task: nat, sid: string, plaintext: Plaintext, bundle: X3dh.Bundle,
                            ephemeral: PrivateKey, ratchetKey: PrivateKey)
      requires task in waiting && waiting[task] == Task(sid, plaintext)
      modifies this
      ensures View() == AfterBundle(old(View()), task, bundle, ephemeral, ratchetKey)
    {
      var state, about := EstablishFromBundle(bundle, ephemeral, ratchetKey);
      waiting := waiting - {task};
      seen := seen + {ratchetKey, bundle.signedPreKey.owner};
      if state.None? {
        return;
      }
      meta := meta[sid := about];
      identities := identities[sid := about.peerIdentity];
      Emit(sid, state.value, about, plaintext);
    }

    /** A retry receipt with a bundle, up to the resend. */
    method HandleRetryBundle(peer: Jid, bundle: X3dh.Bundle, ephemeral: PrivateKey, ratchetKey: PrivateKey)
      modifies this
      ensures View() == AfterRetry(old(View()), peer, bundle, ephemeral, ratchetKey)
    {
      DropPeerSession(peer);
      var state, about := EstablishFromBundle(bundle, ephemeral, ratchetKey);
      seen := seen + {ratchetKey, bundle.signedPreKey.owner};
      if state.None? {
        return;
      }
      var sid := SessionId(peer);
      sessions := sessions[sid := state.value.View()];
      meta := meta[sid := about];
    }

    method MigratePnSessionToLid(pn: Jid, lid: Jid)
      modifies this
      ensures View() == AfterMigrate(old(View()), SessionId(pn), SessionId(lid))
    {
      var from, to := SessionId(pn), SessionId(lid);
      if from !in sessions || to in sessions {
        return;
      }
      sessions := sessions[to := sessions[from]];
      if from in identities {
        identities := identities[to := identities[from]];
      }
      sessions := sessions - {from};
      identities := identities - {from};
      if from in meta {
        var about := meta[from];
        meta := meta - {from};
        meta := meta[to := about];
      }
    }
  }
}
