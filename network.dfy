/** The rule pieces of the peer-to-peer overlay of pkg/p2p/network.go: the
    peer table, the exponential-backoff retry, the bootstrap loop, the
    self-message filter, the shutdown order and the message type codes.
    libp2p itself is outside the model: each connection attempt, close or
    subscription read is an oracle parameter. */
module P2P {
  import opened Common

  const ProtocolId: string := "/3ds/1.0.0"
  const DiscoveryNamespace: string := "3ds-network"
  const PubsubTopic: string := "3ds-messages"
  /** ConnectionTimeout, in seconds. */
  const ConnectionTimeout: nat := 10
  /** connectToPeerWithBackoff's starting and largest backoff, in seconds. */
  const InitialBackoff: nat := 1
  const MaxBackoff: nat := 60

  // ---------------------------------------------------------------------
  // MessageType
  // ---------------------------------------------------------------------

  datatype MessageType = ModelAnnouncement | ChunkRequest | ChunkResponse | StorageProof | NodeStatus

  /** The integer of each message type, numbered from zero in declaration
      order. */
  function Code(t: MessageType): (c: nat)
    ensures c < 5
  {
    match t
    case ModelAnnouncement => 0
    case ChunkRequest => 1
    case ChunkResponse => 2
    case StorageProof => 3
    case NodeStatus => 4
  }

  /** The message type an integer stands for, if any. */
  function TypeOfCode(c: int): Option<MessageType> {
    if c == 0 then Some(ModelAnnouncement)
    else if c == 1 then Some(ChunkRequest)
    else if c == 2 then Some(ChunkResponse)
    else if c == 3 then Some(StorageProof)
    else if c == 4 then Some(NodeStatus)
    else None
  }

  /** The codes are exactly 0 to 4, one per type. */
  lemma CodesRoundTrip(t: MessageType, c: int)
    ensures TypeOfCode(Code(t)) == Some(t)
    ensures TypeOfCode(c).Some? <==> 0 <= c < 5
    ensures TypeOfCode(c).Some? ==> Code(TypeOfCode(c).value) == c
  {
  }

  // ---------------------------------------------------------------------
  // connectToPeerWithBackoff
  // ---------------------------------------------------------------------

  datatype PeerInfo = PeerInfo(id: string, addrs: seq<string>)

  function Pow2(n: nat): (r: nat)
    ensures r >= 1
  {
    if n == 0 then 1 else 2 * Pow2(n - 1)
  }

  /** The attempt whose backoff first exceeds the largest one. */
  lemma LastAttempt(i: nat)
    requires i <= 6
    ensures Pow2(i) > MaxBackoff <==> i == 6
  {
    if i < 6 {
      PowMonotone(i, 5);
    }
  }

  lemma {:induction false} PowMonotone(i: nat, j: nat)
    requires i <= j
    ensures Pow2(i) <= Pow2(j)
    decreases j - i
  {
    if i < j {
      PowMonotone(i, j - 1);
    }
  }

  /** The outcome of connectToPeerWithBackoff from attempt i on, and the
      seconds it sleeps: attempt i runs with a backoff of 2^i seconds. A
      cancelled context (`cancelled(i)`, observed before attempt i) ends it
      with the context's error; a successful connection with nil; a failed
      one with "max backoff reached" once the backoff is past a minute, and
      otherwise with a sleep of the backoff and a doubled backoff. */
  function Attempts(cancelled: nat -> bool, fails: nat -> bool, i: nat): (Outcome, seq<nat>)
    requires i <= 6
    decreases 6 - i
  {
    if cancelled(i) then (Fail(Cancelled), [])
    else if !fails(i) then (Pass, [])
    else if Pow2(i) > MaxBackoff then (Fail(MaxBackoffReached), [])
    else
      LastAttempt(i);
      var rest := Attempts(cancelled, fails, i + 1);
      (rest.0, [Pow2(i)] + rest.1)
  }

  function Sum(s: seq<nat>): nat {
    if s == [] then 0 else s[0] + Sum(s[1..])
  }

  /** The retry schedule: the sleeps after failed attempts are 2^i,
      2^(i+1) and so on, at most one per attempt before the seventh. */
  lemma {:induction false} AttemptsSleeps(cancelled: nat -> bool, fails: nat -> bool, i: nat)
    requires i <= 6
    ensures var r := Attempts(cancelled, fails, i);
      |r.1| <= 6 - i && forall k :: 0 <= k < |r.1| ==> r.1[k] == Pow2(i + k)
    decreases 6 - i
  {
    var r := Attempts(cancelled, fails, i);
    if !cancelled(i) && fails(i) && Pow2(i) <= MaxBackoff {
      LastAttempt(i);
      AttemptsSleeps(cancelled, fails, i + 1);
      var rest := Attempts(cancelled, fails, i + 1).1;
      assert r.1 == [Pow2(i)] + rest;
      forall k | 0 <= k < |r.1|
        ensures r.1[k] == Pow2(i + k)
      {
        if k > 0 {
          assert r.1[k] == rest[k - 1];
        }
      }
    }
  }

  /** The sleeps from attempt i on add up to 2^(i+n) - 2^i for n sleeps. */
  lemma {:induction false} AttemptsSum(cancelled: nat -> bool, fails: nat -> bool, i: nat)
    requires i <= 6
    ensures Sum(Attempts(cancelled, fails, i).1) == Pow2(i + |Attempts(cancelled, fails, i).1|) - Pow2(i)
    decreases 6 - i
  {
    var r := Attempts(cancelled, fails, i);
    if !cancelled(i) && fails(i) && Pow2(i) <= MaxBackoff {
      LastAttempt(i);
      AttemptsSum(cancelled, fails, i + 1);
      var rest := Attempts(cancelled, fails, i + 1).1;
      assert r.1 == [Pow2(i)] + rest;
      assert r.1[1..] == rest;
    }
  }

  /** From the first attempt: at most six sleeps of 1, 2, 4, 8, 16 and
      32 seconds, 63 seconds in all. */
  lemma TotalSleep(cancelled: nat -> bool, fails: nat -> bool)
    ensures |Attempts(cancelled, fails, 0).1| <= 6
    ensures Sum(Attempts(cancelled, fails, 0).1) <= 63
  {
    AttemptsSleeps(cancelled, fails, 0);
    AttemptsSum(cancelled, fails, 0);
    var n := |Attempts(cancelled, fails, 0).1|;
    PowMonotone(n, 6);
    assert Pow2(6) == 64;
  }

  /** The outcome from attempt i on: nil exactly when some attempt up to
      the seventh connects with no cancellation and every attempt before it
      failed; "max backoff reached" exactly when all seven fail uncancelled. */
  lemma {:induction false} AttemptsOutcome(cancelled: nat -> bool, fails: nat -> bool, i: nat)
    requires i <= 6
    ensures Attempts(cancelled, fails, i).0 == Pass <==>
      exists k :: i <= k <= 6 && !cancelled(k) && !fails(k) && forall j :: i <= j < k ==> !cancelled(j) && fails(j)
    ensures Attempts(cancelled, fails, i).0 == Fail(MaxBackoffReached) <==>
      forall j :: i <= j <= 6 ==> !cancelled(j) && fails(j)
    ensures Attempts(cancelled, fails, i).0 in {Pass, Fail(Cancelled), Fail(MaxBackoffReached)}
    decreases 6 - i
  {
    LastAttempt(i);
    if !cancelled(i) && fails(i) && Pow2(i) <= MaxBackoff {
      AttemptsOutcome(cancelled, fails, i + 1);
      if Attempts(cancelled, fails, i).0 == Pass {
        var k :| i + 1 <= k <= 6 && !cancelled(k) && !fails(k) && forall j :: i + 1 <= j < k ==> !cancelled(j) && fails(j);
        assert forall j :: i <= j < k ==> !cancelled(j) && fails(j);
      }
    }
  }

  // ---------------------------------------------------------------------
  // connectToBootstrapPeers
  // ---------------------------------------------------------------------

  /** The peer table after the bootstrap addresses from the k-th on are
      tried: an address `parse` cannot turn into a peer is skipped, and a
      peer is added when its backoff loop connects. */
  function Bootstrap(peers: map<string, PeerInfo>, addrs: seq<string>, parse: string -> Option<PeerInfo>,
                     cancelled: nat -> nat -> bool, fails: nat -> nat -> bool, k: nat): map<string, PeerInfo>
    requires k <= |addrs|
    decreases |addrs| - k
  {
    if k == |addrs| then peers
    else
      var p := parse(addrs[k]);
      var peers' := if p.Some? && Attempts(cancelled(k), fails(k), 0).0 == Pass then peers[p.value.id := p.value] else peers;
      Bootstrap(peers', addrs, parse, cancelled, fails, k + 1)
  }

  /** One bad bootstrap peer never blocks the others: the table keeps every
      peer it had and gains exactly the peers whose backoff loop connects. */
  lemma {:induction false} BootstrapKeys(peers: map<string, PeerInfo>, addrs: seq<string>, parse: string -> Option<PeerInfo>,
                                         cancelled: nat -> nat -> bool, fails: nat -> nat -> bool, k: nat)
    requires k <= |addrs|
    ensures Bootstrap(peers, addrs, parse, cancelled, fails, k).Keys ==
      peers.Keys + set j | k <= j < |addrs| && parse(addrs[j]).Some? && Attempts(cancelled(j), fails(j), 0).0 == Pass
                       :: parse(addrs[j]).value.id
    decreases |addrs| - k
  {
    if k < |addrs| {
      var p := parse(addrs[k]);
      var peers' := if p.Some? && Attempts(cancelled(k), fails(k), 0).0 == Pass then peers[p.value.id := p.value] else peers;
      BootstrapKeys(peers', addrs, parse, cancelled, fails, k + 1);
    }
  }

  // ---------------------------------------------------------------------
  // handleMessages
  // ---------------------------------------------------------------------

  /** What one subscription read gives: a message and the peer it was
      received from, or an error, seen with whether the context is then
      cancelled. */
  datatype Event = Received(from: string, data: seq<byte>) | NextFailed(contextCancelled: bool)

  /** The messages handleMessages hands to processMessage, from the k-th
      read on: messages from the local peer are skipped, read errors are
      retried, and an error with the context cancelled ends the loop. */
  function Dispatch(events: seq<Event>, localId: string, k: nat): seq<Event>
    requires k <= |events|
    decreases |events| - k
  {
    if k == |events| then []
    else
      match events[k]
      case NextFailed(c) => if c then [] else Dispatch(events, localId, k + 1)
      case Received(from, _) =>
        if from == localId then Dispatch(events, localId, k + 1)
        else [events[k]] + Dispatch(events, localId, k + 1)
  }

  /** The number of reads before the one whose error finds the context
      cancelled, or all of them. */
  function StopAt(events: seq<Event>, k: nat): (s: nat)
    requires k <= |events|
    ensures k <= s <= |events|
    ensures forall j :: k <= j < s ==> events[j] != NextFailed(true)
    ensures s < |events| ==> events[s] == NextFailed(true)
    decreases |events| - k
  {
    if k == |events| || events[k] == NextFailed(true) then k else StopAt(events, k + 1)
  }

  /** The messages dispatched are exactly those read before the loop ends
      and not received from the local peer, in the order read. */
  lemma {:induction false} DispatchFilters(events: seq<Event>, localId: string, k: nat)
    requires k <= |events|
    ensures var d := Dispatch(events, localId, k);
      forall m :: m in d <==> exists j :: k <= j < StopAt(events, k) && events[j] == m && m.Received? && m.from != localId
    ensures forall m :: m in Dispatch(events, localId, k) ==> m.Received? && m.from != localId
    decreases |events| - k
  {
    if k < |events| && events[k] != NextFailed(true) {
      DispatchFilters(events, localId, k + 1);
      var d := Dispatch(events, localId, k);
      var rest := Dispatch(events, localId, k + 1);
      forall m
        ensures m in d <==> exists j :: k <= j < StopAt(events, k) && events[j] == m && m.Received? && m.from != localId
      {
        if m in d && m !in rest {
          assert events[k] == m;
        }
      }
    }
  }

  // ---------------------------------------------------------------------
  // Stop
  // ---------------------------------------------------------------------

  /** The components Stop closes, in the order it closes them. */
  datatype Component = Subscription | Topic | Dht | Host

  function Rank(c: Component): nat {
    match c
    case Subscription => 0
    case Topic => 1
    case Dht => 2
    case Host => 3
  }

  /** The components Stop closes: those that exist, in order, up to a
      DHT whose close fails. */
  function Closes(subscription: bool, topic: bool, dht: bool, host: bool, dhtCloseFails: bool): seq<Component> {
    (if subscription then [Subscription] else []) +
    (if topic then [Topic] else []) +
    (if dht then [Dht] else []) +
    (if host && !(dht && dhtCloseFails) then [Host] else [])
  }

  /** Stop's shutdown order: components are closed in the order
      subscription, topic, DHT, host, each at most once. */
  lemma ClosesInOrder(subscription: bool, topic: bool, dht: bool, host: bool, dhtCloseFails: bool)
    ensures var closed := Closes(subscription, topic, dht, host, dhtCloseFails);
      forall i, j :: 0 <= i < j < |closed| ==> Rank(closed[i]) < Rank(closed[j])
  {
    var a := if subscription then [Subscription] else [];
    var b := if topic then [Topic] else [];
    var c := if dht then [Dht] else [];
    var d := if host && !(dht && dhtCloseFails) then [Host] else [];
    var closed := Closes(subscription, topic, dht, host, dhtCloseFails);
    assert closed == a + b + c + d;
    assert forall k :: 0 <= k < |closed| ==> Rank(closed[k]) == if k < |a| then 0
      else if k < |a| + |b| then 1 else if k < |a| + |b| + |c| then 2 else 3;
  }

  /** Stop closes every component that exists, except the host when the
      DHT fails to close, and nothing else. */
  lemma ClosesWhich(subscription: bool, topic: bool, dht: bool, host: bool, dhtCloseFails: bool)
    ensures var closed := Closes(subscription, topic, dht, host, dhtCloseFails);
      (Subscription in closed <==> subscription) && (Topic in closed <==> topic) && (Dht in closed <==> dht)
    ensures Host in Closes(subscription, topic, dht, host, dhtCloseFails) <==> host && !(dht && dhtCloseFails)
  {
    var a := if subscription then [Subscription] else [];
    var b := if topic then [Topic] else [];
    var c := if dht then [Dht] else [];
    var d := if host && !(dht && dhtCloseFails) then [Host] else [];
    assert Closes(subscription, topic, dht, host, dhtCloseFails) == a + b + c + d;
  }

  /** The Network: the peer table and which libp2p components exist. */
  class Network {
    const localId: string
    var peers: map<string, PeerInfo>
    var hasSubscription: bool
    var hasTopic: bool
    var hasDht: bool
    var hasHost: bool

    /** NewNetwork: an empty peer table and no components yet. */
    constructor (localId: string)
      ensures this.localId == localId && peers == map[]
      ensures !hasSubscription && !hasTopic && !hasDht && !hasHost
    {
      this.localId := localId;
      peers := map[];
      hasSubscription, hasTopic, hasDht, hasHost := false, false, false, false;
    }

    /** connectToPeer: the peer is recorded, under its ID, only when the
        connection succeeds. */
    method ConnectToPeer(peer: PeerInfo, fails: bool) returns (o: Outcome)
      modifies this`peers
      ensures fails ==> o == Fail(ConnectFailed) && peers == old(peers)
      ensures !fails ==> o == Pass && peers == old(peers)[peer.id := peer]
    {
      if fails {
        return Fail(ConnectFailed);
      }
      peers := peers[peer.id := peer];
      o := Pass;
    }

    /** connectToPeerWithBackoff: attempt i connects or fails as `fails(i)`
        says; `slept` lists the sleeps between attempts, in seconds. */
    method ConnectToPeerWithBackoff(peer: PeerInfo, cancelled: nat -> bool, fails: nat -> bool)
      returns (o: Outcome, slept: seq<nat>)
      modifies this`peers
      ensures (o, slept) == Attempts(cancelled, fails, 0)
      ensures peers == if o == Pass then old(peers)[peer.id := peer] else old(peers)
    {
      var backoff := InitialBackoff;
      var i := 0;
      slept := [];
      assert Attempts(cancelled, fails, 0).1 == [] + Attempts(cancelled, fails, 0).1;
      while true
        invariant i <= 6 && backoff == Pow2(i)
        invariant Attempts(cancelled, fails, 0) == (Attempts(cancelled, fails, i).0, slept + Attempts(cancelled, fails, i).1)
        invariant peers == old(peers)
        decreases 6 - i
      {
        if cancelled(i) {
          assert slept + [] == slept;
          return Fail(Cancelled), slept;
        }
        o := ConnectToPeer(peer, fails(i));
        if o == Pass {
          assert slept + [] == slept;
          return Pass, slept;
        }
        if backoff > MaxBackoff {
          assert slept + [] == slept;
          return Fail(MaxBackoffReached), slept;
        }
        LastAttempt(i);
        assert slept + ([backoff] + Attempts(cancelled, fails, i + 1).1) == (slept + [backoff]) + Attempts(cancelled, fails, i + 1).1;
        slept := slept + [backoff];
        backoff := backoff * 2;
        i := i + 1;
      }
    }

    /** connectToBootstrapPeers: every address is tried in turn; parse
        failures and failed peers are skipped, and the result is always nil.
        Address k's attempts are `cancelled(k)` and `fails(k)`. */
    method ConnectToBootstrapPeers(addrs: seq<string>, parse: string -> Option<PeerInfo>,
                                   cancelled: nat -> nat -> bool, fails: nat -> nat -> bool)
      returns (o: Outcome)
      modifies this`peers
      ensures o == Pass
      ensures peers == Bootstrap(old(peers), addrs, parse, cancelled, fails, 0)
    {
      for k := 0 to |addrs|
        invariant Bootstrap(old(peers), addrs, parse, cancelled, fails, 0) == Bootstrap(peers, addrs, parse, cancelled, fails, k)
      {
        var peerInfo := parse(addrs[k]);
        if peerInfo.None? {
          continue;
        }
        var connected, _ := ConnectToPeerWithBackoff(peerInfo.value, cancelled(k), fails(k));
      }
      o := Pass;
    }

    /** GetPeers: every ID in the peer table exactly once, in no particular
        order. */
    method GetPeers() returns (ids: seq<string>)
      ensures forall id :: id in ids <==> id in peers
      ensures forall i, j :: 0 <= i < j < |ids| ==> ids[i] != ids[j]
      ensures |ids| == |peers|
    {
      ids := [];
      var rest := peers.Keys;
      while rest != {}
        invariant rest <= peers.Keys
        invariant forall id :: id in peers ==> id in rest || id in ids
        invariant forall id :: id in ids ==> id in peers && id !in rest
        invariant forall i, j :: 0 <= i < j < |ids| ==> ids[i] != ids[j]
        invariant |ids| + |rest| == |peers|
        decreases |rest|
      {
        var id :| id in rest;
        ids := ids + [id];
        rest := rest - {id};
      }
    }

    /** handleMessages over the reads of one run: what it hands to
        processMessage, in order. */
    method HandleMessages(events: seq<Event>) returns (dispatched: seq<Event>)
      ensures dispatched == Dispatch(events, localId, 0)
    {
      dispatched := [];
      var k := 0;
      while k < |events|
        invariant k <= |events|
        invariant Dispatch(events, localId, 0) == dispatched + Dispatch(events, localId, k)
        decreases |events| - k
      {
        match events[k] {
          case NextFailed(contextCancelled) =>
            if contextCancelled {
              assert dispatched + [] == dispatched;
              return;
            }
          case Received(from, _) =>
            if from != localId {
              assert dispatched + ([events[k]] + Dispatch(events, localId, k + 1)) ==
                (dispatched + [events[k]]) + Dispatch(events, localId, k + 1);
              dispatched := dispatched + [events[k]];
            }
        }
        k := k + 1;
      }
      assert dispatched + [] == dispatched;
    }

    /** Stop: closes the components that exist, in the order subscription,
        topic, DHT, host; a DHT close error is returned at once, leaving the
        host open, and otherwise the host's close error is returned. Errors
        from the subscription and topic are not reported by their calls. */
    method Stop(dhtCloseFails: bool, hostCloseFails: bool) returns (o: Outcome, closed: seq<Component>)
      ensures closed == Closes(hasSubscription, hasTopic, hasDht, hasHost, dhtCloseFails)
      ensures o == Pass <==> !(hasDht && dhtCloseFails) && !(hasHost && hostCloseFails)
      ensures o.Fail? ==> o.error == IoFailure
    {
      closed := [];
      if hasSubscription {
        closed := closed + [Subscription];
      }
      if hasTopic {
        closed := closed + [Topic];
      }
      if hasDht {
        closed := closed + [Dht];
        if dhtCloseFails {
          return Fail(IoFailure), closed;
        }
      }
      if hasHost {
        closed := closed + [Host];
        if hostCloseFails {
          return Fail(IoFailure), closed;
        }
        return Pass, closed;
      }
      o := Pass;
    }
  }
}
