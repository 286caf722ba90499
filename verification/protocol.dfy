// What peers say to each other, and what is remembered of each peer.
module Protocol {
  import opened Blocks

  type PeerId = nat

  const PROTOCOL_VERSION: nat := 1
  const MAX_INV_ENTRIES: nat := 512
  const MAX_BLOCK_BATCH: nat := 128

  const INITIAL_SCORE: int := 100
  const BAN_THRESHOLD: int := 0
  const MAX_SCORE: int := 200
  const I32_MIN: int := -0x8000_0000
  const KNOWN_BLOCKS_CAP: nat := 8192

  const INVALID_BLOCK_PENALTY: int := 50
  const FATAL_PENALTY: int := INITIAL_SCORE

  // Transactions travel as opaque envelopes.
  type Body = seq<seq<bv8>>

  datatype Payload = Payload(header: Header, transactions: Body)

  datatype Message =
    | Version(version: nat, genesis: Id, openingTips: seq<Id>)
    | Verack
    | Ping(ping: nat)
    | Pong(pong: nat)
    | GetTips
    | Tips(tips: seq<Id>)
    | InvBlocks(announced: seq<Id>)
    | GetBlocks(wanted: seq<Id>)
    | Blocks(blocks: seq<Payload>)
    | InvTxs(txs: seq<Id>)
    | GetTxs(txsWanted: seq<Id>)

  datatype Action = Send(peer: PeerId, message: Message) | Disconnect(dropped: PeerId, reason: string)

  datatype Handshake = New | VersionExchanged | Ready

  datatype PeerState = PeerState(handshake: Handshake, score: int, known: set<Id>, delivered: nat)

  const NEW_PEER := PeerState(New, INITIAL_SCORE, {}, 0)

  type Peers = map<PeerId, PeerState>

  // `note_known`: past the cap, the whole set is dropped first.
  function Noted(p: PeerState, hash: Id): PeerState {
    p.(known := (if |p.known| >= KNOWN_BLOCKS_CAP then {} else p.known) + {hash})
  }

  function NotedAll(p: PeerState, hashes: seq<Id>): PeerState
    decreases |hashes|
  {
    if hashes == [] then p else NotedAll(Noted(p, hashes[0]), hashes[1..])
  }

  // `penalise`
  function Penalised(p: PeerState, penalty: int): PeerState {
    p.(score := if p.score - penalty < I32_MIN then I32_MIN else p.score - penalty)
  }

  // `reward(1)` for a block delivered.
  function Rewarded(p: PeerState): PeerState {
    p.(delivered := p.delivered + 1, score := if p.score + 1 > MAX_SCORE then MAX_SCORE else p.score + 1)
  }

  // The known set stays bounded whatever is noted.
  lemma {:induction false} KnownStaysBounded(p: PeerState, hashes: seq<Id>)
    requires |p.known| <= KNOWN_BLOCKS_CAP
    ensures |NotedAll(p, hashes).known| <= KNOWN_BLOCKS_CAP
    ensures NotedAll(p, hashes).handshake == p.handshake && NotedAll(p, hashes).score == p.score
    decreases |hashes|
  {
    if hashes != [] {
      KnownStaysBounded(Noted(p, hashes[0]), hashes[1..]);
    }
  }

  function WithPeer(peers: Peers, peer: PeerId, change: PeerState -> PeerState): Peers {
    if peer in peers then peers[peer := change(peers[peer])] else peers
  }

  predicate IsReady(peers: Peers, peer: PeerId) {
    peer in peers && peers[peer].handshake.Ready?
  }

  // The listed peers `announce` tells of `hash`.
  function Told(peers: Peers, listed: seq<PeerId>, hash: Id, exclude: Option<PeerId>): seq<PeerId> {
    if listed == [] then []
    else
      (if IsReady(peers, listed[0]) && exclude != Some(listed[0]) && hash !in peers[listed[0]].known then [listed[0]] else [])
      + Told(peers, listed[1..], hash, exclude)
  }

  function NotedBy(peers: Peers, targets: seq<PeerId>, hash: Id): (r: Peers)
    ensures r.Keys == peers.Keys
    decreases |targets|
  {
    if targets == [] then peers
    else NotedBy(WithPeer(peers, targets[0], (p: PeerState) => Noted(p, hash)), targets[1..], hash)
  }

  function SendAll(targets: seq<PeerId>, message: Message): (r: seq<Action>)
    ensures |r| == |targets|
  {
    if targets == [] then [] else [Send(targets[0], message)] + SendAll(targets[1..], message)
  }

  function OnlyReady(peers: Peers, listed: seq<PeerId>, ready: bool): seq<PeerId> {
    if listed == [] then []
    else (if IsReady(peers, listed[0]) == ready then [listed[0]] else []) + OnlyReady(peers, listed[1..], ready)
  }

  // The same peers, as far through the handshake as before.
  ghost predicate SameStanding(a: Peers, b: Peers) {
    a.Keys == b.Keys && forall p :: p in a ==> b[p].handshake == a[p].handshake
  }

  lemma {:induction false} NotedByKeepsStanding(peers: Peers, targets: seq<PeerId>, hash: Id)
    ensures SameStanding(peers, NotedBy(peers, targets, hash))
    decreases |targets|
  {
    if targets != [] {
      NotedByKeepsStanding(WithPeer(peers, targets[0], (p: PeerState) => Noted(p, hash)), targets[1..], hash);
    }
  }
}
