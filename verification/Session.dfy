/** The Bluetooth block exchange: two peers, each with a sender and a receiver, over two
    bounded FIFO links, in every interleaving of their steps. */
module Session {
  import opened Types
  import opened Database
  import opened Listing
  import opened Bloom

  datatype Frame =
    | BloomFrame(ones: set<nat>)
    | BlockFrame(stamp: Stamp, payload: Payload)
    | DoneFrame
    | PeersFrame(urls: seq<string>)

  /** Where runSend stands. */
  datatype Sender =
    | Building(cur: Option<TravKey>, ones: set<nat>)
    | WriteBloom
    | AwaitBloom
    | ListPage(cur: Option<TravKey>)
    | SendPage(refs: seq<BlockRef>, next: Option<TravKey>)
    | WriteBlock(stamp: Stamp, payload: Payload, refs: seq<BlockRef>, next: Option<TravKey>)
    | WriteDone
    | Sent

  /** Blocks that the store fails to read, and blocks that it fails to write. */
  datatype StoreFaults = StoreFaults(get: set<ID>, put: set<ID>)

  /** Whether the listing of blocks to send went to its end, or failed after a cursor. */
  datatype Listed = Whole | CutAt(cur: Option<TravKey>)

  /** One endpoint. `start`, `began`, `urls` and `faults` never change: the store and the clock
      when the session began, the relay addresses to share, and what goes wrong with the store.
      `mailbox` is the channel from receiver to sender, `bloomSeen` is bloomDelivered, `gossip`
      what exchangePeers returns. */
  datatype Peer = Peer(
    start: Db, began: nat, urls: seq<string>, faults: StoreFaults,
    db: Db, now: nat,
    send: Sender, cut: Listed, filter: set<nat>, peerBloom: Option<set<nat>>,
    mailbox: Option<set<nat>>, bloomSeen: bool, recvDone: bool,
    peersSent: bool, peersDone: bool, gossip: Option<seq<string>>)

  /** The session as one endpoint sees it; Flip shows it from the other side. */
  datatype World = World(me: Peer, you: Peer, out: seq<Frame>, inn: seq<Frame>)

  function Flip(w: World): World {
    World(w.you, w.me, w.inn, w.out)
  }

  /** The functions in use, and how many frames a link holds. Capacity 0 is a rendezvous: a
      write and the read that takes it are one step. */
  datatype Config = Config(env: Env, cap: nat)

  const BUILD_LIMIT: nat := 500
  const SEND_LIMIT: nat := 100
  const MAX_GOSSIP_PEERS: nat := 20

  function Shared(urls: seq<string>): seq<string> {
    if |urls| > MAX_GOSSIP_PEERS then urls[..MAX_GOSSIP_PEERS] else urls
  }

  datatype Action =
    | Build(page: seq<BlockRef>, more: Option<TravKey>)
    | PutBloom
    | TakeBloom
    | List(page: seq<BlockRef>, more: Option<TravKey>)
    | ListFails
    | EndPage
    | Skip
    | Fetch
    | PutBlock
    | PutDone
    | Receive(later: nat)
    | PutPeers
    | GetPeers

  predicate IsWrite(a: Action) {
    a.PutBloom? || a.PutBlock? || a.PutDone? || a.PutPeers?
  }

  predicate IsRead(a: Action) {
    a.Receive? || a.GetPeers?
  }

  /** A step of runSend that touches neither link: me becomes me'. */
  ghost predicate Local(env: Env, me: Peer, a: Action, me': Peer) {
    match a
    case Build(page, more) =>
      && me.send.Building? && IsPage(me.db.trav, EVERYTHING, me.send.cur, BUILD_LIMIT, page, more)
      && var ones := AddAll(env.slot, me.send.ones, page);
         me' == if more == None then me.(send := WriteBloom, filter := ones) else me.(send := Building(more, ones))
    case TakeBloom =>
      && me.send.AwaitBloom? && me.mailbox.Some?
      && me' == me.(send := ListPage(None), peerBloom := me.mailbox, mailbox := None)
    case List(page, more) =>
      && me.send.ListPage? && IsPage(me.db.trav, EVERYTHING, me.send.cur, SEND_LIMIT, page, more)
      && me' == me.(send := SendPage(page, more))
    case ListFails =>
      me.send.ListPage? && me' == me.(send := WriteDone, cut := CutAt(me.send.cur))
    case EndPage =>
      && me.send.SendPage? && me.send.refs == []
      && me' == me.(send := if me.send.next == None then WriteDone else ListPage(me.send.next))
    case Skip =>
      && me.send.SendPage? && me.send.refs != [] && me.peerBloom.Some?
      && var r := me.send.refs[0];
         && (|| Claims(env.slot, me.peerBloom.value, r.key.id, r.val.wf)
             || r.key.id !in me.db.blocks || r.key.id in me.faults.get)
         && me' == me.(send := SendPage(me.send.refs[1..], me.send.next))
    case Fetch =>
      && me.send.SendPage? && me.send.refs != [] && me.peerBloom.Some?
      && var r := me.send.refs[0];
         && !Claims(env.slot, me.peerBloom.value, r.key.id, r.val.wf)
         && r.key.id in me.db.blocks && r.key.id !in me.faults.get
         && var b := me.db.blocks[r.key.id];
            me' == me.(send := WriteBlock(b.stamp, b.payload, me.send.refs[1..], me.send.next))
    case _ => false
  }

  /** Writing frame f: me becomes me'. */
  ghost predicate Write(me: Peer, a: Action, f: Frame, me': Peer) {
    match a
    case PutBloom =>
      me.send.WriteBloom? && f == BloomFrame(me.filter) && me' == me.(send := AwaitBloom)
    case PutBlock =>
      && me.send.WriteBlock? && f == BlockFrame(me.send.stamp, me.send.payload)
      && me' == me.(send := SendPage(me.send.refs, me.send.next))
    case PutDone =>
      me.send.WriteDone? && f == DoneFrame && me' == me.(send := Sent)
    case PutPeers =>
      && me.send.Sent? && me.recvDone && !me.peersSent
      && f == PeersFrame(Shared(me.urls)) && me' == me.(peersSent := true)
    case _ => false
  }

  /** The store after a received block; an error of Put is ignored. */
  function Stored(env: Env, me: Peer, later: nat, stamp: Stamp, payload: Payload): Db {
    if env.computeID(payload) in me.faults.put then me.db
    else PutTxn(env, me.db, later, stamp, payload, TAG_BLUETOOTH)
  }

  /** Reading frame f: me becomes me'. A second BLOOM waits until the channel is free; a PEERS
      frame among the blocks makes runRecv give up, so it takes no further step. */
  ghost predicate Read(env: Env, me: Peer, a: Action, f: Frame, me': Peer) {
    match a
    case Receive(later) =>
      && !me.recvDone && me.now <= later
      && (match f
          case BloomFrame(ones) =>
            me.mailbox == None && me' == me.(mailbox := Some(ones), bloomSeen := true)
          case BlockFrame(stamp, payload) =>
            me' == me.(db := Stored(env, me, later, stamp, payload), now := later)
          case DoneFrame =>
            me' == me.(recvDone := true)
          case PeersFrame(_) => false)
    case GetPeers =>
      && me.send.Sent? && me.recvDone && !me.peersDone
      && me' == me.(peersDone := true, gossip := if f.PeersFrame? then Some(f.urls) else None)
    case _ => false
  }

  /** One step of the endpoint `me`. */
  ghost predicate Do(c: Config, w: World, a: Action, w': World) {
    if IsWrite(a) then
      && |w.out| < c.cap && |w'.out| == |w.out| + 1 && w'.out[..|w.out|] == w.out
      && Write(w.me, a, w'.out[|w.out|], w'.me) && w'.you == w.you && w'.inn == w.inn
    else if IsRead(a) then
      && w.inn != [] && Read(c.env, w.me, a, w.inn[0], w'.me)
      && w'.you == w.you && w'.out == w.out && w'.inn == w.inn[1..]
    else
      Local(c.env, w.me, a, w'.me) && w'.you == w.you && w'.out == w.out && w'.inn == w.inn
  }

  /** The same functions over links that hold one frame. */
  function Roomy(c: Config): Config {
    Config(c.env, 1)
  }

  /** Over a rendezvous link I write a frame and you take it, at once. */
  ghost predicate HandOver(c: Config, w: World, a: Action, mid: World, b: Action, w': World) {
    && c.cap == 0 && IsWrite(a) && IsRead(b)
    && Do(Roomy(c), w, a, mid) && Do(Roomy(c), Flip(mid), b, Flip(w'))
  }

  ghost predicate Meet(c: Config, w: World, w': World) {
    exists a, mid, b :: HandOver(c, w, a, mid, b, w')
  }

  ghost predicate Next(c: Config, w: World, w': World) {
    || (exists a :: Do(c, w, a, w'))
    || (exists a :: Do(c, Flip(w), a, Flip(w')))
    || Meet(c, w, w')
    || Meet(c, Flip(w), Flip(w'))
  }

  ghost predicate Fresh(env: Env, p: Peer) {
    && RepInv(env, p.start, p.began) && p.db == p.start && p.now == p.began
    && p.send == Building(None, {}) && p.cut == Whole && p.mailbox == None && p.peerBloom == None
    && !p.bloomSeen && !p.recvDone && !p.peersSent && !p.peersDone
  }

  ghost predicate Initial(env: Env, w: World) {
    Fresh(env, w.me) && Fresh(env, w.you) && w.out == [] && w.inn == []
  }

  predicate Final(w: World) {
    w.me.peersSent && w.me.peersDone && w.you.peersSent && w.you.peersDone
  }

  // ---- Where each stream stands ----

  function Phase(s: Sender): nat {
    match s
    case Building(_, _) => 5
    case WriteBloom => 4
    case AwaitBloom => 3
    case ListPage(_) => 2
    case SendPage(_, _) => 2
    case WriteBlock(_, _, _, _) => 2
    case WriteDone => 1
    case Sent => 0
  }

  predicate BloomSent(p: Peer) {
    Phase(p.send) <= 3
  }

  /** How far along BLOOM, BLOCK*, DONE, PEERS a sender has written. */
  function WrittenTo(p: Peer): int {
    if !BloomSent(p) then 0 else if !p.send.Sent? then 1 else if !p.peersSent then 2 else 3
  }

  /** How far along that order a receiver has read. */
  function ReadTo(p: Peer): int {
    if !p.bloomSeen then 0 else if !p.recvDone then 1 else if !p.peersDone then 2 else 3
  }

  function Advance(stage: int, f: Frame): int {
    match f
    case BloomFrame(_) => if stage == 0 then 1 else -1
    case BlockFrame(_, _) => if stage == 1 then 1 else -1
    case DoneFrame => if stage == 1 then 2 else -1
    case PeersFrame(_) => if stage == 2 then 3 else -1
  }

  function Follow(stage: int, fs: seq<Frame>): int
    decreases fs
  {
    if fs == [] then stage else Follow(Advance(stage, fs[0]), fs[1..])
  }

  lemma {:induction false} FollowAppend(stage: int, fs: seq<Frame>, f: Frame)
    ensures Follow(stage, fs + [f]) == Advance(Follow(stage, fs), f)
    decreases fs
  {
    if fs == [] {
      assert fs + [f] == [f];
      assert [f][1..] == [];
    } else {
      assert (fs + [f])[1..] == fs[1..] + [f];
      FollowAppend(Advance(stage, fs[0]), fs[1..], f);
    }
  }

  lemma {:induction false} FollowGrows(stage: int, fs: seq<Frame>)
    ensures Follow(stage, fs) >= stage || Follow(stage, fs) == -1
    ensures stage == -1 ==> Follow(stage, fs) == -1
    decreases fs
  {
    if fs != [] { FollowGrows(Advance(stage, fs[0]), fs[1..]); }
  }

  /** The filter of a store. */
  ghost function FilterOf(env: Env, start: Db): set<nat> {
    StoreBits(env.slot, start.trav)
  }

  /** What a receiver knows is consistent with where its own sender stands. */
  predicate ReaderOk(p: Peer) {
    && (p.bloomSeen <==> p.mailbox.Some? || p.peerBloom.Some?)
    && (p.mailbox.Some? ==> Phase(p.send) >= 3)
    && (p.peerBloom.Some? <==> Phase(p.send) <= 2)
    && (p.recvDone ==> p.bloomSeen)
    && (p.peersSent || p.peersDone ==> p.recvDone && p.send.Sent?)
  }

  /** What the receiver `you` has learned from `me`. */
  ghost predicate Learned(env: Env, me: Peer, you: Peer) {
    && (you.mailbox.Some? ==> you.mailbox.value == FilterOf(env, me.start))
    && (you.peerBloom.Some? ==> you.peerBloom.value == FilterOf(env, me.start))
    && (you.peersDone ==> you.gossip == Some(Shared(me.urls)))
  }

  /** The link from me to you: what is in flight leads from what you have read to what I
      have written. */
  ghost predicate WireInv(env: Env, w: World) {
    Follow(ReadTo(w.you), w.out) == WrittenTo(w.me) && ReaderOk(w.you) && Learned(env, w.me, w.you)
  }

  // ---- The stores ----

  /** A block that was in `start` at exactly that work factor. */
  predicate InAt(start: Db, id: ID, wf: WorkFactor) {
    id in start.blocks && start.blocks[id].wf == wf
  }

  /** b is the block of that id in `start`, to the byte, as received over Bluetooth. */
  predicate CopyOf(start: Db, id: ID, b: Block) {
    && id in start.blocks && b.stamp == start.blocks[id].stamp && b.payload == start.blocks[id].payload
    && b.wf == start.blocks[id].wf && b.tag == 4
  }

  /** The filter of the starting store `to` claims the block. */
  ghost predicate Claimed(env: Env, to: Db, id: ID, wf: WorkFactor) {
    Claims(env.slot, FilterOf(env, to), id, wf)
  }

  /** My store: what it started with is still there or better, and anything else came from
      the peer's starting store and was not claimed by my filter. */
  ghost predicate StoreOk(env: Env, start: Db, began: nat, db: Db, now: nat, theirs: Db) {
    && RepInv(env, start, began) && RepInv(env, db, now) && began <= now && db.tombs == start.tombs
    && (forall id :: id in start.blocks ==> HoldsAt(db, id, start.blocks[id].wf))
    && (forall id :: id in db.blocks ==> KeptOrNew(env, start, theirs, id, db.blocks[id]))
  }

  ghost predicate KeptOrNew(env: Env, start: Db, theirs: Db, id: ID, b: Block) {
    || (id in start.blocks && b == start.blocks[id])
    || (CopyOf(theirs, id, b) && !Claimed(env, start, id, b.wf))
  }

  ghost predicate StoreInv(env: Env, w: World) {
    && StoreOk(env, w.me.start, w.me.began, w.me.db, w.me.now, w.you.start)
    && (!BloomSent(w.me) ==> w.me.db == w.me.start)
  }

  function StartRef(start: Db, id: ID): BlockRef
    requires id in start.blocks
  {
    RefOf(id, start.blocks[id])
  }

  /** The filter so far holds exactly the entries listed up to the cursor. */
  ghost predicate BuiltFrom(env: Env, t: Trav, s: Sender, listed: seq<BlockRef>)
    requires s.Building?
  {
    ListedTo(t, EVERYTHING, listed, s.cur, false) && s.ones == AddAll(env.slot, {}, listed)
  }

  /** Once built, my filter is that of the store I started with. */
  ghost predicate FilterInv(env: Env, p: Peer) {
    if p.send.Building? then exists listed :: BuiltFrom(env, p.start.trav, p.send, listed)
    else p.filter == FilterOf(env, p.start)
  }

  // ---- What I send ----

  /** A listed entry is one I started with, or one the peer started with. */
  ghost predicate RefOk(mine: Db, theirs: Db, r: BlockRef) {
    (r.key.id in mine.blocks && r == StartRef(mine, r.key.id)) || InAt(theirs, r.key.id, r.val.wf)
  }

  /** A block I may send: mine from the start, and not claimed by the peer's filter. */
  ghost predicate BlockOk(env: Env, mine: Db, theirs: Db, stamp: Stamp, payload: Payload) {
    var id := env.computeID(payload);
    && id in mine.blocks && mine.blocks[id].stamp == stamp && mine.blocks[id].payload == payload
    && !Claimed(env, theirs, id, mine.blocks[id].wf)
  }

  ghost predicate FrameOk(env: Env, me: Peer, theirs: Db, f: Frame) {
    match f
    case BloomFrame(ones) => ones == FilterOf(env, me.start)
    case BlockFrame(stamp, payload) => me.peerBloom.Some? && BlockOk(env, me.start, theirs, stamp, payload)
    case DoneFrame => true
    case PeersFrame(urls) => urls == Shared(me.urls)
  }

  ghost predicate PageOk(mine: Db, theirs: Db, refs: seq<BlockRef>, next: Option<TravKey>) {
    && Increasing(refs)
    && (next.Some? ==> forall r :: r in refs ==> !KeyLess(next.value, r.key))
    && (forall r :: r in refs ==> RefOk(mine, theirs, r))
  }

  ghost predicate SenderOk(env: Env, mine: Db, theirs: Db, s: Sender) {
    && (s.SendPage? || s.WriteBlock? ==> PageOk(mine, theirs, s.refs, s.next))
    && (s.WriteBlock? ==> BlockOk(env, mine, theirs, s.stamp, s.payload))
  }

  ghost predicate SendInv(env: Env, w: World) {
    && (forall f :: f in w.out ==> FrameOk(env, w.me, w.you.start, f))
    && SenderOk(env, w.me.start, w.you.start, w.me.send)
  }

  // ---- What reaches the peer ----

  /** The listing has yet to deal with entry r. */
  ghost predicate Pending(s: Sender, r: BlockRef) {
    match s
    case ListPage(cur) => After(cur, r.key)
    case SendPage(refs, next) => r in refs || (next.Some? && KeyLess(next.value, r.key))
    case WriteBlock(_, _, refs, next) => r in refs || (next.Some? && KeyLess(next.value, r.key))
    case WriteDone => false
    case Sent => false
    case _ => true
  }

  /** The block b is with the peer, barred there by a tombstone, or on its way. */
  ghost predicate Settled(you: Peer, out: seq<Frame>, id: ID, b: Block) {
    || HoldsAt(you.db, id, b.wf)
    || Tombstoned(you.start, you.began, id)
    || BlockFrame(b.stamp, b.payload) in out
  }

  /** The sender need do nothing more about my block b, or still has it in hand. */
  ghost predicate InHand(env: Env, theirs: Db, s: Sender, id: ID, b: Block) {
    || Claimed(env, theirs, id, b.wf)
    || Pending(s, RefOf(id, b))
    || (s.WriteBlock? && s.stamp == b.stamp && s.payload == b.payload)
  }

  /** A store error keeps my block from the peer: I cannot read it, the peer cannot write it, or
      my listing failed before it. */
  ghost predicate Dropped(me: Peer, you: Peer, id: ID)
    requires id in me.start.blocks
  {
    || id in me.faults.get || id in you.faults.put
    || (me.cut.CutAt? && After(me.cut.cur, KeyOf(id, me.start.blocks[id])))
  }

  ghost predicate Handled(env: Env, w: World, id: ID)
    requires id in w.me.start.blocks
  {
    var b := w.me.start.blocks[id];
    Settled(w.you, w.out, id, b) || InHand(env, w.you.start, w.me.send, id, b) || Dropped(w.me, w.you, id)
  }

  ghost predicate CoverInv(env: Env, w: World) {
    forall id :: id in w.me.start.blocks ==> Handled(env, w, id)
  }

  // ---- What has been sent ----

  /** The listing has got past key k, and did not fail before it. */
  ghost predicate Behind(s: Sender, cut: Listed, k: TravKey) {
    match s
    case ListPage(cur) => !After(cur, k)
    case SendPage(_, next) => next.Some? ==> !After(next, k)
    case WriteBlock(_, _, _, next) => next.Some? ==> !After(next, k)
    case WriteDone => cut.CutAt? ==> !After(cut.cur, k)
    case Sent => cut.CutAt? ==> !After(cut.cur, k)
    case _ => false
  }

  /** Peer p may have sent its starting block id. */
  ghost predicate SentBy(p: Peer, id: ID) {
    id in p.start.blocks && id !in p.faults.get && Behind(p.send, p.cut, KeyOf(id, p.start.blocks[id]))
  }

  predicate Changed(p: Peer, id: ID) {
    id in p.db.blocks && !(id in p.start.blocks && p.db.blocks[id] == p.start.blocks[id])
  }

  /** What is on its way, and what has changed at the peer, I listed and read, and the peer
      could write. */
  ghost predicate SentInv(env: Env, w: World) {
    && (w.me.cut.CutAt? ==> Phase(w.me.send) <= 1)
    && (forall f :: f in w.out && f.BlockFrame? ==> SentBy(w.me, env.computeID(f.payload)))
    && (w.me.send.WriteBlock? ==> SentBy(w.me, env.computeID(w.me.send.payload)))
    && (forall id :: Changed(w.you, id) ==> SentBy(w.me, id) && id !in w.you.faults.put)
  }

  ghost predicate Half(env: Env, w: World) {
    && WireInv(env, w) && StoreInv(env, w) && FilterInv(env, w.me) && SendInv(env, w) && CoverInv(env, w)
    && SentInv(env, w)
  }

  /** The inductive invariant, from both sides. */
  ghost predicate Inv(env: Env, w: World) {
    Half(env, w) && Half(env, Flip(w))
  }

  // ---- Facts that hold under the invariant ----

  lemma InitialInv(env: Env, w: World)
    requires Initial(env, w)
    ensures Inv(env, w)
  {
    FreshFilter(env, w.me);
    FreshFilter(env, w.you);
  }

  lemma FreshFilter(env: Env, p: Peer)
    requires Fresh(env, p)
    ensures FilterInv(env, p)
  {
    ListedNone(p.start.trav, EVERYTHING);
    assert BuiltFrom(env, p.start.trav, p.send, []);
  }

  /** You cannot know my filter before I have sent it. */
  lemma SentBeforeSeen(env: Env, w: World)
    requires WireInv(env, w) && w.you.bloomSeen
    ensures BloomSent(w.me)
  {
    FollowGrows(ReadTo(w.you), w.out);
  }

  /** What I can read next: the frame that continues the order. */
  lemma NextFrame(env: Env, w: World)
    requires WireInv(env, Flip(w)) && w.inn != []
    ensures Advance(ReadTo(w.me), w.inn[0]) >= 0
    ensures Follow(Advance(ReadTo(w.me), w.inn[0]), w.inn[1..]) == WrittenTo(w.you)
  {
    FollowGrows(Advance(ReadTo(w.me), w.inn[0]), w.inn[1..]);
  }

  /** The filter of a starting store claims everything in it, at every capped level up to it. */
  lemma FilterClaims(env: Env, start: Db, began: nat, id: ID, k: WorkFactor)
    requires RepInv(env, start, began) && id in start.blocks && Min(k, 16) <= Min(start.blocks[id].wf, 16)
    ensures Claimed(env, start, id, k)
  {
    StoreClaims(env.slot, start.trav, KeyOf(id, start.blocks[id]), k);
  }

  /** No BLOCK frame is on its way to me before my own filter is complete and sent. */
  lemma NoBlockBeforeBloom(env: Env, w: World, stamp: Stamp, payload: Payload)
    requires WireInv(env, w) && WireInv(env, Flip(w)) && SendInv(env, Flip(w)) && BlockFrame(stamp, payload) in w.inn
    ensures BloomSent(w.me) && !w.me.send.Building? && !w.me.send.WriteBloom?
  {
    assert FrameOk(env, w.you, w.me.start, BlockFrame(stamp, payload));
    SentBeforeSeen(env, w);
  }

  /** A block on its way to me is one the peer started with, unclaimed by my filter, so one
      that nothing I started with equals or betters: no block is echoed. */
  lemma NoEcho(env: Env, w: World, stamp: Stamp, payload: Payload)
    requires StoreInv(env, w) && StoreInv(env, Flip(w)) && SendInv(env, Flip(w)) && BlockFrame(stamp, payload) in w.inn
    ensures var id := env.computeID(payload);
            var wf := env.workFactor(stamp, payload);
            && CopyOf(w.you.start, id, Block(stamp, payload, wf, 0, 4))
            && !Claimed(env, w.me.start, id, wf) && !HoldsAt(w.me.start, id, wf)
  {
    assert FrameOk(env, w.you, w.me.start, BlockFrame(stamp, payload));
    var id := env.computeID(payload);
    assert Genuine(env, id, w.you.start.blocks[id], w.you.began);
    if id in w.me.start.blocks && w.you.start.blocks[id].wf <= w.me.start.blocks[id].wf {
      FilterClaims(env, w.me.start, w.me.began, id, w.you.start.blocks[id].wf);
    }
  }

  /** While I stream, the filter I was given is that of the peer's starting store. */
  lemma PeerFilter(env: Env, w: World)
    requires WireInv(env, Flip(w)) && Phase(w.me.send) <= 2
    ensures w.me.peerBloom == Some(FilterOf(env, w.you.start))
  {}

  /** A listed block that the peer's filter does not claim is, to the byte, one I started
      with: nothing received in the session goes back. */
  lemma FetchIsMine(env: Env, me: Peer, theirs: Db, began: nat, r: BlockRef)
    requires StoreOk(env, me.start, me.began, me.db, me.now, theirs) && RepInv(env, theirs, began)
    requires RefOk(me.start, theirs, r) && r.key.id in me.db.blocks && !Claimed(env, theirs, r.key.id, r.val.wf)
    ensures r.key.id in me.start.blocks && r == StartRef(me.start, r.key.id)
    ensures me.db.blocks[r.key.id] == me.start.blocks[r.key.id]
  {
    var id := r.key.id;
    if id in theirs.blocks && r.val.wf <= theirs.blocks[id].wf {
      FilterClaims(env, theirs, began, id, r.val.wf);
    }
    assert id in me.start.blocks ==> HoldsAt(me.db, id, me.start.blocks[id].wf);
  }

  // ---- My local steps keep the invariant ----

  lemma LocalWire(env: Env, w: World, a: Action, w': World)
    requires WireInv(env, w) && WireInv(env, Flip(w))
    requires Local(env, w.me, a, w'.me) && w' == w.(me := w'.me)
    ensures WireInv(env, w') && WireInv(env, Flip(w'))
    ensures w'.me == w.me.(send := w'.me.send, cut := w'.me.cut, filter := w'.me.filter,
                           peerBloom := w'.me.peerBloom, mailbox := w'.me.mailbox)
    ensures (BloomSent(w'.me) <==> BloomSent(w.me)) && (w.me.peerBloom.Some? ==> w'.me.peerBloom == w.me.peerBloom)
  {}

  /** One more page, added to what was built from earlier ones. */
  lemma BuildMore(env: Env, t: Trav, s: Sender, listed: seq<BlockRef>, page: seq<BlockRef>, more: Option<TravKey>)
    requires s.Building? && BuiltFrom(env, t, s, listed) && IsPage(t, EVERYTHING, s.cur, BUILD_LIMIT, page, more)
    ensures ListedTo(t, EVERYTHING, listed + page, more, more == None)
    ensures AddAll(env.slot, s.ones, page) == AddAll(env.slot, {}, listed + page)
  {
    ListedPage(t, EVERYTHING, listed, s.cur, BUILD_LIMIT, page, more);
    AddAllConcat(env.slot, listed, page);
  }

  lemma BuildFilter(env: Env, p: Peer, a: Action, p': Peer)
    requires FilterInv(env, p) && p.db == p.start && a.Build? && Local(env, p, a, p')
    ensures FilterInv(env, p')
  {
    var listed :| BuiltFrom(env, p.start.trav, p.send, listed);
    BuildMore(env, p.start.trav, p.send, listed, a.page, a.more);
    if a.more == None {
      ListedBits(env.slot, p.start.trav, listed + a.page);
    } else {
      assert BuiltFrom(env, p'.start.trav, p'.send, listed + a.page);
    }
  }

  lemma LocalFilter(env: Env, p: Peer, a: Action, p': Peer)
    requires FilterInv(env, p) && (!BloomSent(p) ==> p.db == p.start) && Local(env, p, a, p')
    ensures FilterInv(env, p')
  {
    if a.Build? { BuildFilter(env, p, a, p'); }
  }

  lemma PageRest(mine: Db, theirs: Db, refs: seq<BlockRef>, next: Option<TravKey>)
    requires PageOk(mine, theirs, refs, next) && refs != []
    ensures PageOk(mine, theirs, refs[1..], next)
  {}

  lemma ListedOk(env: Env, w: World, page: seq<BlockRef>, more: Option<TravKey>, cur: Option<TravKey>)
    requires StoreInv(env, w) && IsPage(w.me.db.trav, EVERYTHING, cur, SEND_LIMIT, page, more)
    ensures PageOk(w.me.start, w.you.start, page, more)
  {
    forall r | r in page ensures RefOk(w.me.start, w.you.start, r) {
      var b := w.me.db.blocks[r.key.id];
      assert r == RefOf(r.key.id, b);
    }
    if more.Some? {
      forall r | r in page ensures !KeyLess(more.value, r.key) {
        var i :| 0 <= i < |page| && page[i] == r;
        assert i < |page| - 1 ==> KeyLess(page[i].key, page[|page| - 1].key);
      }
    }
  }

  /** The entry at hand is in my store as I started with it. */
  ghost predicate HeadIsMine(me: Peer) {
    && me.send.SendPage? && me.send.refs != []
    && var r := me.send.refs[0];
       && r.key.id in me.start.blocks && r == StartRef(me.start, r.key.id)
       && r.key.id in me.db.blocks && me.db.blocks[r.key.id] == me.start.blocks[r.key.id]
  }

  lemma FetchOk(env: Env, w: World, w': World)
    requires WireInv(env, Flip(w)) && StoreInv(env, w) && StoreInv(env, Flip(w))
    requires SenderOk(env, w.me.start, w.you.start, w.me.send) && Local(env, w.me, Fetch, w'.me)
    ensures HeadIsMine(w.me)
    ensures SenderOk(env, w.me.start, w.you.start, w'.me.send)
  {
    var r := w.me.send.refs[0];
    assert r in w.me.send.refs;
    PeerFilter(env, w);
    FetchIsMine(env, w.me, w.you.start, w.you.began, r);
    assert Genuine(env, r.key.id, w.me.start.blocks[r.key.id], w.me.began);
    PageRest(w.me.start, w.you.start, w.me.send.refs, w.me.send.next);
  }

  lemma LocalSender(env: Env, w: World, a: Action, w': World)
    requires WireInv(env, Flip(w)) && StoreInv(env, w) && StoreInv(env, Flip(w))
    requires SenderOk(env, w.me.start, w.you.start, w.me.send) && Local(env, w.me, a, w'.me)
    ensures SenderOk(env, w.me.start, w.you.start, w'.me.send)
  {
    match a
    case List(page, more) => ListedOk(env, w, page, more, w.me.send.cur);
    case Skip => PageRest(w.me.start, w.you.start, w.me.send.refs, w.me.send.next);
    case Fetch => FetchOk(env, w, w');
    case _ =>
  }

  /** A starting entry ahead of the cursor is on the page, ahead of the next one, or was
      replaced by a better block from the peer. */
  lemma ListCovers(env: Env, w: World, page: seq<BlockRef>, more: Option<TravKey>, cur: Option<TravKey>, id: ID)
    requires StoreInv(env, w) && StoreInv(env, Flip(w)) && IsPage(w.me.db.trav, EVERYTHING, cur, SEND_LIMIT, page, more)
    requires id in w.me.start.blocks && After(cur, StartRef(w.me.start, id).key)
    ensures HoldsAt(w.you.db, id, w.me.start.blocks[id].wf) || Pending(SendPage(page, more), StartRef(w.me.start, id))
  {
    var b := w.me.start.blocks[id];
    assert HoldsAt(w.me.db, id, b.wf);
    if w.me.db.blocks[id] == b {
      PageCovers(w.me.db.trav, EVERYTHING, cur, SEND_LIMIT, page, more, KeyOf(id, b));
    } else {
      assert InAt(w.you.start, id, w.me.db.blocks[id].wf);
      assert HoldsAt(w.you.db, id, w.you.start.blocks[id].wf);
    }
  }

  /** A listed entry that is skipped stays in hand, or was claimed. */
  lemma SkipInHand(env: Env, theirs: Db, me: Peer, me': Peer, id: ID, b: Block)
    requires me.peerBloom == Some(FilterOf(env, theirs)) && Local(env, me, Skip, me')
    requires id in me.db.blocks && id !in me.faults.get
    requires InHand(env, theirs, me.send, id, b)
    ensures InHand(env, theirs, me'.send, id, b)
  {
    var refs, r := me.send.refs, RefOf(id, b);
    assert r in refs ==> r == refs[0] || r in refs[1..];
  }

  lemma FetchInHand(env: Env, theirs: Db, me: Peer, me': Peer, id: ID, b: Block)
    requires Local(env, me, Fetch, me') && (me.send.refs[0].key.id == id ==> me.db.blocks[id] == b)
    requires InHand(env, theirs, me.send, id, b)
    ensures InHand(env, theirs, me'.send, id, b)
  {
    var refs, r := me.send.refs, RefOf(id, b);
    assert r in refs ==> r == refs[0] || r in refs[1..];
  }

  /** Building, taking the filter and ending a page keep a block in hand. */
  lemma StaysInHand(env: Env, theirs: Db, me: Peer, a: Action, me': Peer, id: ID, b: Block)
    requires Local(env, me, a, me') && !a.Skip? && !a.Fetch? && !a.List? && !a.ListFails?
    requires InHand(env, theirs, me.send, id, b)
    ensures InHand(env, theirs, me'.send, id, b)
  {}

  /** A failing listing drops exactly what was still to come. */
  lemma FailedInHand(env: Env, theirs: Db, me: Peer, me': Peer, id: ID, b: Block)
    requires Local(env, me, ListFails, me') && InHand(env, theirs, me.send, id, b)
    ensures InHand(env, theirs, me'.send, id, b) || After(me'.cut.cur, KeyOf(id, b))
  {}

  lemma ListInHand(env: Env, theirs: Db, me: Peer, a: Action, me': Peer, id: ID, b: Block)
    requires a.List? && Local(env, me, a, me') && InHand(env, theirs, me.send, id, b)
    requires Pending(me.send, RefOf(id, b)) ==> Pending(me'.send, RefOf(id, b))
    ensures InHand(env, theirs, me'.send, id, b)
  {}

  lemma LocalHandled(env: Env, theirs: Db, me: Peer, a: Action, me': Peer, id: ID, b: Block)
    requires Local(env, me, a, me') && !a.ListFails? && InHand(env, theirs, me.send, id, b)
    requires id in me.db.blocks && id !in me.faults.get
    requires a.Fetch? ==> HeadIsMine(me)
    requires id in me.start.blocks && b == me.start.blocks[id]
    requires a.Skip? ==> me.peerBloom == Some(FilterOf(env, theirs))
    requires a.List? && Pending(me.send, RefOf(id, b)) ==> Pending(me'.send, RefOf(id, b))
    ensures InHand(env, theirs, me'.send, id, b)
  {
    match a
    case Skip => SkipInHand(env, theirs, me, me', id, b);
    case Fetch => FetchInHand(env, theirs, me, me', id, b);
    case List(_, _) => ListInHand(env, theirs, me, a, me', id, b);
    case _ => StaysInHand(env, theirs, me, a, me', id, b);
  }

  lemma LocalCover(env: Env, w: World, a: Action, w': World)
    requires WireInv(env, Flip(w)) && StoreInv(env, w) && StoreInv(env, Flip(w)) && SendInv(env, w) && CoverInv(env, w)
    requires Local(env, w.me, a, w'.me) && w' == w.(me := w'.me) && w'.me.start == w.me.start
    requires w'.me.faults == w.me.faults && (w.me.cut.CutAt? ==> w'.me.cut == w.me.cut)
    ensures CoverInv(env, w')
  {
    if a.Fetch? { FetchOk(env, w, w'); }
    if a.Skip? { PeerFilter(env, w); }
    forall id | id in w.me.start.blocks ensures Handled(env, w', id) {
      assert Handled(env, w, id) && HoldsAt(w.me.db, id, w.me.start.blocks[id].wf);
      if a.List? && After(w.me.send.cur, StartRef(w.me.start, id).key) {
        ListCovers(env, w, a.page, a.more, w.me.send.cur, id);
      }
      CoverAt(env, w, a, w', id);
    }
  }

  lemma CoverAt(env: Env, w: World, a: Action, w': World, id: ID)
    requires id in w.me.start.blocks && id in w.me.db.blocks && Handled(env, w, id)
    requires Local(env, w.me, a, w'.me) && w' == w.(me := w'.me) && w'.me.start == w.me.start
    requires a.Fetch? ==> HeadIsMine(w.me)
    requires a.Skip? ==> w.me.peerBloom == Some(FilterOf(env, w.you.start))
    requires a.List? && After(w.me.send.cur, StartRef(w.me.start, id).key) ==>
               || HoldsAt(w.you.db, id, w.me.start.blocks[id].wf)
               || Pending(SendPage(a.page, a.more), StartRef(w.me.start, id))
    requires w'.me.faults == w.me.faults && (w.me.cut.CutAt? ==> w'.me.cut == w.me.cut)
    ensures Handled(env, w', id)
  {
    var b := w.me.start.blocks[id];
    if !Settled(w.you, w.out, id, b) && !Dropped(w.me, w.you, id) {
      if a.ListFails? {
        FailedInHand(env, w.you.start, w.me, w'.me, id, b);
      } else {
        LocalHandled(env, w.you.start, w.me, a, w'.me, id, b);
      }
    }
  }

  lemma LocalInv(env: Env, w: World, a: Action, w': World)
    requires Inv(env, w) && Local(env, w.me, a, w'.me) && w' == w.(me := w'.me)
    ensures Inv(env, w')
  {
    LocalWire(env, w, a, w');
    LocalFilter(env, w.me, a, w'.me);
    LocalSender(env, w, a, w');
    LocalSent(env, w, a, w');
    LocalCover(env, w, a, w');
    assert StoreInv(env, w');
    assert SendInv(env, w') && SendInv(env, Flip(w'));
    assert CoverInv(env, Flip(w')) by { SameCover(env, Flip(w), Flip(w')); }
    assert SentInv(env, Flip(w')) by { SameSent(env, Flip(w), Flip(w')); }
  }

  /** What the listing has got past stays behind it. */
  lemma BehindStays(env: Env, p: Peer, a: Action, p': Peer, k: TravKey)
    requires Local(env, p, a, p') && (p.cut.CutAt? ==> Phase(p.send) <= 1) && Behind(p.send, p.cut, k)
    ensures Behind(p'.send, p'.cut, k)
  {
    if a.List? && a.more.Some? {
      assert a.page[|a.page| - 1] in a.page;
    }
  }

  lemma SentStays(env: Env, p: Peer, a: Action, p': Peer, id: ID)
    requires Local(env, p, a, p') && (p.cut.CutAt? ==> Phase(p.send) <= 1) && SentBy(p, id)
    requires p'.start == p.start && p'.faults == p.faults
    ensures SentBy(p', id)
  {
    BehindStays(env, p, a, p', KeyOf(id, p.start.blocks[id]));
  }

  lemma FetchSent(env: Env, w: World, w': World)
    requires WireInv(env, Flip(w)) && StoreInv(env, w) && StoreInv(env, Flip(w))
    requires SenderOk(env, w.me.start, w.you.start, w.me.send) && Local(env, w.me, Fetch, w'.me)
    ensures SentBy(w'.me, env.computeID(w'.me.send.payload))
  {
    FetchOk(env, w, w');
    var r := w.me.send.refs[0];
    assert r in w.me.send.refs;
    assert Genuine(env, r.key.id, w.me.start.blocks[r.key.id], w.me.began);
  }

  lemma LocalSent(env: Env, w: World, a: Action, w': World)
    requires WireInv(env, Flip(w)) && StoreInv(env, w) && StoreInv(env, Flip(w)) && SendInv(env, w) && SentInv(env, w)
    requires Local(env, w.me, a, w'.me) && w' == w.(me := w'.me)
    requires w'.me.start == w.me.start && w'.me.faults == w.me.faults
    ensures SentInv(env, w') && (w.me.cut.CutAt? ==> w'.me.cut == w.me.cut)
  {
    forall id | SentBy(w.me, id) ensures SentBy(w'.me, id) { SentStays(env, w.me, a, w'.me, id); }
    if a.Fetch? { FetchSent(env, w, w'); }
    CutOnce(env, w.me, a, w'.me);
  }

  lemma CutOnce(env: Env, p: Peer, a: Action, p': Peer)
    requires Local(env, p, a, p') && (p.cut.CutAt? ==> Phase(p.send) <= 1)
    ensures (p.cut.CutAt? ==> p'.cut == p.cut) && (p'.cut.CutAt? ==> Phase(p'.send) <= 1)
    ensures p'.send.WriteBlock? ==> a.Fetch?
  {}

  /** What was sent depends on my sender, the link, and the peer's store. */
  lemma SameSent(env: Env, w: World, w': World)
    requires SentInv(env, w) && w'.me == w.me && w'.out == w.out
    requires w'.you.db == w.you.db && w'.you.start == w.you.start && w'.you.faults == w.you.faults
    ensures SentInv(env, w')
  {
    forall id | Changed(w'.you, id) ensures SentBy(w'.me, id) && id !in w'.you.faults.put { assert Changed(w.you, id); }
  }

  /** Cover depends on my start and sender, the link, and the peer's store. */
  lemma SameCover(env: Env, w: World, w': World)
    requires CoverInv(env, w) && w'.me == w.me && w'.out == w.out
    requires w'.you.db == w.you.db && w'.you.start == w.you.start && w'.you.began == w.you.began
    requires w'.you.faults == w.you.faults
    ensures CoverInv(env, w')
  {
    forall id | id in w'.me.start.blocks ensures Handled(env, w', id) { assert Handled(env, w, id); }
  }

  // ---- Writing keeps the invariant ----

  lemma WriteWire(env: Env, w: World, a: Action, f: Frame, w': World)
    requires WireInv(env, w) && WireInv(env, Flip(w)) && Write(w.me, a, f, w'.me)
    requires w' == w.(me := w'.me, out := w.out + [f])
    ensures WireInv(env, w') && WireInv(env, Flip(w'))
    ensures w'.me == w.me.(send := w'.me.send, peersSent := w'.me.peersSent) && (BloomSent(w.me) ==> BloomSent(w'.me))
  {
    FollowAppend(ReadTo(w.you), w.out, f);
  }

  lemma WriteSend(env: Env, w: World, a: Action, f: Frame, w': World)
    requires WireInv(env, Flip(w)) && FilterInv(env, w.me) && SendInv(env, w) && Write(w.me, a, f, w'.me)
    requires w' == w.(me := w'.me, out := w.out + [f])
    ensures SendInv(env, w') && FilterInv(env, w'.me)
  {
    assert FrameOk(env, w.me, w.you.start, f);
  }

  lemma WriteCover(env: Env, w: World, a: Action, f: Frame, w': World)
    requires CoverInv(env, w) && Write(w.me, a, f, w'.me) && w' == w.(me := w'.me, out := w.out + [f])
    ensures CoverInv(env, w')
  {
    forall id | id in w.me.start.blocks ensures Handled(env, w', id) { assert Handled(env, w, id); }
  }

  lemma WriteInv(env: Env, w: World, a: Action, f: Frame, w': World)
    requires Inv(env, w) && Write(w.me, a, f, w'.me) && w' == w.(me := w'.me, out := w.out + [f])
    ensures Inv(env, w')
  {
    WriteWire(env, w, a, f, w');
    WriteSend(env, w, a, f, w');
    WriteCover(env, w, a, f, w');
    WriteSent(env, w, a, f, w');
    WriteKeeps(env, w, f, w');
  }

  lemma WriteSent(env: Env, w: World, a: Action, f: Frame, w': World)
    requires SentInv(env, w) && Write(w.me, a, f, w'.me) && w' == w.(me := w'.me, out := w.out + [f])
    ensures SentInv(env, w')
  {
    forall id | SentBy(w.me, id) ensures SentBy(w'.me, id) { WriteBehind(w.me, a, f, w'.me, id); }
    forall id | Changed(w'.you, id) ensures SentBy(w'.me, id) && id !in w'.you.faults.put { assert Changed(w.you, id); }
  }

  lemma WriteBehind(p: Peer, a: Action, f: Frame, p': Peer, id: ID)
    requires Write(p, a, f, p') && SentBy(p, id)
    ensures SentBy(p', id)
  {}

  /** Writing leaves both stores and what the peer wrote alone. */
  lemma WriteKeeps(env: Env, w: World, f: Frame, w': World)
    requires StoreInv(env, w) && Half(env, Flip(w)) && w' == w.(me := w'.me, out := w.out + [f])
    requires w'.me == w.me.(send := w'.me.send, peersSent := w'.me.peersSent) && (BloomSent(w.me) ==> BloomSent(w'.me))
    ensures StoreInv(env, w') && StoreInv(env, Flip(w')) && FilterInv(env, w'.you)
    ensures SendInv(env, Flip(w')) && CoverInv(env, Flip(w')) && SentInv(env, Flip(w'))
  {
    SameCover(env, Flip(w), Flip(w'));
    SameSent(env, Flip(w), Flip(w'));
  }

  // ---- Reading keeps the invariant ----

  lemma ReadWire(env: Env, w: World, a: Action, w': World)
    requires WireInv(env, w) && WireInv(env, Flip(w)) && SendInv(env, Flip(w))
    requires w.inn != [] && Read(env, w.me, a, w.inn[0], w'.me) && w' == w.(me := w'.me, inn := w.inn[1..])
    ensures WireInv(env, w') && WireInv(env, Flip(w'))
  {
    NextFrame(env, w);
    assert FrameOk(env, w.you, w.me.start, w.inn[0]);
  }

  lemma StoreGrows(env: Env, start: Db, began: nat, db: Db, now: nat, theirs: Db, later: nat, stamp: Stamp,
                   payload: Payload)
    requires StoreOk(env, start, began, db, now, theirs) && now <= later
    requires CopyOf(theirs, env.computeID(payload), Block(stamp, payload, env.workFactor(stamp, payload), 0, 4))
    requires !Claimed(env, start, env.computeID(payload), env.workFactor(stamp, payload))
    ensures StoreOk(env, start, began, PutTxn(env, db, later, stamp, payload, TAG_BLUETOOTH), later, theirs)
  {
    TickKeepsRep(env, db, now, later);
    PutKeepsRep(env, db, later, stamp, payload, TAG_BLUETOOTH);
    var db' := PutTxn(env, db, later, stamp, payload, TAG_BLUETOOTH);
    forall id
      ensures id in start.blocks ==> HoldsAt(db', id, start.blocks[id].wf)
      ensures id in db'.blocks ==> KeptOrNew(env, start, theirs, id, db'.blocks[id])
    {
      GrowsAt(env, start, db, later, theirs, stamp, payload, id);
    }
  }

  lemma GrowsAt(env: Env, start: Db, db: Db, later: nat, theirs: Db, stamp: Stamp, payload: Payload, id: ID)
    requires id in start.blocks ==> HoldsAt(db, id, start.blocks[id].wf)
    requires id in db.blocks ==> KeptOrNew(env, start, theirs, id, db.blocks[id])
    requires CopyOf(theirs, env.computeID(payload), Block(stamp, payload, env.workFactor(stamp, payload), 0, 4))
    requires !Claimed(env, start, env.computeID(payload), env.workFactor(stamp, payload))
    ensures var db' := PutTxn(env, db, later, stamp, payload, TAG_BLUETOOTH);
            && (id in start.blocks ==> HoldsAt(db', id, start.blocks[id].wf))
            && (id in db'.blocks ==> KeptOrNew(env, start, theirs, id, db'.blocks[id]))
  {
    CommitWrites(env, db, later, later, stamp, payload, TAG_BLUETOOTH, id);
  }

  lemma ReadStore(env: Env, w: World, a: Action, w': World)
    requires Inv(env, w)
    requires w.inn != [] && Read(env, w.me, a, w.inn[0], w'.me) && w' == w.(me := w'.me, inn := w.inn[1..])
    ensures StoreInv(env, w')
  {
    var f := w.inn[0];
    if a.Receive? && f.BlockFrame? {
      assert f in w.inn && f == BlockFrame(f.stamp, f.payload);
      NoBlockBeforeBloom(env, w, f.stamp, f.payload);
      NoEcho(env, w, f.stamp, f.payload);
      StoreGrows(env, w.me.start, w.me.began, w.me.db, w.me.now, w.you.start, a.later, f.stamp, f.payload);
      StoreWaits(env, w.me.start, w.me.began, w.me.db, w.me.now, w.you.start, a.later);
    }
  }

  lemma StoreWaits(env: Env, start: Db, began: nat, db: Db, now: nat, theirs: Db, later: nat)
    requires StoreOk(env, start, began, db, now, theirs) && now <= later
    ensures StoreOk(env, start, began, db, later, theirs)
  {
    TickKeepsRep(env, db, now, later);
  }

  /** What is settled at my end stays settled when I read. */
  lemma SettledStays(env: Env, w: World, a: Action, w': World, id: ID)
    requires WireInv(env, Flip(w)) && w.me.db.tombs == w.me.start.tombs && w.me.began <= w.me.now
    requires w.inn != [] && Read(env, w.me, a, w.inn[0], w'.me) && w' == w.(me := w'.me, inn := w.inn[1..])
    requires id in w.you.start.blocks && Genuine(env, id, w.you.start.blocks[id], w.you.began)
    requires Settled(w.me, w.inn, id, w.you.start.blocks[id]) && id !in w.me.faults.put
    ensures Settled(w'.me, w'.inn, id, w.you.start.blocks[id])
  {
    NextFrame(env, w);
    assert w.inn == [w.inn[0]] + w.inn[1..];
    if a.Receive? && w.inn[0].BlockFrame? {
      CommitEffect(env, w.me.db, a.later, a.later, w.inn[0].stamp, w.inn[0].payload, TAG_BLUETOOTH);
    }
  }

  lemma ReadCover(env: Env, w: World, a: Action, w': World)
    requires WireInv(env, Flip(w)) && StoreInv(env, w) && StoreInv(env, Flip(w)) && CoverInv(env, Flip(w))
    requires w.inn != [] && Read(env, w.me, a, w.inn[0], w'.me) && w' == w.(me := w'.me, inn := w.inn[1..])
    ensures CoverInv(env, Flip(w'))
  {
    forall id | id in w.you.start.blocks ensures Handled(env, Flip(w'), id) {
      assert Handled(env, Flip(w), id);
      if Settled(w.me, w.inn, id, w.you.start.blocks[id]) && id !in w.me.faults.put {
        SettledStays(env, w, a, w', id);
      }
    }
  }

  lemma ReadInv(env: Env, w: World, a: Action, w': World)
    requires Inv(env, w)
    requires w.inn != [] && Read(env, w.me, a, w.inn[0], w'.me) && w' == w.(me := w'.me, inn := w.inn[1..])
    ensures Inv(env, w')
  {
    ReadWire(env, w, a, w');
    ReadStore(env, w, a, w');
    ReadCover(env, w, a, w');
    ReadKeeps(env, w, a, w');
    ReadSent(env, w, a, w');
    assert CoverInv(env, w') by { ReadKeepsCover(env, w, w'); }
  }

  /** Reading leaves my sender, my start and the frames I wrote alone. */
  lemma ReadKeeps(env: Env, w: World, a: Action, w': World)
    requires SendInv(env, w) && SendInv(env, Flip(w)) && FilterInv(env, w.me)
    requires w.inn != [] && Read(env, w.me, a, w.inn[0], w'.me) && w' == w.(me := w'.me, inn := w.inn[1..])
    ensures SendInv(env, w') && SendInv(env, Flip(w')) && FilterInv(env, w'.me)
    ensures w'.me.send == w.me.send && w'.me.start == w.me.start && w'.me.cut == w.me.cut
    ensures w'.me.faults == w.me.faults
  {
    assert forall f :: f in w'.inn ==> f in w.inn;
  }

  /** A block that changes here came in a frame, and could be written. */
  lemma ChangedByRead(env: Env, p: Peer, a: Action, f: Frame, p': Peer, id: ID)
    requires Read(env, p, a, f, p') && Changed(p', id)
    ensures || Changed(p, id)
            || (a.Receive? && f.BlockFrame? && id == env.computeID(f.payload) && id !in p.faults.put)
  {
    if a.Receive? && f.BlockFrame? {
      CommitWrites(env, p.db, a.later, a.later, f.stamp, f.payload, TAG_BLUETOOTH, id);
    }
  }

  lemma ReadSent(env: Env, w: World, a: Action, w': World)
    requires SentInv(env, w) && SentInv(env, Flip(w))
    requires w.inn != [] && Read(env, w.me, a, w.inn[0], w'.me) && w' == w.(me := w'.me, inn := w.inn[1..])
    requires w'.me.send == w.me.send && w'.me.start == w.me.start && w'.me.cut == w.me.cut
    requires w'.me.faults == w.me.faults
    ensures SentInv(env, w') && SentInv(env, Flip(w'))
  {
    assert w.inn[0] in w.inn && forall f :: f in w'.inn ==> f in w.inn;
    forall id | Changed(w'.me, id) ensures SentBy(w.you, id) && id !in w'.me.faults.put {
      ChangedByRead(env, w.me, a, w.inn[0], w'.me, id);
    }
    forall id | SentBy(w.me, id) ensures SentBy(w'.me, id) {}
    forall id | Changed(w'.you, id) ensures SentBy(w'.me, id) && id !in w'.you.faults.put { assert Changed(w.you, id); }
  }

  lemma ReadKeepsCover(env: Env, w: World, w': World)
    requires CoverInv(env, w) && w'.me.send == w.me.send && w'.me.start == w.me.start && w'.you == w.you
    requires w'.out == w.out && w'.me.cut == w.me.cut && w'.me.faults == w.me.faults
    ensures CoverInv(env, w')
  {
    forall id | id in w'.me.start.blocks ensures Handled(env, w', id) { assert Handled(env, w, id); }
  }

  // ---- Every step ----

  lemma DoInv(c: Config, w: World, a: Action, w': World)
    requires Inv(c.env, w) && Do(c, w, a, w')
    ensures Inv(c.env, w')
  {
    if IsWrite(a) {
      var f := w'.out[|w.out|];
      assert w'.out == w.out + [f];
      WriteInv(c.env, w, a, f, w');
    } else if IsRead(a) {
      ReadInv(c.env, w, a, w');
    } else {
      LocalInv(c.env, w, a, w');
    }
  }

  lemma FlipInv(env: Env, w: World)
    ensures Inv(env, w) <==> Inv(env, Flip(w))
  {}

  lemma MeetInv(c: Config, w: World, w': World)
    requires Inv(c.env, w) && Meet(c, w, w')
    ensures Inv(c.env, w')
  {
    var a, mid, b :| HandOver(c, w, a, mid, b, w');
    DoInv(Roomy(c), w, a, mid);
    FlipInv(c.env, mid);
    DoInv(Roomy(c), Flip(mid), b, Flip(w'));
    FlipInv(c.env, w');
  }

  /** Every step of either endpoint keeps the invariant. */
  lemma NextInv(c: Config, w: World, w': World)
    requires Inv(c.env, w) && Next(c, w, w')
    ensures Inv(c.env, w')
  {
    FlipInv(c.env, w);
    FlipInv(c.env, w');
    if a :| Do(c, w, a, w') {
      DoInv(c, w, a, w');
    } else if a :| Do(c, Flip(w), a, Flip(w')) {
      DoInv(c, Flip(w), a, Flip(w'));
    } else if Meet(c, w, w') {
      MeetInv(c, w, w');
    } else {
      MeetInv(c, Flip(w), Flip(w'));
    }
  }
}
