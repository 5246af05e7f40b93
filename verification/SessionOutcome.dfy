/** What a Bluetooth session achieves: it cannot get stuck, it ends, and it leaves each side
    with everything the other started with, up to named exceptions. */
module SessionOutcome {
  import opened Types
  import opened Database
  import opened Listing
  import opened Bloom
  import opened Session
  import opened SetSize

  ghost predicate Run(c: Config, ws: seq<World>) {
    && ws != [] && Initial(c.env, ws[0])
    && forall i :: 0 <= i < |ws| - 1 ==> Next(c, ws[i], ws[i + 1])
  }

  /** The invariant holds in every state of every run. */
  lemma {:induction false} RunInv(c: Config, ws: seq<World>, i: nat)
    requires Run(c, ws) && i < |ws|
    ensures Inv(c.env, ws[i])
  {
    if i == 0 {
      InitialInv(c.env, ws[0]);
    } else {
      RunInv(c, ws, i - 1);
      NextInv(c, ws[i - 1], ws[i]);
    }
  }

  // ---- The merged stores ----

  /** At the end, everything I started with is with the peer at least as well proven, unless
      the filter of the store the peer started with claimed it, a tombstone barred it, or a
      store error dropped it. */
  lemma Delivered(env: Env, w: World, id: ID)
    requires Inv(env, w) && Final(w) && id in w.me.start.blocks
    ensures || HoldsAt(w.you.db, id, w.me.start.blocks[id].wf)
            || Claimed(env, w.you.start, id, w.me.start.blocks[id].wf)
            || Tombstoned(w.you.start, w.you.began, id)
            || Dropped(w.me, w.you, id)
  {
    DeliveredAtEnd(env, w, id);
  }

  lemma DeliveredAtEnd(env: Env, w: World, id: ID)
    requires WireInv(env, w) && CoverInv(env, w) && ReadTo(w.you) == 3 && id in w.me.start.blocks
    ensures || HoldsAt(w.you.db, id, w.me.start.blocks[id].wf)
            || Claimed(env, w.you.start, id, w.me.start.blocks[id].wf)
            || Tombstoned(w.you.start, w.you.began, id)
            || Dropped(w.me, w.you, id)
  {
    assert Handled(env, w, id);
    AllRead(env, w);
  }

  lemma AllRead(env: Env, w: World)
    requires WireInv(env, w) && ReadTo(w.you) == 3
    ensures w.out == [] && w.me.send.Sent?
  {
    FollowGrows(3, w.out);
    if w.out != [] { FollowGrows(Advance(3, w.out[0]), w.out[1..]); }
  }

  function MaxWf(a: Db, b: Db, id: ID): WorkFactor
    requires id in a.blocks || id in b.blocks
  {
    if id !in a.blocks then b.blocks[id].wf
    else if id !in b.blocks || b.blocks[id].wf <= a.blocks[id].wf then a.blocks[id].wf
    else b.blocks[id].wf
  }

  /** Nothing has happened to id in the peer's store. */
  ghost predicate Untouched(p: Peer, id: ID) {
    (id in p.db.blocks <==> id in p.start.blocks) && (id in p.db.blocks ==> p.db.blocks[id] == p.start.blocks[id])
  }

  /** My block does not concern the peer: I did not start with it, the filter of the store the
      peer started with claims it, or a store error drops it. */
  ghost predicate Withheld(env: Env, w: World, id: ID) {
    id in w.me.start.blocks ==>
      Claimed(env, w.you.start, id, w.me.start.blocks[id].wf) || Dropped(w.me, w.you, id)
  }

  /** What the session does to id in the peer's store, in terms of the two starting stores and
      what goes wrong with them: nothing, if it is withheld; otherwise the pointwise maximum,
      unless a tombstone barred it when the session began; and it is never there under a
      tombstone that is still visible. */
  ghost predicate Merged(env: Env, w: World, id: ID) {
    && (Withheld(env, w, id) ==> Untouched(w.you, id))
    && (!Withheld(env, w, id) && !Tombstoned(w.you.start, w.you.began, id) ==>
          id in w.you.db.blocks && w.you.db.blocks[id].wf == MaxWf(w.me.start, w.you.start, id))
    && (Tombstoned(w.you.start, w.you.now, id) ==> id !in w.you.db.blocks)
    && w.you.gossip == Some(if |w.me.urls| <= 20 then w.me.urls else w.me.urls[..20])
  }

  /** A block that is withheld is never delivered. */
  lemma WithheldUntouched(env: Env, w: World, id: ID)
    requires StoreInv(env, Flip(w)) && SentInv(env, w) && Withheld(env, w, id)
    ensures Untouched(w.you, id)
  {
    if id in w.you.start.blocks { assert HoldsAt(w.you.db, id, w.you.start.blocks[id].wf); }
    if Changed(w.you, id) { assert SentBy(w.me, id); }
  }

  lemma FinalMerged(env: Env, w: World, id: ID)
    requires Inv(env, w) && Final(w)
    ensures Merged(env, w, id)
  {
    if Withheld(env, w, id) {
      WithheldUntouched(env, w, id);
    } else if !Tombstoned(w.you.start, w.you.began, id) {
      Delivered(env, w, id);
      DeliveredIsMax(env, w, id);
    }
  }

  lemma DeliveredIsMax(env: Env, w: World, id: ID)
    requires StoreInv(env, Flip(w)) && id in w.me.start.blocks
    requires HoldsAt(w.you.db, id, w.me.start.blocks[id].wf)
    ensures w.you.db.blocks[id].wf == MaxWf(w.me.start, w.you.start, id)
  {
    if id in w.you.start.blocks { assert HoldsAt(w.you.db, id, w.you.start.blocks[id].wf); }
  }

  /** Main theorem: every run that ends, in whatever interleaving, merges both stores. */
  lemma SessionMerges(c: Config, ws: seq<World>, id: ID)
    requires Run(c, ws) && Final(ws[|ws| - 1])
    ensures Merged(c.env, ws[|ws| - 1], id) && Merged(c.env, Flip(ws[|ws| - 1]), id)
  {
    var w := ws[|ws| - 1];
    RunInv(c, ws, |ws| - 1);
    FlipInv(c.env, w);
    FinalMerged(c.env, w, id);
    FinalMerged(c.env, Flip(w), id);
  }

  /** The theorem in numbers. A block I started with that no store error drops, no tombstone bars
      and no other starting block of the peer shares a slot with ends up with the peer, stamp and
      payload as I have them, exactly if the peer did not have it, or had it at a lower level,
      levels being cut at 16; otherwise the peer keeps its own. What I did not start with stays as
      it was. */
  lemma SessionUpgrades(c: Config, ws: seq<World>, id: ID)
    requires Run(c, ws) && Final(ws[|ws| - 1]) && Apart(c.env.slot, id, ws[|ws| - 1].you.start.blocks.Keys)
    requires var w := ws[|ws| - 1];
             && id !in w.me.faults.get && id !in w.you.faults.put && w.me.cut == Whole
             && (id in w.you.start.tombs ==> w.you.start.tombs[id] <= w.you.began)
    ensures var mine, theirs, end := ws[|ws| - 1].me.start.blocks, ws[|ws| - 1].you.start.blocks,
              ws[|ws| - 1].you.db.blocks;
            if id in mine && (id in theirs ==> Min(mine[id].wf, 16) > Min(theirs[id].wf, 16)) then
              && id in end && end[id].wf == mine[id].wf && end[id].tag == 4
              && end[id].stamp == mine[id].stamp && end[id].payload == mine[id].payload
            else
              (id in end <==> id in theirs) && (id in theirs ==> end[id] == theirs[id])
  {
    SessionMerges(c, ws, id);
    RunInv(c, ws, |ws| - 1);
    KeptOrCopied(c.env, ws[|ws| - 1], id);
    UpgradesAt(c.env, ws[|ws| - 1], id);
  }

  lemma KeptOrCopied(env: Env, w: World, id: ID)
    requires Inv(env, w)
    ensures RepInv(env, w.you.start, w.you.began)
    ensures id in w.you.db.blocks && !Untouched(w.you, id) ==> CopyOf(w.me.start, id, w.you.db.blocks[id])
  {}

  lemma UpgradesAt(env: Env, w: World, id: ID)
    requires RepInv(env, w.you.start, w.you.began) && Merged(env, w, id) && Apart(env.slot, id, w.you.start.blocks.Keys)
    requires id !in w.me.faults.get && id !in w.you.faults.put && w.me.cut == Whole
    requires id in w.you.start.tombs ==> w.you.start.tombs[id] <= w.you.began
    requires id in w.you.db.blocks && !Untouched(w.you, id) ==> CopyOf(w.me.start, id, w.you.db.blocks[id])
    ensures var mine, theirs, end := w.me.start.blocks, w.you.start.blocks, w.you.db.blocks;
            if id in mine && (id in theirs ==> Min(mine[id].wf, 16) > Min(theirs[id].wf, 16)) then
              && id in end && end[id].wf == mine[id].wf && end[id].tag == 4
              && end[id].stamp == mine[id].stamp && end[id].payload == mine[id].payload
            else
              (id in end <==> id in theirs) && (id in theirs ==> end[id] == theirs[id])
  {
    if id in w.me.start.blocks {
      HeldExactly(env, w.you.start, w.you.began, id, w.me.start.blocks[id].wf);
    }
  }

  /** A consequence of the cap on levels: a block the peer holds at work factor 16 or more is
      never upgraded by a session, however much more work mine has. */
  lemma NoUpgradeAbove16(c: Config, ws: seq<World>, i: nat, id: ID)
    requires Run(c, ws) && i < |ws|
    requires id in ws[i].you.start.blocks && ws[i].you.start.blocks[id].wf >= 16
    ensures Untouched(ws[i].you, id)
  {
    RunInv(c, ws, i);
    NoUpgrade(c.env, ws[i], id);
  }

  lemma NoUpgrade(env: Env, w: World, id: ID)
    requires StoreInv(env, Flip(w)) && SentInv(env, w)
    requires id in w.you.start.blocks && w.you.start.blocks[id].wf >= 16
    ensures Untouched(w.you, id)
  {
    if id in w.me.start.blocks {
      FilterClaims(env, w.you.start, w.you.began, id, w.me.start.blocks[id].wf);
    }
    WithheldUntouched(env, w, id);
  }

  // ---- No deadlock ----

  ghost predicate Moves(c: Config, w: World) {
    exists w' :: Next(c, w, w')
  }

  /** A sender that is not waiting for a filter has its next step, a local one or a write. */
  lemma SenderActs(env: Env, p: Peer) returns (a: Action, f: Option<Frame>, p': Peer)
    requires !p.send.Sent? && (p.send.AwaitBloom? ==> p.mailbox.Some?) && (Phase(p.send) <= 2 ==> p.peerBloom.Some?)
    ensures !IsRead(a) && (IsWrite(a) <==> f.Some?)
    ensures if f.Some? then Write(p, a, f.value, p') else Local(env, p, a, p')
  {
    f := None;
    match p.send
    case Building(cur, ones) =>
      var page, more := PageExists(p.db.trav, EVERYTHING, cur, BUILD_LIMIT);
      var ones' := AddAll(env.slot, ones, page);
      a := Build(page, more);
      p' := if more == None then p.(send := WriteBloom, filter := ones') else p.(send := Building(more, ones'));
    case WriteBloom =>
      a, f, p' := PutBloom, Some(BloomFrame(p.filter)), p.(send := AwaitBloom);
    case AwaitBloom =>
      a, p' := TakeBloom, p.(send := ListPage(None), peerBloom := p.mailbox, mailbox := None);
    case ListPage(cur) =>
      var page, more := PageExists(p.db.trav, EVERYTHING, cur, SEND_LIMIT);
      a, p' := List(page, more), p.(send := SendPage(page, more));
    case SendPage(refs, next) =>
      a, p' := PageActs(env, p);
    case WriteBlock(stamp, payload, refs, next) =>
      a, f, p' := PutBlock, Some(BlockFrame(stamp, payload)), p.(send := SendPage(refs, next));
    case WriteDone =>
      a, f, p' := PutDone, Some(DoneFrame), p.(send := Sent);
  }

  lemma PageActs(env: Env, p: Peer) returns (a: Action, p': Peer)
    requires p.send.SendPage? && p.peerBloom.Some?
    ensures !IsRead(a) && !IsWrite(a) && Local(env, p, a, p')
  {
    var refs, next := p.send.refs, p.send.next;
    if refs == [] {
      a, p' := EndPage, p.(send := if next == None then WriteDone else ListPage(next));
    } else {
      var r := refs[0];
      var unread := r.key.id !in p.db.blocks || r.key.id in p.faults.get;
      if Claims(env.slot, p.peerBloom.value, r.key.id, r.val.wf) || unread {
        a, p' := Skip, p.(send := SendPage(refs[1..], next));
      } else {
        var b := p.db.blocks[r.key.id];
        a, p' := Fetch, p.(send := WriteBlock(b.stamp, b.payload, refs[1..], next));
      }
    }
  }

  /** A receiver that still expects the next frame in flight can take it. */
  lemma ReaderActs(env: Env, w: World) returns (a: Action, p': Peer)
    requires WireInv(env, Flip(w)) && w.inn != [] && (w.me.recvDone ==> w.me.send.Sent? && !w.me.peersDone)
    ensures IsRead(a) && Read(env, w.me, a, w.inn[0], p')
  {
    NextFrame(env, w);
    var me, f := w.me, w.inn[0];
    if me.recvDone {
      a, p' := GetPeers, me.(peersDone := true, gossip := if f.PeersFrame? then Some(f.urls) else None);
    } else {
      a := Receive(me.now);
      match f
      case BloomFrame(ones) =>
        p' := me.(mailbox := Some(ones), bloomSeen := true);
      case BlockFrame(stamp, payload) =>
        p' := me.(db := Stored(env, me, me.now, stamp, payload), now := me.now);
      case DoneFrame =>
        p' := me.(recvDone := true);
    }
  }

  lemma DoMoves(c: Config, w: World, a: Action, w': World)
    requires Do(c, w, a, w')
    ensures Moves(c, w)
  {
    assert Next(c, w, w');
  }

  lemma HandOverMoves(c: Config, w: World, a: Action, mid: World, b: Action, w': World)
    requires HandOver(c, w, a, mid, b, w')
    ensures Moves(c, w)
  {
    assert Meet(c, w, w');
    assert Next(c, w, w');
  }

  lemma FlipMoves(c: Config, w: World)
    requires Moves(c, Flip(w))
    ensures Moves(c, w)
  {
    var v :| Next(c, Flip(w), v);
    assert Flip(Flip(w)) == w && Flip(Flip(v)) == v;
    assert Next(c, w, Flip(v));
  }

  /** If a frame is in flight to me and I still expect it, I can move. */
  lemma ReadMoves(c: Config, w: World)
    requires WireInv(c.env, Flip(w)) && w.inn != [] && (w.me.recvDone ==> w.me.send.Sent? && !w.me.peersDone)
    ensures Moves(c, w)
  {
    var a, p' := ReaderActs(c.env, w);
    DoMoves(c, w, a, w.(me := p', inn := w.inn[1..]));
  }

  /** A frame to write can be written: into the link, or straight to a peer that expects it. */
  lemma WriteMoves(c: Config, w: World, a: Action, f: Frame, p': Peer)
    requires WireInv(c.env, w) && WireInv(c.env, Flip(w)) && w.out == [] && IsWrite(a) && Write(w.me, a, f, p')
    requires w.you.recvDone ==> w.you.send.Sent? && !w.you.peersDone
    ensures Moves(c, w)
  {
    var mid := w.(me := p', out := w.out + [f]);
    assert mid.out == [f];
    if c.cap >= 1 {
      DoMoves(c, w, a, mid);
    } else {
      WriteWire(c.env, w, a, f, mid);
      var b, q' := ReaderActs(c.env, Flip(mid));
      TakeMoves(c, w, a, f, p', b, q');
    }
  }

  lemma TakeMoves(c: Config, w: World, a: Action, f: Frame, p': Peer, b: Action, q': Peer)
    requires c.cap == 0 && w.out == [] && IsWrite(a) && Write(w.me, a, f, p') && IsRead(b)
    requires Read(c.env, w.you, b, f, q')
    ensures Moves(c, w)
  {
    var mid := w.(me := p', out := [f]);
    var w' := mid.(you := q', out := []);
    assert Do(Roomy(c), w, a, mid);
    assert mid.out[1..] == [];
    assert Do(Roomy(c), Flip(mid), b, Flip(w'));
    HandOverMoves(c, w, a, mid, b, w');
  }

  lemma SenderMoves(c: Config, w: World)
    requires WireInv(c.env, w) && WireInv(c.env, Flip(w)) && !w.me.send.Sent? && w.out == [] && !w.you.recvDone
    requires w.me.send.AwaitBloom? ==> w.me.mailbox.Some?
    ensures Moves(c, w)
  {
    var a, f, p' := SenderActs(c.env, w.me);
    if f.Some? {
      WriteMoves(c, w, a, f.value, p');
    } else {
      DoMoves(c, w, a, w.(me := p'));
    }
  }

  /** While my sender is unfinished, I can act, or the peer can. */
  lemma StreamMoves(c: Config, w: World)
    requires WireInv(c.env, w) && WireInv(c.env, Flip(w)) && !w.me.send.Sent?
    ensures Moves(c, w)
  {
    FollowGrows(ReadTo(w.you), w.out);
    FollowGrows(ReadTo(w.me), w.inn);
    if w.out != [] {
      ReadMoves(c, Flip(w));
      FlipMoves(c, w);
    } else if w.me.send.AwaitBloom? && w.me.mailbox == None {
      if w.inn != [] {
        ReadMoves(c, w);
      } else {
        SenderMoves(c, Flip(w));
        FlipMoves(c, w);
      }
    } else {
      SenderMoves(c, w);
    }
  }

  /** While my relay list is unsent or unread, after both senders are done. */
  lemma PeersMove(c: Config, w: World)
    requires WireInv(c.env, w) && WireInv(c.env, Flip(w))
    requires w.me.send.Sent? && w.you.send.Sent? && !(w.me.peersSent && w.you.peersDone)
    ensures Moves(c, w)
  {
    FollowGrows(ReadTo(w.you), w.out);
    if w.out != [] {
      if !w.you.peersDone {
        ReadMoves(c, Flip(w));
        FlipMoves(c, w);
      } else {
        AllRead(c.env, w);
      }
    } else if !w.me.recvDone {
      ReadMoves(c, w);
    } else {
      WriteMoves(c, w, PutPeers, PeersFrame(Shared(w.me.urls)), w.me.(peersSent := true));
    }
  }

  /** No deadlock: in every reachable state that is not final there is a next one, however
      small the links, down to a rendezvous. */
  lemma Progress(c: Config, w: World)
    requires Inv(c.env, w) && !Final(w)
    ensures Moves(c, w)
  {
    if !w.me.send.Sent? {
      StreamMoves(c, w);
    } else if !w.you.send.Sent? {
      StreamMoves(c, Flip(w));
      FlipMoves(c, w);
    } else if !(w.me.peersSent && w.you.peersDone) {
      PeersMove(c, w);
    } else {
      PeersMove(c, Flip(w));
      FlipMoves(c, w);
    }
  }

  // ---- Termination ----

  function Flag(b: bool): nat {
    if b then 0 else 1
  }

  function Stages(p: Peer): nat {
    Phase(p.send) + Flag(p.bloomSeen) + Flag(p.recvDone) + Flag(p.peersSent) + Flag(p.peersDone)
  }

  /** My starting blocks that the sender may still pick up. */
  ghost function Unsent(p: Peer): set<ID> {
    set id | id in p.start.blocks && Pending(p.send, StartRef(p.start, id))
  }

  ghost function Sends(p: Peer): nat {
    2 * |Unsent(p)| + if p.send.WriteBlock? then 1 else 0
  }

  ghost function KeysAhead(t: Trav, cur: Option<TravKey>): set<TravKey> {
    set k | k in t && After(cur, k)
  }

  ghost function Unlisted(p: Peer): nat {
    match p.send
    case Building(cur, _) => |KeysAhead(p.db.trav, cur)|
    case ListPage(cur) => |KeysAhead(p.db.trav, cur)|
    case SendPage(_, next) => if next == None then 0 else |KeysAhead(p.db.trav, next)|
    case _ => 0
  }

  function OnPage(p: Peer): nat {
    match p.send
    case ListPage(_) => 1
    case SendPage(refs, next) => if next == None then |refs| else |refs| + 2
    case _ => 0
  }

  /** Reading a page that has a successor leaves fewer entries ahead. */
  lemma PageShrinks(t: Trav, cur: Option<TravKey>, limit: nat, page: seq<BlockRef>, more: Option<TravKey>)
    requires IsPage(t, EVERYTHING, cur, limit, page, more) && more.Some?
    ensures |KeysAhead(t, more)| < |KeysAhead(t, cur)|
  {
    var last := page[|page| - 1];
    assert last in page;
    assert KeysAhead(t, more) <= KeysAhead(t, cur) - {last.key};
    SubsetSize(KeysAhead(t, more), KeysAhead(t, cur) - {last.key});
  }

  lemma SendsFetch(env: Env, w: World, w': World)
    requires WireInv(env, Flip(w)) && StoreInv(env, w) && StoreInv(env, Flip(w)) && SendInv(env, w)
    requires Local(env, w.me, Fetch, w'.me)
    ensures Sends(w'.me) < Sends(w.me)
  {
    FetchOk(env, w, w');
    FetchShrinks(w.me, w'.me, w.me.send.refs[0].key.id);
  }

  lemma FetchShrinks(p: Peer, p': Peer, id: ID)
    requires p.send.SendPage? && p.send.refs != [] && id in p.start.blocks && p.send.refs[0] == StartRef(p.start, id)
    requires Increasing(p.send.refs)
    requires p.send.next.Some? ==> forall r :: r in p.send.refs ==> !KeyLess(p.send.next.value, r.key)
    requires p'.start == p.start && p'.send.WriteBlock? && p'.send.refs == p.send.refs[1..]
    requires p'.send.next == p.send.next
    ensures Sends(p') < Sends(p)
  {
    FetchLeaves(p.start, p.send.refs, p.send.next, p'.send, id);
    assert p.send.refs[0] in p.send.refs;
    SubsetSize(Unsent(p'), Unsent(p) - {id});
  }

  lemma UnsentShrinks(env: Env, p: Peer, a: Action, p': Peer)
    requires Local(env, p, a, p') && !a.Fetch? && Phase(p'.send) == Phase(p.send)
    ensures Sends(p') <= Sends(p)
  {
    forall id | id in Unsent(p') ensures id in Unsent(p) {
      if a.List? { ListedAhead(p.db.trav, p.send.cur, a.page, a.more, StartRef(p.start, id)); }
    }
    SubsetSize(Unsent(p'), Unsent(p));
  }

  lemma ListedAhead(t: Trav, cur: Option<TravKey>, page: seq<BlockRef>, more: Option<TravKey>, r: BlockRef)
    requires IsPage(t, EVERYTHING, cur, SEND_LIMIT, page, more) && Pending(SendPage(page, more), r)
    ensures After(cur, r.key)
  {}

  /** Once fetched, an entry is behind the sender. */
  lemma FetchLeaves(start: Db, refs: seq<BlockRef>, next: Option<TravKey>, s: Sender, id: ID)
    requires refs != [] && Increasing(refs) && (next.Some? ==> forall r :: r in refs ==> !KeyLess(next.value, r.key))
    requires s.WriteBlock? && s.refs == refs[1..] && s.next == next
    requires id in start.blocks && refs[0] == StartRef(start, id)
    ensures !Pending(s, StartRef(start, id))
    ensures forall i :: i in start.blocks && Pending(s, StartRef(start, i)) ==>
              Pending(SendPage(refs, next), StartRef(start, i))
  {}

  datatype Rank = Rank(stages: nat, sends: nat, frames: nat, unlisted: nat, onPage: nat)

  ghost function RankOf(w: World): Rank {
    Rank(Stages(w.me) + Stages(w.you), Sends(w.me) + Sends(w.you), |w.out| + |w.inn|,
         Unlisted(w.me) + Unlisted(w.you), OnPage(w.me) + OnPage(w.you))
  }

  /** Lexicographic order. */
  predicate Lower(a: Rank, b: Rank) {
    || a.stages < b.stages
    || (a.stages == b.stages && a.sends < b.sends)
    || (a.stages == b.stages && a.sends == b.sends && a.frames < b.frames)
    || (a.stages == b.stages && a.sends == b.sends && a.frames == b.frames && a.unlisted < b.unlisted)
    || (&& a.stages == b.stages && a.sends == b.sends && a.frames == b.frames && a.unlisted == b.unlisted
        && a.onPage < b.onPage)
  }

  /** A local step gets on with a phase, a block, the listing, or the page. */
  lemma LocalDecreases(env: Env, w: World, a: Action, w': World)
    requires Inv(env, w) && Local(env, w.me, a, w'.me) && w' == w.(me := w'.me)
    ensures Lower(RankOf(w'), RankOf(w))
  {
    if a.Fetch? {
      SendsFetch(env, w, w');
    } else {
      QuietDecreases(env, w, a, w');
    }
  }

  lemma QuietDecreases(env: Env, w: World, a: Action, w': World)
    requires Local(env, w.me, a, w'.me) && w' == w.(me := w'.me) && !a.Fetch?
    ensures Lower(RankOf(w'), RankOf(w))
  {
    PeerDecreases(env, w.me, a, w'.me);
  }

  /** One endpoint's share of the rank drops, phase first. */
  lemma PeerDecreases(env: Env, p: Peer, a: Action, p': Peer)
    requires Local(env, p, a, p') && !a.Fetch?
    ensures Stages(p') <= Stages(p)
    ensures Stages(p') == Stages(p) ==> Sends(p') <= Sends(p)
    ensures Stages(p') == Stages(p) ==>
              Unlisted(p') < Unlisted(p) || (Unlisted(p') == Unlisted(p) && OnPage(p') < OnPage(p))
  {
    SamePhase(env, p, a, p');
    if Phase(p'.send) == Phase(p.send) {
      UnsentShrinks(env, p, a, p');
      PageDecreases(env, p, a, p');
    }
  }

  lemma SamePhase(env: Env, p: Peer, a: Action, p': Peer)
    requires Local(env, p, a, p')
    ensures Stages(p') - Stages(p) == Phase(p'.send) - Phase(p.send) <= 0
  {
    assert && p'.bloomSeen == p.bloomSeen && p'.recvDone == p.recvDone
           && p'.peersSent == p.peersSent && p'.peersDone == p.peersDone;
  }

  lemma PageDecreases(env: Env, p: Peer, a: Action, p': Peer)
    requires Local(env, p, a, p') && !a.Fetch? && Phase(p'.send) == Phase(p.send)
    ensures Unlisted(p') < Unlisted(p) || (Unlisted(p') == Unlisted(p) && OnPage(p') < OnPage(p))
  {
    match a
    case Build(page, more) =>
      PageShrinks(p.db.trav, p.send.cur, BUILD_LIMIT, page, more);
    case List(page, more) =>
      ListDecreases(p.db.trav, p.send.cur, page, more);
    case _ =>
  }

  lemma ListDecreases(t: Trav, cur: Option<TravKey>, page: seq<BlockRef>, more: Option<TravKey>)
    requires IsPage(t, EVERYTHING, cur, SEND_LIMIT, page, more)
    ensures more.Some? ==> |KeysAhead(t, more)| < |KeysAhead(t, cur)|
    ensures more == None && page != [] ==> 0 < |KeysAhead(t, cur)|
  {
    if more.Some? {
      PageShrinks(t, cur, SEND_LIMIT, page, more);
    } else if page != [] {
      assert page[0] in page;
      assert page[0].key in KeysAhead(t, cur);
    }
  }

  /** Writing a frame gets on with a phase or a block. */
  lemma WriteDecreases(w: World, a: Action, f: Frame, w': World)
    requires Write(w.me, a, f, w'.me) && w' == w.(me := w'.me, out := w.out + [f])
    ensures Lower(RankOf(w'), RankOf(w))
  {
    if a.PutBlock? { assert Unsent(w'.me) == Unsent(w.me); }
  }

  /** Reading a frame empties a link, if it does not get on with a stage. */
  lemma ReadDecreases(env: Env, w: World, a: Action, w': World)
    requires WireInv(env, Flip(w))
    requires w.inn != [] && Read(env, w.me, a, w.inn[0], w'.me) && w' == w.(me := w'.me, inn := w.inn[1..])
    ensures Lower(RankOf(w'), RankOf(w))
  {
    NextFrame(env, w);
    assert Unsent(w'.me) == Unsent(w.me);
  }

  lemma DoDecreases(c: Config, w: World, a: Action, w': World)
    requires Inv(c.env, w) && Do(c, w, a, w')
    ensures Lower(RankOf(w'), RankOf(w))
  {
    if IsWrite(a) {
      var f := w'.out[|w.out|];
      assert w'.out == w.out + [f];
      WriteDecreases(w, a, f, w');
    } else if IsRead(a) {
      ReadDecreases(c.env, w, a, w');
    } else {
      LocalDecreases(c.env, w, a, w');
    }
  }

  lemma FlipRank(w: World)
    ensures RankOf(Flip(w)) == RankOf(w)
  {}

  lemma MeetDecreases(c: Config, w: World, w': World)
    requires Inv(c.env, w) && Meet(c, w, w')
    ensures Lower(RankOf(w'), RankOf(w))
  {
    var a, mid, b :| HandOver(c, w, a, mid, b, w');
    DoDecreases(Roomy(c), w, a, mid);
    DoInv(Roomy(c), w, a, mid);
    FlipInv(c.env, mid);
    DoDecreases(Roomy(c), Flip(mid), b, Flip(w'));
    FlipRank(mid);
    FlipRank(w');
  }

  lemma NextDecreases(c: Config, w: World, w': World)
    requires Inv(c.env, w) && Next(c, w, w')
    ensures Lower(RankOf(w'), RankOf(w))
  {
    FlipInv(c.env, w);
    FlipRank(w);
    FlipRank(w');
    if a :| Do(c, w, a, w') {
      DoDecreases(c, w, a, w');
    } else if a :| Do(c, Flip(w), a, Flip(w')) {
      DoDecreases(c, Flip(w), a, Flip(w'));
    } else if Meet(c, w, w') {
      MeetDecreases(c, w, w');
    } else {
      MeetDecreases(c, Flip(w), Flip(w'));
    }
  }

  ghost predicate StepAt(c: Config, run: nat -> World, i: nat) {
    Next(c, run(i), run(i + 1))
  }

  /** No session runs forever: every infinite sequence of states contains a pair that is not
      a step. With Progress, every session can be run to its final state. */
  lemma Terminates(c: Config, run: nat -> World) returns (n: nat)
    requires Initial(c.env, run(0))
    ensures !Next(c, run(n), run(n + 1))
  {
    if k: nat :| !StepAt(c, run, k) {
      n := k;
    } else {
      InitialInv(c.env, run(0));
      Endless(c, run, 0, run(0));
    }
  }

  lemma StepDown(c: Config, w: World, w': World)
    requires Inv(c.env, w) && Next(c, w, w')
    ensures Inv(c.env, w') && Lower(RankOf(w'), RankOf(w))
  {
    NextInv(c, w, w');
    NextDecreases(c, w, w');
  }

  /** Steps from a reachable state cannot go on without end. */
  lemma Endless(c: Config, run: nat -> World, i: nat, w: World)
    requires Inv(c.env, w) && w == run(i) && forall k: nat :: StepAt(c, run, k)
    ensures false
    decreases RankOf(w).stages, RankOf(w).sends, RankOf(w).frames, RankOf(w).unlisted, RankOf(w).onPage
  {
    assert StepAt(c, run, i);
    StepDown(c, w, run(i + 1));
    Endless(c, run, i + 1, run(i + 1));
  }

  /** A path of steps from w to a final state. */
  ghost predicate PathToEnd(c: Config, w: World, ws: seq<World>) {
    && ws != [] && ws[0] == w && Final(ws[|ws| - 1])
    && forall i :: 0 <= i < |ws| - 1 ==> Next(c, ws[i], ws[i + 1])
  }

  lemma PathGrows(c: Config, w: World, w': World, rest: seq<World>)
    requires Next(c, w, w') && PathToEnd(c, w', rest)
    ensures PathToEnd(c, w, [w] + rest)
  {
    var ws := [w] + rest;
    forall i | 0 <= i < |ws| - 1 ensures Next(c, ws[i], ws[i + 1]) {
      if i > 0 { assert ws[i] == rest[i - 1] && ws[i + 1] == rest[i]; }
    }
  }

  lemma OneMove(c: Config, w: World) returns (w': World)
    requires Inv(c.env, w) && !Final(w)
    ensures Next(c, w, w') && Inv(c.env, w') && Lower(RankOf(w'), RankOf(w))
  {
    Progress(c, w);
    var v :| Next(c, w, v);
    StepDown(c, w, v);
    w' := v;
  }

  /** Every session that has got anywhere can be carried on to its end. */
  lemma Completes(c: Config, w: World) returns (ws: seq<World>)
    requires Inv(c.env, w)
    ensures PathToEnd(c, w, ws)
    decreases RankOf(w).stages, RankOf(w).sends, RankOf(w).frames, RankOf(w).unlisted, RankOf(w).onPage
  {
    if Final(w) {
      ws := [w];
    } else {
      var w' := OneMove(c, w);
      var rest := Completes(c, w');
      PathGrows(c, w, w', rest);
      ws := [w] + rest;
    }
  }
}
