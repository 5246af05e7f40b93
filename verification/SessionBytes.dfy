/** The session over byte streams: frames are written and read piece by piece, through pipes that
    hold a bounded number of bytes, with anything going on in between. It refines the session
    over links of frames. */
module SessionBytes {
  import opened Types
  import opened Bytes
  import opened Framing
  import opened Session
  import opened SessionOutcome

  /** How a frame's type and content are laid out: the filter's bytes, stamp and payload, JSON. */
  datatype Codec = Codec(enc: Frame -> RawFrame, dec: RawFrame -> Option<Frame>)

  predicate Encodable(k: Codec, f: Frame) {
    Sendable(k.enc(f)) && k.dec(k.enc(f)) == Some(f)
  }

  /** Every frame that peer p may write can be encoded and decoded again. */
  ghost predicate Speaks(k: Codec, env: Env, p: Peer) {
    && Encodable(k, BloomFrame(FilterOf(env, p.start))) && Encodable(k, DoneFrame)
    && (forall stamp: Stamp, payload: Payload :: Encodable(k, BlockFrame(stamp, payload)))
    && Encodable(k, PeersFrame(Shared(p.urls)))
  }

  function WireForm(k: Codec, f: Frame): seq<Byte>
    requires Encodable(k, f)
  {
    WriteFrame(k.enc(f))
  }

  /** Frames one after the other. */
  function Stream(k: Codec, fs: seq<Frame>): seq<Byte>
    requires forall f :: f in fs ==> Encodable(k, f)
  {
    if fs == [] then [] else WireForm(k, fs[0]) + Stream(k, fs[1..])
  }

  lemma {:induction false} StreamAppend(k: Codec, fs: seq<Frame>, f: Frame)
    requires (forall g :: g in fs ==> Encodable(k, g)) && Encodable(k, f)
    ensures Stream(k, fs + [f]) == Stream(k, fs) + WireForm(k, f)
  {
    if fs == [] {
      assert [f][1..] == [] && fs + [f] == [f];
      assert Stream(k, [f]) == WireForm(k, f) + [];
    } else {
      StreamAppend(k, fs[1..], f);
      assert (fs + [f])[1..] == fs[1..] + [f];
      Regroup(WireForm(k, fs[0]), Stream(k, fs[1..]), WireForm(k, f));
    }
  }

  /** Bytes written and not yet consumed as frames: the first `got` of them are with the reader,
      the last `sent` belong to a frame that is still being written. */
  datatype Pipe = Pipe(bytes: seq<Byte>, sent: nat, got: nat)

  /** Bytes on their way. */
  function InFlight(p: Pipe): int {
    |p.bytes| - p.got
  }

  /** The pipe carries the frames fs, and the beginning of cur; the reader has not read beyond
      the first frame. */
  ghost predicate Carries(k: Codec, p: Pipe, fs: seq<Frame>, cur: Option<Frame>) {
    && (forall f :: f in fs ==> Encodable(k, f))
    && (p.sent > 0 ==> cur.Some? && Encodable(k, cur.value) && p.sent < |WireForm(k, cur.value)|)
    && p.bytes == Stream(k, fs) + Part(k, p.sent, cur)
    && p.got <= |p.bytes| && (fs != [] ==> p.got <= |WireForm(k, fs[0])|)
  }

  /** The beginning of the frame that is being written. */
  ghost function Part(k: Codec, sent: nat, cur: Option<Frame>): seq<Byte> {
    if sent > 0 && cur.Some? && Encodable(k, cur.value) && sent <= |WireForm(k, cur.value)|
    then WireForm(k, cur.value)[..sent] else []
  }

  lemma CarriesMore(k: Codec, p: Pipe, fs: seq<Frame>, f: Frame, n: nat)
    requires Carries(k, p, fs, Some(f)) && Encodable(k, f) && p.sent < n < |WireForm(k, f)|
    ensures Carries(k, Pipe(p.bytes + WireForm(k, f)[p.sent..n], n, p.got), fs, Some(f))
  {
    var b := WireForm(k, f);
    assert Part(k, p.sent, Some(f)) == b[..p.sent];
    assert b[..p.sent] + b[p.sent..n] == b[..n];
    Regroup(Stream(k, fs), b[..p.sent], b[p.sent..n]);
  }

  lemma CarriesWhole(k: Codec, p: Pipe, fs: seq<Frame>, f: Frame, cur: Option<Frame>)
    requires Carries(k, p, fs, Some(f)) && Encodable(k, f) && p.sent <= |WireForm(k, f)|
    ensures Carries(k, Pipe(p.bytes + WireForm(k, f)[p.sent..], 0, p.got), fs + [f], cur)
  {
    var b := WireForm(k, f);
    assert Part(k, p.sent, Some(f)) == b[..p.sent] && Part(k, 0, cur) == [];
    assert b[..p.sent] + b[p.sent..] == b;
    Regroup(Stream(k, fs), b[..p.sent], b[p.sent..]);
    StreamAppend(k, fs, f);
    assert Stream(k, fs + [f]) + [] == Stream(k, fs + [f]);
    if fs == [] { assert p.bytes == b[..p.sent]; }
  }

  /** What the reader finds in the bytes it has: the first frame, once it has all of it, and then
      nothing else; before that, it is waiting for more. */
  lemma CarriesRead(k: Codec, p: Pipe, fs: seq<Frame>, cur: Option<Frame>)
    requires Carries(k, p, fs, cur)
    ensures fs == [] || p.got < |WireForm(k, fs[0])| ==> ReadFrame(p.bytes[..p.got]) == NeedMore
    ensures fs != [] && p.got == |WireForm(k, fs[0])| ==> ReadFrame(p.bytes[..p.got]) == Got(k.enc(fs[0]), [])
    ensures fs != [] ==> |WireForm(k, fs[0])| <= |p.bytes|
  {
    var part := Part(k, p.sent, cur);
    if fs == [] {
      assert p.bytes == part;
      if p.got > 0 {
        assert p.bytes[..p.got] == WireForm(k, cur.value)[..p.got];
        ReadPartial(k.enc(cur.value), p.got);
      }
    } else {
      var form := WireForm(k, fs[0]);
      Regroup(form, Stream(k, fs[1..]), part);
      assert p.bytes == form + (Stream(k, fs[1..]) + part);
      assert p.bytes[..p.got] == form[..p.got];
      if p.got < |form| {
        ReadPartial(k.enc(fs[0]), p.got);
      } else {
        ReadWritten(k.enc(fs[0]), []);
        assert form[..p.got] == form && form + [] == form;
      }
    }
  }

  lemma CarriesOn(k: Codec, p: Pipe, fs: seq<Frame>, cur: Option<Frame>)
    requires Carries(k, p, fs, cur) && fs != [] && p.got == |WireForm(k, fs[0])|
    ensures Carries(k, Pipe(p.bytes[p.got..], p.sent, 0), fs[1..], cur)
  {
    var form, part := WireForm(k, fs[0]), Part(k, p.sent, cur);
    Regroup(form, Stream(k, fs[1..]), part);
    assert p.bytes == form + (Stream(k, fs[1..]) + part);
    assert p.bytes[p.got..] == Stream(k, fs[1..]) + part;
  }

  // ---- The session over pipes ----

  datatype ByteWorld = ByteWorld(me: Peer, you: Peer, out: Pipe, inn: Pipe)

  function Turn(b: ByteWorld): ByteWorld {
    ByteWorld(b.you, b.me, b.inn, b.out)
  }

  /** The functions in use, the layout of frames, and how many bytes a pipe holds. */
  datatype Wiring = Wiring(env: Env, k: Codec, room: nat)

  /** The frame a peer has to write next. */
  function Writing(p: Peer): Option<Frame> {
    match p.send
    case WriteBloom => Some(BloomFrame(p.filter))
    case WriteBlock(stamp, payload, _, _) => Some(BlockFrame(stamp, payload))
    case WriteDone => Some(DoneFrame)
    case Sent => if p.recvDone && !p.peersSent then Some(PeersFrame(Shared(p.urls))) else None
    case _ => None
  }

  /** The peer is in readFrame: in runRecv, or in exchangePeers. */
  predicate Reading(p: Peer) {
    !p.recvDone || (p.send.Sent? && !p.peersDone)
  }

  /** Some more bytes of the frame at hand, but not all. */
  ghost predicate WritePart(x: Wiring, b: ByteWorld, b': ByteWorld) {
    && Writing(b.me).Some? && Encodable(x.k, Writing(b.me).value)
    && var form := WireForm(x.k, Writing(b.me).value);
       && b.out.sent < b'.out.sent < |form|
       && b' == b.(out := Pipe(b.out.bytes + form[b.out.sent..b'.out.sent], b'.out.sent, b.out.got))
       && InFlight(b'.out) <= x.room
  }

  ghost predicate WriteRest(x: Wiring, b: ByteWorld, a: Action, b': ByteWorld) {
    && Writing(b.me).Some? && Encodable(x.k, Writing(b.me).value) && Write(b.me, a, Writing(b.me).value, b'.me)
    && var form := WireForm(x.k, Writing(b.me).value);
       && b.out.sent <= |form|
       && b' == b.(me := b'.me, out := Pipe(b.out.bytes + form[b.out.sent..], 0, b.out.got))
       && InFlight(b'.out) <= x.room
  }

  /** The reader gets one more byte of a frame it does not have all of. */
  ghost predicate PullByte(b: ByteWorld, b': ByteWorld) {
    && Reading(b.me) && b.inn.got < |b.inn.bytes| && ReadFrame(b.inn.bytes[..b.inn.got]) == NeedMore
    && b' == b.(inn := b.inn.(got := b.inn.got + 1))
  }

  ghost predicate TakeFrame(x: Wiring, b: ByteWorld, a: Action, b': ByteWorld) {
    && b.inn.got <= |b.inn.bytes| && ReadFrame(b.inn.bytes[..b.inn.got]).Got?
    && var raw := ReadFrame(b.inn.bytes[..b.inn.got]).frame;
       && x.k.dec(raw).Some? && Read(x.env, b.me, a, x.k.dec(raw).value, b'.me)
       && b' == b.(me := b'.me, inn := Pipe(b.inn.bytes[b.inn.got..], b.inn.sent, 0))
  }

  ghost predicate Think(x: Wiring, b: ByteWorld, a: Action, b': ByteWorld) {
    Local(x.env, b.me, a, b'.me) && b' == b.(me := b'.me)
  }

  ghost predicate ByteStep(x: Wiring, b: ByteWorld, b': ByteWorld) {
    || WritePart(x, b, b')
    || PullByte(b, b')
    || (exists a :: WriteRest(x, b, a, b'))
    || (exists a :: TakeFrame(x, b, a, b'))
    || (exists a :: Think(x, b, a, b'))
  }

  ghost predicate EitherStep(x: Wiring, b: ByteWorld, b': ByteWorld) {
    ByteStep(x, b, b') || ByteStep(x, Turn(b), Turn(b'))
  }

  /** The same state, with frames on the links. */
  ghost predicate Refines(k: Codec, b: ByteWorld, w: World) {
    && b.me == w.me && b.you == w.you
    && Carries(k, b.out, w.out, Writing(w.me)) && Carries(k, b.inn, w.inn, Writing(w.you))
  }

  // ---- Every step over bytes is a step over frames, or only moves bytes ----

  /** Bytes of the frame at hand that are still to be written. */
  ghost function Unwritten(k: Codec, p: Peer, pipe: Pipe): nat {
    if Writing(p).Some? && Encodable(k, Writing(p).value) && pipe.sent <= |WireForm(k, Writing(p).value)|
    then |WireForm(k, Writing(p).value)| - pipe.sent else 0
  }

  ghost function ToWrite(k: Codec, b: ByteWorld): nat {
    Unwritten(k, b.me, b.out) + Unwritten(k, b.you, b.inn)
  }

  function ToPull(b: ByteWorld): int {
    InFlight(b.out) + InFlight(b.inn)
  }

  /** A link with room for one more frame. */
  function WithRoom(env: Env, w: World): Config {
    Config(env, 1 + |w.out|)
  }

  /** One step of the endpoint over frames. */
  ghost predicate FrameStep(env: Env, w: World, w': World) {
    exists a :: Do(WithRoom(env, w), w, a, w')
  }

  /** The frames take a step, or stay and bytes move on. */
  ghost predicate Advances(x: Wiring, b: ByteWorld, b': ByteWorld, w: World, w': World) {
    || FrameStep(x.env, w, w') || FrameStep(x.env, Flip(w), Flip(w'))
    || (w' == w && (|| ToWrite(x.k, b') < ToWrite(x.k, b)
                    || (ToWrite(x.k, b') == ToWrite(x.k, b) && ToPull(b') < ToPull(b))))
  }

  lemma WriteRestRefines(x: Wiring, b: ByteWorld, a: Action, b': ByteWorld, w: World) returns (w': World)
    requires Refines(x.k, b, w) && WriteRest(x, b, a, b') && IsWrite(a)
    ensures Refines(x.k, b', w') && FrameStep(x.env, w, w')
  {
    var f := Writing(b.me).value;
    CarriesWhole(x.k, b.out, w.out, f, Writing(b'.me));
    w' := w.(me := b'.me, out := w.out + [f]);
    assert Do(WithRoom(x.env, w), w, a, w');
  }

  /** Reading does not disturb a frame that is being written. */
  lemma ReadKeepsWriting(env: Env, p: Peer, a: Action, f: Frame, p': Peer)
    requires Read(env, p, a, f, p')
    ensures Writing(p).Some? ==> Writing(p') == Writing(p)
  {}

  lemma SameCarries(k: Codec, p: Pipe, fs: seq<Frame>, cur: Option<Frame>, cur': Option<Frame>)
    requires Carries(k, p, fs, cur) && (cur.Some? ==> cur' == cur)
    ensures Carries(k, p, fs, cur')
  {}

  lemma TakeFrameRefines(x: Wiring, b: ByteWorld, a: Action, b': ByteWorld, w: World) returns (w': World)
    requires Refines(x.k, b, w) && TakeFrame(x, b, a, b') && IsRead(a)
    ensures Refines(x.k, b', w') && FrameStep(x.env, w, w')
  {
    CarriesRead(x.k, b.inn, w.inn, Writing(w.you));
    assert w.inn[0] in w.inn;
    CarriesOn(x.k, b.inn, w.inn, Writing(w.you));
    ReadKeepsWriting(x.env, b.me, a, w.inn[0], b'.me);
    SameCarries(x.k, b.out, w.out, Writing(b.me), Writing(b'.me));
    w' := w.(me := b'.me, inn := w.inn[1..]);
    assert Do(WithRoom(x.env, w), w, a, w');
  }

  lemma LocalWritesNothing(env: Env, p: Peer, a: Action, p': Peer)
    requires Local(env, p, a, p')
    ensures Writing(p) == None && !IsWrite(a) && !IsRead(a)
  {}

  lemma ThinkRefines(x: Wiring, b: ByteWorld, a: Action, b': ByteWorld, w: World) returns (w': World)
    requires Refines(x.k, b, w) && Think(x, b, a, b')
    ensures Refines(x.k, b', w') && FrameStep(x.env, w, w')
  {
    LocalWritesNothing(x.env, b.me, a, b'.me);
    SameCarries(x.k, b.out, w.out, Writing(b.me), Writing(b'.me));
    w' := w.(me := b'.me);
    assert Do(WithRoom(x.env, w), w, a, w');
  }

  lemma WritePartRefines(x: Wiring, b: ByteWorld, b': ByteWorld, w: World)
    requires Refines(x.k, b, w) && WritePart(x, b, b')
    ensures Refines(x.k, b', w) && ToWrite(x.k, b') < ToWrite(x.k, b)
  {
    CarriesMore(x.k, b.out, w.out, Writing(b.me).value, b'.out.sent);
  }

  lemma PullByteRefines(x: Wiring, b: ByteWorld, b': ByteWorld, w: World)
    requires Refines(x.k, b, w) && PullByte(b, b')
    ensures Refines(x.k, b', w) && ToWrite(x.k, b') == ToWrite(x.k, b) && ToPull(b') < ToPull(b)
  {
    CarriesRead(x.k, b.inn, w.inn, Writing(w.you));
  }

  lemma WriteIsWrite(p: Peer, a: Action, f: Frame, p': Peer)
    requires Write(p, a, f, p')
    ensures IsWrite(a) && Writing(p) == Some(f)
  {}

  lemma ReadIsRead(env: Env, p: Peer, a: Action, f: Frame, p': Peer)
    requires Read(env, p, a, f, p')
    ensures IsRead(a) && Reading(p)
  {}

  /** Every step over bytes, partial writes and reads included, is a step over frames, or leaves
      the frames as they are and moves bytes on. */
  lemma StepRefines(x: Wiring, b: ByteWorld, b': ByteWorld, w: World) returns (w': World)
    requires Refines(x.k, b, w) && ByteStep(x, b, b')
    ensures Refines(x.k, b', w')
    ensures w' == w || FrameStep(x.env, w, w')
    ensures Advances(x, b, b', w, w')
  {
    if WritePart(x, b, b') {
      WritePartRefines(x, b, b', w);
      w' := w;
    } else if PullByte(b, b') {
      PullByteRefines(x, b, b', w);
      w' := w;
    } else if a :| WriteRest(x, b, a, b') {
      WriteIsWrite(b.me, a, Writing(b.me).value, b'.me);
      w' := WriteRestRefines(x, b, a, b', w);
    } else if a :| TakeFrame(x, b, a, b') {
      ReadIsRead(x.env, b.me, a, x.k.dec(ReadFrame(b.inn.bytes[..b.inn.got]).frame).value, b'.me);
      w' := TakeFrameRefines(x, b, a, b', w);
    } else {
      var a :| Think(x, b, a, b');
      w' := ThinkRefines(x, b, a, b', w);
    }
  }

  lemma EitherRefines(x: Wiring, b: ByteWorld, b': ByteWorld, w: World) returns (w': World)
    requires Refines(x.k, b, w) && EitherStep(x, b, b')
    ensures Refines(x.k, b', w') && Advances(x, b, b', w, w')
  {
    if ByteStep(x, b, b') {
      w' := StepRefines(x, b, b', w);
    } else {
      var v := StepRefines(x, Turn(b), Turn(b'), Flip(w));
      w' := Flip(v);
      assert Flip(Flip(v)) == v && Flip(Flip(w)) == w;
    }
  }

  lemma FrameStepInv(env: Env, w: World, w': World)
    requires Inv(env, w) && FrameStep(env, w, w')
    ensures Inv(env, w') && Lower(RankOf(w'), RankOf(w))
  {
    var a :| Do(WithRoom(env, w), w, a, w');
    DoInv(WithRoom(env, w), w, a, w');
    DoDecreases(WithRoom(env, w), w, a, w');
  }

  /** A step over bytes keeps the session invariant of the frames, and gets on. */
  ghost predicate GetsOn(k: Codec, b: ByteWorld, b': ByteWorld, w: World, w': World) {
    || Lower(RankOf(w'), RankOf(w))
    || (w' == w && ToWrite(k, b') < ToWrite(k, b))
    || (w' == w && ToWrite(k, b') == ToWrite(k, b) && ToPull(b') < ToPull(b))
  }

  lemma StepInv(x: Wiring, b: ByteWorld, b': ByteWorld, w: World) returns (w': World)
    requires Refines(x.k, b, w) && Inv(x.env, w) && EitherStep(x, b, b')
    ensures Refines(x.k, b', w') && Inv(x.env, w') && GetsOn(x.k, b, b', w, w')
  {
    w' := EitherRefines(x, b, b', w);
    if FrameStep(x.env, w, w') {
      FrameStepInv(x.env, w, w');
    } else if FrameStep(x.env, Flip(w), Flip(w')) {
      FlipInv(x.env, w);
      FrameStepInv(x.env, Flip(w), Flip(w'));
      FlipInv(x.env, w');
      FlipRank(w);
      FlipRank(w');
    }
  }

  // ---- Runs over bytes ----

  ghost predicate ByteInitial(env: Env, b: ByteWorld) {
    Fresh(env, b.me) && Fresh(env, b.you) && b.out == Pipe([], 0, 0) && b.inn == Pipe([], 0, 0)
  }

  lemma InitialRefines(env: Env, k: Codec, b: ByteWorld) returns (w: World)
    requires ByteInitial(env, b)
    ensures Refines(k, b, w) && Inv(env, w)
  {
    w := World(b.me, b.you, [], []);
    InitialInv(env, w);
  }

  /** A run over bytes, from an initial state to b, through the states `past` in between. */
  ghost predicate ByteRun(x: Wiring, past: seq<ByteWorld>, b: ByteWorld) {
    if past == [] then ByteInitial(x.env, b)
    else ByteRun(x, past[..|past| - 1], past[|past| - 1]) && EitherStep(x, past[|past| - 1], b)
  }

  /** The bytes are those of whole frames and the beginning of one, and the session invariant
      holds of the frames. */
  ghost predicate Sound(x: Wiring, b: ByteWorld) {
    exists w :: Refines(x.k, b, w) && Inv(x.env, w)
  }

  lemma InitialSound(x: Wiring, b: ByteWorld)
    requires ByteInitial(x.env, b)
    ensures Sound(x, b)
  {
    var w := InitialRefines(x.env, x.k, b);
  }

  lemma StepSound(x: Wiring, b: ByteWorld, b': ByteWorld)
    requires Sound(x, b) && EitherStep(x, b, b')
    ensures Sound(x, b')
  {
    var w :| Refines(x.k, b, w) && Inv(x.env, w);
    var w' := StepInv(x, b, b', w);
  }

  /** Every state that a run over bytes gets to is sound. */
  lemma {:induction false} BytesInv(x: Wiring, past: seq<ByteWorld>, b: ByteWorld)
    requires ByteRun(x, past, b)
    ensures Sound(x, b)
  {
    if past == [] {
      InitialSound(x, b);
    } else {
      BytesInv(x, past[..|past| - 1], past[|past| - 1]);
      StepSound(x, past[|past| - 1], b);
    }
  }

  /** A session over byte streams that ends has merged both stores. */
  lemma BytesMerge(x: Wiring, past: seq<ByteWorld>, b: ByteWorld, id: ID)
    requires ByteRun(x, past, b) && Final(World(b.me, b.you, [], []))
    ensures var w := World(b.me, b.you, [], []);
            Merged(x.env, w, id) && Merged(x.env, Flip(w), id)
  {
    BytesInv(x, past, b);
    var w :| Refines(x.k, b, w) && Inv(x.env, w);
    FlipInv(x.env, w);
    FinalMerged(x.env, w, id);
    FinalMerged(x.env, Flip(w), id);
  }

  // ---- No session over bytes runs forever ----

  ghost predicate RunsOn(x: Wiring, run: nat -> ByteWorld, i: nat) {
    EitherStep(x, run(i), run(i + 1))
  }

  /** Every infinite sequence of states contains a pair that is not a step. */
  lemma BytesTerminate(x: Wiring, run: nat -> ByteWorld) returns (n: nat)
    requires ByteInitial(x.env, run(0))
    ensures !EitherStep(x, run(n), run(n + 1))
  {
    if m: nat :| !RunsOn(x, run, m) {
      n := m;
    } else {
      var w := InitialRefines(x.env, x.k, run(0));
      EndlessBytes(x, run, 0, run(0), w);
    }
  }

  lemma EndlessBytes(x: Wiring, run: nat -> ByteWorld, i: nat, b: ByteWorld, w: World)
    requires Refines(x.k, b, w) && Inv(x.env, w) && b == run(i) && forall m: nat :: RunsOn(x, run, m)
    ensures false
    decreases RankOf(w).stages, RankOf(w).sends, RankOf(w).frames, RankOf(w).unlisted, RankOf(w).onPage,
              ToWrite(x.k, b), ToPull(b)
  {
    assert RunsOn(x, run, i);
    var w' := StepInv(x, b, run(i + 1), w);
    EndlessBytes(x, run, i + 1, run(i + 1), w');
  }

  // ---- No deadlock over bytes ----

  ghost predicate ByteMoves(x: Wiring, b: ByteWorld) {
    exists b' :: EitherStep(x, b, b')
  }

  lemma StepMoves(x: Wiring, b: ByteWorld, b': ByteWorld)
    requires ByteStep(x, b, b')
    ensures ByteMoves(x, b) && ByteMoves(x, Turn(b))
  {
    assert EitherStep(x, b, b');
    assert Turn(Turn(b)) == b && Turn(Turn(b')) == b';
    assert EitherStep(x, Turn(b), Turn(b'));
  }

  lemma SpeaksNow(k: Codec, env: Env, p: Peer)
    requires Speaks(k, env, p) && FilterInv(env, p) && Writing(p).Some?
    ensures Encodable(k, Writing(p).value)
  {}

  /** A frame in flight can be read on, byte by byte, and taken when it is whole. */
  lemma ReadOn(x: Wiring, b: ByteWorld, w: World, a: Action, p': Peer)
    requires Refines(x.k, b, w) && w.inn != [] && Read(x.env, w.me, a, w.inn[0], p')
    ensures ByteMoves(x, b) && ByteMoves(x, Turn(b))
  {
    CarriesRead(x.k, b.inn, w.inn, Writing(w.you));
    ReadIsRead(x.env, w.me, a, w.inn[0], p');
    assert w.inn[0] in w.inn;
    if b.inn.got < |WireForm(x.k, w.inn[0])| {
      var b' := b.(inn := b.inn.(got := b.inn.got + 1));
      assert PullByte(b, b');
      StepMoves(x, b, b');
    } else {
      var b' := b.(me := p', inn := Pipe(b.inn.bytes[b.inn.got..], b.inn.sent, 0));
      assert TakeFrame(x, b, a, b');
      StepMoves(x, b, b');
    }
  }

  /** A frame at hand can be written on, or the reader can make room. */
  lemma WriteOn(x: Wiring, b: ByteWorld, w: World, a: Action, f: Frame, p': Peer)
    requires Refines(x.k, b, w) && w.out == [] && x.room >= 1 && Write(w.me, a, f, p') && Reading(w.you)
    requires Encodable(x.k, f)
    ensures ByteMoves(x, b)
  {
    WriteIsWrite(w.me, a, f, p');
    var form, out := WireForm(x.k, f), b.out;
    assert out.bytes == Part(x.k, out.sent, Some(f)) && |out.bytes| == out.sent;
    if InFlight(out) < x.room {
      if out.sent + 1 < |form| {
        var b' := b.(out := Pipe(out.bytes + form[out.sent..out.sent + 1], out.sent + 1, out.got));
        assert WritePart(x, b, b');
        StepMoves(x, b, b');
      } else {
        var b' := b.(me := p', out := Pipe(out.bytes + form[out.sent..], 0, out.got));
        assert WriteRest(x, b, a, b');
        StepMoves(x, b, b');
      }
    } else {
      CarriesRead(x.k, out, w.out, Writing(w.me));
      var b' := Turn(b).(inn := out.(got := out.got + 1));
      assert PullByte(Turn(b), b');
      StepMoves(x, Turn(b), b');
      assert Turn(Turn(b)) == b;
    }
  }

  lemma DoOn(x: Wiring, b: ByteWorld, w: World, a: Action, w': World)
    requires Refines(x.k, b, w) && Do(Config(x.env, 0), w, a, w')
    ensures ByteMoves(x, b) && ByteMoves(x, Turn(b))
  {
    if IsRead(a) {
      ReadOn(x, b, w, a, w'.me);
    } else {
      var b' := b.(me := w'.me);
      assert Think(x, b, a, b');
      StepMoves(x, b, b');
    }
  }

  lemma MeetOn(x: Wiring, b: ByteWorld, w: World, w': World)
    requires Refines(x.k, b, w) && FilterInv(x.env, w.me) && Speaks(x.k, x.env, w.me) && x.room >= 1
    requires Meet(Config(x.env, 0), w, w')
    ensures ByteMoves(x, b)
  {
    var a, mid, a' :| HandOver(Config(x.env, 0), w, a, mid, a', w');
    var f := mid.out[|w.out|];
    WriteIsWrite(w.me, a, f, mid.me);
    SpeaksNow(x.k, x.env, w.me);
    ReadIsRead(x.env, w.you, a', f, w'.you);
    WriteOn(x, b, w, a, f, mid.me);
  }

  /** In every state a run over byte streams gets to that is not final, it can go on, if its
      frames can be encoded, through pipes of any size. */
  lemma BytesProgress(x: Wiring, past: seq<ByteWorld>, b: ByteWorld)
    requires ByteRun(x, past, b) && !Final(World(b.me, b.you, [], [])) && x.room >= 1
    requires Speaks(x.k, x.env, b.me) && Speaks(x.k, x.env, b.you)
    ensures ByteMoves(x, b)
  {
    BytesInv(x, past, b);
    var w :| Refines(x.k, b, w) && Inv(x.env, w);
    SoundMoves(x, b, w);
  }

  lemma SoundMoves(x: Wiring, b: ByteWorld, w: World)
    requires Refines(x.k, b, w) && Inv(x.env, w) && !Final(w) && x.room >= 1
    requires Speaks(x.k, x.env, w.me) && Speaks(x.k, x.env, w.you)
    ensures ByteMoves(x, b)
  {
    var c := Config(x.env, 0);
    Progress(c, w);
    var w' :| Next(c, w, w');
    assert Turn(Turn(b)) == b;
    if a :| Do(c, w, a, w') {
      DoOn(x, b, w, a, w');
    } else if a :| Do(c, Flip(w), a, Flip(w')) {
      DoOn(x, Turn(b), Flip(w), a, Flip(w'));
    } else if Meet(c, w, w') {
      MeetOn(x, b, w, w');
    } else {
      MeetOn(x, Turn(b), Flip(w), Flip(w'));
      TurnMoves(x, b);
    }
  }

  lemma TurnMoves(x: Wiring, b: ByteWorld)
    requires ByteMoves(x, Turn(b))
    ensures ByteMoves(x, b)
  {
    var b' :| EitherStep(x, Turn(b), b');
    assert Turn(Turn(b)) == b && Turn(Turn(b')) == b';
    assert EitherStep(x, b, Turn(b'));
  }
}
