/** One endpoint against a peer that may send anything: exactly which streams let its sender go
    on, which make it give up, and which leave it waiting for the peer's filter for good. */
module SessionStall {
  import opened Types
  import opened Database
  import opened Session
  import opened SessionOutcome

  /** What runRecv can find on the wire: a well-formed frame; a frame of unknown type or a BLOCK
      of the wrong length; a BLOOM of the wrong length; or a length over the cap, or the end or
      failure of the stream. */
  datatype Item = Good(f: Frame) | Unknown | BadBloom | Broken

  /** runRecv returns without filling or closing the channel. A PEERS frame is unknown to it. */
  predicate Ends(i: Item) {
    i.Unknown? || (i.Good? && i.f.PeersFrame?)
  }

  /** The endpoint: `gone` says that runRecv has returned with an error, `closed` that it closed
      the channel, `quit` that runSend found it closed and returned. */
  datatype End = End(me: Peer, out: seq<Frame>, inn: seq<Item>, gone: bool, closed: bool, quit: bool)

  datatype Act = Send(a: Action) | Hear(a: Action) | HearBad | Quit

  ghost predicate Does(c: Config, e: End, act: Act, e': End) {
    match act
    case Send(a) =>
      && !e.quit && !IsRead(a)
      && if IsWrite(a) then
           |e.out| < c.cap && exists f :: Write(e.me, a, f, e'.me) && e' == e.(me := e'.me, out := e.out + [f])
         else Local(c.env, e.me, a, e'.me) && e' == e.(me := e'.me)
    case Hear(a) =>
      && !e.gone && e.inn != [] && e.inn[0].Good? && Read(c.env, e.me, a, e.inn[0].f, e'.me)
      && e' == e.(me := e'.me, inn := e.inn[1..])
    case HearBad =>
      && !e.gone && !e.me.recvDone && e.inn != [] && (!e.inn[0].Good? || Ends(e.inn[0]))
      && e' == e.(inn := e.inn[1..], gone := true,
                  closed := e.inn[0].BadBloom? || (e.inn[0].Broken? && !e.me.bloomSeen))
    case Quit =>
      && !e.quit && e.me.send.AwaitBloom? && e.me.mailbox == None && e.closed
      && e' == e.(quit := true)
  }

  /** The peer takes frames off the link whenever it likes. */
  predicate Drained(e: End, e': End) {
    |e'.out| < |e.out| && e' == e.(out := e'.out)
  }

  ghost predicate Step(c: Config, e: End, e': End) {
    (exists act :: Does(c, e, act, e')) || Drained(e, e')
  }

  /** A run of an endpoint against a peer that sends the items fs, all in all. That they arrive
      one by one makes no difference: what is not yet read has no effect. */
  ghost predicate Hears(c: Config, fs: seq<Item>, es: seq<End>) {
    && es != [] && Fresh(c.env, es[0].me) && es[0].inn == fs && !es[0].gone && !es[0].closed && !es[0].quit
    && forall i :: 0 <= i < |es| - 1 ==> StepAt(c, es, i)
  }

  ghost predicate StepAt(c: Config, es: seq<End>, i: nat) {
    i + 1 < |es| && Step(c, es[i], es[i + 1])
  }

  // ---- What decides ----

  /** The first item that is not a well-formed BLOCK, if any. */
  function Decisive(fs: seq<Item>): Option<Item> {
    if fs == [] then None
    else if fs[0].Good? && fs[0].f.BlockFrame? then Decisive(fs[1..])
    else Some(fs[0])
  }

  predicate BloomFirst(fs: seq<Item>) {
    Decisive(fs).Some? && Decisive(fs).value.Good? && Decisive(fs).value.f.BloomFrame?
  }

  predicate BreakFirst(fs: seq<Item>) {
    Decisive(fs).Some? && (Decisive(fs).value.BadBloom? || Decisive(fs).value.Broken?)
  }

  /** The decisive item, said with positions. */
  lemma {:induction false} DecisiveMeans(fs: seq<Item>)
    ensures Decisive(fs).Some? <==> exists i :: 0 <= i < |fs| && !IsBlock(fs[i])
    ensures Decisive(fs).Some? ==>
              exists i :: 0 <= i < |fs| && Decisive(fs).value == fs[i] && !IsBlock(fs[i]) && AllBlocks(fs[..i])
  {
    if fs != [] {
      if IsBlock(fs[0]) {
        DecisiveMeans(fs[1..]);
        assert forall i :: 0 <= i < |fs| - 1 ==> fs[1..][i] == fs[i + 1];
        if i :| 0 <= i < |fs| && !IsBlock(fs[i]) { assert !IsBlock(fs[1..][i - 1]); }
        if Decisive(fs[1..]).Some? {
          var i :| && 0 <= i < |fs[1..]| && Decisive(fs[1..]).value == fs[1..][i]
                   && !IsBlock(fs[1..][i]) && AllBlocks(fs[1..][..i]);
          assert fs[..i + 1] == [fs[0]] + fs[1..][..i];
        }
      } else {
        assert AllBlocks(fs[..0]);
      }
    }
  }

  predicate IsBlock(i: Item) {
    i.Good? && i.f.BlockFrame?
  }

  predicate AllBlocks(fs: seq<Item>) {
    forall i :: i in fs ==> IsBlock(i)
  }

  // ---- What every run keeps ----

  predicate Streams(e: End) {
    Phase(e.me.send) <= 2
  }

  /** What the endpoint knows of the stream, from what it has read. */
  predicate StreamInv(fs: seq<Item>, e: End) {
    && (e.quit ==> e.closed && !e.me.bloomSeen)
    && if e.me.bloomSeen then BloomFirst(fs) && (Streams(e) || e.me.mailbox.Some?)
       else
         && !Streams(e) && e.me.mailbox == None
         && (e.closed ==> e.gone)
         && (e.gone ==> !BloomFirst(fs) && (e.closed <==> BreakFirst(fs)))
         && (e.me.recvDone ==> !BloomFirst(fs) && !BreakFirst(fs) && !e.gone)
         && (!e.gone && !e.me.recvDone ==> Decisive(e.inn) == Decisive(fs))
  }

  lemma SendKeeps(c: Config, fs: seq<Item>, e: End, a: Action, e': End)
    requires StreamInv(fs, e) && Does(c, e, Send(a), e')
    ensures StreamInv(fs, e')
  {
    if IsWrite(a) {
      var f :| Write(e.me, a, f, e'.me) && e' == e.(me := e'.me, out := e.out + [f]);
      WriteKeepsStream(e.me, a, f, e'.me);
    } else {
      LocalKeepsStream(c.env, e.me, a, e'.me);
    }
  }

  lemma WriteKeepsStream(p: Peer, a: Action, f: Frame, p': Peer)
    requires Write(p, a, f, p')
    ensures p'.bloomSeen == p.bloomSeen && p'.mailbox == p.mailbox && p'.recvDone == p.recvDone
    ensures Phase(p'.send) <= 2 <==> Phase(p.send) <= 2
  {}

  lemma LocalKeepsStream(env: Env, p: Peer, a: Action, p': Peer)
    requires Local(env, p, a, p')
    ensures p'.bloomSeen == p.bloomSeen && p'.recvDone == p.recvDone
    ensures p'.mailbox != p.mailbox ==> Phase(p'.send) <= 2 && p.mailbox.Some?
    ensures Phase(p.send) <= 2 ==> Phase(p'.send) <= 2
    ensures Phase(p'.send) <= 2 ==> Phase(p.send) <= 2 || p.mailbox.Some?
  {}

  lemma HearKeeps(c: Config, fs: seq<Item>, e: End, a: Action, e': End)
    requires StreamInv(fs, e) && Does(c, e, Hear(a), e')
    ensures StreamInv(fs, e')
  {}

  lemma HearBadKeeps(c: Config, fs: seq<Item>, e: End, e': End)
    requires StreamInv(fs, e) && Does(c, e, HearBad, e')
    ensures StreamInv(fs, e')
  {}

  lemma StepKeeps(c: Config, fs: seq<Item>, e: End, e': End)
    requires StreamInv(fs, e) && Step(c, e, e')
    ensures StreamInv(fs, e')
  {
    if !Drained(e, e') {
      var act :| Does(c, e, act, e');
      match act
      case Send(a) => SendKeeps(c, fs, e, a, e');
      case Hear(a) => HearKeeps(c, fs, e, a, e');
      case HearBad => HearBadKeeps(c, fs, e, e');
      case Quit =>
    }
  }

  lemma {:induction false} RunKeeps(c: Config, fs: seq<Item>, es: seq<End>, i: nat)
    requires Hears(c, fs, es) && i < |es|
    ensures StreamInv(fs, es[i])
  {
    if i > 0 {
      RunKeeps(c, fs, es, i - 1);
      assert StepAt(c, es, i - 1);
      StepKeeps(c, fs, es[i - 1], es[i]);
    }
  }

  /** Only a stream whose decisive item is a BLOOM ever gets the sender to stream blocks, and
      only one whose decisive item closes the channel ever makes it give up. */
  lemma OnlyIfDecided(c: Config, fs: seq<Item>, es: seq<End>, i: nat)
    requires Hears(c, fs, es) && i < |es|
    ensures Streams(es[i]) ==> BloomFirst(fs)
    ensures es[i].quit ==> BreakFirst(fs)
  {
    RunKeeps(c, fs, es, i);
  }

  // ---- Where it comes to rest ----

  ghost predicate CanAct(c: Config, e: End) {
    exists act, e' :: Does(c, e, act, e')
  }

  /** The endpoint has no step left, though its link has room. */
  ghost predicate AtRest(c: Config, e: End) {
    |e.out| < c.cap && !CanAct(c, e)
  }

  lemma CanHear(c: Config, e: End)
    requires !e.gone && !e.me.recvDone && e.me.mailbox == None && Decisive(e.inn).Some?
    ensures CanAct(c, e)
  {
    var me, i, rest := e.me, e.inn[0], e.inn[1..];
    if !i.Good? || Ends(i) {
      assert Does(c, e, HearBad, e.(inn := rest, gone := true, closed := i.BadBloom? || (i.Broken? && !me.bloomSeen)));
    } else {
      match i.f
      case BloomFrame(ones) =>
        assert Does(c, e, Hear(Receive(me.now)), e.(me := me.(mailbox := Some(ones), bloomSeen := true), inn := rest));
      case BlockFrame(stamp, payload) =>
        var me' := me.(db := Stored(c.env, me, me.now, stamp, payload), now := me.now);
        assert Does(c, e, Hear(Receive(me.now)), e.(me := me', inn := rest));
      case DoneFrame =>
        assert Does(c, e, Hear(Receive(me.now)), e.(me := me.(recvDone := true), inn := rest));
    }
  }

  lemma CanSendOn(c: Config, e: End)
    requires !Streams(e) && !e.quit && |e.out| < c.cap && (e.me.send.AwaitBloom? ==> e.me.mailbox.Some?)
    ensures CanAct(c, e)
  {
    var a, f, p' := SenderActs(c.env, e.me);
    if f.Some? {
      assert Does(c, e, Send(a), e.(me := p', out := e.out + [f.value]));
    } else {
      assert Does(c, e, Send(a), e.(me := p'));
    }
  }

  lemma CanQuit(c: Config, e: End)
    requires !e.quit && e.me.send.AwaitBloom? && e.me.mailbox == None && e.closed
    ensures CanAct(c, e)
  {
    assert Does(c, e, Quit, e.(quit := true));
  }

  /** Main theorem. When an endpoint has done all it can, its sender has gone on to the blocks
      if and only if the first item that is not a BLOCK is a BLOOM; it has given up if and only
      if that item is a BLOOM of the wrong length, a length over the cap, or the end of the
      stream; in every other case it is waiting for the peer's filter. */
  lemma Outcome(c: Config, fs: seq<Item>, es: seq<End>)
    requires Hears(c, fs, es) && AtRest(c, es[|es| - 1])
    ensures var e := es[|es| - 1];
            && (Streams(e) <==> BloomFirst(fs))
            && (e.quit <==> BreakFirst(fs))
            && (!BloomFirst(fs) && !BreakFirst(fs) ==> e.me.send.AwaitBloom? && e.me.mailbox == None && !e.closed)
  {
    var e := es[|es| - 1];
    RunKeeps(c, fs, es, |es| - 1);
    if !Streams(e) && !e.quit {
      if !(e.me.send.AwaitBloom? && e.me.mailbox == None) {
        CanSendOn(c, e);
      } else if e.closed {
        CanQuit(c, e);
      } else if !e.gone && !e.me.recvDone && Decisive(e.inn).Some? {
        CanHear(c, e);
      }
    }
  }

  lemma {:induction false} DecisiveAt(fs: seq<Item>, n: nat)
    requires n <= |fs| && forall j :: 0 <= j < n ==> fs[j].Good? && fs[j].f.BlockFrame?
    requires n < |fs| ==> !(fs[n].Good? && fs[n].f.BlockFrame?)
    ensures Decisive(fs) == if n < |fs| then Some(fs[n]) else None
    decreases n
  {
    if n > 0 { DecisiveAt(fs[1..], n - 1); }
  }

  /** The same by position: n BLOCKs, and then the end of the items or one that is no BLOCK. */
  lemma OutcomeAt(c: Config, fs: seq<Item>, es: seq<End>, n: nat)
    requires Hears(c, fs, es) && AtRest(c, es[|es| - 1])
    requires n <= |fs| && forall j :: 0 <= j < n ==> fs[j].Good? && fs[j].f.BlockFrame?
    requires n < |fs| ==> !(fs[n].Good? && fs[n].f.BlockFrame?)
    ensures var e := es[|es| - 1];
            if n < |fs| && fs[n].Good? && fs[n].f.BloomFrame? then
              && (e.me.send.ListPage? || e.me.send.SendPage? || e.me.send.WriteBlock? || e.me.send.WriteDone? ||
                  e.me.send.Sent?)
              && !e.quit
            else if n < |fs| && (fs[n].BadBloom? || fs[n].Broken?) then e.quit
            else e.me.send.AwaitBloom? && e.me.mailbox == None && !e.quit
  {
    DecisiveAt(fs, n);
    Outcome(c, fs, es);
    RunKeeps(c, fs, es, |es| - 1);
  }

  // ---- The wait is bounded ----

  /** Items to read, then phases, then entries to list: what is left before the decision. */
  datatype Left = Left(items: nat, phase: nat, unlisted: nat)

  ghost function LeftOf(e: End): Left {
    Left(|e.inn|, Phase(e.me.send) + if e.quit then 0 else 1,
         if e.me.send.Building? then |KeysAhead(e.me.db.trav, e.me.send.cur)| else 0)
  }

  predicate Less(a: Left, b: Left) {
    || a.items < b.items
    || (a.items == b.items && a.phase < b.phase)
    || (a.items == b.items && a.phase == b.phase && a.unlisted < b.unlisted)
  }

  /** Every step of an endpoint that is not streaming yet brings it nearer to rest. */
  lemma WaitShortens(c: Config, e: End, act: Act, e': End)
    requires !Streams(e) && Does(c, e, act, e')
    ensures Less(LeftOf(e'), LeftOf(e))
  {
    if act.Send? && act.a.Build? && act.a.more.Some? {
      PageShrinks(e.me.db.trav, e.me.send.cur, BUILD_LIMIT, act.a.page, act.a.more);
    }
  }

  // ---- The input that stalls ----

  /** The sender waits for a filter that nobody will put in the channel. */
  predicate Stalled(e: End) {
    e.me.send.AwaitBloom? && e.me.mailbox == None && !e.closed && !e.quit && (e.gone || e.me.recvDone)
  }

  lemma NoAct(c: Config, e: End, act: Act, e': End)
    requires Stalled(e)
    ensures !Does(c, e, act, e')
  {}

  lemma StalledRests(c: Config, e: End)
    requires Stalled(e)
    ensures !CanAct(c, e)
  {
    forall act, e' ensures !Does(c, e, act, e') { NoAct(c, e, act, e'); }
  }

  lemma StalledStep(c: Config, e: End, e': End)
    requires Stalled(e) && Step(c, e, e')
    ensures e' == e.(out := e'.out)
  {
    StalledRests(c, e);
  }

  /** A run of an endpoint with an empty store against a peer that sends DONE at once. */
  lemma DoneFirst(c: Config, e: End) returns (es: seq<End>)
    requires c.cap >= 1 && Fresh(c.env, e.me) && e.me.start == EMPTY && e.inn == [Good(DoneFrame)] && e.out == []
    requires !e.gone && !e.closed && !e.quit
    ensures Hears(c, [Good(DoneFrame)], es) && es[0] == e && Stalled(es[|es| - 1]) && AtRest(c, es[|es| - 1])
  {
    var e1 := e.(me := e.me.(send := WriteBloom, filter := {}));
    var e2 := e1.(me := e1.me.(send := AwaitBloom), out := [BloomFrame({})]);
    var e3 := e2.(me := e2.me.(recvDone := true), inn := []);
    var e4 := e3.(out := []);
    BuildsEmpty(c, e, e1);
    SendsEmpty(c, e1, e2);
    HearsDone(c, e2, e3);
    es := [e, e1, e2, e3, e4];
    assert Drained(e3, e4);
    assert StepAt(c, es, 0) && StepAt(c, es, 1) && StepAt(c, es, 2) && StepAt(c, es, 3);
    StalledRests(c, e4);
  }

  lemma BuildsEmpty(c: Config, e: End, e': End)
    requires e.me.send == Building(None, {}) && e.me.db == EMPTY && !e.quit
    requires e' == e.(me := e.me.(send := WriteBloom, filter := {}))
    ensures Step(c, e, e')
  {
    assert Does(c, e, Send(Build([], None)), e');
  }

  lemma SendsEmpty(c: Config, e: End, e': End)
    requires e.me.send == WriteBloom && e.me.filter == {} && e.out == [] && c.cap >= 1 && !e.quit
    requires e' == e.(me := e.me.(send := AwaitBloom), out := [BloomFrame({})])
    ensures Step(c, e, e')
  {
    assert Write(e.me, PutBloom, BloomFrame({}), e'.me) && e' == e.(me := e'.me, out := e.out + [BloomFrame({})]);
    assert Does(c, e, Send(PutBloom), e');
  }

  lemma HearsDone(c: Config, e: End, e': End)
    requires !e.gone && !e.me.recvDone && e.inn == [Good(DoneFrame)]
    requires e' == e.(me := e.me.(recvDone := true), inn := [])
    ensures Step(c, e, e')
  {
    assert e.inn[1..] == [];
    assert Does(c, e, Hear(Receive(e.me.now)), e');
  }

  /** From such a state on, however the run continues and whatever the peer sends, nothing
      changes for the endpoint. */
  lemma {:induction false} StalledForGood(c: Config, fs: seq<Item>, es: seq<End>, i: nat, j: nat)
    requires Hears(c, fs, es) && i <= j < |es| && Stalled(es[i])
    ensures es[j] == es[i].(out := es[j].out)
  {
    if i < j {
      StalledForGood(c, fs, es, i, j - 1);
      assert StepAt(c, es, j - 1);
      StalledStep(c, es[j - 1], es[j]);
    }
  }
}
