/** Client.Scrape: an incremental reader with a checkpoint, while the store changes under it. */
module Scrape {
  import opened Types
  import opened Database
  import opened Listing
  import opened Badger
  import StoreRuns

  /** What trying every key on a payload finds: nothing, a proof-of-work gift (applied and
      dropped), or a message to keep. */
  datatype Opened = NotMine | Gift | Message(content: seq<Byte>)

  datatype Row = Row(id: ID, content: seq<Byte>)

  /** `open` stands for the fixed set of identity and channel keys; `unreadable` are the ids whose
      block the store fails to read. */
  datatype Config = Config(store: StoreRuns.Config, open: Payload -> Opened, unreadable: set<ID>)

  const SCRAPE_PAGE: nat := 100

  predicate HasRow(rows: seq<Row>, id: ID) {
    exists i :: 0 <= i < |rows| && rows[i].id == id
  }

  /** INSERT OR IGNORE on the block id. */
  function SaveMessage(rows: seq<Row>, id: ID, content: seq<Byte>): seq<Row> {
    if HasRow(rows, id) then rows else rows + [Row(id, content)]
  }

  function GetCheckpoint(stored: nat): int {
    if stored == 0 then ZERO_TIME else stored
  }

  /** Where a Scrape call stands. */
  datatype Pc =
    | Idle
    | NeedPage(token: Option<TravKey>)
    | OnPage(refs: seq<BlockRef>, next: Option<TravKey>)

  /** A Put that has read the clock, at `at`, and not committed yet. */
  datatype PutCall = PutCall(stamp: Stamp, payload: Payload, tag: Tag, at: nat)

  /** `tried` records which stored payloads have been tried under which id, `before` how many
      rows there were when the current call began. */
  datatype State = State(
    store: StoreRuns.State, pending: multiset<PutCall>,
    checkpoint: nat, rows: seq<Row>, tried: set<(ID, Payload)>,
    pc: Pc, since: int, scanStart: nat, found: nat, before: nat)

  datatype Event =
    | StampPut(stamp: Stamp, payload: Payload, tag: Tag)
    | CommitPut(p: PutCall, victims: set<ID>)
    | StoreEvent(e: StoreRuns.Event)
    | Begin
    | Page(page: seq<BlockRef>, more: Option<TravKey>)
    | TryRef
    | EndPage
    | Abort

  ghost predicate Next(c: Config, s: State, e: Event, s': State) {
    match e
    case StampPut(stamp, payload, tag) =>
      s' == s.(pending := s.pending + multiset{PutCall(stamp, payload, tag, s.store.now)})
    case CommitPut(p, victims) =>
      && p in s.pending
      && StoreRuns.Next(c.store, s.store, StoreRuns.Put(p.stamp, p.payload, p.tag, p.at, victims), s'.store)
      && s' == s.(store := s'.store, pending := s.pending - multiset{p})
    case StoreEvent(ev) =>
      !ev.Put? && StoreRuns.Next(c.store, s.store, ev, s'.store) && s' == s.(store := s'.store)
    case Begin =>
      && s.pc.Idle?
      && s' == s.(pc := NeedPage(None), since := GetCheckpoint(s.checkpoint), scanStart := s.store.now,
                  found := 0, before := |s.rows|)
    case Page(page, more) =>
      && s.pc.NeedPage? && IsPage(s.store.db.trav, Query(0, s.since), s.pc.token, SCRAPE_PAGE, page, more)
      && s' == s.(pc := OnPage(page, more))
    case TryRef =>
      && s.pc.OnPage? && s.pc.refs != []
      && var id := s.pc.refs[0].key.id;
         var rest := OnPage(s.pc.refs[1..], s.pc.next);
         if id !in s.store.db.blocks || id in c.unreadable then s' == s.(pc := rest) else
           var payload := s.store.db.blocks[id].payload;
           var tried := s.tried + {(id, payload)};
           var o := c.open(payload);
           if o.Message? then
             s' == s.(pc := rest, tried := tried, rows := SaveMessage(s.rows, id, o.content),
                      found := if HasRow(s.rows, id) then s.found else s.found + 1)
           else s' == s.(pc := rest, tried := tried)
    case EndPage =>
      && s.pc.OnPage? && s.pc.refs == []
      && s' == if s.pc.next == None then s.(pc := Idle, checkpoint := s.scanStart) else s.(pc := NeedPage(s.pc.next))
    case Abort =>
      !s.pc.Idle? && s' == s.(pc := Idle)
  }

  ghost predicate Initial(c: Config, s: State) {
    && RepInv(c.store.env, s.store.db, s.store.now) && s.pending == multiset{}
    && s.checkpoint == 0 && s.rows == [] && s.tried == {} && s.pc == Idle
  }

  ghost predicate StepAt(c: Config, ss: seq<State>, es: seq<Event>, i: nat) {
    i < |es| && i + 1 < |ss| && Next(c, ss[i], es[i], ss[i + 1])
  }

  ghost predicate Run(c: Config, ss: seq<State>, es: seq<Event>) {
    |ss| == |es| + 1 && Initial(c, ss[0]) && forall i :: 0 <= i < |es| ==> StepAt(c, ss, es, i)
  }

  // ---- What every run keeps ----

  /** The content of a row is what opening a payload tried under its id gave. */
  ghost predicate Opens(c: Config, tried: set<(ID, Payload)>, row: Row) {
    exists p :: (row.id, p) in tried && c.open(p) == Message(row.content)
  }

  ghost predicate TriedOk(c: Config, s: State) {
    && (forall id, p :: (id, p) in s.tried ==> id !in c.unreadable && id == c.store.env.computeID(p))
    && (forall k :: 0 <= k < |s.rows| ==> Opens(c, s.tried, s.rows[k]))
  }

  ghost predicate RowsOk(c: Config, s: State) {
    && (forall i, j :: 0 <= i < j < |s.rows| ==> s.rows[i].id != s.rows[j].id)
    && (forall id, p :: (id, p) in s.tried && c.open(p).Message? ==> HasRow(s.rows, id))
    && (!s.pc.Idle? ==> |s.rows| == s.before + s.found)
  }

  predicate ClockOk(s: State) {
    && (forall p :: p in s.pending ==> p.at <= s.store.now)
    && s.checkpoint <= s.store.now
    && (!s.pc.Idle? ==> s.checkpoint <= s.scanStart <= s.store.now && s.since == GetCheckpoint(s.checkpoint))
  }

  ghost predicate Inv(c: Config, s: State) {
    RepInv(c.store.env, s.store.db, s.store.now) && ClockOk(s) && RowsOk(c, s) && TriedOk(c, s)
  }

  /** Trying a listed block adds a row exactly if the block can be read, holds a message, and has
      no row yet; the row carries the message. */
  lemma TryRefAdds(c: Config, s: State, s': State)
    requires Next(c, s, TryRef, s')
    ensures var id := s.pc.refs[0].key.id;
            if && id in s.store.db.blocks && id !in c.unreadable && c.open(s.store.db.blocks[id].payload).Message?
               && forall k :: 0 <= k < |s.rows| ==> s.rows[k].id != id
            then s'.rows == s.rows + [Row(id, c.open(s.store.db.blocks[id].payload).content)]
            else s'.rows == s.rows
  {}

  lemma OpensMore(c: Config, tried: set<(ID, Payload)>, more: set<(ID, Payload)>, row: Row)
    requires Opens(c, tried, row)
    ensures Opens(c, tried + more, row)
  {}

  lemma TriedRows(c: Config, s: State, s': State)
    requires RepInv(c.store.env, s.store.db, s.store.now) && TriedOk(c, s) && Next(c, s, TryRef, s')
    ensures TriedOk(c, s')
  {
    TryRefAdds(c, s, s');
    var id := s.pc.refs[0].key.id;
    if id in s.store.db.blocks && id !in c.unreadable {
      var p := s.store.db.blocks[id].payload;
      assert Genuine(c.store.env, id, s.store.db.blocks[id], s.store.now);
      forall k | 0 <= k < |s'.rows| ensures Opens(c, s'.tried, s'.rows[k]) {
        if k < |s.rows| {
          OpensMore(c, s.tried, {(id, p)}, s.rows[k]);
        } else {
          assert (s'.rows[k].id, p) in s'.tried;
        }
      }
    }
  }

  lemma SavedRows(c: Config, s: State, s': State)
    requires RowsOk(c, s) && Next(c, s, TryRef, s')
    ensures RowsOk(c, s')
  {
    forall id | HasRow(s.rows, id) ensures HasRow(s'.rows, id) {
      var i :| 0 <= i < |s.rows| && s.rows[i].id == id;
      assert s'.rows[i].id == id;
    }
    var id := s.pc.refs[0].key.id;
    if s'.rows != s.rows { assert s'.rows[|s.rows|].id == id; }
  }

  lemma NextInv(c: Config, s: State, e: Event, s': State)
    requires Inv(c, s) && Next(c, s, e, s')
    ensures Inv(c, s')
  {
    match e
    case CommitPut(p, victims) =>
      StoreRuns.NextKeepsRep(c.store, s.store, StoreRuns.Put(p.stamp, p.payload, p.tag, p.at, victims), s'.store);
    case StoreEvent(ev) =>
      StoreRuns.NextKeepsRep(c.store, s.store, ev, s'.store);
    case TryRef =>
      SavedRows(c, s, s');
      TriedRows(c, s, s');
    case _ =>
  }

  /** Clocks, rows and the store are in order in every state of every run. */
  lemma {:induction false} RunInv(c: Config, ss: seq<State>, es: seq<Event>, i: nat)
    requires Run(c, ss, es) && i < |ss|
    ensures Inv(c, ss[i])
  {
    if i > 0 {
      RunInv(c, ss, es, i - 1);
      assert StepAt(c, ss, es, i - 1);
      NextInv(c, ss[i - 1], es[i - 1], ss[i]);
    }
  }

  /** Rows stay as they were saved. */
  lemma {:induction false} RowsStay(c: Config, ss: seq<State>, es: seq<Event>, i: nat, j: nat)
    requires Run(c, ss, es) && i <= j < |ss|
    ensures ss[i].rows <= ss[j].rows
    decreases j
  {
    if i < j {
      RowsStay(c, ss, es, i, j - 1);
      assert StepAt(c, ss, es, j - 1);
      RowsStep(c, ss[j - 1], es[j - 1], ss[j]);
    }
  }

  lemma RowsStep(c: Config, s: State, e: Event, s': State)
    requires Next(c, s, e, s')
    ensures s.rows <= s'.rows && (s'.rows != s.rows ==> e.TryRef?)
  {}

  /** In every state of every run each row goes back to the try of a listed, readable block: it
      carries the id of that block, and what opening its payload gave. */
  lemma {:induction false} RowOrigin(c: Config, ss: seq<State>, es: seq<Event>, i: nat, k: nat) returns (m: nat)
    requires Run(c, ss, es) && i < |ss| && k < |ss[i].rows|
    ensures m < i && es[m].TryRef? && ss[m].pc.OnPage? && ss[m].pc.refs != []
    ensures var row, blocks := ss[i].rows[k], ss[m].store.db.blocks;
            && row.id == ss[m].pc.refs[0].key.id && row.id in blocks && row.id !in c.unreadable
            && c.open(blocks[row.id].payload) == Message(row.content)
    decreases i
  {
    assert StepAt(c, ss, es, i - 1);
    RowsStep(c, ss[i - 1], es[i - 1], ss[i]);
    if k < |ss[i - 1].rows| {
      m := RowOrigin(c, ss, es, i - 1, k);
    } else {
      m := i - 1;
      TryRefAdds(c, ss[m], ss[i]);
    }
  }

  /** A scrape lists only what the store holds since the checkpoint. */
  lemma ListsSince(c: Config, ss: seq<State>, es: seq<Event>, i: nat, r: BlockRef)
    requires Run(c, ss, es) && i < |es| && es[i].Page? && r in es[i].page
    ensures r.key.createdAt >= ss[i].checkpoint && r.key.id in ss[i].store.db.blocks
  {
    RunInv(c, ss, es, i);
    assert StepAt(c, ss, es, i);
    assert Wanted(ss[i].store.db.trav, Query(0, ss[i].since), ss[i].pc.token, r.key);
  }

  // ---- What a scan has yet to reach ----

  predicate Live(s: State, id: ID, b: Block) {
    id in s.store.db.blocks && s.store.db.blocks[id] == b
  }

  ghost predicate ToCome(pc: Pc, r: BlockRef) {
    match pc
    case Idle => false
    case NeedPage(token) => After(token, r.key)
    case OnPage(refs, next) => r in refs || (next.Some? && KeyLess(next.value, r.key))
  }

  predicate Tried(s: State, id: ID, b: Block) {
    (id, b.payload) in s.tried
  }

  /** The block has been tried or cannot be read, or it is not older than the checkpoint and,
      while a scan runs, still to come in it. */
  ghost predicate Due(c: Config, s: State, id: ID, b: Block) {
    || Tried(s, id, b)
    || id in c.unreadable
    || (s.checkpoint <= b.createdAt && (!s.pc.Idle? ==> ToCome(s.pc, RefOf(id, b))))
  }

  lemma PageKeepsDue(c: Config, s: State, e: Event, s': State, id: ID, b: Block)
    requires Inv(c, s) && e.Page? && Next(c, s, e, s') && Live(s, id, b) && Due(c, s, id, b)
    ensures Due(c, s', id, b)
  {
    if !Tried(s, id, b) && id !in c.unreadable {
      PageCovers(s.store.db.trav, Query(0, s.since), s.pc.token, SCRAPE_PAGE, e.page, e.more, KeyOf(id, b));
    }
  }

  lemma TryKeepsDue(c: Config, s: State, s': State, id: ID, b: Block)
    requires Next(c, s, TryRef, s') && Live(s, id, b) && Due(c, s, id, b)
    ensures Due(c, s', id, b)
  {
    assert s.pc.refs == [s.pc.refs[0]] + s.pc.refs[1..];
  }

  /** A block that stays as it is and is due stays due. */
  lemma StaysDue(c: Config, s: State, e: Event, s': State, id: ID, b: Block)
    requires Inv(c, s) && Next(c, s, e, s') && Live(s, id, b) && Due(c, s, id, b)
    ensures Due(c, s', id, b)
  {
    match e
    case Page(_, _) => PageKeepsDue(c, s, e, s', id, b);
    case TryRef => TryKeepsDue(c, s, s', id, b);
    case _ =>
  }

  // ---- When clock reading and commit go together ----

  /** The block is due, or too young for the scan that is running. */
  ghost predicate Covered(c: Config, s: State, id: ID, b: Block) {
    Due(c, s, id, b) || (s.checkpoint <= b.createdAt && !s.pc.Idle? && s.scanStart <= b.createdAt)
  }

  ghost predicate AllCovered(c: Config, s: State) {
    forall id :: id in s.store.db.blocks ==> Covered(c, s, id, s.store.db.blocks[id])
  }

  /** Every commit carries the time it is made at. */
  ghost predicate Prompt(s: State, e: Event) {
    e.CommitPut? ==> e.p.at == s.store.now
  }

  /** A block of the new store is an unchanged one, or was just committed. */
  lemma OldOrNew(c: StoreRuns.Config, s: StoreRuns.State, e: StoreRuns.Event, s': StoreRuns.State, id: ID)
    requires StoreRuns.Next(c, s, e, s') && id in s'.db.blocks
    ensures || (id in s.db.blocks && s'.db.blocks[id] == s.db.blocks[id])
            || (e.Put? && s'.db.blocks[id].createdAt == e.at)
  {
    if e.Put? { CommitWrites(c.env, s.db, s.now, e.at, e.stamp, e.payload, e.tag, id); }
  }

  lemma StaysCovered(c: Config, s: State, e: Event, s': State, id: ID, b: Block)
    requires Inv(c, s) && Next(c, s, e, s') && Live(s, id, b) && Covered(c, s, id, b)
    ensures Covered(c, s', id, b)
  {
    if Due(c, s, id, b) { StaysDue(c, s, e, s', id, b); }
  }

  lemma CommitCovered(c: Config, s: State, e: Event, s': State, id: ID)
    requires Inv(c, s) && AllCovered(c, s) && e.CommitPut? && e.p.at == s.store.now && Next(c, s, e, s')
    requires id in s'.store.db.blocks
    ensures Covered(c, s', id, s'.store.db.blocks[id])
  {
    OldOrNew(c.store, s.store, StoreRuns.Put(e.p.stamp, e.p.payload, e.p.tag, e.p.at, e.victims), s'.store, id);
    if Live(s, id, s'.store.db.blocks[id]) { StaysCovered(c, s, e, s', id, s'.store.db.blocks[id]); }
  }

  lemma NextCovered(c: Config, s: State, e: Event, s': State)
    requires Inv(c, s) && AllCovered(c, s) && Prompt(s, e) && Next(c, s, e, s')
    ensures AllCovered(c, s')
  {
    forall id | id in s'.store.db.blocks ensures Covered(c, s', id, s'.store.db.blocks[id]) {
      if e.CommitPut? {
        CommitCovered(c, s, e, s', id);
      } else {
        if e.StoreEvent? { OldOrNew(c.store, s.store, e.e, s'.store, id); }
        StaysCovered(c, s, e, s', id, s'.store.db.blocks[id]);
      }
    }
  }

  lemma {:induction false} RunCovered(c: Config, ss: seq<State>, es: seq<Event>, i: nat)
    requires Run(c, ss, es) && i < |ss| && forall j :: 0 <= j < |es| ==> Prompt(ss[j], es[j])
    ensures AllCovered(c, ss[i])
  {
    if i > 0 {
      RunCovered(c, ss, es, i - 1);
      RunInv(c, ss, es, i - 1);
      assert StepAt(c, ss, es, i - 1);
      NextCovered(c, ss[i - 1], es[i - 1], ss[i]);
    }
  }

  /** Over every run of Puts, Evicts, ticks, and completed or aborted scrapes in which a Put
      reads the clock as it commits, a live block older than the checkpoint has been tried if
      and only if it can be read, and then, if it holds a message for this client, there is a
      row for it. */
  lemma NothingMissed(c: Config, ss: seq<State>, es: seq<Event>, i: nat, id: ID)
    requires Run(c, ss, es) && i < |ss| && forall j :: 0 <= j < |es| ==> Prompt(ss[j], es[j])
    requires id in ss[i].store.db.blocks && ss[i].store.db.blocks[id].createdAt < ss[i].checkpoint
    ensures Tried(ss[i], id, ss[i].store.db.blocks[id]) <==> id !in c.unreadable
    ensures id !in c.unreadable && c.open(ss[i].store.db.blocks[id].payload).Message? ==>
              RowFor(c, ss[i].rows, id, ss[i].store.db.blocks[id].payload)
  {
    RunCovered(c, ss, es, i);
    RunInv(c, ss, es, i);
    var b := ss[i].store.db.blocks[id];
    assert Covered(c, ss[i], id, b);
    if id !in c.unreadable && c.open(b.payload).Message? { TriedHasRow(c, ss[i], id, b.payload); }
  }

  /** There is a row for id, and it carries what is in the payload, unless another payload has the
      same id. */
  ghost predicate RowFor(c: Config, rows: seq<Row>, id: ID, payload: Payload) {
    exists k :: 0 <= k < |rows| && rows[k].id == id &&
      ((forall p :: c.store.env.computeID(p) == id ==> p == payload) ==> c.open(payload) == Message(rows[k].content))
  }

  lemma TriedHasRow(c: Config, s: State, id: ID, payload: Payload)
    requires RowsOk(c, s) && TriedOk(c, s) && (id, payload) in s.tried && c.open(payload).Message?
    ensures RowFor(c, s.rows, id, payload)
  {
    assert HasRow(s.rows, id);
    var k :| 0 <= k < |s.rows| && s.rows[k].id == id;
    assert Opens(c, s.tried, s.rows[k]);
  }

  // ---- In general: exactly the blocks that a page passed after their commit ----

  /** Reading this page takes the scan past key k. */
  predicate Passes(s: State, e: Event, k: TravKey) {
    && e.Page? && s.pc.NeedPage? && s.since <= k.createdAt && After(s.pc.token, k)
    && (e.more.Some? ==> !KeyLess(e.more.value, k))
  }

  /** Some page read in states a to n took a scan past k. */
  ghost predicate PassedIn(ss: seq<State>, es: seq<Event>, k: TravKey, a: nat, n: nat) {
    exists m :: a <= m < n && m < |ss| && m < |es| && Passes(ss[m], es[m], k)
  }

  /** The block is live and unchanged in states a to n. */
  ghost predicate LiveFrom(ss: seq<State>, id: ID, b: Block, a: nat, n: nat) {
    forall i :: a <= i <= n && i < |ss| ==> Live(ss[i], id, b)
  }

  lemma PassMakesDue(c: Config, s: State, e: Event, s': State, id: ID, b: Block)
    requires Inv(c, s) && Next(c, s, e, s') && Live(s, id, b) && Passes(s, e, KeyOf(id, b))
    ensures Due(c, s', id, b)
  {
    PageCovers(s.store.db.trav, Query(0, s.since), s.pc.token, SCRAPE_PAGE, e.page, e.more, KeyOf(id, b));
  }

  lemma DueNext(c: Config, s: State, e: Event, s': State, id: ID, b: Block)
    requires Inv(c, s) && Next(c, s, e, s') && Live(s, id, b) && (Due(c, s, id, b) || Passes(s, e, KeyOf(id, b)))
    ensures Due(c, s', id, b)
  {
    if Due(c, s, id, b) { StaysDue(c, s, e, s', id, b); } else { PassMakesDue(c, s, e, s', id, b); }
  }

  lemma PassedEarlier(ss: seq<State>, es: seq<Event>, k: TravKey, a: nat, n: nat)
    requires a <= n < |ss| && |ss| == |es| + 1 && PassedIn(ss, es, k, a, n)
    ensures a < n && (Passes(ss[n - 1], es[n - 1], k) || PassedIn(ss, es, k, a, n - 1))
  {
    var m :| a <= m < n && m < |es| && Passes(ss[m], es[m], k);
  }

  lemma {:induction false} PassedIsDue(c: Config, ss: seq<State>, es: seq<Event>, id: ID, b: Block, a: nat, n: nat)
    requires Run(c, ss, es) && a <= n < |ss| && LiveFrom(ss, id, b, a, n) && PassedIn(ss, es, KeyOf(id, b), a, n)
    ensures Due(c, ss[n], id, b)
    decreases n
  {
    PassedEarlier(ss, es, KeyOf(id, b), a, n);
    var s, e := ss[n - 1], es[n - 1];
    if !Passes(s, e, KeyOf(id, b)) { PassedIsDue(c, ss, es, id, b, a, n - 1); }
    RunInv(c, ss, es, n - 1);
    assert Live(s, id, b) && StepAt(c, ss, es, n - 1);
    DueNext(c, s, e, ss[n], id, b);
  }

  /** The block has not been tried and is not about to be. */
  ghost predicate Unseen(s: State, id: ID, b: Block) {
    !Tried(s, id, b) && (s.pc.OnPage? ==> forall r :: r in s.pc.refs ==> r.key.id != id)
  }

  lemma PageKeepsUnseen(c: Config, s: State, e: Event, s': State, id: ID, b: Block)
    requires Inv(c, s) && e.Page? && Next(c, s, e, s') && Live(s, id, b) && Unseen(s, id, b)
    requires !Passes(s, e, KeyOf(id, b))
    ensures Unseen(s', id, b)
  {
    forall r | r in e.page ensures r.key.id != id {
      assert Wanted(s.store.db.trav, Query(0, s.since), s.pc.token, r.key);
      assert r.key == KeyOf(r.key.id, s.store.db.blocks[r.key.id]);
      if e.more.Some? { NotBeyond(s.store.db.trav, Query(0, s.since), s.pc.token, e.page, e.more, r); }
    }
  }

  lemma NotBeyond(t: Trav, q: Query, cur: Option<TravKey>, page: seq<BlockRef>, more: Option<TravKey>, r: BlockRef)
    requires IsPage(t, q, cur, SCRAPE_PAGE, page, more) && more.Some? && r in page
    ensures !KeyLess(more.value, r.key)
  {
    var i :| 0 <= i < |page| && page[i] == r;
    assert i < |page| - 1 ==> KeyLess(page[i].key, page[|page| - 1].key);
  }

  lemma StaysUnseen(c: Config, s: State, e: Event, s': State, id: ID, b: Block)
    requires Inv(c, s) && Next(c, s, e, s') && Live(s, id, b) && Unseen(s, id, b) && !Passes(s, e, KeyOf(id, b))
    ensures Unseen(s', id, b)
  {
    match e
    case Page(_, _) => PageKeepsUnseen(c, s, e, s', id, b);
    case TryRef => assert s.pc.refs[0] in s.pc.refs;
    case _ =>
  }

  lemma {:induction false} NotPassedIsUnseen(c: Config, ss: seq<State>, es: seq<Event>, id: ID, b: Block,
                                             a: nat, n: nat)
    requires Run(c, ss, es) && a <= n < |ss| && LiveFrom(ss, id, b, a, n) && Unseen(ss[a], id, b)
    requires !PassedIn(ss, es, KeyOf(id, b), a, n)
    ensures Unseen(ss[n], id, b)
    decreases n
  {
    if a < n {
      NotPassedIsUnseen(c, ss, es, id, b, a, n - 1);
      RunInv(c, ss, es, n - 1);
      assert Live(ss[n - 1], id, b) && StepAt(c, ss, es, n - 1);
      StaysUnseen(c, ss[n - 1], es[n - 1], ss[n], id, b);
    }
  }

  /** Main theorem, over every run. A block that was committed unseen just before state a, and
      is live and older than the checkpoint in state n, has been tried if and only if it can be
      read and a page read after its commit took a scan past its key. */
  lemma TriedIffPassed(c: Config, ss: seq<State>, es: seq<Event>, id: ID, b: Block, a: nat, n: nat)
    requires Run(c, ss, es) && a <= n < |ss| && LiveFrom(ss, id, b, a, n) && Unseen(ss[a], id, b)
    requires b.createdAt < ss[n].checkpoint
    ensures Tried(ss[n], id, b) <==> id !in c.unreadable && PassedIn(ss, es, KeyOf(id, b), a, n)
  {
    RunInv(c, ss, es, n);
    if PassedIn(ss, es, KeyOf(id, b), a, n) {
      PassedIsDue(c, ss, es, id, b, a, n);
    } else {
      NotPassedIsUnseen(c, ss, es, id, b, a, n);
    }
  }

  lemma {:induction false} CheckpointGrows(c: Config, ss: seq<State>, es: seq<Event>, a: nat, n: nat)
    requires Run(c, ss, es) && a <= n < |ss|
    ensures ss[a].checkpoint <= ss[n].checkpoint
    decreases n
  {
    if a < n {
      CheckpointGrows(c, ss, es, a, n - 1);
      RunInv(c, ss, es, n - 1);
      assert StepAt(c, ss, es, n - 1);
      CheckpointStep(c, ss[n - 1], es[n - 1], ss[n]);
    }
  }

  lemma CheckpointStep(c: Config, s: State, e: Event, s': State)
    requires ClockOk(s) && Next(c, s, e, s')
    ensures s.checkpoint <= s'.checkpoint
  {}

  /** So a block committed unseen with a time before the checkpoint is never tried, for as long
      as it lives. */
  lemma MissedForGood(c: Config, ss: seq<State>, es: seq<Event>, id: ID, b: Block, a: nat, n: nat)
    requires Run(c, ss, es) && a <= n < |ss| && LiveFrom(ss, id, b, a, n) && Unseen(ss[a], id, b)
    requires b.createdAt < ss[a].checkpoint
    ensures !Tried(ss[n], id, b)
  {
    forall m | a <= m < n ensures !Passes(ss[m], es[m], KeyOf(id, b)) {
      CheckpointGrows(c, ss, es, a, m);
      RunInv(c, ss, es, m);
    }
    NotPassedIsUnseen(c, ss, es, id, b, a, n);
  }

  /** Such a run: a Put reads the clock at 1, a scrape of the empty store runs from 2, and only
      then does the Put commit. */
  lemma LateCommit(c: Config, stamp: Stamp, payload: Payload, tag: Tag) returns (ss: seq<State>, es: seq<Event>)
    ensures Run(c, ss, es)
    ensures var s, id := ss[|ss| - 1], c.store.env.computeID(payload);
            && id in s.store.db.blocks && s.store.db.blocks[id].createdAt == 1 < s.checkpoint
            && Unseen(s, id, s.store.db.blocks[id])
  {
    var p := PutCall(stamp, payload, tag, 1);
    ss, es := EmptyScrape(c, p);
    var s, db := ss[|ss| - 1], CommitTxn(c.store.env, EMPTY, 2, 1, stamp, payload, tag);
    var s' := s.(store := StoreRuns.State(db, 2), pending := multiset{});
    CommitAfter(c, s, p, s');
    RunGrows(c, ss, es, CommitPut(p, {}), s');
    ss, es := ss + [s'], es + [CommitPut(p, {})];
  }

  lemma RunGrows(c: Config, ss: seq<State>, es: seq<Event>, e: Event, s': State)
    requires Run(c, ss, es) && Next(c, ss[|ss| - 1], e, s')
    ensures Run(c, ss + [s'], es + [e])
  {
    forall i | 0 <= i < |es| + 1 ensures StepAt(c, ss + [s'], es + [e], i) {
      if i < |es| { assert StepAt(c, ss, es, i); }
    }
  }

  lemma CommitAfter(c: Config, s: State, p: PutCall, s': State)
    requires s.store == StoreRuns.State(EMPTY, 2) && s.pending == multiset{p} && p.at == 1
    requires s' == s.(store := StoreRuns.State(CommitTxn(c.store.env, EMPTY, 2, 1, p.stamp, p.payload, p.tag), 2),
                      pending := multiset{})
    ensures Next(c, s, CommitPut(p, {}), s')
  {
    EvictNone(c.store.env, s'.store.db, 2);
  }

  /** A scrape of the empty store from 2 on, while the Put p that read the clock at 1 waits. */
  lemma EmptyScrape(c: Config, p: PutCall) returns (ss: seq<State>, es: seq<Event>)
    requires p.at == 1
    ensures Run(c, ss, es)
    ensures ss[|ss| - 1] ==
              State(StoreRuns.State(EMPTY, 2), multiset{p}, 2, [], {}, Idle, ZERO_TIME, 2, 0, 0)
  {
    var s0 := State(StoreRuns.State(EMPTY, 1), multiset{}, 0, [], {}, Idle, 0, 0, 0, 0);
    var s1 := s0.(pending := multiset{p});
    assert Next(c, s0, StampPut(p.stamp, p.payload, p.tag), s1);
    var s2 := s1.(store := StoreRuns.State(EMPTY, 2));
    assert Next(c, s1, StoreEvent(StoreRuns.Tick(2)), s2);
    var s3 := s2.(pc := NeedPage(None), since := ZERO_TIME, scanStart := 2);
    assert Next(c, s2, Begin, s3);
    var s4 := s3.(pc := OnPage([], None));
    assert Next(c, s3, Page([], None), s4);
    var s5 := s4.(pc := Idle, checkpoint := 2);
    assert Next(c, s4, EndPage, s5);
    ss := [s0, s1, s2, s3, s4, s5];
    es := [StampPut(p.stamp, p.payload, p.tag), StoreEvent(StoreRuns.Tick(2)), Begin, Page([], None), EndPage];
  }

  /** A run that loses a block it cannot read: the block is committed at 1, a scrape from 2 lists
      it, fails to read it, and moves the checkpoint past it. */
  lemma UnreadableMissed(c: Config, stamp: Stamp, payload: Payload, tag: Tag) returns (ss: seq<State>, es: seq<Event>)
    requires c.store.env.computeID(payload) in c.unreadable
    ensures Run(c, ss, es) && forall j :: 0 <= j < |es| ==> Prompt(ss[j], es[j])
    ensures var s, id := ss[|ss| - 1], c.store.env.computeID(payload);
            && id in s.store.db.blocks && s.store.db.blocks[id].createdAt == 1 < s.checkpoint
            && PassedIn(ss, es, TravKey(1, id), 2, |ss| - 1) && !Tried(s, id, s.store.db.blocks[id])
  {
    var p := PutCall(stamp, payload, tag, 1);
    var db := CommitTxn(c.store.env, EMPTY, 1, 1, stamp, payload, tag);
    ss, es := CommittedRun(c, p, db);
    var s2, r := ss[2], RefOf(c.store.env.computeID(payload), db.blocks[c.store.env.computeID(payload)]);
    var s3 := s2.(store := StoreRuns.State(db, 2));
    var s4 := s3.(pc := NeedPage(None), since := ZERO_TIME, scanStart := 2);
    var s5 := s4.(pc := OnPage([r], None));
    var s6 := s5.(pc := OnPage([], None));
    var s7 := s6.(pc := Idle, checkpoint := 2);
    RunGrows(c, ss, es, StoreEvent(StoreRuns.Tick(2)), s3);
    RunGrows(c, ss + [s3], es + [StoreEvent(StoreRuns.Tick(2))], Begin, s4);
    ScanSteps(c, db, s4, s5, s6, s7, r);
    var ss', es' := ss + [s3] + [s4], es + [StoreEvent(StoreRuns.Tick(2))] + [Begin];
    RunGrows(c, ss', es', Page([r], None), s5);
    RunGrows(c, ss' + [s5], es' + [Page([r], None)], TryRef, s6);
    RunGrows(c, ss' + [s5] + [s6], es' + [Page([r], None)] + [TryRef], EndPage, s7);
    ss, es := ss' + [s5] + [s6] + [s7], es' + [Page([r], None)] + [TryRef] + [EndPage];
    assert Passes(ss[4], es[4], TravKey(1, r.key.id));
  }

  /** Stamp and commit at 1. */
  lemma CommittedRun(c: Config, p: PutCall, db: Db) returns (ss: seq<State>, es: seq<Event>)
    requires p.at == 1 && db == CommitTxn(c.store.env, EMPTY, 1, 1, p.stamp, p.payload, p.tag)
    ensures Run(c, ss, es) && |es| == 2 && es == [StampPut(p.stamp, p.payload, p.tag), CommitPut(p, {})]
    ensures ss[1].store.now == 1
    ensures ss[2] == State(StoreRuns.State(db, 1), multiset{}, 0, [], {}, Idle, 0, 0, 0, 0)
  {
    var s0 := State(StoreRuns.State(EMPTY, 1), multiset{}, 0, [], {}, Idle, 0, 0, 0, 0);
    var s1 := s0.(pending := multiset{p});
    var s2 := s0.(store := StoreRuns.State(db, 1));
    EvictNone(c.store.env, db, 1);
    assert Next(c, s0, StampPut(p.stamp, p.payload, p.tag), s1);
    assert Next(c, s1, CommitPut(p, {}), s2);
    ss, es := [s0, s1, s2], [StampPut(p.stamp, p.payload, p.tag), CommitPut(p, {})];
    assert StepAt(c, ss, es, 0) && StepAt(c, ss, es, 1);
  }

  lemma ScanSteps(c: Config, db: Db, s4: State, s5: State, s6: State, s7: State, r: BlockRef)
    requires db.trav == map[r.key := r.val] && r.key.id in c.unreadable
    requires s4.store == StoreRuns.State(db, 2) && s4.pc == NeedPage(None) && s4.since == ZERO_TIME && s4.scanStart == 2
    requires s5 == s4.(pc := OnPage([r], None)) && s6 == s5.(pc := OnPage([], None))
    requires s7 == s6.(pc := Idle, checkpoint := 2)
    ensures Next(c, s4, Page([r], None), s5) && Next(c, s5, TryRef, s6) && Next(c, s6, EndPage, s7)
  {
    assert [r][1..] == [];
    assert IsPage(db.trav, Query(0, ZERO_TIME), None, SCRAPE_PAGE, [r], None);
  }

  /** While a scrape that began in state i runs, found counts the rows added since. */
  lemma {:induction false} FoundCounts(c: Config, ss: seq<State>, es: seq<Event>, i: nat, j: nat)
    requires Run(c, ss, es) && i < j < |ss| && es[i].Begin?
    requires forall k :: i < k <= j ==> !ss[k].pc.Idle?
    ensures ss[j].found == |ss[j].rows| - |ss[i].rows|
  {
    RunInv(c, ss, es, j);
    BeforeFixed(c, ss, es, i, j);
  }

  lemma {:induction false} BeforeFixed(c: Config, ss: seq<State>, es: seq<Event>, i: nat, j: nat)
    requires Run(c, ss, es) && i < j < |ss| && es[i].Begin?
    requires forall k :: i < k <= j ==> !ss[k].pc.Idle?
    ensures ss[j].before == |ss[i].rows|
  {
    assert StepAt(c, ss, es, j - 1);
    if i < j - 1 {
      BeforeFixed(c, ss, es, i, j - 1);
    }
  }

  // ---- The call itself ----

  ghost predicate DistinctRows(rows: seq<Row>) {
    forall i, j :: 0 <= i < j < |rows| ==> rows[i].id != rows[j].id
  }

  /** The rows after trying the listed blocks in order. */
  ghost function Scraped(open: Payload -> Opened, blocks: map<ID, Block>, rows: seq<Row>, refs: seq<BlockRef>): seq<Row>
  {
    if refs == [] then rows else
      var rows' := Scraped(open, blocks, rows, refs[..|refs| - 1]);
      var id := refs[|refs| - 1].key.id;
      if id in blocks && open(blocks[id].payload).Message? then SaveMessage(rows', id, open(blocks[id].payload).content)
      else rows'
  }

  lemma {:induction false} ScrapedFacts(open: Payload -> Opened, blocks: map<ID, Block>, rows: seq<Row>,
                                        refs: seq<BlockRef>)
    requires DistinctRows(rows)
    ensures rows <= Scraped(open, blocks, rows, refs) && DistinctRows(Scraped(open, blocks, rows, refs))
    ensures forall r :: r in refs && r.key.id in blocks && open(blocks[r.key.id].payload).Message? ==>
              HasRow(Scraped(open, blocks, rows, refs), r.key.id)
    ensures forall k :: |rows| <= k < |Scraped(open, blocks, rows, refs)| ==>
              FromRef(open, blocks, refs, Scraped(open, blocks, rows, refs)[k])
  {
    if refs != [] {
      var n := |refs| - 1;
      var rows', out := Scraped(open, blocks, rows, refs[..n]), Scraped(open, blocks, rows, refs);
      ScrapedFacts(open, blocks, rows, refs[..n]);
      assert rows' <= out;
      forall id | HasRow(rows', id) ensures HasRow(out, id) {
        var i :| 0 <= i < |rows'| && rows'[i].id == id;
        assert out[i].id == id;
      }
      assert forall r :: r in refs <==> r in refs[..n] || r == refs[n];
      var id := refs[n].key.id;
      if out != rows' { assert out[|rows'|].id == id; }
      forall k | |rows| <= k < |out| ensures FromRef(open, blocks, refs, out[k]) {
        if k < |rows'| {
          assert FromRef(open, blocks, refs[..n], rows'[k]) && out[k] == rows'[k];
          var r :| r in refs[..n] && r.key.id == out[k].id;
          assert r in refs;
        } else {
          assert refs[n] in refs;
        }
      }
    }
  }

  /** The row is that of a listed block, and carries what opening its payload gives. */
  ghost predicate FromRef(open: Payload -> Opened, blocks: map<ID, Block>, refs: seq<BlockRef>, row: Row) {
    && (exists r :: r in refs && r.key.id == row.id)
    && row.id in blocks && open(blocks[row.id].payload) == Message(row.content)
  }

  /** The rows after scraping the pages in order, page i against the blocks readable then. */
  ghost function ScrapedPages(open: Payload -> Opened, views: seq<map<ID, Block>>, rows: seq<Row>,
                              pages: seq<seq<BlockRef>>): seq<Row>
    requires |views| == |pages|
  {
    if pages == [] then rows else
      var n := |pages| - 1;
      Scraped(open, views[n], ScrapedPages(open, views[..n], rows, pages[..n]), pages[n])
  }

  lemma ScrapedMore(open: Payload -> Opened, views: seq<map<ID, Block>>, rows: seq<Row>, pages: seq<seq<BlockRef>>,
                    view: map<ID, Block>, page: seq<BlockRef>)
    requires |views| == |pages|
    ensures ScrapedPages(open, views + [view], rows, pages + [page]) ==
              Scraped(open, view, ScrapedPages(open, views, rows, pages), page)
  {
    assert (views + [view])[..|views|] == views && (pages + [page])[..|pages|] == pages;
  }

  lemma {:induction false} PagesFacts(open: Payload -> Opened, views: seq<map<ID, Block>>, rows: seq<Row>,
                                      pages: seq<seq<BlockRef>>)
    requires |views| == |pages| && DistinctRows(rows)
    ensures rows <= ScrapedPages(open, views, rows, pages) && DistinctRows(ScrapedPages(open, views, rows, pages))
    ensures forall j, r :: 0 <= j < |pages| && r in pages[j] && Holds(open, views[j], r.key.id) ==>
              HasRow(ScrapedPages(open, views, rows, pages), r.key.id)
    ensures forall k :: |rows| <= k < |ScrapedPages(open, views, rows, pages)| ==>
              FromPage(open, views, pages, ScrapedPages(open, views, rows, pages)[k])
  {
    if pages != [] {
      var n := |pages| - 1;
      var rows' := ScrapedPages(open, views[..n], rows, pages[..n]);
      PagesFacts(open, views[..n], rows, pages[..n]);
      ScrapedFacts(open, views[n], rows', pages[n]);
      var out := Scraped(open, views[n], rows', pages[n]);
      forall id | HasRow(rows', id) ensures HasRow(out, id) { StillThere(rows', out, id); }
      forall k | |rows| <= k < |out| ensures FromPage(open, views, pages, out[k]) {
        if k < |rows'| {
          assert FromPage(open, views[..n], pages[..n], rows'[k]) && out[k] == rows'[k];
          var j :| 0 <= j < n && FromRef(open, views[..n][j], pages[..n][j], out[k]);
          assert FromRef(open, views[j], pages[j], out[k]);
        } else {
          assert FromRef(open, views[n], pages[n], out[k]);
        }
      }
    }
  }

  ghost predicate FromPage(open: Payload -> Opened, views: seq<map<ID, Block>>, pages: seq<seq<BlockRef>>, row: Row)
    requires |views| == |pages|
  {
    exists j :: 0 <= j < |pages| && FromRef(open, views[j], pages[j], row)
  }

  lemma StillThere(rows: seq<Row>, out: seq<Row>, id: ID)
    requires rows <= out && HasRow(rows, id)
    ensures HasRow(out, id)
  {
    var i :| 0 <= i < |rows| && rows[i].id == id;
    assert out[i].id == id;
  }

  /** The block id is readable and holds a message. */
  predicate Holds(open: Payload -> Opened, view: map<ID, Block>, id: ID) {
    id in view && open(view[id].payload).Message?
  }

  /** A page that continues a scan. */
  lemma ScanGrows(ts: seq<Trav>, q: Query, pages: seq<seq<BlockRef>>, curs: seq<Option<TravKey>>,
                  t: Trav, page: seq<BlockRef>, next: Option<TravKey>)
    requires Scan(ts, q, SCRAPE_PAGE, pages, curs) && IsPage(t, q, curs[|pages|], SCRAPE_PAGE, page, next)
    requires pages != [] ==> curs[|pages|].Some?
    ensures Scan(ts + [t], q, SCRAPE_PAGE, pages + [page], curs + [next])
  {}

  /** The same block in the store at every page. */
  ghost predicate StaysLive(views: seq<map<ID, Block>>, id: ID, b: Block) {
    forall i :: 0 <= i < |views| ==> id in views[i] && views[i][id] == b
  }

  /** The traversal entries are those of the readable blocks, and of some others. */
  ghost predicate Indexed(ts: seq<Trav>, views: seq<map<ID, Block>>) {
    |ts| == |views| && forall i, id :: 0 <= i < |ts| && id in views[i] ==>
      KeyOf(id, views[i][id]) in ts[i] && ts[i][KeyOf(id, views[i][id])] == ValOf(views[i][id])
  }

  lemma {:induction false} InSomePage(pages: seq<seq<BlockRef>>, r: BlockRef) returns (j: nat)
    requires r in Flatten(pages)
    ensures j < |pages| && r in pages[j]
  {
    var n := |pages| - 1;
    if r in pages[n] { j := n; } else { j := InSomePage(pages[..n], r); }
  }

  /** A finished scrape has a row for every message that stayed readable throughout. */
  lemma SavedStays(open: Payload -> Opened, ts: seq<Trav>, since: nat, views: seq<map<ID, Block>>, rows: seq<Row>,
                   pages: seq<seq<BlockRef>>, curs: seq<Option<TravKey>>, id: ID, b: Block)
    requires Scan(ts, Query(0, GetCheckpoint(since)), SCRAPE_PAGE, pages, curs) && Finished(curs)
    requires Indexed(ts, views) && DistinctRows(rows) && StaysLive(views, id, b)
    requires b.createdAt >= since && open(b.payload).Message?
    ensures var out := ScrapedPages(open, views, rows, pages);
            exists k :: 0 <= k < |out| && out[k].id == id &&
              (k >= |rows| ==> open(b.payload) == Message(out[k].content))
  {
    forall i | 0 <= i < |ts| ensures KeyOf(id, b) in ts[i] && ts[i][KeyOf(id, b)] == ValOf(b) {
      assert id in views[i] && views[i][id] == b;
    }
    var q := Query(0, GetCheckpoint(since));
    assert Stays(ts, KeyOf(id, b), ValOf(b)) && Qualifies(q, KeyOf(id, b), ValOf(b));
    ScanComplete(ts, q, SCRAPE_PAGE, pages, curs, KeyOf(id, b), ValOf(b));
    var r := BlockRef(KeyOf(id, b), ValOf(b));
    assert r in multiset(Flatten(pages));
    var j := InSomePage(pages, r);
    PagesFacts(open, views, rows, pages);
    assert Holds(open, views[j], id);
    RowOfStays(open, views, |rows|, ScrapedPages(open, views, rows, pages), pages, id, b);
  }

  lemma RowOfStays(open: Payload -> Opened, views: seq<map<ID, Block>>, before: nat, out: seq<Row>,
                   pages: seq<seq<BlockRef>>, id: ID, b: Block)
    requires |views| == |pages| && StaysLive(views, id, b) && HasRow(out, id)
    requires forall k :: before <= k < |out| ==> FromPage(open, views, pages, out[k])
    ensures exists k :: 0 <= k < |out| && out[k].id == id &&
              (k >= before ==> open(b.payload) == Message(out[k].content))
  {
    var k :| 0 <= k < |out| && out[k].id == id;
    if k >= before {
      assert FromPage(open, views, pages, out[k]);
      var j :| 0 <= j < |pages| && FromRef(open, views[j], pages[j], out[k]);
      assert views[j][id] == b;
    }
  }

  /** Every listed entry is at or after the time the listing starts from. */
  lemma PagesSince(ts: seq<Trav>, since: int, pages: seq<seq<BlockRef>>, curs: seq<Option<TravKey>>)
    requires Scan(ts, Query(0, since), SCRAPE_PAGE, pages, curs)
    ensures forall j, r :: 0 <= j < |pages| && r in pages[j] ==> r.key.createdAt >= since
  {
    forall j, r | 0 <= j < |pages| && r in pages[j] ensures r.key.createdAt >= since {
      assert IsPage(ts[j], Query(0, since), curs[j], SCRAPE_PAGE, pages[j], curs[j + 1]);
      assert Wanted(ts[j], Query(0, since), curs[j], r.key);
    }
  }

  /** The traversal entries and the readable blocks of each store. */
  ghost predicate Snapshots(stores: seq<BadgerStore>, unreadable: set<ID>, ts: seq<Trav>, views: seq<map<ID, Block>>)
    reads set i | 0 <= i < |stores| :: stores[i]
  {
    && |ts| == |views| == |stores|
    && forall i :: 0 <= i < |stores| ==> ts[i] == stores[i].trav && views[i] == stores[i].blocks - unreadable
  }

  /** A scan of n pages over the first n snapshots, and the rows it leaves. */
  ghost predicate Scanned(open: Payload -> Opened, ts: seq<Trav>, views: seq<map<ID, Block>>, q: Query, start: seq<Row>,
                          rows: seq<Row>, n: nat, pages: seq<seq<BlockRef>>, curs: seq<Option<TravKey>>)
  {
    && n == |pages| <= |ts| == |views| && Scan(ts[..n], q, SCRAPE_PAGE, pages, curs)
    && rows == ScrapedPages(open, views[..n], start, pages)
  }

  lemma ScannedMore(open: Payload -> Opened, ts: seq<Trav>, views: seq<map<ID, Block>>, q: Query, start: seq<Row>,
                    rows: seq<Row>, n: nat, pages: seq<seq<BlockRef>>, curs: seq<Option<TravKey>>,
                    page: seq<BlockRef>, next: Option<TravKey>)
    requires Scanned(open, ts, views, q, start, rows, n, pages, curs) && n < |ts|
    requires (n > 0 ==> curs[n].Some?) && IsPage(ts[n], q, curs[n], SCRAPE_PAGE, page, next)
    ensures Scanned(open, ts, views, q, start, Scraped(open, views[n], rows, page), n + 1,
                    pages + [page], curs + [next])
  {
    ScanGrows(ts[..n], q, pages, curs, ts[n], page, next);
    ScrapedMore(open, views[..n], start, pages, views[n], page);
    assert ts[..n + 1] == ts[..n] + [ts[n]] && views[..n + 1] == views[..n] + [views[n]];
  }

  class Client {
    const open: Payload -> Opened
    var rows: seq<Row>
    var checkpoint: nat

    constructor (open: Payload -> Opened)
      ensures this.open == open && rows == [] && checkpoint == 0
    {
      this.open := open;
      rows, checkpoint := [], 0;
    }

    /** Saves what one listed block holds; tells whether a row was inserted. */
    method TryBlock(store: BadgerStore, r: BlockRef, unreadable: set<ID>) returns (inserted: bool)
      modifies `rows
      ensures rows == Scraped(open, store.blocks - unreadable, old(rows), [r])
      ensures inserted <==> && r.key.id in store.blocks && r.key.id !in unreadable
                            && open(store.blocks[r.key.id].payload).Message?
                            && forall k :: 0 <= k < |old(rows)| ==> old(rows)[k].id != r.key.id
      ensures rows == if inserted then old(rows) + [Row(r.key.id, open(store.blocks[r.key.id].payload).content)]
                      else old(rows)
    {
      assert [r][..0] == [];
      inserted := false;
      if r.key.id !in store.blocks || r.key.id in unreadable {
        return;
      }
      var o := open(store.blocks[r.key.id].payload);
      if !o.Message? {
        return;
      }
      inserted := !HasRow(rows, r.key.id);
      rows := SaveMessage(rows, r.key.id, o.content);
    }

    /** Scrape: stores[i] is the store as page i finds it, whatever happened since the page before,
        and the context is cancelled once they are used up; `unreadable` are the ids whose block
        cannot be read. Rows are only added, one for each message among the listed blocks that
        can be read, carrying what it says, and found counts them. A call that finishes has been through a whole scan
        from the checkpoint on, has a row for every message that stayed readable throughout, and
        moves the checkpoint to the start of the scan; a cancelled one leaves it where it was. */
    method Scrape(stores: seq<BadgerStore>, now: nat, unreadable: set<ID>, ghost ts: seq<Trav>,
                  ghost views: seq<map<ID, Block>>)
      returns (found: nat, finished: bool, ghost pages: seq<seq<BlockRef>>, ghost curs: seq<Option<TravKey>>)
      requires DistinctRows(rows) && Snapshots(stores, unreadable, ts, views) && Indexed(ts, views)
      modifies this
      ensures Scanned(open, ts, views, Query(0, GetCheckpoint(old(checkpoint))), old(rows), rows, |pages|, pages, curs)
      ensures (finished <==> Finished(curs)) && (!finished ==> |pages| == |stores|)
      ensures DistinctRows(rows) && old(rows) <= rows && |rows| == |old(rows)| + found
      ensures forall k :: |old(rows)| <= k < |rows| ==> FromPage(open, views[..|pages|], pages, rows[k])
      ensures forall j, r :: 0 <= j < |pages| && r in pages[j] ==> r.key.createdAt >= old(checkpoint)
      ensures finished ==> forall id, b :: Readable(views[..|pages|], old(checkpoint), id, b) ==>
                exists k :: 0 <= k < |rows| && rows[k].id == id &&
                            (k >= |old(rows)| ==> open(b.payload) == Message(rows[k].content))
      ensures checkpoint == if finished then now else old(checkpoint)
    {
      found, finished, pages, curs := ScrapePages(stores, GetCheckpoint(checkpoint), unreadable, ts, views);
      ghost var n := |pages|;
      PagesFacts(open, views[..n], old(rows), pages);
      PagesSince(ts[..n], GetCheckpoint(old(checkpoint)), pages, curs);
      if finished {
        forall id, b | Readable(views[..n], old(checkpoint), id, b)
          ensures exists k :: 0 <= k < |rows| && rows[k].id == id &&
                              (k >= |old(rows)| ==> open(b.payload) == Message(rows[k].content))
        {
          SavedStays(open, ts[..n], old(checkpoint), views[..n], old(rows), pages, curs, id, b);
        }
        checkpoint := now;
      }
    }

    /** A message created since the checkpoint that stayed readable throughout. */
    ghost predicate Readable(views: seq<map<ID, Block>>, since: nat, id: ID, b: Block) {
      StaysLive(views, id, b) && b.createdAt >= since && open(b.payload).Message?
    }

    method ScrapePages(stores: seq<BadgerStore>, since: int, unreadable: set<ID>, ghost ts: seq<Trav>,
                       ghost views: seq<map<ID, Block>>)
      returns (found: nat, finished: bool, ghost pages: seq<seq<BlockRef>>, ghost curs: seq<Option<TravKey>>)
      requires Snapshots(stores, unreadable, ts, views)
      modifies `rows
      ensures Scanned(open, ts, views, Query(0, since), old(rows), rows, |pages|, pages, curs)
      ensures |rows| == |old(rows)| + found
      ensures (finished <==> Finished(curs)) && (!finished ==> |pages| == |stores|)
    {
      found, pages, curs := 0, [], [None];
      var token: Option<TravKey> := None;
      for i := 0 to |stores|
        invariant Scanned(open, ts, views, Query(0, since), old(rows), rows, i, pages, curs)
        invariant curs[i] == token && (i > 0 ==> token.Some?) && |rows| == |old(rows)| + found
      {
        var next, refs := stores[i].ListBlocks(token, SCRAPE_PAGE, 0, since);
        ScannedMore(open, ts, views, Query(0, since), old(rows), rows, i, pages, curs, refs, next);
        var n := ScrapePage(stores[i], refs, unreadable);
        found := found + n;
        pages, curs := pages + [refs], curs + [next];
        if next == None {
          return found, true, pages, curs;
        }
        token := next;
      }
      finished := false;
    }

    method ScrapePage(store: BadgerStore, refs: seq<BlockRef>, unreadable: set<ID>) returns (found: nat)
      modifies `rows
      ensures rows == Scraped(open, store.blocks - unreadable, old(rows), refs)
      ensures |rows| == |old(rows)| + found
    {
      found := 0;
      ghost var done: seq<BlockRef> := [];
      for i := 0 to |refs|
        invariant done == refs[..i]
        invariant rows == Scraped(open, store.blocks - unreadable, old(rows), done) && |rows| == |old(rows)| + found
      {
        var inserted := TryBlock(store, refs[i], unreadable);
        ScrapedOneMore(open, store.blocks - unreadable, old(rows), done, refs[i]);
        if inserted {
          found := found + 1;
        }
        done := done + [refs[i]];
      }
      assert refs[..|refs|] == refs;
    }
  }

  lemma ScrapedOneMore(open: Payload -> Opened, blocks: map<ID, Block>, start: seq<Row>, done: seq<BlockRef>,
                       r: BlockRef)
    ensures Scraped(open, blocks, start, done + [r]) == Scraped(open, blocks, Scraped(open, blocks, start, done), [r])
  {
    assert (done + [r])[..|done|] == done && [r][..0] == [];
  }
}
