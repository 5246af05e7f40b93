/** Bloom-filtered delta sync between a client and a relay. */
module Relay {
  import opened Types
  import opened Database
  import opened Listing
  import opened Bloom
  import opened Badger
  import StoreRuns

  const PAGE: int := 500

  /** BloomOfStore: the filter of every block in the store. */
  method BloomOfStore(store: BadgerStore) returns (f: Filter)
    ensures fresh(f) && fresh(f.bits) && f.Valid() && f.h == store.env.slot
    ensures f.Bits() == StoreBits(f.h, store.trav)
  {
    f := new Filter(store.env.slot);
    ghost var listed: seq<BlockRef> := [];
    var cur: Option<TravKey> := None;
    ListedNone(store.trav, EVERYTHING);
    while true
      invariant fresh(f) && fresh(f.bits) && f.Valid() && f.h == store.env.slot
      invariant ListedTo(store.trav, EVERYTHING, listed, cur, false) && |listed| <= |store.trav.Keys|
      invariant f.Bits() == AddAll(f.h, {}, listed)
      decreases |store.trav.Keys| - |listed|
    {
      var next, refs := store.ListBlocks(cur, PAGE, 0, ZERO_TIME);
      AddRefs(f, refs, listed);
      ListedPage(store.trav, EVERYTHING, listed, cur, PAGE, refs, next);
      listed := listed + refs;
      if next == None {
        ListedBits(f.h, store.trav, listed);
        return;
      }
      cur := next;
    }
  }

  method AddRefs(f: Filter, refs: seq<BlockRef>, ghost before: seq<BlockRef>)
    requires f.Valid() && f.Bits() == AddAll(f.h, {}, before)
    modifies f.bits
    ensures f.Bits() == AddAll(f.h, {}, before + refs)
  {
    ghost var added := before;
    for i := 0 to |refs|
      invariant added == before + refs[..i]
      invariant f.Bits() == AddAll(f.h, {}, added)
    {
      AddRef(f, refs[i], added);
      Extend(before, refs, i);
      added := added + [refs[i]];
    }
    ExtendAll(before, refs);
  }

  method AddRef(f: Filter, r: BlockRef, ghost before: seq<BlockRef>)
    requires f.Valid() && f.Bits() == AddAll(f.h, {}, before)
    modifies f.bits
    ensures f.Bits() == AddAll(f.h, {}, before + [r])
  {
    AddAllOne(f.h, before, r);
    f.Add(r.key.id, r.val.wf);
  }

  // ---- Delta ----

  /** The listed ids that the filter does not claim at their work factor. */
  function Missing(h: Hash, ones: set<nat>, refs: seq<BlockRef>): seq<ID> {
    if refs == [] then [] else
      var r := refs[|refs| - 1];
      Missing(h, ones, refs[..|refs| - 1]) + if Claims(h, ones, r.key.id, r.val.wf) then [] else [r.key.id]
  }

  lemma {:induction false} MissingExactly(h: Hash, ones: set<nat>, refs: seq<BlockRef>, id: ID)
    ensures id in Missing(h, ones, refs) <==>
              exists r :: r in refs && r.key.id == id && !Claims(h, ones, id, r.val.wf)
  {
    if refs != [] {
      var n := |refs| - 1;
      MissingExactly(h, ones, refs[..n], id);
      assert forall r :: r in refs <==> r in refs[..n] || r == refs[n];
    }
  }

  /** The stricter of the two floors applies. */
  function DeltaQuery(clientFloor: int, serverFloor: int, since: int): Query {
    Query(if clientFloor < serverFloor then serverFloor else clientFloor, since)
  }

  /** `ids` are, in listing order, the qualifying entries that a filter rejects. */
  ghost predicate IsDelta(t: Trav, q: Query, h: Hash, ones: set<nat>, ids: seq<ID>) {
    exists listed :: ListedTo(t, q, listed, None, true) && ids == Missing(h, ones, listed)
  }

  /** handleDelta: the ids of the qualifying blocks that the client's filter rejects. */
  method HandleDelta(store: BadgerStore, bloom: Filter, clientFloor: int, serverFloor: int, since: int)
    returns (ids: seq<ID>)
    requires bloom.Valid()
    ensures IsDelta(store.trav, DeltaQuery(clientFloor, serverFloor, since), bloom.h, bloom.Bits(), ids)
  {
    var powFloor := clientFloor;
    if powFloor < serverFloor {
      powFloor := serverFloor;
    }
    ids := [];
    ghost var listed: seq<BlockRef> := [];
    var cur: Option<TravKey> := None;
    ListedNone(store.trav, Query(powFloor, since));
    while true
      invariant ListedTo(store.trav, Query(powFloor, since), listed, cur, false) && |listed| <= |store.trav.Keys|
      invariant ids == Missing(bloom.h, bloom.Bits(), listed)
      decreases |store.trav.Keys| - |listed|
    {
      var next, refs := store.ListBlocks(cur, PAGE, powFloor, since);
      ids := FilterPage(bloom, refs, ids, listed);
      ListedPage(store.trav, Query(powFloor, since), listed, cur, PAGE, refs, next);
      listed := listed + refs;
      if next == None {
        return;
      }
      cur := next;
    }
  }

  method FilterPage(bloom: Filter, refs: seq<BlockRef>, ids0: seq<ID>, ghost before: seq<BlockRef>)
    returns (ids: seq<ID>)
    requires bloom.Valid() && ids0 == Missing(bloom.h, bloom.Bits(), before)
    ensures ids == Missing(bloom.h, bloom.Bits(), before + refs)
  {
    ids := ids0;
    assert before + refs[..0] == before;
    for i := 0 to |refs|
      invariant ids == Missing(bloom.h, bloom.Bits(), before + refs[..i])
    {
      var has := bloom.Has(refs[i].key.id, refs[i].val.wf);
      if !has {
        ids := ids + [refs[i].key.id];
      }
      Extend(before, refs, i);
      assert (before + refs[..i + 1])[..|before| + i] == before + refs[..i];
    }
    assert before + refs[..|refs|] == before + refs;
  }

  // ---- Pull ----

  /** Held at least at that work factor, or barred by a tombstone. */
  ghost predicate HeldOrBarred(db: Db, now: nat, id: ID, wf: WorkFactor) {
    HoldsAt(db, id, wf) || Tombstoned(db, now, id)
  }

  ghost predicate Positive(env: Env) {
    forall wf: WorkFactor :: env.ttl(wf) > 0
  }

  /** One more Put, and whatever it evicts, undoes none of it. */
  lemma StaysHeld(c: StoreRuns.Config, s: StoreRuns.State, e: StoreRuns.Event, s': StoreRuns.State, id: ID,
                  wf: WorkFactor)
    requires StoreRuns.Next(c, s, e, s') && e.Put? && RepInv(c.env, s.db, s.now) && Positive(c.env)
    requires HeldOrBarred(s.db, s.now, id, wf)
    ensures HeldOrBarred(s'.db, s'.now, id, wf)
  {}

  /** A relay block that meets the floor and the time, and that the filter rejects. */
  ghost predicate Offered(env: Env, relay: Db, q: Query, ones: set<nat>, id: ID) {
    && id in relay.blocks && Qualifies(q, KeyOf(id, relay.blocks[id]), ValOf(relay.blocks[id]))
    && !Claims(env.slot, ones, id, relay.blocks[id].wf)
  }

  /** The answer to a delta is exactly what is offered. */
  lemma DeltaExactly(env: Env, relay: Db, now: nat, q: Query, ones: set<nat>, ids: seq<ID>, id: ID)
    requires RepInv(env, relay, now) && IsDelta(relay.trav, q, env.slot, ones, ids)
    ensures id in ids <==> Offered(env, relay, q, ones, id)
  {
    var listed: seq<BlockRef> :| ListedTo(relay.trav, q, listed, None, true) && ids == Missing(env.slot, ones, listed);
    MissingExactly(env.slot, ones, listed, id);
    forall s | s in listed ensures s.key.id in relay.blocks && s == RefOf(s.key.id, relay.blocks[s.key.id]) {
      assert s.key == KeyOf(s.key.id, relay.blocks[s.key.id]);
    }
    if id in relay.blocks && Qualifies(q, KeyOf(id, relay.blocks[id]), ValOf(relay.blocks[id])) {
      assert RefOf(id, relay.blocks[id]).key in relay.trav && RefOf(id, relay.blocks[id]) in listed;
    }
  }

  /** What is offered to the filter of a store is never held there already at an equal or
      higher capped level. */
  lemma OfferedIsNew(env: Env, local: Db, relay: Db, now: nat, q: Query, id: ID)
    requires RepInv(env, local, now) && Offered(env, relay, q, StoreBits(env.slot, local.trav), id)
    ensures !(id in local.blocks && Min(relay.blocks[id].wf, 16) <= Min(local.blocks[id].wf, 16))
  {
    if id in local.blocks && Min(relay.blocks[id].wf, 16) <= Min(local.blocks[id].wf, 16) {
      StoreClaims(env.slot, local.trav, KeyOf(id, local.blocks[id]), relay.blocks[id].wf);
    }
  }

  /** So, between two stores: a block of the relay that meets both floors and the time is offered
      exactly if it is not held, or held at a lower level, levels being cut at 16. */
  lemma DeltaBetween(env: Env, local: Db, relay: Db, now: nat, clientFloor: int, serverFloor: int, since: int, id: ID)
    requires RepInv(env, local, now) && Apart(env.slot, id, local.blocks.Keys)
    ensures Offered(env, relay, DeltaQuery(clientFloor, serverFloor, since), StoreBits(env.slot, local.trav), id) <==>
              && id in relay.blocks
              && relay.blocks[id].wf >= clientFloor && relay.blocks[id].wf >= serverFloor
              && relay.blocks[id].createdAt >= since
              && (id in local.blocks ==> Min(relay.blocks[id].wf, 16) > Min(local.blocks[id].wf, 16))
  {
    if id in relay.blocks { HeldExactly(env, local, now, id, relay.blocks[id].wf); }
  }

  /** Fetches one block and stores it. */
  method PullOne(local: BadgerStore, relay: BadgerStore, id: ID, tag: Tag, now: nat, size: nat, stored0: seq<ID>)
    returns (stored: seq<ID>)
    requires local != relay && local.env == relay.env && local.Valid(now) && relay.Valid(now) && Positive(local.env)
    requires id in relay.blocks
    requires forall i :: i in stored0 ==> i in relay.blocks && HeldOrBarred(local.Model(), now, i, relay.blocks[i].wf)
    modifies local`blocks, local`trav, local`tombs
    ensures local.Valid(now) && stored == stored0 + [id]
    ensures forall i :: i in stored ==> i in relay.blocks && HeldOrBarred(local.Model(), now, i, relay.blocks[i].wf)
  {
    var b := relay.blocks[id];
    assert Genuine(relay.env, id, b, now);
    var storedId, victims := local.Put(b.stamp, b.payload, tag, now, size);
    ghost var c := StoreRuns.Config(local.env, local.reservations);
    ghost var s, s' := StoreRuns.State(old(local.Model()), now), StoreRuns.State(local.Model(), now);
    ghost var e := StoreRuns.Put(b.stamp, b.payload, tag, now, victims);
    forall i | i in stored0 ensures HeldOrBarred(local.Model(), now, i, relay.blocks[i].wf) {
      StaysHeld(c, s, e, s', i, relay.blocks[i].wf);
    }
    PutHeldOrBarred(c, s, e, s');
    stored := stored0 + [storedId];
  }

  lemma PutHeldOrBarred(c: StoreRuns.Config, s: StoreRuns.State, e: StoreRuns.Event, s': StoreRuns.State)
    requires StoreRuns.Next(c, s, e, s') && e.Put? && RepInv(c.env, s.db, s.now) && Positive(c.env)
    ensures HeldOrBarred(s'.db, s'.now, c.env.computeID(e.payload), c.env.workFactor(e.stamp, e.payload))
  {
    StoreRuns.PutIsSeen(c, s, e, s');
    var id := c.env.computeID(e.payload);
    if Tombstoned(s.db, s.now, id) { assert id !in s.db.blocks; }
  }

  /** Delta: sends the filter of the local store to the relay and gets back exactly the ids it
      offers. */
  method Delta(local: BadgerStore, relay: BadgerStore, powFloor: int, serverFloor: int, since: int, ghost now: nat)
    returns (ids: seq<ID>)
    requires local.env == relay.env && relay.Valid(now)
    ensures forall id :: id in ids <==>
              Offered(relay.env, relay.Model(), DeltaQuery(powFloor, serverFloor, since),
                      StoreBits(local.env.slot, local.trav), id)
  {
    var bloom := BloomOfStore(local);
    var data := bloom.Bytes();
    var sent := FilterFromBytes(relay.env.slot, data);
    ids := HandleDelta(relay, sent, powFloor, serverFloor, since);
    ghost var q, ones := DeltaQuery(powFloor, serverFloor, since), StoreBits(local.env.slot, local.trav);
    forall id ensures id in ids <==> Offered(relay.env, relay.Model(), q, ones, id) {
      DeltaExactly(relay.env, relay.Model(), now, q, ones, ids, id);
    }
  }

  /** Pull: `gone` are ids the relay has pruned by the time they are fetched, `sizes` what the
      local database reports after each write. What is fetched is exactly what the relay offers
      and still has; each such id is then held at least at the relay's work factor, or
      tombstoned; and none was held at an equal or higher capped level before. */
  method Pull(local: BadgerStore, relay: BadgerStore, tag: Tag, powFloor: int, serverFloor: int, since: int,
              now: nat, gone: set<ID>, sizes: nat -> nat) returns (stored: seq<ID>)
    requires local != relay && local.env == relay.env && local.Valid(now) && relay.Valid(now) && Positive(local.env)
    modifies local`blocks, local`trav, local`tombs
    ensures local.Valid(now)
    ensures forall id :: id in stored <==>
              (id !in gone && Offered(relay.env, relay.Model(), DeltaQuery(powFloor, serverFloor, since),
                                      old(StoreBits(local.env.slot, local.trav)), id))
    ensures forall id :: id in stored ==>
              && id in relay.blocks
              && (|| (id in local.blocks && local.blocks[id].wf >= relay.blocks[id].wf)
                  || (id in local.tombs && now < local.tombs[id]))
              && !(id in old(local.blocks) && Min(relay.blocks[id].wf, 16) <= Min(old(local.blocks)[id].wf, 16))
    ensures forall id :: Apart(relay.env.slot, id, old(local.blocks).Keys) ==>
              (id in stored <==>
                 && id !in gone && id in relay.blocks
                 && relay.blocks[id].wf >= powFloor && relay.blocks[id].wf >= serverFloor
                 && relay.blocks[id].createdAt >= since
                 && (id in old(local.blocks) ==> Min(relay.blocks[id].wf, 16) > Min(old(local.blocks)[id].wf, 16)))
  {
    forall id | Apart(relay.env.slot, id, local.blocks.Keys)
      ensures Offered(relay.env, relay.Model(), DeltaQuery(powFloor, serverFloor, since),
                      StoreBits(local.env.slot, local.trav), id) <==>
                && id in relay.blocks
                && relay.blocks[id].wf >= powFloor && relay.blocks[id].wf >= serverFloor
                && relay.blocks[id].createdAt >= since
                && (id in local.blocks ==> Min(relay.blocks[id].wf, 16) > Min(local.blocks[id].wf, 16))
    {
      DeltaBetween(relay.env, local.Model(), relay.Model(), now, powFloor, serverFloor, since, id);
    }
    var ids := Delta(local, relay, powFloor, serverFloor, since, now);
    forall id | id in ids
      ensures id in relay.blocks
      ensures !(id in local.blocks && Min(relay.blocks[id].wf, 16) <= Min(local.blocks[id].wf, 16))
    {
      OfferedIsNew(local.env, local.Model(), relay.Model(), now, DeltaQuery(powFloor, serverFloor, since), id);
    }
    stored := PullAll(local, relay, tag, ids, now, gone, sizes);
  }

  method PullAll(local: BadgerStore, relay: BadgerStore, tag: Tag, ids: seq<ID>, now: nat, gone: set<ID>,
                 sizes: nat -> nat)
    returns (stored: seq<ID>)
    requires local != relay && local.env == relay.env && local.Valid(now) && relay.Valid(now) && Positive(local.env)
    requires forall id :: id in ids ==> id in relay.blocks
    modifies local`blocks, local`trav, local`tombs
    ensures local.Valid(now)
    ensures forall id :: id in stored <==> id in ids && id !in gone
    ensures forall id :: id in stored ==> HeldOrBarred(local.Model(), now, id, relay.blocks[id].wf)
  {
    stored := [];
    for i := 0 to |ids|
      invariant local.Valid(now)
      invariant forall id :: id in stored <==> id in ids[..i] && id !in gone
      invariant forall id :: id in stored ==>
                  id in relay.blocks && HeldOrBarred(local.Model(), now, id, relay.blocks[id].wf)
    {
      var id := ids[i];
      assert ids[..i + 1] == ids[..i] + [id];
      if id in gone {
        continue;
      }
      assert id in ids;
      stored := PullOne(local, relay, id, tag, now, sizes(i), stored);
    }
    assert ids[..|ids|] == ids;
  }
}
