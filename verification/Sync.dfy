/** syncStores between any two stores, and the two-way USB sync built on it. */
module Sync {
  import opened Types
  import opened Database
  import opened Listing
  import opened FlatFile
  import opened Stores
  import Badger

  /** The ids a sync should copy: not held as well already, and not barred by a tombstone. */
  ghost predicate Wants(src: Db, dst: Db, now: nat, id: ID) {
    id in src.blocks && !Tombstoned(dst, now, id) && !HoldsAt(dst, id, src.blocks[id].wf)
  }

  /** dst is dst0 with, for the ids of `done`, the better of its own and the source's block. */
  ghost predicate Synced(src: Db, dst0: Db, dst: Db, now: nat, done: set<ID>) {
    dst.tombs == dst0.tombs && forall id :: SyncedAt(src, dst0, dst, now, done, id)
  }

  ghost predicate SyncedAt(src: Db, dst0: Db, dst: Db, now: nat, done: set<ID>, id: ID) {
    if id in done && Wants(src, dst0, now, id) then
      var b := src.blocks[id];
      id in dst.blocks && dst.blocks[id] == Block(b.stamp, b.payload, b.wf, now, 0)
    else
      (id in dst.blocks <==> id in dst0.blocks) && (id in dst.blocks ==> dst.blocks[id] == dst0.blocks[id])
  }

  /** An id that has not been dealt with is held and wanted as it was at the start. */
  lemma WantsSame(src: Db, dst0: Db, dst: Db, now: nat, done: set<ID>, id: ID)
    requires id !in done && Synced(src, dst0, dst, now, done)
    ensures Wants(src, dst, now, id) <==> Wants(src, dst0, now, id)
    ensures id in dst.blocks <==> id in dst0.blocks
  {
    assert SyncedAt(src, dst0, dst, now, done, id);
  }

  lemma SyncedPut(env: Env, src: Db, dst0: Db, dst: Db, now: nat, done: set<ID>, id: ID)
    requires RepInv(env, src, now) && id in src.blocks && id !in done && Synced(src, dst0, dst, now, done)
    ensures var b := src.blocks[id];
            Synced(src, dst0, PutTxn(env, dst, now, b.stamp, b.payload, TAG_PHYSICAL), now, done + {id})
  {
    var b := src.blocks[id];
    assert Genuine(env, id, b, now);
    forall i
      ensures var dst' := PutTxn(env, dst, now, b.stamp, b.payload, TAG_PHYSICAL);
              SyncedAt(src, dst0, dst', now, done + {id}, i)
    {
      assert SyncedAt(src, dst0, dst, now, done, i);
      CommitWrites(env, dst, now, now, b.stamp, b.payload, TAG_PHYSICAL, i);
    }
  }

  /** What goes wrong: ids whose header in a source directory cannot be read, so that they are
      not listed; ids that cannot be read from the source or checked for in the destination; ids
      whose work factor in the destination cannot be read; and ids that cannot be written there. */
  datatype Faults = Faults(header: set<ID>, read: set<ID>, lookup: set<ID>, write: set<ID>)

  datatype Outcome = Copied | Skipped | Failed

  /** A better block than the destination's is passed over because the destination's own work
      factor cannot be read. */
  ghost predicate Hidden(src: Db, dst: Db, now: nat, f: Faults, id: ID) {
    Wants(src, dst, now, id) && id in dst.blocks && id in f.lookup
  }

  /** A failed read counts as an error, a failed lookup as already there, a failed write as an
      error if the block was to be copied. */
  ghost function OutcomeOf(src: Db, dst: Db, now: nat, f: Faults, id: ID): (o: Outcome)
    ensures o == Copied <==>
              && id !in f.read && id !in f.write && id in src.blocks && !(id in dst.tombs && now < dst.tombs[id])
              && (id in dst.blocks ==> dst.blocks[id].wf < src.blocks[id].wf && id !in f.lookup)
    ensures o == Failed <==>
              || id in f.read
              || (&& id in f.write && id in src.blocks && !(id in dst.tombs && now < dst.tombs[id])
                  && (id in dst.blocks ==> dst.blocks[id].wf < src.blocks[id].wf && id !in f.lookup))
  {
    if id in f.read then Failed
    else if !Wants(src, dst, now, id) || Hidden(src, dst, now, f, id) then Skipped
    else if id in f.write then Failed
    else Copied
  }

  /** The destination after a block with that outcome. */
  ghost function Then(env: Env, src: Db, dst: Db, now: nat, id: ID, o: Outcome): Db
    requires id in src.blocks
  {
    if o == Copied then PutTxn(env, dst, now, src.blocks[id].stamp, src.blocks[id].payload, TAG_PHYSICAL) else dst
  }

  /** Stores that can be synchronised: src holds s, dst holds d and never evicts. */
  ghost predicate Ready(src: Store, dst: Store, s: Db, d: Db, now: nat)
    reads Footprint(src), Footprint(dst)
  {
    && EnvOf(src) == EnvOf(dst) && Footprint(src) !! Footprint(dst) && Unlimited(dst)
    && Holds(src, s, now) && Holds(dst, d, now)
  }

  /** Copies one listed block if the destination lacks it or holds it at less work. */
  method SyncOne(src: Store, dst: Store, r: FlatRef, now: nat, size: nat, f: Faults, ghost s: Db, ghost d: Db)
    returns (outcome: Outcome, ghost d': Db)
    requires Ready(src, dst, s, d, now) && r.id in s.blocks && s.blocks[r.id].wf == r.wf
    modifies Footprint(dst)
    ensures outcome == OutcomeOf(s, d, now, f, r.id)
    ensures d' == Then(EnvOf(dst), s, d, now, r.id, outcome) && Ready(src, dst, s, d', now)
  {
    d' := d;
    var block;
    outcome, block := Decide(src, dst, r, now, f, s, d);
    if outcome == Copied {
      d' := Put(dst, block.value.0, block.value.1, now, size, d);
    }
  }

  /** What becomes of one listed block; a copied one is returned. */
  method Decide(src: Store, dst: Store, r: FlatRef, now: nat, f: Faults, ghost s: Db, ghost d: Db)
    returns (outcome: Outcome, block: Option<(Stamp, Payload)>)
    requires Holds(src, s, now) && Holds(dst, d, now) && r.id in s.blocks && s.blocks[r.id].wf == r.wf
    ensures outcome == OutcomeOf(s, d, now, f, r.id)
    ensures outcome == Copied ==> block == Some((s.blocks[r.id].stamp, s.blocks[r.id].payload))
  {
    block := Get(src, r.id, s, now);
    if block == None || r.id in f.read {
      return Failed, block;
    }
    var already := HasBlock(dst, r.id, now, d);
    if already {
      var dstWF := GetWorkFactor(dst, r.id, d, now);
      if dstWF == None || r.id in f.lookup || r.wf <= dstWF.value {
        return Skipped, block;
      }
    }
    outcome := if r.id in f.write then Failed else Copied;
  }

  datatype Tally = Tally(copied: nat, skipped: nat, errs: nat)

  function Count(t: Tally, o: Outcome): Tally {
    match o
    case Copied => t.(copied := t.copied + 1)
    case Skipped => t.(skipped := t.skipped + 1)
    case Failed => t.(errs := t.errs + 1)
  }

  ghost function With(src: Db, dst: Db, now: nat, f: Faults, ids: set<ID>, o: Outcome): set<ID> {
    set id | id in ids && OutcomeOf(src, dst, now, f, id) == o
  }

  /** A sync that has dealt with the blocks `done`: the copied ones are merged, the others left
      alone, and each is counted once under its outcome. */
  ghost predicate Tallied(src: Db, dst0: Db, dst: Db, now: nat, f: Faults, done: set<ID>, t: Tally) {
    TalliedBy(src, dst0, dst, now, With(src, dst0, now, f, done, Copied), With(src, dst0, now, f, done, Failed),
              |done|, t)
  }

  ghost predicate TalliedBy(src: Db, dst0: Db, dst: Db, now: nat, copies: set<ID>, fails: set<ID>, all: nat, t: Tally) {
    && Synced(src, dst0, dst, now, copies)
    && t.copied == |copies| && t.errs == |fails| && t.copied + t.skipped + t.errs == all
  }

  lemma WithStep(src: Db, dst0: Db, now: nat, f: Faults, done: set<ID>, id: ID, o: Outcome)
    requires id !in done
    ensures With(src, dst0, now, f, done + {id}, o) ==
              With(src, dst0, now, f, done, o) + if OutcomeOf(src, dst0, now, f, id) == o then {id} else {}
  {
    var more := if OutcomeOf(src, dst0, now, f, id) == o then {id} else {};
    assert With(src, dst0, now, f, done + {id}, o) == With(src, dst0, now, f, done, o) + more;
  }

  lemma TalliedStep(env: Env, src: Db, dst0: Db, dst: Db, now: nat, f: Faults, done: set<ID>, id: ID, t: Tally)
    requires RepInv(env, src, now) && Tallied(src, dst0, dst, now, f, done, t)
    requires id in src.blocks && id !in done
    ensures var o := OutcomeOf(src, dst, now, f, id);
            Tallied(src, dst0, Then(env, src, dst, now, id, o), now, f, done + {id}, Count(t, o))
  {
    var copies, fails := With(src, dst0, now, f, done, Copied), With(src, dst0, now, f, done, Failed);
    var o := OutcomeOf(src, dst0, now, f, id);
    OutcomeSame(src, dst0, dst, now, f, copies, id);
    CountStep(env, src, dst0, dst, now, copies, fails, |done|, id, o, t);
    WithStep(src, dst0, now, f, done, id, Copied);
    WithStep(src, dst0, now, f, done, id, Failed);
  }

  lemma OutcomeSame(src: Db, dst0: Db, dst: Db, now: nat, f: Faults, done: set<ID>, id: ID)
    requires id !in done && Synced(src, dst0, dst, now, done)
    ensures OutcomeOf(src, dst, now, f, id) == OutcomeOf(src, dst0, now, f, id)
  {
    WantsSame(src, dst0, dst, now, done, id);
  }

  lemma CountStep(env: Env, src: Db, dst0: Db, dst: Db, now: nat, copies: set<ID>, fails: set<ID>, all: nat, id: ID,
                  o: Outcome, t: Tally)
    requires RepInv(env, src, now) && TalliedBy(src, dst0, dst, now, copies, fails, all, t)
    requires id in src.blocks && id !in copies && id !in fails
    ensures TalliedBy(src, dst0, Then(env, src, dst, now, id, o), now, copies + if o == Copied then {id} else {},
                      fails + if o == Failed then {id} else {}, all + 1, Count(t, o))
  {
    match o
    case Copied =>
      SyncedPut(env, src, dst0, dst, now, copies, id);
      assert fails + {} == fails;
    case Skipped =>
      assert copies + {} == copies && fails + {} == fails;
    case Failed =>
      assert copies + {} == copies;
  }

  ghost function IdsOf(refs: seq<BlockRef>): set<ID> {
    set r | r in refs :: r.key.id
  }

  /** A sync in the middle: the blocks `done` are dealt with, the destination holds d. */
  ghost predicate Syncing(src: Store, dst: Store, s: Db, d0: Db, d: Db, now: nat, f: Faults, done: set<ID>, t: Tally)
    reads Footprint(src), Footprint(dst)
  {
    Ready(src, dst, s, d, now) && Tallied(s, d0, d, now, f, done, t)
  }

  method SyncRef(src: Store, dst: Store, r: FlatRef, now: nat, size: nat, f: Faults, t: Tally,
                 ghost s: Db, ghost d0: Db, ghost d: Db, ghost done: set<ID>) returns (t': Tally, ghost d': Db)
    requires Syncing(src, dst, s, d0, d, now, f, done, t)
    requires r.id in s.blocks && s.blocks[r.id].wf == r.wf && r.id !in done
    modifies Footprint(dst)
    ensures Syncing(src, dst, s, d0, d', now, f, done + {r.id}, t')
  {
    TalliedStep(EnvOf(src), s, d0, d, now, f, done, r.id, t);
    var outcome;
    outcome, d' := SyncOne(src, dst, r, now, size, f, s, d);
    t' := Count(t, outcome);
  }

  /** The listed blocks of one page are in the store, and none has been dealt with. */
  ghost predicate NewRefs(s: Db, page: seq<BlockRef>, before: set<ID>) {
    && Increasing(page)
    && forall r :: r in page ==>
         r.key.id in s.blocks && r == RefOf(r.key.id, s.blocks[r.key.id]) && r.key.id !in before
  }

  /** One page of a sync. */
  method SyncPage(src: Store, dst: Store, refs: seq<FlatRef>, now: nat, size: nat, f: Faults, t: Tally,
                  ghost page: seq<BlockRef>, ghost s: Db, ghost d0: Db, ghost d: Db, ghost before: set<ID>)
    returns (t': Tally, ghost d': Db)
    requires Syncing(src, dst, s, d0, d, now, f, before, t) && refs == Strip(page) && NewRefs(s, page, before)
    modifies Footprint(dst)
    ensures Syncing(src, dst, s, d0, d', now, f, before + IdsOf(page), t')
  {
    t', d' := t, d;
    ghost var done := before;
    for i := 0 to |refs|
      invariant done == before + IdsOf(page[..i])
      invariant Syncing(src, dst, s, d0, d', now, f, done, t')
    {
      NotYet(s, page, i, before);
      t', d' := SyncRef(src, dst, refs[i], now, size, f, t', s, d0, d', done);
      done := done + {refs[i].id};
    }
    assert page[..|refs|] == page;
  }

  lemma NotYet(s: Db, page: seq<BlockRef>, i: nat, before: set<ID>)
    requires NewRefs(s, page, before) && i < |page|
    ensures page[i].key.id in s.blocks && page[i].val == ValOf(s.blocks[page[i].key.id])
    ensures page[i].key.id !in before + IdsOf(page[..i])
    ensures before + IdsOf(page[..i + 1]) == before + IdsOf(page[..i]) + {page[i].key.id}
  {
    assert page[i] in page;
    forall r | r in page[..i] ensures r.key.id != page[i].key.id {
      var j :| 0 <= j < i && page[j] == r;
      assert page[j] in page && KeyLess(page[j].key, page[i].key);
    }
    assert forall r :: r in page[..i + 1] <==> r in page[..i] || r == page[i];
  }

  /** The ids that a sync from src gets to see. */
  function Listed(src: Store, s: Db, f: Faults): set<ID> {
    if src.OnFiles? then s.blocks.Keys - f.header else s.blocks.Keys
  }

  /** syncStores between any two stores, the destination without a limit. Every listed block is
      counted once under its outcome; the copies are exactly the wanted blocks without a fault,
      and only they change the destination. */
  method SyncStores(src: Store, dst: Store, now: nat, size: nat, f: Faults, ghost s: Db, ghost d0: Db)
    returns (t: Tally, ghost d: Db)
    requires Ready(src, dst, s, d0, now)
    modifies Footprint(dst)
    ensures Ready(src, dst, s, d, now) && Tallied(s, d0, d, now, f, Listed(src, s, f), t)
  {
    t, d := Tally(0, 0, 0), d0;
    ghost var listed: seq<BlockRef> := [];
    ghost var seen := WithoutIds(s.trav, Unlisted(src, f.header));
    var token: Option<TravKey> := None;
    ListedNone(seen, EVERYTHING);
    NoneTallied(s, d0, now, f);
    while true
      invariant Syncing(src, dst, s, d0, d, now, f, IdsOf(listed), t)
      invariant ListedTo(seen, EVERYTHING, listed, token, false) && |listed| <= |seen.Keys|
      decreases |seen.Keys| - |listed|
    {
      var next, refs := ListRefs(src, f.header, token, 500, 0, ZERO_TIME, s, now);
      ghost var page :| IsPage(seen, EVERYTHING, token, 500, page, next) && refs == Strip(page);
      NewPage(EnvOf(src), s, now, seen, listed, token, page, next);
      t, d := SyncPage(src, dst, refs, now, size, f, t, page, s, d0, d, IdsOf(listed));
      listed := listed + page;
      if next == None {
        break;
      }
      token := next;
    }
    ListedAll(EnvOf(src), src, s, now, f, listed);
  }

  /** The ids of the next page have not been seen. */
  lemma NewPage(env: Env, s: Db, now: nat, seen: Trav, listed: seq<BlockRef>, token: Option<TravKey>,
                page: seq<BlockRef>, next: Option<TravKey>)
    requires RepInv(env, s, now) && (forall k :: k in seen ==> k in s.trav && seen[k] == s.trav[k])
    requires ListedTo(seen, EVERYTHING, listed, token, false) && IsPage(seen, EVERYTHING, token, 500, page, next)
    ensures ListedTo(seen, EVERYTHING, listed + page, next, next == None)
    ensures next.Some? ==> |listed| < |listed + page| <= |seen.Keys|
    ensures IdsOf(listed + page) == IdsOf(listed) + IdsOf(page)
    ensures NewRefs(s, page, IdsOf(listed))
  {
    ListedPage(seen, EVERYTHING, listed, token, 500, page, next);
    PageBlocks(env, s, now, seen, token, page, next);
    forall r, q | r in page && q in listed ensures r.key.id != q.key.id {
      assert r.key != q.key && q.key in s.trav;
    }
    assert forall r :: r in listed + page <==> r in listed || r in page;
  }

  lemma PageBlocks(env: Env, s: Db, now: nat, seen: Trav, token: Option<TravKey>, page: seq<BlockRef>,
                   next: Option<TravKey>)
    requires RepInv(env, s, now) && (forall k :: k in seen ==> k in s.trav && seen[k] == s.trav[k])
    requires IsPage(seen, EVERYTHING, token, 500, page, next)
    ensures forall r :: r in page ==>
              r.key in s.trav && r.key.id in s.blocks && r == RefOf(r.key.id, s.blocks[r.key.id])
  {
    forall r | r in page ensures r.key in s.trav && r.key.id in s.blocks && r == RefOf(r.key.id, s.blocks[r.key.id]) {
      assert r.key in seen && r.key == KeyOf(r.key.id, s.blocks[r.key.id]);
    }
  }

  lemma NoneTallied(s: Db, d: Db, now: nat, f: Faults)
    ensures IdsOf([]) == {} && Tallied(s, d, d, now, f, {}, Tally(0, 0, 0))
  {
    assert With(s, d, now, f, {}, Copied) == {} && With(s, d, now, f, {}, Failed) == {};
    assert Synced(s, d, d, now, {});
  }

  lemma ListedAll(env: Env, src: Store, s: Db, now: nat, f: Faults, listed: seq<BlockRef>)
    requires RepInv(env, s, now)
    requires ListedTo(WithoutIds(s.trav, Unlisted(src, f.header)), EVERYTHING, listed, None, true)
    ensures IdsOf(listed) == Listed(src, s, f)
  {
    ListedIds(env, s, now, Unlisted(src, f.header), listed);
    assert s.blocks.Keys - Unlisted(src, f.header) == Listed(src, s, f);
  }

  /** A whole listing names every block that is listed at all. */
  lemma ListedIds(env: Env, s: Db, now: nat, unlisted: set<ID>, listed: seq<BlockRef>)
    requires RepInv(env, s, now) && ListedTo(WithoutIds(s.trav, unlisted), EVERYTHING, listed, None, true)
    ensures IdsOf(listed) == s.blocks.Keys - unlisted
  {
    forall id | id in s.blocks.Keys - unlisted ensures id in IdsOf(listed) {
      var r := RefOf(id, s.blocks[id]);
      assert r.key in s.trav && r.key in WithoutIds(s.trav, unlisted) && WithoutIds(s.trav, unlisted)[r.key] == r.val;
      assert r in listed;
    }
  }

  // ---- What an error-free sync achieves ----

  ghost predicate Same(a: Db, b: Db, id: ID) {
    (id in a.blocks <==> id in b.blocks) && (id in a.blocks ==> a.blocks[id].wf == b.blocks[id].wf)
  }

  /** m holds id exactly as the pointwise maximum of a and b does. */
  ghost predicate IsMax(a: Db, b: Db, m: Db, id: ID) {
    && (id in m.blocks <==> id in a.blocks || id in b.blocks)
    && (id in a.blocks ==> HoldsAt(m, id, a.blocks[id].wf))
    && (id in b.blocks ==> HoldsAt(m, id, b.blocks[id].wf))
    && (id in m.blocks ==>
          || (id in a.blocks && m.blocks[id].wf == a.blocks[id].wf)
          || (id in b.blocks && m.blocks[id].wf == b.blocks[id].wf))
  }

  /** On id the destination is the maximum; under a tombstone, as it was. */
  ghost predicate Met(src: Db, dst0: Db, dst: Db, now: nat, id: ID) {
    if Tombstoned(dst0, now, id) then Same(dst0, dst, id) else IsMax(src, dst0, dst, id)
  }

  /** A wanted block that a sync passes over without an error: it is not listed, or a failed
      lookup hides it. */
  ghost predicate Missed(src: Db, dst: Db, now: nat, f: Faults, listed: set<ID>, id: ID) {
    (Wants(src, dst, now, id) && id !in listed) || Hidden(src, dst, now, f, id)
  }

  /** If a sync reports no error, then id ends up as it should if and only if it was not missed. */
  lemma ErrorFreeAt(src: Db, dst0: Db, dst: Db, now: nat, f: Faults, listed: set<ID>, t: Tally, id: ID)
    requires Tallied(src, dst0, dst, now, f, listed, t) && listed <= src.blocks.Keys && t.errs == 0
    ensures Met(src, dst0, dst, now, id) <==> !Missed(src, dst0, now, f, listed, id)
  {
    var copies := With(src, dst0, now, f, listed, Copied);
    var fails := With(src, dst0, now, f, listed, Failed);
    assert fails == {};
    assert id !in fails && SyncedAt(src, dst0, dst, now, copies, id);
    assert id in listed ==> (id in copies <==> Wants(src, dst0, now, id) && !Hidden(src, dst0, now, f, id));
  }

  /** So the whole destination is the pointwise maximum, tombstoned ids aside, if and only if no
      wanted block is unlisted, and no block held at less work than the source's is one whose
      lookup fails. */
  lemma ErrorFree(src: Db, dst0: Db, dst: Db, now: nat, f: Faults, listed: set<ID>, t: Tally)
    requires Tallied(src, dst0, dst, now, f, listed, t) && listed <= src.blocks.Keys && t.errs == 0
    ensures (forall id :: Met(src, dst0, dst, now, id)) <==> (forall id :: !Missed(src, dst0, now, f, listed, id))
  {
    forall id ensures Met(src, dst0, dst, now, id) <==> !Missed(src, dst0, now, f, listed, id) {
      ErrorFreeAt(src, dst0, dst, now, f, listed, t, id);
    }
  }

  /** With nothing going wrong: no error, and exactly the blocks that the destination lacks or has at
      less work, and that no visible tombstone bars, are copied, stamp, payload and work factor as
      in the source, as new blocks of the physical tag; all others stay as they were. */
  lemma CleanSync(src: Db, dst0: Db, dst: Db, now: nat, t: Tally, due: set<ID>, id: ID)
    requires Tallied(src, dst0, dst, now, Faults({}, {}, {}, {}), src.blocks.Keys, t)
    requires forall i :: i in due <==>
               && i in src.blocks && (i in dst0.blocks ==> dst0.blocks[i].wf < src.blocks[i].wf)
               && !(i in dst0.tombs && now < dst0.tombs[i])
    ensures t.errs == 0 && t.copied == |due| && t.skipped == |src.blocks.Keys| - |due|
    ensures if id in due then
              && id in dst.blocks && dst.blocks[id].wf == src.blocks[id].wf && dst.blocks[id].tag == 0
              && dst.blocks[id].stamp == src.blocks[id].stamp && dst.blocks[id].payload == src.blocks[id].payload
              && dst.blocks[id].createdAt == now
            else
              (id in dst.blocks <==> id in dst0.blocks) && (id in dst0.blocks ==> dst.blocks[id] == dst0.blocks[id])
  {
    var f := Faults({}, {}, {}, {});
    assert With(src, dst0, now, f, src.blocks.Keys, Copied) == due;
    assert With(src, dst0, now, f, src.blocks.Keys, Failed) == {};
    assert SyncedAt(src, dst0, dst, now, due, id);
  }

  /** One input that loses: one block, held at less work, whose lookup fails. The sync reports no
      error, one block already present, and the destination keeps the lesser block. */
  lemma LookupFaultHides(src: Db, dst0: Db, dst: Db, now: nat, id: ID, t: Tally)
    requires src.blocks.Keys == {id} && Wants(src, dst0, now, id) && id in dst0.blocks
    requires Tallied(src, dst0, dst, now, Faults({}, {}, {id}, {}), src.blocks.Keys, t)
    ensures t == Tally(0, 1, 0) && Same(dst0, dst, id) && dst.blocks[id].wf < src.blocks[id].wf
  {
    var f := Faults({}, {}, {id}, {});
    assert With(src, dst0, now, f, {id}, Copied) == {} && With(src, dst0, now, f, {id}, Failed) == {};
    assert SyncedAt(src, dst0, dst, now, {}, id);
  }

  /** Another: one file whose header cannot be read. The sync reports nothing at all, and the
      destination stays as it was. */
  lemma HeaderFaultHides(src: Store, s: Db, dst0: Db, dst: Db, now: nat, id: ID, t: Tally)
    requires src.OnFiles? && s.blocks.Keys == {id} && Wants(s, dst0, now, id)
    requires var f := Faults({id}, {}, {}, {});
             Tallied(s, dst0, dst, now, f, Listed(src, s, f), t)
    ensures t == Tally(0, 0, 0) && Same(dst0, dst, id) && !HoldsAt(dst, id, s.blocks[id].wf)
  {
    var f := Faults({id}, {}, {}, {});
    assert Listed(src, s, f) == {};
    assert With(s, dst0, now, f, {}, Copied) == {} && With(s, dst0, now, f, {}, Failed) == {};
    assert SyncedAt(s, dst0, dst, now, {}, id);
  }

  /** A source id that a tombstone barred at the first sync and no longer bars at the second. */
  ghost predicate Expired(src: Db, dst: Db, now: nat, later: nat, id: ID) {
    id in src.blocks && Tombstoned(dst, now, id) && !Tombstoned(dst, later, id)
  }

  /** A second run over the same source, after a first that reported no error and missed nothing:
      it wants exactly the ids whose tombstone has expired since, so it copies exactly those of
      them that it lists, can read and can write. In particular, at once it copies nothing. */
  lemma SecondRun(env: Env, src: Db, dst0: Db, dst: Db, dst': Db, now: nat, later: nat, f: Faults, listed: set<ID>,
                  t: Tally, f': Faults, listed': set<ID>, t': Tally)
    requires RepInv(env, dst0, now) && now <= later && listed' <= src.blocks.Keys
    requires Tallied(src, dst0, dst, now, f, listed, t) && listed <= src.blocks.Keys && t.errs == 0
    requires forall id :: !Missed(src, dst0, now, f, listed, id)
    requires Tallied(src, dst, dst', later, f', listed', t')
    ensures With(src, dst, later, f', listed', Copied) ==
              set id | id in listed' && id !in f'.read && id !in f'.write && Expired(src, dst0, now, later, id)
    ensures t'.copied == |With(src, dst, later, f', listed', Copied)|
    ensures later == now ==> t'.copied == 0 && forall id :: Same(dst, dst', id)
  {
    forall id | id in src.blocks
      ensures (Wants(src, dst, later, id) <==> Expired(src, dst0, now, later, id)) && !Hidden(src, dst, later, f', id)
    {
      ErrorFreeAt(src, dst0, dst, now, f, listed, t, id);
    }
    if later == now {
      assert With(src, dst, later, f', listed', Copied) == {};
      forall id ensures Same(dst, dst', id) { assert SyncedAt(src, dst, dst', later, {}, id); }
    }
  }

  // ---- Two ways ----

  /** A block on one side whose better version on the other is hidden by a failed lookup. */
  ghost predicate Lost(a: Db, b: Db, f: Faults, id: ID) {
    id in a.blocks && id in b.blocks && b.blocks[id].wf < a.blocks[id].wf && id in f.lookup
  }

  /** A file that the store lacks, or holds at less work, and whose header cannot be read. */
  ghost predicate Overlooked(usb: Db, store: Db, f: Faults, id: ID) {
    id in usb.blocks && !HoldsAt(store, id, usb.blocks[id].wf) && id in f.header
  }

  /** Nothing about id goes wrong unreported: not in the pull from usb with the faults f, nor in
      the push back with the faults g. */
  ghost predicate Kept(usb: Db, store: Db, f: Faults, g: Faults, id: ID) {
    !Overlooked(usb, store, f, id) && !Lost(usb, store, f, id) && !Lost(store, usb, g, id)
  }

  /** Both hold id as the pointwise maximum of what they held. */
  ghost predicate Agree(usb0: Db, store0: Db, usb1: Db, store1: Db, id: ID) {
    Same(usb1, store1, id) && IsMax(usb0, store0, store1, id)
  }

  /** usb0 is pulled into store0, giving store1, and that is pushed back, giving usb1. */
  lemma TwoWay(env: Env, usb0: Db, store0: Db, store1: Db, usb1: Db, now: nat, f: Faults, g: Faults,
               t: Tally, u: Tally, id: ID)
    requires RepInv(env, store0, now) && RepInv(env, store1, now) && usb0.tombs == map[]
    requires Tallied(usb0, store0, store1, now, f, usb0.blocks.Keys - f.header, t) && t.errs == 0
    requires Tallied(store1, usb0, usb1, now, g, store1.blocks.Keys, u) && u.errs == 0
    requires !Tombstoned(store1, now, id)
    ensures Agree(usb0, store0, usb1, store1, id) <==> Kept(usb0, store0, f, g, id)
  {
    ErrorFreeAt(usb0, store0, store1, now, f, usb0.blocks.Keys - f.header, t, id);
    ErrorFreeAt(store1, usb0, usb1, now, g, store1.blocks.Keys, u, id);
    NotTouched(usb0, store0, store1, now, f, usb0.blocks.Keys - f.header, t, id);
    TwoWayAt(usb0, store0, store1, usb1, now, f, g, id);
  }

  lemma TwoWayAt(usb0: Db, store0: Db, store1: Db, usb1: Db, now: nat, f: Faults, g: Faults, id: ID)
    requires !Tombstoned(store0, now, id) && !Tombstoned(usb0, now, id)
    requires Met(usb0, store0, store1, now, id) <==> !Missed(usb0, store0, now, f, usb0.blocks.Keys - f.header, id)
    requires Met(store1, usb0, usb1, now, id) <==> !Missed(store1, usb0, now, g, store1.blocks.Keys, id)
    requires FromEither(usb0, store0, store1, now, id)
    ensures Agree(usb0, store0, usb1, store1, id) <==> Kept(usb0, store0, f, g, id)
  {}

  /** What dst holds of id it held before, or took from the source because it wanted it. */
  ghost predicate FromEither(src: Db, dst0: Db, dst: Db, now: nat, id: ID) {
    && (id in dst0.blocks ==> id in dst.blocks)
    && (id in dst.blocks ==>
          || (id in dst0.blocks && dst.blocks[id].wf == dst0.blocks[id].wf)
          || (id in src.blocks && dst.blocks[id].wf == src.blocks[id].wf && Wants(src, dst0, now, id)))
  }

  lemma NotTouched(src: Db, dst0: Db, dst: Db, now: nat, f: Faults, listed: set<ID>, t: Tally, id: ID)
    requires Tallied(src, dst0, dst, now, f, listed, t)
    ensures dst.tombs == dst0.tombs && FromEither(src, dst0, dst, now, id)
  {
    assert SyncedAt(src, dst0, dst, now, With(src, dst0, now, f, listed, Copied), id);
  }

  /** The round that usbSyncLoop makes for one volume: pull from its files into the store, then
      push back. If neither reports an error, files and store hold the same ids at the same
      work factors, namely the pointwise maximum of what they held, on every id that is not
      tombstoned in the store, if and only if no unreadable header made the listing overlook a
      wanted file and no failed lookup hid a better block. */
  method UsbSync(usb: FlatFileStore, store: Badger.BadgerStore, now: nat, size: nat, f: Faults, g: Faults)
    returns (pull: Tally, push: Tally, ghost usb0: Db, ghost usb1: Db)
    requires usb.env == store.env && usb.storageLimit == 0 && store.storageLimit == 0
    requires usb.Valid(now) && store.Valid(now)
    modifies usb, store
    ensures usb.Valid(now) && store.Valid(now)
    ensures Represents(old(usb.files), usb0) && Represents(usb.files, usb1)
    ensures Tallied(usb0, old(store.Model()), store.Model(), now, f, usb0.blocks.Keys - f.header, pull)
    ensures Tallied(store.Model(), usb0, usb1, now, g, store.blocks.Keys, push)
    ensures pull.errs == 0 && push.errs == 0 ==>
              forall id :: !Tombstoned(store.Model(), now, id) ==>
                (Agree(usb0, old(store.Model()), usb1, store.Model(), id) <==>
                 Kept(usb0, old(store.Model()), f, g, id))
    ensures f == g == Faults({}, {}, {}, {}) ==>
              forall id :: !(id in store.tombs && now < store.tombs[id]) ==>
                && (id in usb.files <==> id in old(usb.files) || id in old(store.blocks))
                && (id in store.blocks <==> id in old(usb.files) || id in old(store.blocks))
                && (id in usb.files ==>
                      && usb.files[id].wf == store.blocks[id].wf
                      && (id in old(usb.files) ==> usb.files[id].wf >= old(usb.files)[id].wf)
                      && (id in old(store.blocks) ==> usb.files[id].wf >= old(store.blocks)[id].wf))
  {
    ghost var store0 := store.Model();
    usb0 := SomeDb(usb.files);
    GenuineRep(usb.env, usb.files, usb0, now);
    ghost var store1;
    pull, push, store1, usb1 := PullPush(OnFiles(usb), OnBadger(store), now, size, f, g, usb0, store0);
    StillGenuine(usb.env, usb.files, usb1, now);
    if pull.errs == 0 && push.errs == 0 {
      TwoWayAll(usb.env, usb0, store0, store1, usb1, now, f, g, pull, push);
    }
    if f == g == Faults({}, {}, {}, {}) {
      assert usb0.blocks.Keys - {} == usb0.blocks.Keys;
      forall id | !(id in store1.tombs && now < store1.tombs[id])
        ensures id in usb.files <==> id in old(usb.files) || id in old(store.blocks)
        ensures id in store.blocks <==> id in old(usb.files) || id in old(store.blocks)
        ensures id in usb.files ==>
                  && usb.files[id].wf == store.blocks[id].wf
                  && (id in old(usb.files) ==> usb.files[id].wf >= old(usb.files)[id].wf)
                  && (id in old(store.blocks) ==> usb.files[id].wf >= old(store.blocks)[id].wf)
      {
        CleanRound(old(usb.files), usb.files, usb0, usb1, store0, store1, now, pull, push, id);
      }
    }
  }

  /** Two syncs, one each way. */
  method PullPush(a: Store, b: Store, now: nat, size: nat, f: Faults, g: Faults, ghost a0: Db, ghost b0: Db)
    returns (pull: Tally, push: Tally, ghost b1: Db, ghost a1: Db)
    requires Ready(a, b, a0, b0, now) && Unlimited(a)
    modifies Footprint(a), Footprint(b)
    ensures Holds(a, a1, now) && Holds(b, b1, now)
    ensures Tallied(a0, b0, b1, now, f, Listed(a, a0, f), pull) && Tallied(b1, a0, a1, now, g, Listed(b, b1, g), push)
  {
    pull, b1 := SyncStores(a, b, now, size, f, a0, b0);
    push, a1 := SyncStores(b, a, now, size, g, b1, a0);
  }

  /** Both ways with nothing going wrong, between a directory and a store: no error, and on every id
      without a visible tombstone both end up with what either held, at the larger work factor. */
  lemma CleanRound(files0: Files, files1: Files, usb0: Db, usb1: Db, store0: Db, store1: Db, now: nat,
                   t: Tally, u: Tally, id: ID)
    requires Represents(files0, usb0) && Represents(files1, usb1)
    requires Tallied(usb0, store0, store1, now, Faults({}, {}, {}, {}), usb0.blocks.Keys, t)
    requires Tallied(store1, usb0, usb1, now, Faults({}, {}, {}, {}), store1.blocks.Keys, u)
    requires !(id in store1.tombs && now < store1.tombs[id])
    ensures t.errs == 0 && u.errs == 0
    ensures id in files1 <==> id in files0 || id in store0.blocks
    ensures id in store1.blocks <==> id in files0 || id in store0.blocks
    ensures id in files1 ==>
              && files1[id].wf == store1.blocks[id].wf
              && (id in files0 ==> files1[id].wf >= files0[id].wf)
              && (id in store0.blocks ==> files1[id].wf >= store0.blocks[id].wf)
              && ((id in files0 && files1[id].wf == files0[id].wf) ||
                  (id in store0.blocks && files1[id].wf == store0.blocks[id].wf))
  {
    var due := With(usb0, store0, now, Faults({}, {}, {}, {}), usb0.blocks.Keys, Copied);
    CleanSync(usb0, store0, store1, now, t, due, id);
    var back := With(store1, usb0, now, Faults({}, {}, {}, {}), store1.blocks.Keys, Copied);
    CleanSync(store1, usb0, usb1, now, u, back, id);
  }

  lemma TwoWayAll(env: Env, usb0: Db, store0: Db, store1: Db, usb1: Db, now: nat, f: Faults, g: Faults,
                  t: Tally, u: Tally)
    requires RepInv(env, store0, now) && RepInv(env, store1, now) && usb0.tombs == map[]
    requires Tallied(usb0, store0, store1, now, f, usb0.blocks.Keys - f.header, t) && t.errs == 0
    requires Tallied(store1, usb0, usb1, now, g, store1.blocks.Keys, u) && u.errs == 0
    ensures forall id :: !Tombstoned(store1, now, id) ==>
              (Agree(usb0, store0, usb1, store1, id) <==> Kept(usb0, store0, f, g, id))
  {
    forall id | !Tombstoned(store1, now, id)
      ensures Agree(usb0, store0, usb1, store1, id) <==> Kept(usb0, store0, f, g, id)
    {
      TwoWay(env, usb0, store0, store1, usb1, now, f, g, t, u, id);
    }
  }

  lemma StillGenuine(env: Env, files: Files, db: Db, now: nat)
    requires Represents(files, db) && RepInv(env, db, now)
    ensures forall id :: id in files ==> Genuine(env, id, AsBlock(files[id]), now)
  {
    forall id | id in files ensures Genuine(env, id, AsBlock(files[id]), now) { assert id in db.blocks; }
  }
}
