/** The BadgerStore database as a value: block, traversal and tombstone keys, the two
    transactions that write them, and the representation invariant they keep. */
module Database {
  import opened Types

  datatype Block = Block(stamp: Stamp, payload: Payload, wf: WorkFactor, createdAt: nat, tag: Tag)

  /** A tombstone maps to the second from which it is no longer visible. */
  datatype Db = Db(blocks: map<ID, Block>, trav: Trav, tombs: map<ID, nat>)

  const EMPTY: Db := Db(map[], map[], map[])

  predicate Tombstoned(db: Db, now: nat, id: ID) {
    id in db.tombs && now < db.tombs[id]
  }

  /** Has: a live block, or a tombstone that makes it count as seen. */
  predicate Has(db: Db, now: nat, id: ID) {
    id in db.blocks || Tombstoned(db, now, id)
  }

  predicate HoldsAt(db: Db, id: ID, wf: WorkFactor) {
    id in db.blocks && db.blocks[id].wf >= wf
  }

  function KeyOf(id: ID, b: Block): TravKey {
    TravKey(b.createdAt, id)
  }

  function ValOf(b: Block): TravVal {
    TravVal(b.wf, b.tag)
  }

  function RefOf(id: ID, b: Block): BlockRef {
    BlockRef(KeyOf(id, b), ValOf(b))
  }

  /** The traversal keys are exactly one per block, with its time, work factor and tag. */
  ghost predicate Indexes(t: Trav, blocks: map<ID, Block>) {
    && (forall id :: id in blocks ==> KeyOf(id, blocks[id]) in t && t[KeyOf(id, blocks[id])] == ValOf(blocks[id]))
    && (forall k :: k in t ==> k.id in blocks && k == KeyOf(k.id, blocks[k.id]))
  }

  /** A stored block is what its bytes say it is, and was created by now. */
  predicate Genuine(env: Env, id: ID, b: Block, now: nat) {
    id == env.computeID(b.payload) && b.wf == env.workFactor(b.stamp, b.payload) && b.createdAt <= now
  }

  ghost predicate RepInv(env: Env, db: Db, now: nat) {
    && Indexes(db.trav, db.blocks)
    && (forall id :: id in db.blocks ==> Genuine(env, id, db.blocks[id], now))
    && (forall id :: id in db.blocks ==> !Tombstoned(db, now, id))
  }

  /** Whether Put would store the block: no visible tombstone, and nothing as good held. */
  predicate Accepts(env: Env, db: Db, now: nat, stamp: Stamp, payload: Payload) {
    var id := env.computeID(payload);
    !Tombstoned(db, now, id) && !HoldsAt(db, id, env.workFactor(stamp, payload))
  }

  /** The transaction inside Put, committed at `now` by a call that read the clock at `at`: the
      old traversal key goes, the new one carries `at`. */
  function CommitTxn(env: Env, db: Db, now: nat, at: nat, stamp: Stamp, payload: Payload, tag: Tag): Db {
    if !Accepts(env, db, now, stamp, payload) then db else
      var id := env.computeID(payload);
      var wf := env.workFactor(stamp, payload);
      var trav := if id in db.blocks then db.trav - {KeyOf(id, db.blocks[id])} else db.trav;
      Db(db.blocks[id := Block(stamp, payload, wf, at, tag)],
         trav[TravKey(at, id) := TravVal(wf, tag)],
         db.tombs)
  }

  /** A Put that nothing else runs between its clock reading and its commit. */
  function PutTxn(env: Env, db: Db, now: nat, stamp: Stamp, payload: Payload, tag: Tag): Db {
    CommitTxn(env, db, now, now, stamp, payload, tag)
  }

  /** The transaction that evicts one block, by what an earlier scan saw of it. */
  function DropTxn(env: Env, db: Db, now: nat, id: ID, createdAt: nat, wf: WorkFactor): Db {
    Db(db.blocks - {id}, db.trav - {TravKey(createdAt, id)}, db.tombs[id := now + 2 * env.ttl(wf)])
  }

  /** That transaction on a block that is still as it was scanned. */
  function EvictTxn(env: Env, db: Db, now: nat, id: ID): Db
    requires id in db.blocks
  {
    DropTxn(env, db, now, id, db.blocks[id].createdAt, db.blocks[id].wf)
  }

  ghost function KeysOf(blocks: map<ID, Block>, ids: set<ID>): set<TravKey>
    requires ids <= blocks.Keys
  {
    set id | id in ids :: KeyOf(id, blocks[id])
  }

  ghost function TombsOf(env: Env, now: nat, blocks: map<ID, Block>, ids: set<ID>): map<ID, nat>
    requires ids <= blocks.Keys
  {
    map id | id in ids :: now + 2 * env.ttl(blocks[id].wf)
  }

  /** The database after all of `victims` are evicted at time now. */
  ghost function EvictAll(env: Env, db: Db, now: nat, victims: set<ID>): Db
    requires victims <= db.blocks.Keys
  {
    Db(db.blocks - victims,
       db.trav - KeysOf(db.blocks, victims),
       db.tombs + TombsOf(env, now, db.blocks, victims))
  }

  lemma CommitKeepsRep(env: Env, db: Db, now: nat, at: nat, stamp: Stamp, payload: Payload, tag: Tag)
    requires RepInv(env, db, now) && at <= now
    ensures RepInv(env, CommitTxn(env, db, now, at, stamp, payload, tag), now)
  {
    if Accepts(env, db, now, stamp, payload) {
      var db' := CommitTxn(env, db, now, at, stamp, payload, tag);
      var put := env.computeID(payload);
      forall id | id in db'.blocks
        ensures KeyOf(id, db'.blocks[id]) in db'.trav && db'.trav[KeyOf(id, db'.blocks[id])] == ValOf(db'.blocks[id])
      {
        assert id != put ==> id in db.blocks;
      }
      assert Indexes(db'.trav, db'.blocks);
    }
  }

  lemma PutKeepsRep(env: Env, db: Db, now: nat, stamp: Stamp, payload: Payload, tag: Tag)
    requires RepInv(env, db, now)
    ensures RepInv(env, PutTxn(env, db, now, stamp, payload, tag), now)
  {
    CommitKeepsRep(env, db, now, now, stamp, payload, tag);
  }

  /** A commit touches no other id, and the committed one only if it is accepted. */
  lemma CommitWrites(env: Env, db: Db, now: nat, at: nat, stamp: Stamp, payload: Payload, tag: Tag, id: ID)
    ensures var db' := CommitTxn(env, db, now, at, stamp, payload, tag);
            if && id == env.computeID(payload) && !(id in db.tombs && now < db.tombs[id])
               && !(id in db.blocks && db.blocks[id].wf >= env.workFactor(stamp, payload))
            then id in db'.blocks && db'.blocks[id] == Block(stamp, payload, env.workFactor(stamp, payload), at, tag)
            else (id in db'.blocks <==> id in db.blocks) && (id in db.blocks ==> db'.blocks[id] == db.blocks[id])
  {}

  /** What a commit can and cannot do: only the offered id changes, to exactly the offered work
      factor; no block loses work; and unless barred, the offered id ends up held. */
  lemma CommitEffect(env: Env, db: Db, now: nat, at: nat, stamp: Stamp, payload: Payload, tag: Tag)
    ensures var id := env.computeID(payload);
            var wf := env.workFactor(stamp, payload);
            var db' := CommitTxn(env, db, now, at, stamp, payload, tag);
            && db'.tombs == db.tombs
            && (forall i :: i in db.blocks ==> i in db'.blocks && db'.blocks[i].wf >= db.blocks[i].wf)
            && (forall i :: i in db'.blocks ==>
                  (i in db.blocks && db'.blocks[i] == db.blocks[i]) || (i == id && db'.blocks[i].wf == wf))
            && ((id in db.tombs && now < db.tombs[id]) || (id in db'.blocks && db'.blocks[id].wf >= wf))
  {}

  /** An eviction takes its victims away and leaves each a tombstone for twice its lifetime; it
      touches no other id. */
  lemma EvictWrites(env: Env, db: Db, now: nat, victims: set<ID>, id: ID)
    requires victims <= db.blocks.Keys
    ensures var db' := EvictAll(env, db, now, victims);
            if id in victims
            then id !in db'.blocks && id in db'.tombs && db'.tombs[id] == now + 2 * env.ttl(db.blocks[id].wf)
            else && (id in db'.blocks <==> id in db.blocks) && (id in db.blocks ==> db'.blocks[id] == db.blocks[id])
                 && (id in db'.tombs <==> id in db.tombs) && (id in db.tombs ==> db'.tombs[id] == db.tombs[id])
  {}

  lemma EvictKeepsRep(env: Env, db: Db, now: nat, victims: set<ID>)
    requires RepInv(env, db, now) && victims <= db.blocks.Keys
    ensures RepInv(env, EvictAll(env, db, now, victims), now)
  {
    var db' := EvictAll(env, db, now, victims);
    forall id | id in db'.blocks
      ensures KeyOf(id, db'.blocks[id]) in db'.trav && db'.trav[KeyOf(id, db'.blocks[id])] == ValOf(db'.blocks[id])
    {
      assert id in db.blocks && db'.blocks[id] == db.blocks[id];
    }
    forall k | k in db'.trav ensures k.id in db'.blocks && k == KeyOf(k.id, db'.blocks[k.id]) {
      assert k == KeyOf(k.id, db.blocks[k.id]);
    }
    assert Indexes(db'.trav, db'.blocks);
  }

  /** Evicting one more block is one more transaction. */
  lemma EvictOneMore(env: Env, db: Db, now: nat, victims: set<ID>, id: ID)
    requires victims <= db.blocks.Keys && id in db.blocks && id !in victims
    ensures EvictTxn(env, EvictAll(env, db, now, victims), now, id) == EvictAll(env, db, now, victims + {id})
  {
    MinusOneMore(db.blocks, victims, id);
    MinusOneMore(db.trav, KeysOf(db.blocks, victims), KeyOf(id, db.blocks[id]));
    assert KeysOf(db.blocks, victims + {id}) == KeysOf(db.blocks, victims) + {KeyOf(id, db.blocks[id])};
    var t := now + 2 * env.ttl(db.blocks[id].wf);
    assert TombsOf(env, now, db.blocks, victims + {id}) == TombsOf(env, now, db.blocks, victims)[id := t];
    PlusOneMore(db.tombs, TombsOf(env, now, db.blocks, victims), id, t);
  }

  lemma MinusOneMore<K, V>(m: map<K, V>, ks: set<K>, k: K)
    ensures m - ks - {k} == m - (ks + {k})
  {}

  lemma PlusOneMore<K, V>(m: map<K, V>, n: map<K, V>, k: K, v: V)
    ensures (m + n)[k := v] == m + n[k := v]
  {}

  /** The scan and the delete of Evict are separate transactions. If the database changed in
      between, the delete keeps the representation invariant exactly when the block is gone or
      still carries the creation time the scan saw. */
  lemma StaleDrop(env: Env, db: Db, now: nat, id: ID, createdAt: nat, wf: WorkFactor)
    requires RepInv(env, db, now)
    ensures RepInv(env, DropTxn(env, db, now, id, createdAt, wf), now) <==>
              (id in db.blocks ==> db.blocks[id].createdAt == createdAt)
  {
    var db' := DropTxn(env, db, now, id, createdAt, wf);
    if id in db.blocks && db.blocks[id].createdAt != createdAt {
      assert KeyOf(id, db.blocks[id]) in db'.trav;
    } else {
      forall i | i in db'.blocks
        ensures KeyOf(i, db'.blocks[i]) in db'.trav && db'.trav[KeyOf(i, db'.blocks[i])] == ValOf(db'.blocks[i])
      {
        assert i in db.blocks && db'.blocks[i] == db.blocks[i];
      }
      forall k | k in db'.trav ensures k.id in db'.blocks && k == KeyOf(k.id, db'.blocks[k.id]) {
        assert k == KeyOf(k.id, db.blocks[k.id]);
      }
      assert Indexes(db'.trav, db'.blocks);
    }
  }

  /** So an upgrading Put that slips in between, in a later second, leaves its traversal key
      behind as an orphan. */
  lemma UpgradeLeavesOrphan(env: Env, scanned: Db, now: nat, stamp: Stamp, payload: Payload, tag: Tag)
    requires RepInv(env, scanned, now) && Accepts(env, scanned, now, stamp, payload)
    requires env.computeID(payload) in scanned.blocks && scanned.blocks[env.computeID(payload)].createdAt < now
    ensures var id := env.computeID(payload);
            var b := scanned.blocks[id];
            var db' := DropTxn(env, PutTxn(env, scanned, now, stamp, payload, tag), now, id, b.createdAt, b.wf);
            TravKey(now, id) in db'.trav && id !in db'.blocks && !RepInv(env, db', now)
  {}

  /** The representation invariant, written out. */
  lemma RepMeans(env: Env, db: Db, now: nat, id: ID, k: TravKey)
    requires RepInv(env, db, now)
    ensures id in db.blocks ==>
              var b := db.blocks[id];
              && TravKey(b.createdAt, id) in db.trav && db.trav[TravKey(b.createdAt, id)] == TravVal(b.wf, b.tag)
              && id == env.computeID(b.payload) && b.wf == env.workFactor(b.stamp, b.payload) && b.createdAt <= now
              && (id in db.tombs ==> db.tombs[id] <= now)
    ensures k in db.trav ==> k.id in db.blocks && db.blocks[k.id].createdAt == k.createdAt
  {}

  /** Letting time pass only hides tombstones. */
  lemma TickKeepsRep(env: Env, db: Db, now: nat, later: nat)
    requires RepInv(env, db, now) && now <= later
    ensures RepInv(env, db, later)
  {}
}
