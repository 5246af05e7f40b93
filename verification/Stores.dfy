/** The Store interface, as the two implementations that are synchronised with each other. What
    a store holds is spoken of as a database: of a directory of files, the one it represents. */
module Stores {
  import opened Types
  import opened Database
  import opened Listing
  import opened Badger
  import opened FlatFile

  datatype Store = OnBadger(b: BadgerStore) | OnFiles(f: FlatFileStore)

  function EnvOf(s: Store): Env {
    match s
    case OnBadger(b) => b.env
    case OnFiles(f) => f.env
  }

  ghost function Footprint(s: Store): set<object> {
    match s
    case OnBadger(b) => {b}
    case OnFiles(f) => {f}
  }

  /** Puts never evict. */
  predicate Unlimited(s: Store) {
    match s
    case OnBadger(b) => b.storageLimit == 0
    case OnFiles(f) => f.storageLimit == 0
  }

  /** The store holds db. */
  ghost predicate Holds(s: Store, db: Db, now: nat)
    reads Footprint(s)
  {
    && RepInv(EnvOf(s), db, now)
    && match s
       case OnBadger(b) => b.Model() == db
       case OnFiles(f) => Represents(f.files, db)
  }

  ghost predicate IsRefPage(t: Trav, q: Query, cur: Option<TravKey>, limit: nat, refs: seq<FlatRef>,
                            next: Option<TravKey>) {
    exists page :: IsPage(t, q, cur, limit, page, next) && refs == Strip(page)
  }

  /** The ids that a listing leaves out: in a directory, those whose header cannot be read. */
  function Unlisted(s: Store, header: set<ID>): set<ID> {
    if s.OnFiles? then header else {}
  }

  /** ListBlocks, as far as every store supports it: ids and work factors. `header` are the ids
      whose header cannot be read. */
  method ListRefs(s: Store, header: set<ID>, token: Option<TravKey>, limit: nat, floor: int, since: int,
                  ghost db: Db, ghost now: nat)
    returns (next: Option<TravKey>, refs: seq<FlatRef>)
    requires Holds(s, db, now) && limit >= 1
    ensures IsRefPage(WithoutIds(db.trav, Unlisted(s, header)), Query(floor, since), token, limit, refs, next)
  {
    match s
    case OnBadger(b) =>
      var page;
      next, page := b.ListBlocks(token, limit, floor, since);
      refs := Strip(page);
      assert WithoutIds(db.trav, {}) == db.trav;
    case OnFiles(f) =>
      next, refs := FlatFile.ListBlocks(f.files, header, token, limit, floor, since);
      ViewWithout(db.trav, f.files, header);
  }

  method Get(s: Store, id: ID, ghost db: Db, ghost now: nat) returns (found: Option<(Stamp, Payload)>)
    requires Holds(s, db, now)
    ensures found == if id in db.blocks then Some((db.blocks[id].stamp, db.blocks[id].payload)) else None
  {
    match s
    case OnBadger(b) => found := b.Get(id);
    case OnFiles(f) => found := f.Get(id);
  }

  method GetWorkFactor(s: Store, id: ID, ghost db: Db, ghost now: nat) returns (wf: Option<WorkFactor>)
    requires Holds(s, db, now)
    ensures wf == if id in db.blocks then Some(db.blocks[id].wf) else None
  {
    match s
    case OnBadger(b) => wf := b.GetWorkFactor(id);
    case OnFiles(f) => wf := f.GetWorkFactor(id);
  }

  method HasBlock(s: Store, id: ID, now: nat, ghost db: Db) returns (seen: bool)
    requires Holds(s, db, now)
    ensures seen == Has(db, now, id)
  {
    match s
    case OnBadger(b) => seen := b.Has(id, now);
    case OnFiles(f) => seen := f.Has(id);
  }

  /** Put into a store without a limit is the Put transaction on what it holds. */
  method Put(s: Store, stamp: Stamp, payload: Payload, now: nat, size: nat, ghost db: Db) returns (ghost db': Db)
    requires Holds(s, db, now) && Unlimited(s)
    modifies Footprint(s)
    ensures db' == PutTxn(EnvOf(s), db, now, stamp, payload, TAG_PHYSICAL) && Holds(s, db', now)
  {
    db' := PutTxn(EnvOf(s), db, now, stamp, payload, TAG_PHYSICAL);
    PutKeepsRep(EnvOf(s), db, now, stamp, payload, TAG_PHYSICAL);
    match s
    case OnBadger(b) =>
      var id, victims := b.Put(stamp, payload, TAG_PHYSICAL, now, size);
      EvictNone(b.env, db', now);
    case OnFiles(f) =>
      PutRefines(f.env, f.files, db, stamp, payload, now);
      var id, wrote, gone := f.Put(stamp, payload, now, {});
  }
}
