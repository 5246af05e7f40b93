/** FlatFileStore: one file per block, a second implementation of the listing contract. */
module FlatFile {
  import opened Types
  import opened Listing
  import opened Sorting
  import opened Database
  import opened SetSize

  /** stamp[4] | wf[4] | created_at[8] | expires_at[8] | payload[4096] */
  const FILE_SIZE: nat := 4120

  datatype File = File(stamp: Stamp, payload: Payload, wf: WorkFactor, createdAt: nat, expiresAt: nat)

  type Files = map<ID, File>

  /** What a flat-file ref carries: no creation time and no tag. */
  datatype FlatRef = FlatRef(id: ID, wf: WorkFactor)

  function Usage(files: Files): nat {
    |files| * FILE_SIZE
  }

  // ---- Eviction ----

  /** No file that stays expires strictly before one that goes. */
  ghost predicate SoonestGone(files: Files, gone: set<ID>) {
    forall v, s :: v in gone && v in files && s in files && s !in gone ==> files[v].expiresAt <= files[s].expiresAt
  }

  function FileExpiry(files: Files): ID -> int {
    id => if id in files then files[id].expiresAt else 0
  }

  ghost function FirstIds(ids: seq<ID>, n: nat): set<ID>
    requires n <= |ids|
  {
    set i | 0 <= i < n :: ids[i]
  }

  lemma FirstIdsNext(ids: seq<ID>, n: nat)
    requires n < |ids| && forall i, j :: 0 <= i < j < |ids| ==> ids[i] != ids[j]
    ensures FirstIds(ids, n + 1) == FirstIds(ids, n) + {ids[n]} && ids[n] !in FirstIds(ids, n)
  {}

  lemma FirstGone(files: Files, ids: seq<ID>, n: nat)
    requires n <= |ids| && Lists(ids, files.Keys) && SortedBy(ids, FileExpiry(files))
    ensures SoonestGone(files, FirstIds(ids, n))
  {
    ListsFacts(ids, files.Keys);
    forall v, s | v in FirstIds(ids, n) && v in files && s in files && s !in FirstIds(ids, n)
      ensures files[v].expiresAt <= files[s].expiresAt
    {
      var i :| 0 <= i < n && ids[i] == v;
      var j :| 0 <= j < |ids| && ids[j] == s;
      assert FileExpiry(files)(ids[i]) <= FileExpiry(files)(ids[j]);
    }
  }

  class FlatFileStore {
    const env: Env
    const storageLimit: nat
    var files: Files

    constructor (env: Env, storageLimit: nat)
      ensures this.env == env && this.storageLimit == storageLimit && files == map[]
    {
      this.env, this.storageLimit, files := env, storageLimit, map[];
    }

    /** Every file holds what its name and header say. */
    ghost predicate Valid(now: nat)
      reads this
    {
      forall id :: id in files ==> Genuine(env, id, AsBlock(files[id]), now)
    }

    method Get(id: ID) returns (found: Option<(Stamp, Payload)>)
      ensures found == if id in files then Some((files[id].stamp, files[id].payload)) else None
    {
      if id !in files {
        return None;
      }
      found := Some((files[id].stamp, files[id].payload));
    }

    method GetWorkFactor(id: ID) returns (wf: Option<WorkFactor>)
      ensures wf == if id in files then Some(files[id].wf) else None
    {
      if id !in files {
        return None;
      }
      wf := Some(files[id].wf);
    }

    method Has(id: ID) returns (seen: bool)
      ensures seen == (id in files)
    {
      seen := id in files;
    }

    /** Removes up to n files, soonest logical expiry first. Files whose header cannot be read,
        those of `bad`, are passed over. */
    method Evict(n: int, bad: set<ID>) returns (evicted: nat, ghost gone: set<ID>)
      modifies `files
      ensures gone <= old(files).Keys - bad && files == old(files) - gone
      ensures evicted == |gone| == if n <= 0 then 0 else Min(n, |old(files).Keys - bad|)
      ensures SoonestGone(old(files) - bad, gone)
      ensures forall v, s :: v in gone && s in files && s !in bad ==> old(files)[v].expiresAt <= files[s].expiresAt
    {
      evicted, gone := 0, {};
      if n <= 0 {
        return;
      }
      var readable := files - bad;
      var list := ListSet(readable.Keys);
      var all := SortSlice(list, FileExpiry(readable));
      ListsFacts(all, readable.Keys);
      evicted, gone := RemoveFirst(all, n);
      FirstGone(readable, all, evicted);
    }

    method RemoveFirst(all: seq<ID>, n: nat) returns (evicted: nat, ghost gone: set<ID>)
      requires forall i, j :: 0 <= i < j < |all| ==> all[i] != all[j]
      modifies `files
      ensures evicted == |gone| == Min(n, |all|) && gone == FirstIds(all, evicted)
      ensures files == old(files) - gone
    {
      evicted, gone := 0, {};
      while evicted < |all| && evicted < n
        invariant evicted == |gone| <= |all| && evicted <= n && gone == FirstIds(all, evicted)
        invariant files == old(files) - gone
      {
        FirstIdsNext(all, evicted);
        MinusOneMore(old(files), gone, all[evicted]);
        files := files - {all[evicted]};
        gone := gone + {all[evicted]};
        evicted := evicted + 1;
      }
    }

    /** Evicts when usage has reached the limit. What cannot be read stays and counts. */
    method MakeRoom(bad: set<ID>) returns (ghost gone: set<ID>)
      requires storageLimit > 0
      modifies `files
      ensures gone <= old(files).Keys - bad && files == old(files) - gone && SoonestGone(old(files) - bad, gone)
      ensures |gone| == if |old(files)| * 4120 < storageLimit then 0
                        else Min((|old(files)| * 4120 - storageLimit) / 4120 + 11, |old(files).Keys - bad|)
      ensures Room(old(files).Keys, bad, files.Keys, storageLimit)
    {
      gone := {};
      var usage := Usage(files);
      if usage >= storageLimit {
        var needed := (usage - storageLimit) / FILE_SIZE + 10 + 1;
        var evicted;
        evicted, gone := Evict(needed, bad);
      }
      assert (old(files) - gone).Keys == old(files).Keys - gone;
      RoomMade(old(files).Keys, bad, gone, storageLimit);
    }

    /** Put: keeps an equally good file that it can read, evicts when usage has reached the limit,
        then writes. A put that writes leaves usage below the limit plus one file, whatever it was
        before, if and only if the files that cannot be read would leave it there on their own;
        and within a limit that is a whole number of files likewise. */
    method Put(stamp: Stamp, payload: Payload, now: nat, bad: set<ID>)
      returns (id: ID, wrote: bool, ghost gone: set<ID>)
      modifies `files
      ensures id == env.computeID(payload)
      ensures var wf := env.workFactor(stamp, payload);
              && wrote == !(id in old(files) && id !in bad && old(files)[id].wf >= wf)
              && gone <= old(files).Keys - bad && SoonestGone(old(files) - bad, gone)
              && (storageLimit == 0 || |old(files)| * 4120 < storageLimit || !wrote ==> gone == {})
              && (!wrote ==> files == old(files))
              && (wrote ==> files == (old(files) - gone)[id := File(stamp, payload, wf, now, now + env.ttl(wf))])
      ensures storageLimit == 0 && id !in bad ==> files == Written(env, old(files), stamp, payload, now)
      ensures wrote && storageLimit > 0 ==>
                Bounded(|old(files).Keys * bad + {id}|, |files|, storageLimit)
    {
      id := env.computeID(payload);
      var wf := env.workFactor(stamp, payload);
      gone := {};
      wrote := !(id in files && id !in bad && files[id].wf >= wf);
      if wrote {
        gone := Replace(id, File(stamp, payload, wf, now, now + env.ttl(wf)), bad);
      }
    }

    /** The part of Put that writes. */
    method Replace(id: ID, f: File, bad: set<ID>) returns (ghost gone: set<ID>)
      modifies `files
      ensures gone <= old(files).Keys - bad && SoonestGone(old(files) - bad, gone)
      ensures files == (old(files) - gone)[id := f]
      ensures storageLimit == 0 || Usage(old(files)) < storageLimit ==> gone == {} && files == old(files)[id := f]
      ensures storageLimit > 0 ==> Bounded(|old(files).Keys * bad + {id}|, |files|, storageLimit)
    {
      gone := {};
      if storageLimit > 0 {
        gone := MakeRoom(bad);
        RoomUsed(old(files).Keys, bad, files.Keys, id, storageLimit);
      }
      assert gone == {} ==> old(files) - gone == old(files);
      WriteFile(id, f);
    }

    method WriteFile(id: ID, f: File)
      modifies `files
      ensures files == old(files)[id := f] && files.Keys == old(files).Keys + {id}
      ensures |files| == |old(files).Keys + {id}|
    {
      files := files[id := f];
      assert files.Keys == old(files).Keys + {id};
    }
  }

  /** `after` files are within a limit plus one file, or a limit that is a whole number of files,
      exactly when `fixed` of them are. */
  predicate Bounded(fixed: nat, after: nat, limit: nat) {
    && (after * 4120 < limit + 4120 <==> fixed * 4120 < limit + 4120)
    && (limit % 4120 == 0 ==> (after * 4120 <= limit <==> fixed * 4120 <= limit))
  }

  /** Of the ids `all`, `rest` are left: below the limit, with room for a file if it is a whole
      number of files, unless the unreadable ones alone fill it; then only they are left. */
  ghost predicate Room(all: set<ID>, bad: set<ID>, rest: set<ID>, limit: nat) {
    && all * bad <= rest <= all
    && if |all * bad| * 4120 >= limit then rest == all * bad
       else |rest| * 4120 < limit && (limit % 4120 == 0 ==> |rest| * 4120 + 4120 <= limit)
  }

  /** The batch of eleven is more than enough room for one file. */
  lemma RoomMade(all: set<ID>, bad: set<ID>, gone: set<ID>, limit: nat)
    requires limit > 0 && gone <= all - bad
    requires |gone| == if |all| * FILE_SIZE < limit then 0
                       else Min((|all| * FILE_SIZE - limit) / FILE_SIZE + 10 + 1, |all - bad|)
    ensures Room(all, bad, all - gone, limit)
  {
    Parts(all, bad);
    Parts(all, gone);
    assert all * gone == gone;
    RoomFor(|all|, |all * bad|, |gone|, limit);
    if |all * bad| * FILE_SIZE >= limit {
      SameSize(gone, all - bad);
      assert all - gone == all * bad;
    }
  }

  lemma Parts(all: set<ID>, some: set<ID>)
    ensures |all| == |all * some| + |all - some|
  {
    assert all == all * some + (all - some);
  }

  lemma RoomFor(count: nat, stuck: nat, gone: nat, limit: nat)
    requires limit > 0 && stuck <= count
    requires gone == if count * FILE_SIZE < limit then 0
                     else Min((count * FILE_SIZE - limit) / FILE_SIZE + 10 + 1, count - stuck)
    ensures stuck * FILE_SIZE >= limit ==> gone == count - stuck
    ensures stuck * FILE_SIZE < limit ==> (count - gone) * FILE_SIZE < limit
    ensures stuck * FILE_SIZE < limit && limit % FILE_SIZE == 0 ==> (count - gone) * FILE_SIZE + FILE_SIZE <= limit
  {
    if count * FILE_SIZE >= limit {
      var q := (count * FILE_SIZE - limit) / FILE_SIZE;
      assert q * FILE_SIZE <= count * FILE_SIZE - limit < (q + 1) * FILE_SIZE;
    }
  }

  lemma RoomUsed(all: set<ID>, bad: set<ID>, rest: set<ID>, id: ID, limit: nat)
    requires limit > 0 && Room(all, bad, rest, limit)
    ensures Bounded(|all * bad + {id}|, |rest + {id}|, limit)
  {
    SubsetSize(all * bad + {id}, rest + {id});
    assert |rest + {id}| <= |rest| + 1;
  }

  // ---- Listing ----

  function FileKey(id: ID, f: File): TravKey {
    TravKey(f.createdAt, id)
  }

  ghost predicate IsView(t: Trav, files: Files) {
    && (forall k :: k in t <==> k.id in files && files[k.id].createdAt == k.createdAt)
    && (forall k :: k in t ==> t[k] == TravVal(files[k.id].wf, TAG_PHYSICAL))
  }

  /** The files as traversal entries (a flat file has no tag). */
  ghost function View(files: Files): (t: Trav)
    ensures IsView(t, files)
  {
    var t := map id | id in files :: FileKey(id, files[id]) := TravVal(files[id].wf, TAG_PHYSICAL);
    assert forall k: TravKey :: k.id in files && files[k.id].createdAt == k.createdAt ==>
             k == FileKey(k.id, files[k.id]);
    t
  }

  /** The walk over the directory: the files that meet the floor and the time, in any order. A
      file whose header cannot be read, one of `bad`, is passed over without a word. */
  method WalkDir(files: Files, bad: set<ID>, floor: int, since: int) returns (entries: map<TravKey, WorkFactor>)
    ensures var t := View(files - bad);
            && (forall k :: k in entries <==> k in t && Qualifies(Query(floor, since), k, t[k]))
            && (forall k :: k in entries ==> entries[k] == t[k].wf)
  {
    entries := map[];
    var todo := files.Keys;
    while todo != {}
      invariant todo <= files.Keys && Seen(View(files - bad), Query(floor, since), todo, entries)
      decreases todo
    {
      var id :| id in todo;
      var f := files[id];
      SeenMore(files, bad, Query(floor, since), todo, entries, id);
      todo := todo - {id};
      if id in bad || f.wf < floor || f.createdAt < since {
        continue;
      }
      entries := entries[FileKey(id, f) := f.wf];
    }
  }

  /** The walk has `todo` ahead of it and has collected `entries`. */
  ghost predicate Seen(t: Trav, q: Query, todo: set<ID>, entries: map<TravKey, WorkFactor>) {
    && (forall k :: k in entries <==> k in t && k.id !in todo && Qualifies(q, k, t[k]))
    && (forall k :: k in entries ==> entries[k] == t[k].wf)
  }

  lemma SeenMore(files: Files, bad: set<ID>, q: Query, todo: set<ID>, entries: map<TravKey, WorkFactor>, id: ID)
    requires todo <= files.Keys && id in todo && Seen(View(files - bad), q, todo, entries)
    ensures var f := files[id];
            var passed := id in bad || f.wf < q.floor || f.createdAt < q.since;
            Seen(View(files - bad), q, todo - {id}, if passed then entries else entries[FileKey(id, f) := f.wf])
  {}

  /** The entries that a page after the cursor may show, as the loop sees them. */
  ghost function Eligible(t: Trav, q: Query, cur: Option<TravKey>): Trav {
    map k | k in t && Wanted(t, q, cur, k) :: t[k]
  }

  /** `refs` and `next` are the page of a request, without times and tags. */
  ghost predicate IsFlatPage(files: Files, q: Query, cur: Option<TravKey>, limit: nat,
                             refs: seq<FlatRef>, next: Option<TravKey>)
  {
    exists page :: IsPage(View(files), q, cur, limit, page, next) && refs == Strip(page)
  }

  /** Filter, sort by (created_at, id), skip to the cursor, stop at the limit. A limit below 1 is
      never reached, so the whole rest is listed. Files of `bad`, whose header cannot be read,
      are not listed. */
  method ListBlocks(files: Files, bad: set<ID>, token: Option<TravKey>, limit: int, floor: int, since: int)
    returns (next: Option<TravKey>, refs: seq<FlatRef>)
    ensures limit >= 1 ==> IsFlatPage(files - bad, Query(floor, since), token, limit, refs, next)
    ensures limit < 1 ==> IsFlatPage(files - bad, Query(floor, since), token, |refs| + 1, refs, None)
    ensures limit < 1 ==> next == if limit == 0 && refs == [] then Some(TravKey(0, 0)) else None
  {
    var entries, keys := WalkSorted(files, bad, floor, since);
    next, refs := PageOf(files - bad, Query(floor, since), token, limit, entries, keys);
  }

  method PageOf(ghost files: Files, ghost q: Query, token: Option<TravKey>, limit: int,
                entries: map<TravKey, WorkFactor>, keys: seq<TravKey>)
    returns (next: Option<TravKey>, refs: seq<FlatRef>)
    requires Walked(View(files), q, entries, keys)
    ensures limit >= 1 ==> IsFlatPage(files, q, token, limit, refs, next)
    ensures limit < 1 ==> IsFlatPage(files, q, token, |refs| + 1, refs, None)
    ensures limit < 1 ==> next == if limit == 0 && refs == [] then Some(TravKey(0, 0)) else None
  {
    EntriesFit(View(files), q, token, entries, keys);
    var g := SkipAndTake(Eligible(View(files), q, token), q, token, limit, entries, keys);
    refs := g.refs;
    next := if |refs| == limit then Some(g.last) else None;
    TakenIsFlatPage(files, q, token, entries, keys, limit);
  }

  /** keys are the qualifying files in order, entries their work factors. */
  ghost predicate Walked(t: Trav, q: Query, entries: map<TravKey, WorkFactor>, keys: seq<TravKey>) {
    && Ascending(keys) && (forall k :: k in keys <==> k in t && Qualifies(q, k, t[k]))
    && (forall k :: k in keys ==> k in entries && entries[k] == t[k].wf)
  }

  method WalkSorted(files: Files, bad: set<ID>, floor: int, since: int)
    returns (entries: map<TravKey, WorkFactor>, keys: seq<TravKey>)
    ensures Walked(View(files - bad), Query(floor, since), entries, keys)
  {
    entries := WalkDir(files, bad, floor, since);
    keys := SortKeys(entries);
  }

  lemma EntriesFit(t: Trav, q: Query, cur: Option<TravKey>, entries: map<TravKey, WorkFactor>, keys: seq<TravKey>)
    requires Walked(t, q, entries, keys)
    ensures forall i :: 0 <= i < |keys| ==> Fit(Eligible(t, q, cur), q, cur, entries, keys[i])
  {
    forall i | 0 <= i < |keys| ensures Fit(Eligible(t, q, cur), q, cur, entries, keys[i]) {
      assert keys[i] in keys;
    }
  }

  lemma TakenIsFlatPage(files: Files, q: Query, cur: Option<TravKey>, entries: map<TravKey, WorkFactor>,
                        keys: seq<TravKey>, limit: int)
    requires Walked(View(files), q, entries, keys)
    requires |Collect(Eligible(View(files), q, cur), q, keys, 0, if limit >= 1 then limit else |keys| + 1)| <= |keys|
    ensures var page := Collect(Eligible(View(files), q, cur), q, keys, 0, if limit >= 1 then limit else |keys| + 1);
            var g := Gather(page);
            && (limit >= 1 ==> IsFlatPage(files, q, cur, limit, g.refs, if |page| == limit then Some(g.last) else None))
            && (limit < 1 ==> IsFlatPage(files, q, cur, |page| + 1, g.refs, None))
  {
    var cap: nat := if limit >= 1 then limit else |keys| + 1;
    var page := Collect(Eligible(View(files), q, cur), q, keys, 0, cap);
    TakenIsPage(View(files), q, cur, keys, cap);
    if limit < 1 { AnyLargerLimit(View(files), q, cur, cap, page, |page| + 1); }
  }

  /** A page that is not full is the page for every limit it stays below. */
  lemma AnyLargerLimit(t: Trav, q: Query, cur: Option<TravKey>, limit: nat, page: seq<BlockRef>, limit': nat)
    requires IsPage(t, q, cur, limit, page, None) && |page| < limit && |page| < limit'
    ensures IsPage(t, q, cur, limit', page, None)
  {}

  function Strip(page: seq<BlockRef>): seq<FlatRef> {
    seq(|page|, i requires 0 <= i < |page| => FlatRef(page[i].key.id, page[i].val.wf))
  }

  method SortKeys(entries: map<TravKey, WorkFactor>) returns (keys: seq<TravKey>)
    ensures Ascending(keys) && forall k :: k in keys <==> k in entries
  {
    var list := ListSet(entries.Keys);
    keys := SortSlice(list, Rank);
    ListsFacts(keys, entries.Keys);
    forall i, j | 0 <= i < j < |keys| ensures KeyLess(keys[i], keys[j]) {
      assert Rank(keys[i]) <= Rank(keys[j]) && keys[i] != keys[j];
    }
  }

  /** What the loop over the sorted entries has gathered after `pos` of them: the refs and the
      key of the last, for the entries taken so far. */
  datatype Gathered = Gathered(refs: seq<FlatRef>, last: TravKey)

  ghost function Gather(page: seq<BlockRef>): Gathered {
    Gathered(Strip(page), if page == [] then TravKey(0, 0) else page[|page| - 1].key)
  }

  function Take(g: Gathered, k: TravKey, wf: WorkFactor): Gathered {
    Gathered(g.refs + [FlatRef(k.id, wf)], k)
  }

  lemma GatherMore(page: seq<BlockRef>, r: BlockRef)
    ensures Gather(page + [r]) == Take(Gather(page), r.key, r.val.wf)
  {}

  /** The loop has taken `page` and would take the rest of the list from here. */
  ghost predicate Taking(e: Trav, q: Query, keys: seq<TravKey>, pos: nat, cap: nat, page: seq<BlockRef>) {
    pos <= |keys| && |page| <= pos && page + Collect(e, q, keys, pos, cap - |page|) == Collect(e, q, keys, 0, cap)
  }

  lemma TakingNext(e: Trav, q: Query, keys: seq<TravKey>, pos: nat, cap: nat, page: seq<BlockRef>)
    requires pos < |keys| && |page| < cap && Taking(e, q, keys, pos, cap, page)
    ensures keys[pos] !in e ==> Taking(e, q, keys, pos + 1, cap, page)
    ensures keys[pos] in e && Qualifies(q, keys[pos], e[keys[pos]]) ==>
              Taking(e, q, keys, pos + 1, cap, page + [BlockRef(keys[pos], e[keys[pos]])])
  {
    if keys[pos] in e && Qualifies(q, keys[pos], e[keys[pos]]) {
      var r, rest := BlockRef(keys[pos], e[keys[pos]]), Collect(e, q, keys, pos + 1, cap - |page| - 1);
      assert page + ([r] + rest) == (page + [r]) + rest;
    }
  }

  lemma TakingDone(e: Trav, q: Query, keys: seq<TravKey>, pos: nat, cap: nat, page: seq<BlockRef>)
    requires Taking(e, q, keys, pos, cap, page) && (pos == |keys| || |page| == cap)
    ensures page == Collect(e, q, keys, 0, cap) && |page| <= |keys|
  {
    assert page + [] == page;
  }

  /** Each sorted entry is eligible exactly if it is after the cursor, and then as recorded. */
  ghost predicate Fit(e: Trav, q: Query, cur: Option<TravKey>, entries: map<TravKey, WorkFactor>, k: TravKey) {
    && k in entries && (k in e <==> After(cur, k))
    && (k in e ==> Qualifies(q, k, e[k]) && entries[k] == e[k].wf)
  }

  /** The loop over the sorted entries. */
  method SkipAndTake(ghost e: Trav, ghost q: Query, token: Option<TravKey>, limit: int,
                     entries: map<TravKey, WorkFactor>, keys: seq<TravKey>)
    returns (g: Gathered)
    requires forall i :: 0 <= i < |keys| ==> Fit(e, q, token, entries, keys[i])
    ensures var page := Collect(e, q, keys, 0, if limit >= 1 then limit else |keys| + 1);
            g == Gather(page) && |page| <= |keys|
  {
    g := Gathered([], TravKey(0, 0));
    ghost var page: seq<BlockRef> := [];
    ghost var cap: nat := if limit >= 1 then limit else |keys| + 1;
    var pos := 0;
    while pos < |keys|
      invariant Taking(e, q, keys, pos, cap, page) && |page| < cap && g == Gather(page)
    {
      var k := keys[pos];
      assert Fit(e, q, token, entries, k);
      TakingNext(e, q, keys, pos, cap, page);
      pos := pos + 1;
      if token.Some? && !KeyLess(token.value, k) {
        continue;
      }
      GatherMore(page, BlockRef(k, e[k]));
      page := page + [BlockRef(k, e[k])];
      g := Take(g, k, entries[k]);
      if |g.refs| == limit {
        break;
      }
    }
    TakingDone(e, q, keys, pos, cap, page);
  }

  lemma TakenIsPage(t: Trav, q: Query, cur: Option<TravKey>, keys: seq<TravKey>, limit: nat)
    requires Ascending(keys) && limit >= 1
    requires forall k :: k in keys <==> k in t && Qualifies(q, k, t[k])
    ensures var page := Collect(Eligible(t, q, cur), q, keys, 0, limit);
            IsPage(t, q, cur, limit, page, if |page| == limit then Some(page[|page| - 1].key) else None)
  {
    var e := Eligible(t, q, cur);
    var page := Collect(e, q, keys, 0, limit);
    CollectSound(e, q, keys, 0, limit);
    forall k | Wanted(t, q, cur, k) && BlockRef(k, t[k]) !in page
      ensures |page| == limit && forall r :: r in page ==> KeyLess(r.key, k)
    {
      assert k in e && k in keys;
      var i :| 0 <= i < |keys| && keys[i] == k;
      CollectReaches(e, q, keys, 0, limit, i);
    }
  }

  // ---- The same store as Badger's, minus tags and tombstones ----

  function AsBlock(f: File): Block {
    Block(f.stamp, f.payload, f.wf, f.createdAt, TAG_PHYSICAL)
  }

  /** The directory read as a database: every tag the same, and no tombstones. */
  ghost predicate Represents(files: Files, db: Db) {
    && db.blocks.Keys == files.Keys && (forall id :: id in files ==> db.blocks[id] == AsBlock(files[id]))
    && IsView(db.trav, files) && db.tombs == map[]
  }

  /** Every directory represents some database. */
  lemma SomeDb(files: Files) returns (db: Db)
    ensures Represents(files, db)
  {
    db := Db(map id | id in files :: AsBlock(files[id]), View(files), map[]);
  }

  lemma ViewUnique(t: Trav, t': Trav, files: Files)
    requires IsView(t, files) && IsView(t', files)
    ensures t == t'
  {}

  /** Without some files, the entries are those of the other ids. */
  lemma ViewWithout(t: Trav, files: Files, bad: set<ID>)
    requires IsView(t, files)
    ensures WithoutIds(t, bad) == View(files - bad)
  {
    ViewUnique(WithoutIds(t, bad), View(files - bad), files - bad);
  }

  ghost function WithoutIds(t: Trav, ids: set<ID>): Trav {
    map k | k in t && k.id !in ids :: t[k]
  }

  /** Genuine files represent a database that satisfies the representation invariant. */
  lemma GenuineRep(env: Env, files: Files, db: Db, now: nat)
    requires Represents(files, db) && forall id :: id in files ==> Genuine(env, id, AsBlock(files[id]), now)
    ensures RepInv(env, db, now)
  {
    forall id | id in db.blocks ensures Genuine(env, id, db.blocks[id], now) { assert id in files; }
    assert Indexes(db.trav, db.blocks);
  }

  /** What Put leaves behind when no limit is set. */
  function Written(env: Env, files: Files, stamp: Stamp, payload: Payload, now: nat): Files {
    var id, wf := env.computeID(payload), env.workFactor(stamp, payload);
    if id in files && files[id].wf >= wf then files else files[id := File(stamp, payload, wf, now, now + env.ttl(wf))]
  }

  /** An unlimited flat-file Put is BadgerStore's Put transaction on that database. */
  lemma PutRefines(env: Env, files: Files, db: Db, stamp: Stamp, payload: Payload, now: nat)
    requires Represents(files, db)
    ensures Represents(Written(env, files, stamp, payload, now), PutTxn(env, db, now, stamp, payload, TAG_PHYSICAL))
  {
    var id, wf := env.computeID(payload), env.workFactor(stamp, payload);
    if !(id in files && files[id].wf >= wf) {
      var f := File(stamp, payload, wf, now, now + env.ttl(wf));
      MovedView(db.trav, files, id, f);
      assert PutTxn(env, db, now, stamp, payload, TAG_PHYSICAL).trav == Moved(db.trav, files, id, f);
    }
  }

  /** The entries with that of id moved to where f puts it. */
  ghost function Moved(t: Trav, files: Files, id: ID, f: File): Trav {
    (if id in files then t - {FileKey(id, files[id])} else t)[FileKey(id, f) := TravVal(f.wf, TAG_PHYSICAL)]
  }

  lemma MovedView(t: Trav, files: Files, id: ID, f: File)
    requires IsView(t, files)
    ensures IsView(Moved(t, files, id, f), files[id := f])
  {}

  // ---- The two listings agree ----

  function EraseRef(r: BlockRef): BlockRef {
    r.(val := r.val.(tag := TAG_PHYSICAL))
  }

  ghost function EraseTags(t: Trav): Trav {
    map k | k in t :: t[k].(tag := TAG_PHYSICAL)
  }

  ghost function EraseRefs(refs: seq<BlockRef>): seq<BlockRef> {
    seq(|refs|, i requires 0 <= i < |refs| => EraseRef(refs[i]))
  }

  /** Tags do not influence what a page shows. */
  lemma PageWithoutTags(t: Trav, q: Query, cur: Option<TravKey>, limit: nat, refs: seq<BlockRef>, next: Option<TravKey>)
    requires IsPage(t, q, cur, limit, refs, next)
    ensures IsPage(EraseTags(t), q, cur, limit, EraseRefs(refs), next)
  {
    var t', refs' := EraseTags(t), EraseRefs(refs);
    forall r | r in refs' ensures Wanted(t', q, cur, r.key) && t'[r.key] == r.val {
      var i :| 0 <= i < |refs'| && refs'[i] == r;
      assert refs[i] in refs;
    }
    forall k | k in t && BlockRef(k, t[k]) in refs ensures BlockRef(k, t'[k]) in refs' {
      var i :| 0 <= i < |refs| && refs[i] == BlockRef(k, t[k]);
      assert refs'[i] == BlockRef(k, t'[k]);
    }
    forall k | Wanted(t', q, cur, k) && BlockRef(k, t'[k]) !in refs'
      ensures |refs'| == limit && forall r :: r in refs' ==> KeyLess(r.key, k)
    {
      assert Wanted(t, q, cur, k) && BlockRef(k, t[k]) !in refs;
      forall r | r in refs' ensures KeyLess(r.key, k) {
        var i :| 0 <= i < |refs'| && refs'[i] == r;
        assert refs[i] in refs;
      }
    }
  }

  /** For the same contents, request and cursor, the Badger listing and the flat-file listing
      give the same ids, the same work factors and the same next cursor. */
  lemma ListingsAgree(t: Trav, files: Files, q: Query, cur: Option<TravKey>, limit: nat,
                      refs: seq<BlockRef>, next: Option<TravKey>, refs': seq<FlatRef>, next': Option<TravKey>)
    requires IsPage(t, q, cur, limit, refs, next) && IsFlatPage(files, q, cur, limit, refs', next')
    requires EraseTags(t) == View(files)
    ensures next == next' && Strip(refs) == refs'
  {
    var page :| IsPage(View(files), q, cur, limit, page, next') && refs' == Strip(page);
    PageWithoutTags(t, q, cur, limit, refs, next);
    PageUnique(View(files), q, cur, limit, EraseRefs(refs), next, page, next');
    StripErased(refs);
  }

  lemma StripErased(refs: seq<BlockRef>)
    ensures Strip(EraseRefs(refs)) == Strip(refs)
  {}

  /** A flat-file ref has no creation time, so its Token names (0, id). Resuming from it shows
      the block again exactly when the block was not created at time 0. */
  lemma FlatTokenRelists(files: Files, q: Query, id: ID)
    requires id in files && Qualifies(q, FileKey(id, files[id]), TravVal(files[id].wf, TAG_PHYSICAL))
    ensures Wanted(View(files), q, Some(TravKey(0, id)), FileKey(id, files[id])) <==> files[id].createdAt > 0
  {}
}
