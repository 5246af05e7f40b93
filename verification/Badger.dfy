/** BadgerStore: the operations that read and write the database in place. */
module Badger {
  import opened Types
  import opened Database
  import opened Eviction
  import opened Listing
  import opened Sorting
  import Median
  import StoreRuns

  const EVICT_BATCH: int := 10

  class BadgerStore {
    const env: Env
    const storageLimit: nat
    const reservations: Reservations
    var blocks: map<ID, Block>
    var trav: Trav
    var tombs: map<ID, nat>
    var medianWF: int

    ghost function Model(): Db
      reads this
    {
      Db(blocks, trav, tombs)
    }

    ghost predicate Valid(now: nat)
      reads this
    {
      RepInv(env, Model(), now)
    }

    constructor (env: Env, storageLimit: nat, reservations: Reservations)
      ensures this.env == env && this.storageLimit == storageLimit && this.reservations == reservations
      ensures Model() == EMPTY && Valid(0)
    {
      this.env, this.storageLimit, this.reservations := env, storageLimit, reservations;
      blocks, trav, tombs := map[], map[], map[];
      medianWF := 0;
    }

    /** Recomputes the advertised floor; false stands for the index panic. */
    method RefreshMedian() returns (ok: bool)
      modifies `medianWF
      ensures ok <==> storageLimit == 0 || storageLimit / 4113 / 2 > 0 || trav == map[]
      ensures var half := (if storageLimit == 0 then 10737418240 else storageLimit) / 4113 / 2;
              ok ==> Median.IsFloor(trav, half, medianWF)
      ensures !ok ==> medianWF == old(medianWF)
    {
      var floor, byWf := Median.ComputeFloor(trav, storageLimit);
      ok := floor.Some?;
      if ok {
        medianWF := floor.value;
      }
    }

    method Has(id: ID, now: nat) returns (seen: bool)
      ensures seen <==> id in blocks || (id in tombs && now < tombs[id])
    {
      if id in blocks {
        return true;
      }
      seen := id in tombs && now < tombs[id];
    }

    method Get(id: ID) returns (found: Option<(Stamp, Payload)>)
      ensures found == if id in blocks then Some((blocks[id].stamp, blocks[id].payload)) else None
    {
      if id !in blocks {
        return None;
      }
      found := Some((blocks[id].stamp, blocks[id].payload));
    }

    method GetWorkFactor(id: ID) returns (wf: Option<WorkFactor>)
      ensures wf == if id in blocks then Some(blocks[id].wf) else None
    {
      if id !in blocks {
        return None;
      }
      wf := Some(blocks[id].wf);
    }

    /** `size` is what the database reports as its size after the write. */
    method Put(stamp: Stamp, payload: Payload, tag: Tag, now: nat, size: nat) returns (id: ID, ghost victims: set<ID>)
      requires Valid(now)
      modifies `blocks, `trav, `tombs
      ensures Valid(now)
      ensures id == env.computeID(payload)
      ensures StoreRuns.Next(StoreRuns.Config(env, reservations), StoreRuns.State(old(Model()), now),
                             StoreRuns.Put(stamp, payload, tag, now, victims), StoreRuns.State(Model(), now))
      ensures storageLimit == 0 || size <= storageLimit ==> victims == {}
      ensures 0 < storageLimit < size ==>
                |victims| == Min((size - storageLimit) / 4113 + 10,
                                 |PutTxn(env, old(Model()), now, stamp, payload, tag).blocks|)
    {
      id := env.computeID(payload);
      var wf := env.workFactor(stamp, payload);
      if !(id in tombs && now < tombs[id]) {
        var skip := false;
        if id in blocks {
          if blocks[id].wf >= wf {
            skip := true;
          } else {
            trav := trav - {TravKey(blocks[id].createdAt, id)};
          }
        }
        if !skip {
          blocks := blocks[id := Block(stamp, payload, wf, now, tag)];
          trav := trav[TravKey(now, id) := TravVal(wf, tag)];
        }
      }
      ghost var mid := PutTxn(env, old(Model()), now, stamp, payload, tag);
      assert Model() == mid;
      PutKeepsRep(env, old(Model()), now, stamp, payload, tag);
      EvictNone(env, mid, now);
      victims := {};
      if storageLimit > 0 && size > storageLimit {
        var needed := (size - storageLimit) / BLOCK_SIZE + EVICT_BATCH;
        if needed < 1 {
          needed := 1;
        }
        var n;
        n, victims := Evict(needed, now);
      }
    }

    /** The transaction that drops one candidate and leaves its tombstone. */
    method EvictBlock(id: ID, createdAt: nat, wf: WorkFactor, now: nat)
      modifies `blocks, `trav, `tombs
      ensures Model() == DropTxn(env, old(Model()), now, id, createdAt, wf)
      ensures blocks == old(blocks) - {id} && trav == old(trav) - {TravKey(createdAt, id)}
      ensures tombs == old(tombs)[id := now + 2 * env.ttl(wf)]
    {
      blocks := blocks - {id};
      trav := trav - {TravKey(createdAt, id)};
      tombs := tombs[id := now + 2 * env.ttl(wf)];
    }

    /** Removes up to n blocks, as one step. */
    method Evict(n: int, now: nat) returns (evicted: nat, ghost victims: set<ID>)
      requires Valid(now)
      modifies `blocks, `trav, `tombs
      ensures Valid(now)
      ensures evicted == |victims| == if n <= 0 then 0 else Min(n, |old(blocks)|)
      ensures Greedy(env, reservations, old(blocks), victims)
      ensures Model() == EvictAll(env, old(Model()), now, victims)
      ensures blocks == old(blocks) - victims && victims <= old(blocks).Keys
      ensures forall id :: id in victims ==> id in tombs && tombs[id] == now + 2 * env.ttl(old(blocks)[id].wf)
      ensures forall v, s :: v in victims && s in blocks && old(blocks)[v].tag == blocks[s].tag ==>
                old(blocks)[v].createdAt + env.ttl(old(blocks)[v].wf) <= blocks[s].createdAt + env.ttl(blocks[s].wf)
    {
      evicted, victims := 0, {};
      EvictNone(env, Model(), now);
      if n <= 0 {
        return;
      }
      var perTag, tagUsage := GroupByTag(env, blocks);
      assert blocks.Keys - {} == blocks.Keys;
      evicted, victims := EvictLoop(n, now, perTag, tagUsage);
      EvictKeepsRep(env, old(Model()), now, victims);
      VictimCount(old(blocks).Keys, victims);
      EvictMeans(env, reservations, old(Model()), now, victims);
    }

    method EvictLoop(n: nat, now: nat, candidates: map<Tag, seq<ID>>, usage: map<Tag, int>)
      returns (evicted: nat, ghost victims: set<ID>)
      requires Evicting(env, reservations, Model(), now, {}, Model(), candidates, usage)
      modifies `blocks, `trav, `tombs
      ensures Greedy(env, reservations, old(blocks), victims)
      ensures Model() == EvictAll(env, old(Model()), now, victims)
      ensures evicted == |victims| <= n && (evicted == n || old(blocks).Keys - victims == {})
    {
      evicted, victims := 0, {};
      var snap, perTag, tagUsage := blocks, candidates, usage;
      ghost var db := Model();
      while evicted < n
        invariant evicted == |victims| <= n
        invariant Evicting(env, reservations, db, now, victims, Model(), perTag, tagUsage)
      {
        var target := PickTarget(env, reservations, db.blocks, db.blocks.Keys - victims, perTag, tagUsage);
        if target == None {
          break;
        }
        var t := target.value;
        var c := perTag[t][0];
        EvictStep(env, reservations, db, now, victims, Model(), perTag, tagUsage, t);
        perTag := perTag[t := perTag[t][1..]];
        tagUsage := tagUsage[t := tagUsage[t] - BLOCK_SIZE];
        EvictBlock(c, snap[c].createdAt, snap[c].wf, now);
        victims := victims + {c};
        evicted := evicted + 1;
      }
    }

    /** Seeks the first key at or after the cursor and walks on from there. */
    method ListBlocks(token: Option<TravKey>, limit: int, floor: int, since: int)
      returns (next: Option<TravKey>, refs: seq<BlockRef>)
      ensures limit >= 1 ==> IsPage(trav, Query(floor, since), token, limit, refs, next)
      ensures limit == 0 ==> refs == [] && next == Some(TravKey(0, 0))
      ensures limit < 0 ==> refs == [] && next == None
    {
      var seek := if token.Some? then token.value else TravKey(if since < 0 then 0 else since, 0);
      ghost var keys, pos;
      next, refs, keys, pos := ListFrom(seek, token, limit, floor, since);
      if limit >= 1 {
        CollectIsPage(trav, Query(floor, since), token, keys, pos, limit);
      }
    }

    /** The body of ListBlocks: `skip` is a key to step over if the seek lands on it. */
    method ListFrom(seek: TravKey, skip: Option<TravKey>, limit: int, floor: int, since: int)
      returns (next: Option<TravKey>, refs: seq<BlockRef>, ghost keys': seq<TravKey>, ghost pos': nat)
      ensures Ascending(keys') && (forall k :: k in keys' <==> k in trav) && pos' <= |keys'|
      ensures forall i :: 0 <= i < pos' ==> KeyLess(keys'[i], seek) || Some(keys'[i]) == skip
      ensures forall i :: pos' <= i < |keys'| ==> !KeyLess(keys'[i], seek) && (skip == Some(seek) ==> keys'[i] != seek)
      ensures refs == Collect(trav, Query(floor, since), keys', pos', limit)
      ensures next == if |refs| != limit then None else Some(if refs == [] then TravKey(0, 0) else refs[|refs| - 1].key)
    {
      var keys := IterateKeys(trav);
      var pos := Seek(keys, seek);
      if skip.Some? && pos < |keys| && keys[pos] == skip.value {
        pos := pos + 1;
      }
      var last;
      refs, last := Walk(trav, keys, pos, limit, floor, since);
      next := if |refs| == limit then Some(last) else None;
      keys', pos' := keys, pos;
    }

    /** The whole call, from the bytes of a page token (none: start at the beginning). Any other
        length is refused. A token with a negative time seeks the start of time, and the cursor
        entry is then not stepped over. */
    method ListToken(token: seq<Byte>, limit: int, floor: int, since: int)
      returns (page: Option<(Option<TravKey>, seq<BlockRef>)>)
      ensures page == None <==> token != [] && |token| != 40
      ensures page.Some? && limit >= 1 && token == [] ==>
                IsPage(trav, Query(floor, since), None, limit, page.value.1, page.value.0)
      ensures page.Some? && limit >= 1 && token != [] ==>
                var c := DecodeCursor(token).value;
                if c.createdAt >= 0 then
                  IsPage(trav, Query(floor, since), Some(TravKey(c.createdAt, c.id)), limit, page.value.1, page.value.0)
                else
                  IsPage(NotBefore(trav, TravKey(0, c.id)), Query(floor, since), None, limit,
                         page.value.1, page.value.0)
    {
      var next, refs;
      if token == [] {
        next, refs := ListBlocks(None, limit, floor, since);
        return Some((next, refs));
      }
      var cur := DecodeCursor(token);
      if cur == None {
        return None;
      }
      var c := cur.value;
      if c.createdAt >= 0 {
        next, refs := ListBlocks(Some(TravKey(c.createdAt, c.id)), limit, floor, since);
      } else {
        ghost var keys, pos;
        next, refs, keys, pos := ListFrom(TravKey(0, c.id), None, limit, floor, since);
        if limit >= 1 {
          FromIsPage(trav, Query(floor, since), TravKey(0, c.id), keys, pos, limit);
        }
      }
      page := Some((next, refs));
    }
  }

  lemma FromIsPage(t: Trav, q: Query, seek: TravKey, keys: seq<TravKey>, pos: nat, limit: nat)
    requires pos <= |keys| && Ascending(keys) && (forall k :: k in keys <==> k in t) && limit >= 1
    requires forall i :: 0 <= i < pos ==> KeyLess(keys[i], seek)
    requires forall i :: pos <= i < |keys| ==> !KeyLess(keys[i], seek)
    ensures var refs := Collect(t, q, keys, pos, limit);
            IsPage(NotBefore(t, seek), q, None, limit, refs,
                   if |refs| == limit then Some(refs[|refs| - 1].key) else None)
  {
    var t' := NotBefore(t, seek);
    forall i | pos <= i < |keys| ensures keys[i] in t && keys[i] in t' && t'[keys[i]] == t[keys[i]] {
      assert keys[i] in keys;
    }
    CollectSame(t, t', q, keys, pos, limit);
    CollectIsPage(t', q, None, keys, pos, limit);
  }

  /** The loop of ListBlocks from position `start` on. */
  method Walk(t: Trav, keys: seq<TravKey>, start: nat, limit: int, floor: int, since: int)
    returns (refs: seq<BlockRef>, last: TravKey)
    requires start <= |keys| && forall i :: 0 <= i < |keys| ==> keys[i] in t
    ensures refs == Collect(t, Query(floor, since), keys, start, limit)
    ensures last == if refs == [] then TravKey(0, 0) else refs[|refs| - 1].key
  {
    refs, last := [], TravKey(0, 0);
    var pos := start;
    while pos < |keys| && |refs| < limit
      invariant pos <= |keys|
      invariant last == if refs == [] then TravKey(0, 0) else refs[|refs| - 1].key
      invariant refs + Collect(t, Query(floor, since), keys, pos, limit - |refs|) ==
                  Collect(t, Query(floor, since), keys, start, limit)
    {
      var k := keys[pos];
      var v := t[k];
      pos := pos + 1;
      if k.createdAt < (if since < 0 then 0 else since) || v.wf < floor {
        continue;
      }
      refs := refs + [BlockRef(k, v)];
      last := k;
    }
  }

  /** The eviction of a greedy choice of victims, written out. */
  lemma EvictMeans(env: Env, res: Reservations, db: Db, now: nat, victims: set<ID>)
    requires Greedy(env, res, db.blocks, victims)
    ensures var db' := EvictAll(env, db, now, victims);
            && db'.blocks == db.blocks - victims
            && (forall id :: id in victims ==> id in db'.tombs && db'.tombs[id] == now + 2 * env.ttl(db.blocks[id].wf))
            && (forall v, s :: v in victims && s in db'.blocks && db.blocks[v].tag == db'.blocks[s].tag ==>
                  db.blocks[v].createdAt + env.ttl(db.blocks[v].wf) <=
                  db'.blocks[s].createdAt + env.ttl(db'.blocks[s].wf))
  {}

  lemma VictimCount(all: set<ID>, victims: set<ID>)
    requires victims <= all
    ensures |victims| <= |all| && (|victims| == |all| <==> all - victims == {})
  {
    assert all == victims + (all - victims);
  }

  lemma EvictNone(env: Env, db: Db, now: nat)
    ensures EvictAll(env, db, now, {}) == db
    ensures forall res, blocks :: Greedy(env, res, blocks, {})
  {}

  // ---- Eviction candidates ----

  function ExpiryKey(env: Env, snap: map<ID, Block>): ID -> int {
    id => if id in snap then Expiry(env, snap[id]) else 0
  }

  /** `list` holds the blocks of `rest` that carry tag t, `usage` their bytes. */
  ghost predicate Row(snap: map<ID, Block>, rest: set<ID>, t: Tag, list: seq<ID>, usage: int)
    requires rest <= snap.Keys
  {
    Lists(list, OfTag(snap, rest, t)) && usage == BLOCK_SIZE * |list|
  }

  ghost predicate Tallied(snap: map<ID, Block>, rest: set<ID>, perTag: map<Tag, seq<ID>>, tagUsage: map<Tag, int>)
    requires rest <= snap.Keys
  {
    && perTag.Keys == tagUsage.Keys
    && (forall t :: t in perTag ==> Row(snap, rest, t, perTag[t], tagUsage[t]))
    && (forall id :: id in rest ==> snap[id].tag in perTag)
  }

  /** The candidate lists of Evict: tallied, and soonest expiry first. */
  ghost predicate Grouped(env: Env, snap: map<ID, Block>, rest: set<ID>, perTag: map<Tag, seq<ID>>,
                          tagUsage: map<Tag, int>)
    requires rest <= snap.Keys
  {
    && Tallied(snap, rest, perTag, tagUsage)
    && (forall t :: t in perTag ==> SortedBy(perTag[t], ExpiryKey(env, snap)))
  }

  method GroupByTag(env: Env, snap: map<ID, Block>) returns (perTag: map<Tag, seq<ID>>, tagUsage: map<Tag, int>)
    ensures Grouped(env, snap, snap.Keys, perTag, tagUsage)
  {
    perTag, tagUsage := TallyByTag(snap);
    var tags := perTag.Keys;
    while tags != {}
      invariant tags <= perTag.Keys
      invariant Tallied(snap, snap.Keys, perTag, tagUsage) && SortedExcept(env, snap, perTag, tags)
      decreases tags
    {
      var t :| t in tags;
      var sorted := SortRow(env, snap, snap.Keys, t, perTag[t], tagUsage[t]);
      SetRow(snap, snap.Keys, perTag, tagUsage, t, sorted);
      SetSorted(env, snap, perTag, t, sorted, tags);
      perTag, tags := perTag[t := sorted], tags - {t};
    }
  }

  ghost predicate SortedExcept(env: Env, snap: map<ID, Block>, perTag: map<Tag, seq<ID>>, tags: set<Tag>) {
    forall t :: t in perTag && t !in tags ==> SortedBy(perTag[t], ExpiryKey(env, snap))
  }

  method SortRow(env: Env, snap: map<ID, Block>, ghost rest: set<ID>, ghost t: Tag, list: seq<ID>, ghost usage: int)
    returns (sorted: seq<ID>)
    requires rest <= snap.Keys && Row(snap, rest, t, list, usage)
    ensures Row(snap, rest, t, sorted, usage) && SortedBy(sorted, ExpiryKey(env, snap))
  {
    sorted := SortSlice(list, ExpiryKey(env, snap));
    assert |multiset(sorted)| == |sorted| && |multiset(list)| == |list|;
  }

  lemma SetRow(snap: map<ID, Block>, rest: set<ID>, perTag: map<Tag, seq<ID>>, tagUsage: map<Tag, int>,
               t: Tag, list: seq<ID>)
    requires rest <= snap.Keys && Tallied(snap, rest, perTag, tagUsage)
    requires t in perTag && Row(snap, rest, t, list, tagUsage[t])
    ensures Tallied(snap, rest, perTag[t := list], tagUsage)
  {}

  lemma SetSorted(env: Env, snap: map<ID, Block>, perTag: map<Tag, seq<ID>>, t: Tag, list: seq<ID>, tags: set<Tag>)
    requires SortedExcept(env, snap, perTag, tags) && SortedBy(list, ExpiryKey(env, snap))
    ensures SortedExcept(env, snap, perTag[t := list], tags - {t})
  {
    forall u | u in perTag[t := list] && u !in tags - {t}
      ensures SortedBy(perTag[t := list][u], ExpiryKey(env, snap))
    {
      assert u != t ==> SortedBy(perTag[u], ExpiryKey(env, snap));
    }
  }

  method TallyByTag(snap: map<ID, Block>) returns (perTag: map<Tag, seq<ID>>, tagUsage: map<Tag, int>)
    ensures Tallied(snap, snap.Keys, perTag, tagUsage)
  {
    perTag, tagUsage := map[], map[];
    var todo := snap.Keys;
    while todo != {}
      invariant todo <= snap.Keys
      invariant Tallied(snap, snap.Keys - todo, perTag, tagUsage)
      decreases todo
    {
      var id :| id in todo;
      var t := snap[id].tag;
      AddCandidate(snap, snap.Keys - todo, id, perTag, tagUsage);
      assert snap.Keys - (todo - {id}) == snap.Keys - todo + {id};
      var list, usage := if t in perTag then perTag[t] else [], if t in tagUsage then tagUsage[t] else 0;
      perTag, tagUsage := perTag[t := list + [id]], tagUsage[t := usage + BLOCK_SIZE];
      todo := todo - {id};
    }
    assert snap.Keys - {} == snap.Keys;
  }

  lemma AddCandidate(snap: map<ID, Block>, done: set<ID>, id: ID, perTag: map<Tag, seq<ID>>, tagUsage: map<Tag, int>)
    requires done <= snap.Keys && id in snap && id !in done && Tallied(snap, done, perTag, tagUsage)
    ensures var t := snap[id].tag;
            var list, usage := if t in perTag then perTag[t] else [], if t in tagUsage then tagUsage[t] else 0;
            Tallied(snap, done + {id}, perTag[t := list + [id]], tagUsage[t := usage + BLOCK_SIZE])
  {
    var t := snap[id].tag;
    var list, usage := if t in perTag then perTag[t] else [], if t in tagUsage then tagUsage[t] else 0;
    assert t !in perTag ==> OfTag(snap, done, t) == {};
    GrowRow(snap, done, id, list, usage);
    forall u | u in perTag && u != t ensures Row(snap, done + {id}, u, perTag[u], tagUsage[u]) {
      assert OfTag(snap, done + {id}, u) == OfTag(snap, done, u);
    }
  }

  lemma GrowRow(snap: map<ID, Block>, done: set<ID>, id: ID, list: seq<ID>, usage: int)
    requires done <= snap.Keys && id in snap && id !in done
    requires Row(snap, done, snap[id].tag, list, usage)
    ensures Row(snap, done + {id}, snap[id].tag, list + [id], usage + BLOCK_SIZE)
  {
    var t := snap[id].tag;
    assert OfTag(snap, done + {id}, t) == OfTag(snap, done, t) + {id};
  }

  /** The non-empty tag furthest above its reservation. */
  method PickTarget(ghost env: Env, res: Reservations, ghost snap: map<ID, Block>, ghost rest: set<ID>,
                    perTag: map<Tag, seq<ID>>, tagUsage: map<Tag, int>) returns (target: Option<Tag>)
    requires rest <= snap.Keys && Grouped(env, snap, rest, perTag, tagUsage)
    ensures target == None ==> rest == {}
    ensures target.Some? ==>
              target.value in perTag && perTag[target.value] != [] && FurthestOver(res, snap, rest, target.value)
  {
    target := MostOver(res, perTag, tagUsage);
    TallyFacts(res, snap, rest, perTag, tagUsage);
  }

  method MostOver(res: Reservations, perTag: map<Tag, seq<ID>>, tagUsage: map<Tag, int>) returns (target: Option<Tag>)
    requires perTag.Keys == tagUsage.Keys
    ensures target == None ==> forall u :: u in perTag ==> perTag[u] == []
    ensures target.Some? ==>
              && target.value in perTag && perTag[target.value] != []
              && forall u :: u in perTag && perTag[u] != [] ==>
                   tagUsage[u] - Reserved(res, u) <= tagUsage[target.value] - Reserved(res, target.value)
  {
    target := None;
    var maxOver := 0;
    var tags := tagUsage.Keys;
    while tags != {}
      invariant tags <= tagUsage.Keys
      invariant target == None ==> forall u :: u in perTag && u !in tags ==> perTag[u] == []
      invariant target.Some? ==>
                  && target.value in perTag && perTag[target.value] != []
                  && maxOver == tagUsage[target.value] - Reserved(res, target.value)
                  && forall u :: u in perTag && u !in tags && perTag[u] != [] ==>
                       tagUsage[u] - Reserved(res, u) <= maxOver
      decreases tags
    {
      var t :| t in tags;
      tags := tags - {t};
      if |perTag[t]| != 0 {
        var over := tagUsage[t] - Reserved(res, t);
        if target == None || over > maxOver {
          maxOver, target := over, Some(t);
        }
      }
    }
  }

  lemma TallyFacts(res: Reservations, snap: map<ID, Block>, rest: set<ID>, perTag: map<Tag, seq<ID>>,
                   tagUsage: map<Tag, int>)
    requires rest <= snap.Keys && Tallied(snap, rest, perTag, tagUsage)
    ensures forall t :: t in perTag ==> tagUsage[t] - Reserved(res, t) == Over(res, snap, rest, t)
    ensures forall t: Tag :: OfTag(snap, rest, t) != {} ==> t in perTag && perTag[t] != []
    ensures (forall t :: t in perTag ==> perTag[t] == []) ==> rest == {}
  {
    forall t: Tag
      ensures t in perTag ==> tagUsage[t] - Reserved(res, t) == Over(res, snap, rest, t)
      ensures OfTag(snap, rest, t) != {} ==> t in perTag && perTag[t] != []
    {
      if t in perTag { ListsFacts(perTag[t], OfTag(snap, rest, t)); }
    }
    forall id | id in rest ensures perTag[snap[id].tag] != [] {
      assert id in OfTag(snap, rest, snap[id].tag);
    }
  }

  lemma HeadIsSoonest(env: Env, snap: map<ID, Block>, rest: set<ID>, perTag: map<Tag, seq<ID>>,
                      tagUsage: map<Tag, int>, t: Tag)
    requires rest <= snap.Keys && Grouped(env, snap, rest, perTag, tagUsage)
    requires t in perTag && perTag[t] != []
    ensures perTag[t][0] in rest && snap[perTag[t][0]].tag == t
    ensures forall s :: s in rest && snap[s].tag == t ==> Expiry(env, snap[perTag[t][0]]) <= Expiry(env, snap[s])
  {
    var list, key := perTag[t], ExpiryKey(env, snap);
    assert Row(snap, rest, t, list, tagUsage[t]);
    ListsFacts(list, OfTag(snap, rest, t));
    assert list[0] in OfTag(snap, rest, t);
    forall s | s in rest && snap[s].tag == t ensures Expiry(env, snap[list[0]]) <= Expiry(env, snap[s]) {
      assert s in OfTag(snap, rest, t);
      var i :| 0 <= i < |list| && list[i] == s;
      assert key(list[0]) <= key(list[i]);
    }
  }

  lemma RemoveHead(env: Env, snap: map<ID, Block>, rest: set<ID>, perTag: map<Tag, seq<ID>>,
                   tagUsage: map<Tag, int>, t: Tag)
    requires rest <= snap.Keys && Grouped(env, snap, rest, perTag, tagUsage)
    requires t in perTag && perTag[t] != []
    ensures Grouped(env, snap, rest - {perTag[t][0]},
                    perTag[t := perTag[t][1..]], tagUsage[t := tagUsage[t] - BLOCK_SIZE])
  {
    var c := perTag[t][0];
    HeadIsSoonest(env, snap, rest, perTag, tagUsage, t);
    ShrinkRow(snap, rest, t, perTag[t], tagUsage[t]);
    forall u | u in perTag && u != t ensures Row(snap, rest - {c}, u, perTag[u], tagUsage[u]) {
      assert OfTag(snap, rest - {c}, u) == OfTag(snap, rest, u);
    }
  }

  lemma ShrinkRow(snap: map<ID, Block>, rest: set<ID>, t: Tag, list: seq<ID>, usage: int)
    requires rest <= snap.Keys && list != [] && Row(snap, rest, t, list, usage)
    ensures Row(snap, rest - {list[0]}, t, list[1..], usage - BLOCK_SIZE)
  {
    ListsTail(list, OfTag(snap, rest, t));
    assert OfTag(snap, rest - {list[0]}, t) == OfTag(snap, rest, t) - {list[0]};
  }

  /** The loop of Evict has removed `victims` from db, leaving cur and these candidate lists. */
  ghost predicate Evicting(env: Env, res: Reservations, db: Db, now: nat, victims: set<ID>, cur: Db,
                           perTag: map<Tag, seq<ID>>, tagUsage: map<Tag, int>)
  {
    && Greedy(env, res, db.blocks, victims)
    && cur == EvictAll(env, db, now, victims)
    && Grouped(env, db.blocks, db.blocks.Keys - victims, perTag, tagUsage)
  }

  lemma EvictStep(env: Env, res: Reservations, db: Db, now: nat, victims: set<ID>, cur: Db,
                  perTag: map<Tag, seq<ID>>, tagUsage: map<Tag, int>, t: Tag)
    requires Evicting(env, res, db, now, victims, cur, perTag, tagUsage)
    requires t in perTag && perTag[t] != []
    requires FurthestOver(res, db.blocks, db.blocks.Keys - victims, t)
    ensures var c := perTag[t][0];
            && c in db.blocks && c in cur.blocks && c !in victims && cur.blocks[c] == db.blocks[c]
            && Evicting(env, res, db, now, victims + {c}, EvictTxn(env, cur, now, c),
                        perTag[t := perTag[t][1..]], tagUsage[t := tagUsage[t] - BLOCK_SIZE])
  {
    var c := perTag[t][0];
    var rest := db.blocks.Keys - victims;
    HeadIsSoonest(env, db.blocks, rest, perTag, tagUsage, t);
    GreedyStep(env, res, db.blocks, victims, c);
    EvictOneMore(env, db, now, victims, c);
    RemoveHead(env, db.blocks, rest, perTag, tagUsage, t);
    assert db.blocks.Keys - (victims + {c}) == rest - {c};
  }

  // ---- The traversal iterator ----

  /** The database iterator yields the traversal keys in byte order. */
  method IterateKeys(t: Trav) returns (keys: seq<TravKey>)
    ensures Ascending(keys)
    ensures forall k :: k in keys <==> k in t
  {
    var list := ListSet(t.Keys);
    keys := SortSlice(list, Rank);
    ListsFacts(keys, t.Keys);
    forall i, j | 0 <= i < j < |keys| ensures KeyLess(keys[i], keys[j]) {
      assert Rank(keys[i]) <= Rank(keys[j]) && keys[i] != keys[j];
    }
  }

  method Seek(keys: seq<TravKey>, target: TravKey) returns (pos: nat)
    requires Ascending(keys)
    ensures pos <= |keys|
    ensures forall i :: 0 <= i < pos ==> KeyLess(keys[i], target)
    ensures forall i :: pos <= i < |keys| ==> !KeyLess(keys[i], target)
  {
    pos := 0;
    while pos < |keys| && KeyLess(keys[pos], target)
      invariant pos <= |keys|
      invariant forall i :: 0 <= i < pos ==> KeyLess(keys[i], target)
    {
      pos := pos + 1;
    }
  }
}
