/** What the reservation-aware eviction of BadgerStore guarantees about its victims. */
module Eviction {
  import opened Types
  import opened Database

  type Reservations = map<Tag, int>

  function Reserved(res: Reservations, t: Tag): (bytes: int)
    ensures t in res ==> bytes == res[t]
    ensures t !in res ==> bytes == 0
  {
    if t in res then res[t] else 0
  }

  /** createdAt + TTL(wf): the order in which blocks of one tag go. */
  function Expiry(env: Env, b: Block): nat {
    b.createdAt + env.ttl(b.wf)
  }

  ghost function OfTag(blocks: map<ID, Block>, ids: set<ID>, t: Tag): set<ID>
    requires ids <= blocks.Keys
  {
    set id | id in ids && blocks[id].tag == t
  }

  /** Bytes by which the blocks `ids` of tag t exceed the tag's reservation. */
  ghost function Over(res: Reservations, blocks: map<ID, Block>, ids: set<ID>, t: Tag): int
    requires ids <= blocks.Keys
  {
    BLOCK_SIZE * |OfTag(blocks, ids, t)| - Reserved(res, t)
  }

  /** No other tag with blocks among `ids` is further above its reservation than t. */
  ghost predicate FurthestOver(res: Reservations, blocks: map<ID, Block>, ids: set<ID>, t: Tag)
    requires ids <= blocks.Keys
  {
    forall u: Tag :: OfTag(blocks, ids, u) != {} ==>
      4113 * |OfTag(blocks, ids, u)| - (if u in res then res[u] else 0) <=
      4113 * |OfTag(blocks, ids, t)| - if t in res then res[t] else 0
  }

  /** No survivor expires strictly before a victim of the same tag. */
  ghost predicate SoonestFirst(env: Env, blocks: map<ID, Block>, victims: set<ID>)
    requires victims <= blocks.Keys
  {
    forall v, s :: v in victims && s in blocks && s !in victims && blocks[v].tag == blocks[s].tag ==>
      blocks[v].createdAt + env.ttl(blocks[v].wf) <= blocks[s].createdAt + env.ttl(blocks[s].wf)
  }

  /** Giving the last victim of any tag back would put that tag at least level with every
      tag that still has blocks. */
  ghost predicate Balanced(res: Reservations, blocks: map<ID, Block>, victims: set<ID>)
    requires victims <= blocks.Keys
  {
    var rest := blocks.Keys - victims;
    forall u: Tag, t: Tag :: OfTag(blocks, victims, u) != {} && OfTag(blocks, rest, t) != {} ==>
      Over(res, blocks, rest, t) <= Over(res, blocks, rest, u) + BLOCK_SIZE
  }

  ghost predicate Greedy(env: Env, res: Reservations, blocks: map<ID, Block>, victims: set<ID>) {
    && victims <= blocks.Keys
    && SoonestFirst(env, blocks, victims)
    && Balanced(res, blocks, victims)
  }

  lemma TagStep(res: Reservations, blocks: map<ID, Block>, victims: set<ID>, c: ID, t: Tag)
    requires victims <= blocks.Keys && c in blocks && c !in victims
    ensures Over(res, blocks, blocks.Keys - (victims + {c}), t) ==
              Over(res, blocks, blocks.Keys - victims, t) - if t == blocks[c].tag then BLOCK_SIZE else 0
    ensures OfTag(blocks, blocks.Keys - (victims + {c}), t) <= OfTag(blocks, blocks.Keys - victims, t)
    ensures t != blocks[c].tag ==> OfTag(blocks, victims + {c}, t) == OfTag(blocks, victims, t)
  {
    OfTagWithout(blocks, blocks.Keys - victims, c, t);
    assert blocks.Keys - (victims + {c}) == blocks.Keys - victims - {c};
    assert t != blocks[c].tag ==> OfTag(blocks, victims + {c}, t) == OfTag(blocks, victims, t);
  }

  lemma OfTagWithout(blocks: map<ID, Block>, ids: set<ID>, c: ID, t: Tag)
    requires ids <= blocks.Keys && c in ids
    ensures OfTag(blocks, ids - {c}, t) == OfTag(blocks, ids, t) - if t == blocks[c].tag then {c} else {}
    ensures |OfTag(blocks, ids - {c}, t)| == |OfTag(blocks, ids, t)| - if t == blocks[c].tag then 1 else 0
  {}

  /** One more victim: the soonest to expire of the tag furthest above its reservation. */
  lemma GreedyStep(env: Env, res: Reservations, blocks: map<ID, Block>, victims: set<ID>, c: ID)
    requires Greedy(env, res, blocks, victims)
    requires c in blocks && c !in victims
    requires forall s :: s in blocks && s !in victims && blocks[s].tag == blocks[c].tag ==>
               Expiry(env, blocks[c]) <= Expiry(env, blocks[s])
    requires FurthestOver(res, blocks, blocks.Keys - victims, blocks[c].tag)
    ensures Greedy(env, res, blocks, victims + {c})
  {
    var rest, rest' := blocks.Keys - victims, blocks.Keys - (victims + {c});
    forall u: Tag, t: Tag | OfTag(blocks, victims + {c}, u) != {} && OfTag(blocks, rest', t) != {}
      ensures Over(res, blocks, rest', t) <= Over(res, blocks, rest', u) + BLOCK_SIZE
    {
      TagStep(res, blocks, victims, c, u);
      TagStep(res, blocks, victims, c, t);
    }
  }

  // ---- Counting by tag ----

  ghost function Below(blocks: map<ID, Block>, ids: set<ID>, n: nat): set<ID>
    requires ids <= blocks.Keys
  {
    set id | id in ids && blocks[id].tag < n
  }

  lemma BelowStep(blocks: map<ID, Block>, ids: set<ID>, t: Tag)
    requires ids <= blocks.Keys
    ensures |Below(blocks, ids, t + 1)| == |Below(blocks, ids, t)| + |OfTag(blocks, ids, t)|
  {
    assert Below(blocks, ids, t + 1) == Below(blocks, ids, t) + OfTag(blocks, ids, t);
  }

  lemma SplitTag(blocks: map<ID, Block>, victims: set<ID>, t: Tag)
    requires victims <= blocks.Keys
    ensures |OfTag(blocks, blocks.Keys, t)| == |OfTag(blocks, victims, t)| + |OfTag(blocks, blocks.Keys - victims, t)|
  {
    assert OfTag(blocks, blocks.Keys, t) == OfTag(blocks, victims, t) + OfTag(blocks, blocks.Keys - victims, t);
  }

  /** If w gains less than v over the tags [a, b), it gains less on one of them. */
  lemma {:induction false} FewerOnSomeTag(blocks: map<ID, Block>, v: set<ID>, w: set<ID>, a: nat, b: nat)
    returns (u: Tag)
    requires v <= blocks.Keys && w <= blocks.Keys && a < b <= 256
    requires |Below(blocks, w, b)| - |Below(blocks, w, a)| < |Below(blocks, v, b)| - |Below(blocks, v, a)|
    ensures |OfTag(blocks, w, u)| < |OfTag(blocks, v, u)|
    decreases b
  {
    u := b - 1;
    BelowStep(blocks, v, u);
    BelowStep(blocks, w, u);
    if |OfTag(blocks, w, u)| >= |OfTag(blocks, v, u)| {
      u := FewerOnSomeTag(blocks, v, w, a, b - 1);
    }
  }

  /** Of two sets, one that is not larger but has more blocks on t has fewer on some other tag. */
  lemma SomeTagSpared(blocks: map<ID, Block>, v: set<ID>, w: set<ID>, t: Tag) returns (u: Tag)
    requires v <= blocks.Keys && w <= blocks.Keys && |v| >= |w|
    requires |OfTag(blocks, w, t)| > |OfTag(blocks, v, t)|
    ensures |OfTag(blocks, w, u)| < |OfTag(blocks, v, u)|
  {
    assert Below(blocks, w, 0) == {} && Below(blocks, v, 0) == {};
    assert Below(blocks, w, 256) == w && Below(blocks, v, 256) == v;
    BelowStep(blocks, v, t);
    BelowStep(blocks, w, t);
    if |Below(blocks, w, t)| < |Below(blocks, v, t)| {
      u := FewerOnSomeTag(blocks, v, w, 0, t);
    } else {
      u := FewerOnSomeTag(blocks, v, w, t + 1, 256);
    }
  }

  // ---- Min-max optimality ----

  /** Against any other set of as many victims: whatever excess the greedy choice leaves on
      a tag, the other choice leaves at least that much on some tag with blocks. */
  lemma MinMaxOptimal(env: Env, res: Reservations, blocks: map<ID, Block>, victims: set<ID>, other: set<ID>, t: Tag)
    returns (u: Tag)
    requires Greedy(env, res, blocks, victims)
    requires other <= blocks.Keys && |other| == |victims|
    requires OfTag(blocks, blocks.Keys - victims, t) != {}
    ensures OfTag(blocks, blocks.Keys - other, u) != {}
    ensures 4113 * |OfTag(blocks, blocks.Keys - other, u)| - (if u in res then res[u] else 0) >=
              4113 * |OfTag(blocks, blocks.Keys - victims, t)| - if t in res then res[t] else 0
  {
    SplitTag(blocks, victims, t);
    SplitTag(blocks, other, t);
    if |OfTag(blocks, other, t)| <= |OfTag(blocks, victims, t)| {
      u := t;
    } else {
      u := SomeTagSpared(blocks, victims, other, t);
      SplitTag(blocks, victims, u);
      SplitTag(blocks, other, u);
    }
  }

  // ---- Reservations ----

  /** A tag within its reservation loses nothing if there is any set of at least as many blocks that
      could go without taking from a tag that is by then within its reservation. */
  lemma SparedByOthers(env: Env, res: Reservations, blocks: map<ID, Block>, victims: set<ID>, spare: set<ID>, t: Tag,
                       v: ID)
    requires Greedy(env, res, blocks, victims) && spare <= blocks.Keys && |spare| >= |victims|
    requires forall u: Tag :: OfTag(blocks, spare, u) != {} ==>
               4113 * (|OfTag(blocks, blocks.Keys, u)| - |OfTag(blocks, spare, u)| + 1) >
                 if u in res then res[u] else 0
    requires 4113 * |OfTag(blocks, blocks.Keys, t)| <= if t in res then res[t] else 0
    ensures v in victims ==> blocks[v].tag != t
  {
    if v in victims && blocks[v].tag == t {
      assert v in OfTag(blocks, victims, t);
      SplitTag(blocks, victims, t);
      SplitTag(blocks, spare, t);
      var u := SomeTagSpared(blocks, spare, victims, t);
      SplitTag(blocks, victims, u);
      SplitTag(blocks, spare, u);
    }
  }

  /** The fewest blocks a tag can lose to be within its reservation. */
  ghost function Surplus(res: Reservations, blocks: map<ID, Block>, t: Tag): (n: nat)
    ensures 4113 * (|OfTag(blocks, blocks.Keys, t)| - n) <= if t in res then res[t] else 0
    ensures n > 0 ==> 4113 * (|OfTag(blocks, blocks.Keys, t)| - n + 1) > if t in res then res[t] else 0
  {
    var over := Over(res, blocks, blocks.Keys, t);
    if over <= 0 then 0 else (over + BLOCK_SIZE - 1) / BLOCK_SIZE
  }

  ghost function TotalSurplus(res: Reservations, blocks: map<ID, Block>, n: nat): nat
    requires n <= 256
  {
    if n == 0 then 0 else TotalSurplus(res, blocks, n - 1) + Surplus(res, blocks, n - 1)
  }

  /** The total surplus is the largest number of blocks that could go without taking from a tag
      that is by then within its reservation. */
  lemma {:induction false} SurplusIsMost(res: Reservations, blocks: map<ID, Block>, spare: set<ID>, n: nat)
    requires spare <= blocks.Keys && n <= 256
    requires forall u: Tag :: OfTag(blocks, spare, u) != {} ==>
               4113 * (|OfTag(blocks, blocks.Keys, u)| - |OfTag(blocks, spare, u)| + 1) >
                 if u in res then res[u] else 0
    ensures |Below(blocks, spare, n)| <= TotalSurplus(res, blocks, n)
    ensures n == 256 ==> |spare| <= TotalSurplus(res, blocks, n)
  {
    assert Below(blocks, spare, 256) == spare;
    if n > 0 {
      SurplusIsMost(res, blocks, spare, n - 1);
      BelowStep(blocks, spare, n - 1);
      SplitTag(blocks, spare, n - 1);
    }
  }

  /** With non-negative reservations, a tag within its reservation loses nothing while the
      surplus of the others covers the demand. */
  lemma ReservationKept(env: Env, res: Reservations, blocks: map<ID, Block>, victims: set<ID>, t: Tag)
    requires Greedy(env, res, blocks, victims)
    requires forall u :: u in res ==> res[u] >= 0
    requires 4113 * |OfTag(blocks, blocks.Keys, t)| <= if t in res then res[t] else 0
    ensures |victims| <= TotalSurplus(res, blocks, 256) ==> forall v :: v in victims ==> blocks[v].tag != t
  {
    if v :| v in victims && blocks[v].tag == t {
      assert v in OfTag(blocks, victims, t);
      SplitTag(blocks, victims, t);
      forall u: Tag ensures |OfTag(blocks, victims, u)| >= Surplus(res, blocks, u) {
        SplitTag(blocks, victims, u);
        assert Over(res, blocks, blocks.Keys - victims, u) <= 0;
      }
      SurplusSum(res, blocks, victims, t, 256);
      assert Below(blocks, victims, 256) == victims;
    }
  }

  lemma {:induction false} SurplusSum(res: Reservations, blocks: map<ID, Block>, victims: set<ID>, t: Tag, n: nat)
    requires victims <= blocks.Keys && n <= 256
    requires forall u: Tag :: |OfTag(blocks, victims, u)| >= Surplus(res, blocks, u)
    requires OfTag(blocks, victims, t) != {} && Surplus(res, blocks, t) == 0
    ensures |Below(blocks, victims, n)| >= TotalSurplus(res, blocks, n) + if t < n then 1 else 0
  {
    if n > 0 {
      SurplusSum(res, blocks, victims, t, n - 1);
      BelowStep(blocks, victims, n - 1);
    }
  }
}
