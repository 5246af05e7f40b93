/** The contract of ListBlocks, its page cursors, and scans that page through a store
    while it changes. */
module Listing {
  import opened Types
  import opened Bytes

  // ---- Keys and cursors ----

  predicate KeyLess(a: TravKey, b: TravKey) {
    a.createdAt < b.createdAt || (a.createdAt == b.createdAt && a.id < b.id)
  }

  /** Places traversal keys on the number line in (created_at, id) order. */
  function Rank(k: TravKey): int {
    k.createdAt * ID_SPACE + k.id
  }

  const INT64_LIMIT: int := 0x8000_0000_0000_0000

  /** travKey: 't', the clamped timestamp as 8 bytes, the id as 32. */
  function KeyBytes(createdAt: int, id: ID): (b: seq<Byte>)
    requires createdAt < INT64_LIMIT
    ensures |b| == 41
  {
    PowerValues();
    ['t' as int] + (BE(if createdAt < 0 then 0 else createdAt, 8) + BE(id, 32))
  }

  /** The database orders traversal keys by bytes; that order is (created_at, id). */
  lemma KeyBytesOrder(a: TravKey, b: TravKey)
    requires a.createdAt < INT64_LIMIT && b.createdAt < INT64_LIMIT
    ensures LexLess(KeyBytes(a.createdAt, a.id), KeyBytes(b.createdAt, b.id)) <==> KeyLess(a, b)
    ensures KeyBytes(a.createdAt, a.id) == KeyBytes(b.createdAt, b.id) <==> a == b
  {
    PowerValues();
    var ta, tb := BE(a.createdAt, 8), BE(b.createdAt, 8);
    var ia, ib := BE(a.id, 32), BE(b.id, 32);
    FromBEofBE(a.createdAt, 8);
    FromBEofBE(b.createdAt, 8);
    FromBEofBE(a.id, 32);
    FromBEofBE(b.id, 32);
    PairOrder(['t' as int], ta, tb, ia, ib);
  }

  lemma PairOrder(p: seq<Byte>, ta: seq<Byte>, tb: seq<Byte>, ia: seq<Byte>, ib: seq<Byte>)
    requires |ta| == |tb| && |ia| == |ib|
    ensures LexLess(p + (ta + ia), p + (tb + ib)) <==>
              FromBE(ta) < FromBE(tb) || (FromBE(ta) == FromBE(tb) && FromBE(ia) < FromBE(ib))
    ensures p + (ta + ia) == p + (tb + ib) <==> FromBE(ta) == FromBE(tb) && FromBE(ia) == FromBE(ib)
  {
    LexIsNumeric(ta, tb);
    LexIsNumeric(ia, ib);
    LexPrefix(p, ta + ia, tb + ib);
    ConcatInjective(p, ta + ia, p, tb + ib);
    ConcatInjective(ta, ia, tb, ib);
    if ta == tb {
      LexPrefix(ta, ia, ib);
    } else {
      LexHead(ta, tb, ia, ib);
    }
  }

  lemma ConcatInjective(a: seq<Byte>, b: seq<Byte>, a': seq<Byte>, b': seq<Byte>)
    requires |a| == |a'|
    ensures a + b == a' + b' <==> a == a' && b == b'
  {
    assert (a + b)[..|a|] == a && (a + b)[|a|..] == b;
    assert (a' + b')[..|a|] == a' && (a' + b')[|a|..] == b';
  }

  /** A page token, taken apart. A foreign one may spell a negative int64 timestamp. */
  datatype Cursor = Cursor(createdAt: int, id: ID)

  predicate IsInt64(x: int) {
    -INT64_LIMIT <= x < INT64_LIMIT
  }

  const INT64_SIZE: nat := 8

  /** PutUint64(uint64(x)) and back. */
  function Int64Bytes(x: int): (b: seq<Byte>)
    requires IsInt64(x)
    ensures |b| == INT64_SIZE
  {
    PowerValues();
    BE(if x < 0 then x + 2 * INT64_LIMIT else x, INT64_SIZE)
  }

  function BytesInt64(b: seq<Byte>): (x: int)
    requires |b| == INT64_SIZE
    ensures IsInt64(x)
  {
    PowerValues();
    if FromBE(b) < INT64_LIMIT then FromBE(b) else FromBE(b) - 2 * INT64_LIMIT
  }

  lemma Int64RoundTrip(x: int)
    requires IsInt64(x)
    ensures BytesInt64(Int64Bytes(x)) == x
  {
    PowerValues();
    FromBEofBE(if x < 0 then x + 2 * INT64_LIMIT else x, INT64_SIZE);
  }

  lemma Int64Onto(b: seq<Byte>)
    requires |b| == INT64_SIZE
    ensures Int64Bytes(BytesInt64(b)) == b
  {
    PowerValues();
    BEofFromBE(b);
  }

  lemma IdOnto(b: seq<Byte>)
    requires |b| == 32
    ensures FromBE(b) < ID_SPACE == Pow256(32) && BE(FromBE(b), 32) == b
  {
    PowerValues();
    BEofFromBE(b);
  }

  /** The 40 bytes behind a page token. */
  function EncodeCursor(c: Cursor): (b: seq<Byte>)
    requires IsInt64(c.createdAt)
    ensures |b| == 40
  {
    PowerValues();
    Int64Bytes(c.createdAt) + BE(c.id, 32)
  }

  function DecodeCursor(b: seq<Byte>): (c: Option<Cursor>)
    ensures c.Some? <==> |b| == 40
    ensures c.Some? ==> IsInt64(c.value.createdAt)
  {
    PowerValues();
    if |b| != 40 then None else Some(Cursor(BytesInt64(b[..8]), FromBE(b[8..])))
  }

  lemma CursorRoundTrip(c: Cursor)
    requires IsInt64(c.createdAt)
    ensures DecodeCursor(EncodeCursor(c)) == Some(c)
  {
    PowerValues();
    var b := EncodeCursor(c);
    assert b[..8] == Int64Bytes(c.createdAt) && b[8..] == BE(c.id, 32);
    Int64RoundTrip(c.createdAt);
    FromBEofBE(c.id, 32);
  }

  /** A token is the traversal key of its entry without the leading 't'. */
  lemma CursorIsKey(k: TravKey)
    requires k.createdAt < INT64_LIMIT
    ensures KeyBytes(k.createdAt, k.id) == [116] + EncodeCursor(Cursor(k.createdAt, k.id))
  {}

  /** Every 40-byte token is that of exactly one cursor. */
  lemma CursorOnto(b: seq<Byte>)
    requires |b| == 40
    ensures EncodeCursor(DecodeCursor(b).value) == b
  {
    Int64Onto(b[..8]);
    IdOnto(b[8..]);
    assert b == b[..8] + b[8..];
  }

  // ---- One page ----

  datatype Query = Query(floor: int, since: int)

  /** time.Time{}.Unix() */
  const ZERO_TIME: int := -62135596800
  const EVERYTHING: Query := Query(0, ZERO_TIME)

  predicate After(cur: Option<TravKey>, k: TravKey) {
    cur.Some? ==> KeyLess(cur.value, k)
  }

  predicate Qualifies(q: Query, k: TravKey, v: TravVal) {
    v.wf >= q.floor && k.createdAt >= q.since
  }

  predicate Wanted(t: Trav, q: Query, cur: Option<TravKey>, k: TravKey) {
    k in t && Qualifies(q, k, t[k]) && After(cur, k)
  }

  predicate Increasing(refs: seq<BlockRef>) {
    forall i, j :: 0 <= i < j < |refs| ==> KeyLess(refs[i].key, refs[j].key)
  }

  /** `refs` are the first `limit` qualifying entries after the cursor, in order, and
      `next` resumes after the last of them exactly when the page is full. */
  ghost predicate IsPage(t: Trav, q: Query, cur: Option<TravKey>, limit: nat,
                         refs: seq<BlockRef>, next: Option<TravKey>)
  {
    && Increasing(refs)
    && |refs| <= limit
    && (forall r :: r in refs ==> Wanted(t, q, cur, r.key) && t[r.key] == r.val)
    && (forall k :: Wanted(t, q, cur, k) && BlockRef(k, t[k]) !in refs ==>
          |refs| == limit && forall r :: r in refs ==> KeyLess(r.key, k))
    && next == (if 0 < |refs| == limit then Some(refs[|refs| - 1].key) else None)
  }

  /** The contract leaves no freedom: any two pages for one request are equal. */
  lemma PageUnique(t: Trav, q: Query, cur: Option<TravKey>, limit: nat,
                   refs: seq<BlockRef>, next: Option<TravKey>, refs': seq<BlockRef>, next': Option<TravKey>)
    requires IsPage(t, q, cur, limit, refs, next) && IsPage(t, q, cur, limit, refs', next')
    ensures refs == refs' && next == next'
  {
    PagePrefix(t, q, cur, limit, refs, next, refs', next', |refs|);
    PagePrefix(t, q, cur, limit, refs', next', refs, next, |refs'|);
  }

  lemma {:induction false} PagePrefix(t: Trav, q: Query, cur: Option<TravKey>, limit: nat,
      refs: seq<BlockRef>, next: Option<TravKey>, refs': seq<BlockRef>, next': Option<TravKey>, n: nat)
    requires IsPage(t, q, cur, limit, refs, next) && IsPage(t, q, cur, limit, refs', next')
    requires n <= |refs|
    ensures n <= |refs'| && refs[..n] == refs'[..n]
  {
    if n > 0 {
      PagePrefix(t, q, cur, limit, refs, next, refs', next', n - 1);
      NotLater(t, q, cur, limit, refs, next, refs', next', n - 1);
      NotLater(t, q, cur, limit, refs', next', refs, next, n - 1);
      assert refs[n - 1] in refs && refs'[n - 1] in refs';
      assert refs[..n] == refs[..n - 1] + [refs[n - 1]];
      assert refs'[..n] == refs'[..n - 1] + [refs'[n - 1]];
    }
  }

  /** After an equal prefix, the entry at n on one page is matched no later on the other. */
  lemma NotLater(t: Trav, q: Query, cur: Option<TravKey>, limit: nat,
      refs: seq<BlockRef>, next: Option<TravKey>, refs': seq<BlockRef>, next': Option<TravKey>, n: nat)
    requires IsPage(t, q, cur, limit, refs, next) && IsPage(t, q, cur, limit, refs', next')
    requires n < |refs| && n <= |refs'| && refs[..n] == refs'[..n]
    ensures n < |refs'| && !KeyLess(refs[n].key, refs'[n].key)
  {
    var r := refs[n];
    assert r in refs && r == BlockRef(r.key, t[r.key]);
    assert forall i :: 0 <= i < n ==> refs[i] == refs[..n][i] == refs'[..n][i] == refs'[i];
    assert forall i :: 0 <= i < n ==> refs'[i] != r;
    if r in refs' {
      var j :| 0 <= j < |refs'| && refs'[j] == r;
      assert n <= j;
    } else {
      assert n < |refs'| ==> refs'[n] in refs';
    }
  }

  // ---- Computing a page ----

  predicate Ascending(keys: seq<TravKey>) {
    forall i, j :: 0 <= i < j < |keys| ==> KeyLess(keys[i], keys[j])
  }

  /** The first `limit` qualifying entries among the keys from position pos on. */
  function Collect(t: Trav, q: Query, keys: seq<TravKey>, pos: nat, limit: int): seq<BlockRef>
    requires pos <= |keys|
    decreases |keys| - pos
  {
    if pos == |keys| || limit <= 0 then []
    else if keys[pos] in t && Qualifies(q, keys[pos], t[keys[pos]]) then
      [BlockRef(keys[pos], t[keys[pos]])] + Collect(t, q, keys, pos + 1, limit - 1)
    else Collect(t, q, keys, pos + 1, limit)
  }

  /** Every ref is an entry of the map that qualifies. */
  ghost predicate Sound(t: Trav, q: Query, refs: seq<BlockRef>) {
    forall r :: r in refs ==> r.key in t && r.val == t[r.key] && Qualifies(q, r.key, r.val)
  }

  /** k qualifies and is listed, or lies beyond a full list. */
  ghost predicate Reached(t: Trav, q: Query, refs: seq<BlockRef>, limit: int, k: TravKey) {
    k in t && Qualifies(q, k, t[k]) ==>
      BlockRef(k, t[k]) in refs || (|refs| == limit && forall r :: r in refs ==> KeyLess(r.key, k))
  }

  ghost predicate StartsAfter(refs: seq<BlockRef>, k: TravKey) {
    forall r :: r in refs ==> KeyLess(k, r.key)
  }

  lemma {:induction false} CollectSound(t: Trav, q: Query, keys: seq<TravKey>, pos: nat, limit: int)
    requires pos <= |keys| && Ascending(keys) && limit >= 0
    ensures var c := Collect(t, q, keys, pos, limit);
            Increasing(c) && |c| <= limit && Sound(t, q, c) && forall r :: r in c ==> r.key in keys[pos..]
    decreases |keys| - pos
  {
    if pos < |keys| && limit > 0 {
      var k := keys[pos];
      var taken := k in t && Qualifies(q, k, t[k]);
      CollectSound(t, q, keys, pos + 1, if taken then limit - 1 else limit);
      assert forall x :: x in keys[pos + 1..] ==> x in keys[pos..] && KeyLess(k, x);
      assert StartsAfter(Collect(t, q, keys, pos + 1, if taken then limit - 1 else limit), k);
    }
  }

  lemma {:induction false} CollectReaches(t: Trav, q: Query, keys: seq<TravKey>, pos: nat, limit: int, i: nat)
    requires pos <= i < |keys| && Ascending(keys) && limit >= 0
    ensures Reached(t, q, Collect(t, q, keys, pos, limit), limit, keys[i])
    decreases |keys| - pos
  {
    if limit > 0 {
      var k := keys[pos];
      var taken := k in t && Qualifies(q, k, t[k]);
      if pos < i { CollectReaches(t, q, keys, pos + 1, if taken then limit - 1 else limit, i); }
    }
  }

  /** The walk yields a page when it starts past the cursor and has skipped nothing wanted. */
  lemma CollectIsPage(t: Trav, q: Query, cur: Option<TravKey>, keys: seq<TravKey>, pos: nat, limit: nat)
    requires pos <= |keys| && Ascending(keys) && (forall k :: k in t ==> k in keys) && limit >= 1
    requires forall i :: 0 <= i < pos ==> !Wanted(t, q, cur, keys[i])
    requires forall i :: pos <= i < |keys| ==> After(cur, keys[i])
    ensures var refs := Collect(t, q, keys, pos, limit);
            IsPage(t, q, cur, limit, refs, if |refs| == limit then Some(refs[|refs| - 1].key) else None)
  {
    CollectSound(t, q, keys, pos, limit);
    var refs := Collect(t, q, keys, pos, limit);
    forall k | Wanted(t, q, cur, k) && BlockRef(k, t[k]) !in refs
      ensures |refs| == limit && forall r :: r in refs ==> KeyLess(r.key, k)
    {
      var i :| 0 <= i < |keys| && keys[i] == k;
      assert pos <= i;
      CollectReaches(t, q, keys, pos, limit, i);
    }
  }

  /** The entries from key k on. */
  function NotBefore(t: Trav, k: TravKey): Trav {
    map x | x in t && !KeyLess(x, k) :: t[x]
  }

  /** Entries before the position the walk starts from do not matter to it. */
  lemma {:induction false} CollectSame(t: Trav, t': Trav, q: Query, keys: seq<TravKey>, pos: nat, limit: int)
    requires pos <= |keys|
    requires forall i :: pos <= i < |keys| ==>
               (keys[i] in t <==> keys[i] in t') && (keys[i] in t ==> t[keys[i]] == t'[keys[i]])
    ensures Collect(t, q, keys, pos, limit) == Collect(t', q, keys, pos, limit)
    decreases |keys| - pos
  {
    if pos < |keys| && limit > 0 {
      CollectSame(t, t', q, keys, pos + 1, limit - 1);
      CollectSame(t, t', q, keys, pos + 1, limit);
    }
  }

  /** There is always a page. */
  lemma PageExists(t: Trav, q: Query, cur: Option<TravKey>, limit: nat)
    returns (refs: seq<BlockRef>, next: Option<TravKey>)
    requires limit >= 1
    ensures IsPage(t, q, cur, limit, refs, next)
  {
    var ahead := set k | k in t && After(cur, k);
    var keys := InOrder(ahead);
    var t' := map k | k in ahead :: t[k];
    assert forall i :: 0 <= i < |keys| ==> keys[i] in keys;
    CollectIsPage(t', q, cur, keys, 0, limit);
    refs := Collect(t', q, keys, 0, limit);
    next := if |refs| == limit then Some(refs[|refs| - 1].key) else None;
    assert forall k :: Wanted(t', q, cur, k) <==> Wanted(t, q, cur, k);
  }

  lemma {:induction false} InOrder(s: set<TravKey>) returns (keys: seq<TravKey>)
    ensures Ascending(keys) && forall k :: k in keys <==> k in s
  {
    if s == {} {
      keys := [];
    } else {
      var m := Last(s);
      var rest := InOrder(s - {m});
      keys := rest + [m];
    }
  }

  lemma {:induction false} Last(s: set<TravKey>) returns (m: TravKey)
    requires s != {}
    ensures m in s && forall k :: k in s && k != m ==> KeyLess(k, m)
  {
    var k :| k in s;
    m := k;
    if s != {k} {
      var m' := Last(s - {k});
      m := if KeyLess(k, m') then m' else k;
      forall j | j in s && j != m ensures KeyLess(j, m) {
        assert j == k || j in s - {k};
      }
    }
  }

  // ---- Whole scans over a changing store ----

  function Flatten(pages: seq<seq<BlockRef>>): seq<BlockRef> {
    if pages == [] then [] else Flatten(pages[..|pages| - 1]) + pages[|pages| - 1]
  }

  /** Page i is read from snapshot ts[i]; anything at all may happen between snapshots. */
  ghost predicate Scan(ts: seq<Trav>, q: Query, limit: nat, pages: seq<seq<BlockRef>>, curs: seq<Option<TravKey>>)
  {
    && |ts| == |pages| && |curs| == |pages| + 1 && limit >= 1
    && curs[0] == None
    && (forall i :: 0 <= i < |pages| ==> IsPage(ts[i], q, curs[i], limit, pages[i], curs[i + 1]))
    && (forall i :: 0 < i < |pages| ==> curs[i].Some?)
  }

  ghost predicate Finished(curs: seq<Option<TravKey>>) {
    |curs| > 1 && curs[|curs| - 1] == None
  }

  /** The entry k -> v is in every snapshot. */
  ghost predicate Stays(ts: seq<Trav>, k: TravKey, v: TravVal) {
    forall i :: 0 <= i < |ts| ==> k in ts[i] && ts[i][k] == v
  }

  ghost predicate Covered(ts: seq<Trav>, q: Query, out: seq<BlockRef>, cur: Option<TravKey>) {
    && (cur.Some? ==> forall r :: r in out ==> !KeyLess(cur.value, r.key))
    && (forall k, v :: Stays(ts, k, v) && Qualifies(q, k, v) ==>
          BlockRef(k, v) in out || (cur.Some? && KeyLess(cur.value, k)))
  }

  /** One more page after the cursor `cur`, when everything listed so far is not after it. */
  lemma PageExtends(t: Trav, q: Query, cur: Option<TravKey>, limit: nat, page: seq<BlockRef>,
                    next: Option<TravKey>, out: seq<BlockRef>)
    requires IsPage(t, q, cur, limit, page, next) && Increasing(out)
    requires forall r :: r in out ==> cur.Some? && !KeyLess(cur.value, r.key)
    ensures Increasing(out + page)
    ensures next.Some? ==> forall r :: r in out + page ==> !KeyLess(next.value, r.key)
  {
    forall i, j | 0 <= i < j < |out + page|
      ensures KeyLess((out + page)[i].key, (out + page)[j].key)
    {
      if i < |out| <= j {
        assert out[i] in out && page[j - |out|] in page;
      }
    }
    if next.Some? {
      assert page[|page| - 1] in page;
      forall r | r in out + page ensures !KeyLess(next.value, r.key) {
        var i :| 0 <= i < |out + page| && (out + page)[i] == r;
        assert i < |out + page| - 1 ==> KeyLess(r.key, (out + page)[|out + page| - 1].key);
      }
    }
  }

  lemma PageCovers(t: Trav, q: Query, cur: Option<TravKey>, limit: nat, page: seq<BlockRef>,
                   next: Option<TravKey>, k: TravKey)
    requires IsPage(t, q, cur, limit, page, next) && limit >= 1
    requires Wanted(t, q, cur, k)
    ensures BlockRef(k, t[k]) in page || (next.Some? && KeyLess(next.value, k))
  {
    if BlockRef(k, t[k]) !in page {
      assert page[|page| - 1] in page;
    }
  }

  lemma {:induction false} ScanInvariant(ts: seq<Trav>, q: Query, limit: nat, pages: seq<seq<BlockRef>>,
                                         curs: seq<Option<TravKey>>)
    requires Scan(ts, q, limit, pages, curs) && pages != []
    ensures Increasing(Flatten(pages))
    ensures Covered(ts, q, Flatten(pages), curs[|pages|])
  {
    var n := |pages| - 1;
    var page, out := pages[n], Flatten(pages[..n]);
    if n > 0 {
      ScanInvariant(ts[..n], q, limit, pages[..n], curs[..n + 1]);
    }
    PageExtends(ts[n], q, curs[n], limit, page, curs[n + 1], out);
    forall k, v | Stays(ts, k, v) && Qualifies(q, k, v)
      ensures BlockRef(k, v) in out + page || (curs[n + 1].Some? && KeyLess(curs[n + 1].value, k))
    {
      assert Stays(ts[..n], k, v);
      assert k in ts[n] && ts[n][k] == v;
      if BlockRef(k, v) !in out {
        PageCovers(ts[n], q, curs[n], limit, page, curs[n + 1], k);
      }
    }
  }

  /** Main pagination theorem. Whatever happens between pages, a finished scan lists keys in
      strictly increasing order, so none twice, and lists every qualifying entry that stayed,
      whether or not the entries its cursors name were deleted. */
  lemma ScanComplete(ts: seq<Trav>, q: Query, limit: nat, pages: seq<seq<BlockRef>>, curs: seq<Option<TravKey>>,
                     k: TravKey, v: TravVal)
    requires Scan(ts, q, limit, pages, curs) && Finished(curs)
    requires (forall i :: 0 <= i < |ts| ==> k in ts[i] && ts[i][k] == v) && v.wf >= q.floor && k.createdAt >= q.since
    ensures Increasing(Flatten(pages))
    ensures multiset(Flatten(pages))[BlockRef(k, v)] == 1
  {
    ScanInvariant(ts, q, limit, pages, curs);
    OnceEach(Flatten(pages), BlockRef(k, v));
  }

  lemma {:induction false} OnceEach(refs: seq<BlockRef>, r: BlockRef)
    requires Increasing(refs)
    ensures multiset(refs)[r] == if r in refs then 1 else 0
  {
    if refs != [] {
      var n := |refs| - 1;
      assert refs == refs[..n] + [refs[n]];
      assert r in refs <==> r in refs[..n] || r == refs[n];
      OnceEach(refs[..n], r);
    }
  }

  /** Everything listed was there, and qualified, when its page was read. */
  lemma {:induction false} ScanSound(ts: seq<Trav>, q: Query, limit: nat, pages: seq<seq<BlockRef>>,
                                     curs: seq<Option<TravKey>>, r: BlockRef)
    returns (i: nat)
    requires Scan(ts, q, limit, pages, curs) && r in Flatten(pages)
    ensures i < |ts| && r.key in ts[i] && ts[i][r.key] == r.val && r.val.wf >= q.floor && r.key.createdAt >= q.since
  {
    var n := |pages| - 1;
    if r in pages[n] {
      i := n;
      assert IsPage(ts[n], q, curs[n], limit, pages[n], curs[n + 1]);
    } else {
      i := ScanSound(ts[..n], q, limit, pages[..n], curs[..n + 1], r);
    }
  }

  /** A scan that ever sees at most the keys of `seen` reads at most |seen| / limit + 1 pages. */
  lemma ScanTerminates(ts: seq<Trav>, q: Query, limit: nat, pages: seq<seq<BlockRef>>,
                       curs: seq<Option<TravKey>>, seen: set<TravKey>)
    requires Scan(ts, q, limit, pages, curs) && pages != []
    requires forall i :: 0 <= i < |ts| ==> ts[i].Keys <= seen
    ensures |Flatten(pages)| <= |seen|
    ensures (|pages| - 1) * limit <= |seen|
  {
    ScanInvariant(ts, q, limit, pages, curs);
    var out := Flatten(pages);
    forall r | r in out ensures r.key in seen {
      var i := ScanSound(ts, q, limit, pages, curs, r);
    }
    IncreasingFits(out, seen);
    forall i | 0 <= i < |pages| - 1 ensures |pages[i]| == limit {
      assert IsPage(ts[i], q, curs[i], limit, pages[i], curs[i + 1]);
    }
    FullPages(pages[..|pages| - 1], limit);
  }

  lemma {:induction false} IncreasingFits(refs: seq<BlockRef>, keys: set<TravKey>)
    requires Increasing(refs) && forall r :: r in refs ==> r.key in keys
    ensures |refs| <= |keys|
  {
    if refs != [] {
      var n := |refs| - 1;
      assert refs[n] in refs;
      IncreasingFits(refs[..n], keys - {refs[n].key});
    }
  }

  lemma {:induction false} FullPages(pages: seq<seq<BlockRef>>, limit: nat)
    requires forall i :: 0 <= i < |pages| ==> |pages[i]| == limit
    ensures |Flatten(pages)| == |pages| * limit
  {
    if pages != [] {
      var n := |pages| - 1;
      FullPages(pages[..n], limit);
      assert (n + 1) * limit == n * limit + limit;
    }
  }

  // ---- Scans of a store that stays put ----

  /** `out` lists, in order, the qualifying entries up to the cursor; all of them once done. */
  ghost predicate ListedTo(t: Trav, q: Query, out: seq<BlockRef>, cur: Option<TravKey>, done: bool) {
    && Increasing(out)
    && (forall r :: r in out ==> r.key in t && t[r.key] == r.val && Qualifies(q, r.key, r.val)
                                 && (done || (cur.Some? && !KeyLess(cur.value, r.key))))
    && (forall k :: k in t && Qualifies(q, k, t[k]) && (done || (cur.Some? && !KeyLess(cur.value, k))) ==>
          BlockRef(k, t[k]) in out)
  }

  lemma ListedNone(t: Trav, q: Query)
    ensures ListedTo(t, q, [], None, false)
  {}

  lemma ListedPage(t: Trav, q: Query, out: seq<BlockRef>, cur: Option<TravKey>, limit: nat,
                   page: seq<BlockRef>, next: Option<TravKey>)
    requires ListedTo(t, q, out, cur, false) && IsPage(t, q, cur, limit, page, next) && limit >= 1
    ensures ListedTo(t, q, out + page, next, next == None)
    ensures next.Some? ==> |out| < |out + page| <= |t.Keys|
  {
    PageExtends(t, q, cur, limit, page, next, out);
    forall k | k in t && Qualifies(q, k, t[k]) && (next == None || !KeyLess(next.value, k))
      ensures BlockRef(k, t[k]) in out + page
    {
      if After(cur, k) { PageCovers(t, q, cur, limit, page, next, k); }
    }
    IncreasingFits(out + page, t.Keys);
  }

  lemma Extend<T>(a: seq<T>, b: seq<T>, i: nat)
    requires i < |b|
    ensures a + b[..i] + [b[i]] == a + b[..i + 1]
  {}

  lemma ExtendAll<T>(a: seq<T>, b: seq<T>)
    ensures a + b[..|b|] == a + b
  {}
}
