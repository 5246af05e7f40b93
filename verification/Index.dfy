/** The sharded binary index of a flat-file store. */
module Index {
  import opened Types
  import opened Bytes

  const MAGIC: seq<Byte> := ['S' as int, 'N' as int, 'K' as int, '1' as int]
  /** id[32] | wf[1] | expires_at[4] | flags[1] */
  const REC_SIZE: nat := 38
  const COUNT_SPACE: nat := 0x1_0000_0000

  type Uint32 = x: nat | x < COUNT_SPACE

  datatype Record = Record(id: ID, wf: Byte, expiresAt: Uint32)

  ghost predicate SortedIds(rs: seq<Record>) {
    forall i, j :: 0 <= i < j < |rs| ==> rs[i].id < rs[j].id
  }

  // ---- Lookup ----

  /** Index.search: binary search by id. */
  method Search(rs: seq<Record>, id: ID) returns (found: Option<Record>)
    requires SortedIds(rs)
    ensures found.Some? ==> found.value in rs && found.value.id == id
    ensures found == None ==> forall r :: r in rs ==> r.id != id
  {
    var lo, hi := 0, |rs|;
    while lo < hi
      invariant 0 <= lo <= hi <= |rs|
      invariant forall i :: 0 <= i < lo ==> rs[i].id < id
      invariant forall i :: hi <= i < |rs| ==> id < rs[i].id
    {
      var mid := (lo + hi) / 2;
      if rs[mid].id == id {
        return Some(rs[mid]);
      } else if rs[mid].id < id {
        lo := mid + 1;
      } else {
        hi := mid;
      }
    }
    return None;
  }

  // ---- Shards ----

  /** 256 to the power of 31. */
  const SHARD_SPAN: nat := 0x1_00000000000000_0000000000000000_0000000000000000_0000000000000000

  /** id[0]: the shard that covers an id. */
  function ShardOf(id: ID): Byte {
    id / SHARD_SPAN
  }

  /** The leading byte of a number is what is left of it after the others. */
  lemma {:induction false} LeadingByte(n: nat, len: nat)
    requires n < Pow256(len + 1)
    ensures BE(n, len + 1)[0] * Pow256(len) <= n < (BE(n, len + 1)[0] + 1) * Pow256(len)
    decreases len
  {
    if len == 0 {
      assert BE(n, 1) == BE(n / 256, 0) + [n % 256];
    } else {
      LeadingByte(n / 256, len - 1);
      var d: int, p := BE(n, len + 1)[0], Pow256(len - 1);
      assert BE(n, len + 1) == BE(n / 256, len) + [n % 256];
      Scale(d, p);
      Scale(d + 1, p);
    }
  }

  lemma Scale(d: int, p: nat)
    ensures d * (256 * p) == 256 * (d * p)
  {}

  lemma ShardIsFirstByte(id: ID)
    ensures Pow256(32) == ID_SPACE && ShardOf(id) == BE(id, 32)[0]
  {
    PowerValues();
    assert Pow256(31) == SHARD_SPAN;
    LeadingByte(id, 31);
  }

  lemma ShardMonotone(a: ID, b: ID)
    requires a <= b
    ensures ShardOf(a) <= ShardOf(b)
  {}

  /** The records of all shards, one shard after the other. */
  function Joined(shards: seq<seq<Record>>): seq<Record> {
    if shards == [] then [] else Joined(shards[..|shards| - 1]) + shards[|shards| - 1]
  }

  lemma {:induction false} InJoined(shards: seq<seq<Record>>, r: Record)
    ensures r in Joined(shards) <==> exists b :: 0 <= b < |shards| && r in shards[b]
  {
    if shards != [] {
      var n := |shards| - 1;
      InJoined(shards[..n], r);
      assert forall b :: 0 <= b < n ==> shards[..n][b] == shards[b];
    }
  }

  /** The shard of first byte b: sorted, and nothing else in it. */
  ghost predicate IsShard(shard: seq<Record>, b: nat) {
    SortedIds(shard) && forall r :: r in shard ==> ShardOf(r.id) == b
  }

  /** writeShards: one pass over the sorted records cuts them into 256 runs by first byte.
      Laid end to end the shards are the records again: nothing is lost, nothing duplicated. */
  method WriteShards(rs: seq<Record>) returns (shards: seq<seq<Record>>)
    requires SortedIds(rs)
    ensures |shards| == 256 && Joined(shards) == rs
    ensures forall b :: 0 <= b < 256 ==> IsShard(shards[b], b)
  {
    shards := [];
    var i := 0;
    for b := 0 to 256
      invariant |shards| == b && i <= |rs| && Joined(shards) == rs[..i]
      invariant forall c :: 0 <= c < b ==> IsShard(shards[c], c)
      invariant forall k :: i <= k < |rs| ==> ShardOf(rs[k].id) >= b
    {
      var j := RunEnd(rs, i, b);
      JoinOne(shards, rs, i, j);
      RunIsShard(rs, i, j, b);
      shards := shards + [rs[i..j]];
      i := j;
    }
    assert i < |rs| ==> ShardOf(rs[i].id) >= 256;
    assert rs[..|rs|] == rs;
  }

  lemma RunIsShard(rs: seq<Record>, i: nat, j: nat, b: nat)
    requires SortedIds(rs) && i <= j <= |rs| && forall k :: i <= k < j ==> ShardOf(rs[k].id) == b
    ensures IsShard(rs[i..j], b)
  {
    assert forall k :: 0 <= k < j - i ==> rs[i..j][k] == rs[i + k];
  }

  lemma JoinOne(shards: seq<seq<Record>>, rs: seq<Record>, i: nat, j: nat)
    requires i <= j <= |rs| && Joined(shards) == rs[..i]
    ensures Joined(shards + [rs[i..j]]) == rs[..j]
  {
    assert (shards + [rs[i..j]])[..|shards|] == shards;
    assert rs[..i] + rs[i..j] == rs[..j];
  }

  /** The end of the run of records with first byte b that starts at i. */
  method RunEnd(rs: seq<Record>, i: nat, b: Byte) returns (j: nat)
    requires SortedIds(rs) && i <= |rs|
    requires forall k :: i <= k < |rs| ==> ShardOf(rs[k].id) >= b
    ensures i <= j <= |rs|
    ensures forall k :: i <= k < j ==> ShardOf(rs[k].id) == b
    ensures forall k :: j <= k < |rs| ==> ShardOf(rs[k].id) > b
  {
    j := i;
    while j < |rs| && ShardOf(rs[j].id) == b
      invariant i <= j <= |rs|
      invariant forall k :: i <= k < j ==> ShardOf(rs[k].id) == b
    {
      j := j + 1;
    }
    forall k | j <= k < |rs| ensures ShardOf(rs[k].id) > b {
      ShardMonotone(rs[j].id, rs[k].id);
    }
  }

  /** The records with first byte b, in order. */
  function OfShard(rs: seq<Record>, b: nat): seq<Record> {
    if rs == [] then [] else
      OfShard(rs[..|rs| - 1], b) + if ShardOf(rs[|rs| - 1].id) == b then [rs[|rs| - 1]] else []
  }

  lemma {:induction false} OfShardJoin(a: seq<Record>, c: seq<Record>, b: nat)
    ensures OfShard(a + c, b) == OfShard(a, b) + OfShard(c, b)
  {
    if c == [] {
      assert a + c == a;
    } else {
      var n := |c| - 1;
      OfShardJoin(a, c[..n], b);
      assert (a + c)[..|a| + n] == a + c[..n];
    }
  }

  lemma {:induction false} OfOneShard(rs: seq<Record>, c: nat, b: nat)
    requires forall r :: r in rs ==> ShardOf(r.id) == c
    ensures OfShard(rs, b) == if b == c then rs else []
  {
    if rs != [] {
      var n := |rs| - 1;
      assert rs[n] in rs && rs == rs[..n] + [rs[n]];
      OfOneShard(rs[..n], c, b);
    }
  }

  /** The shards are the only way to cut the records up by first byte. */
  lemma {:induction false} ShardsAre(shards: seq<seq<Record>>, b: nat)
    requires forall c :: 0 <= c < |shards| ==> IsShard(shards[c], c)
    ensures OfShard(Joined(shards), b) == if b < |shards| then shards[b] else []
  {
    if shards != [] {
      var n := |shards| - 1;
      ShardsAre(shards[..n], b);
      assert IsShard(shards[n], n);
      OfOneShard(shards[n], n, b);
      OfShardJoin(Joined(shards[..n]), shards[n], b);
    }
  }

  // ---- File format ----

  function EncodeRecord(r: Record): (b: seq<Byte>)
    ensures |b| == REC_SIZE
  {
    PowerValues();
    BE(r.id, 32) + ([r.wf] + (BE(r.expiresAt, 4) + [0]))
  }

  function DecodeRecord(b: seq<Byte>): Record
    requires |b| == REC_SIZE
  {
    PowerValues();
    Record(FromBE(b[..32]), b[32], FromBE(b[33..37]))
  }

  lemma RecordRoundTrip(r: Record)
    ensures DecodeRecord(EncodeRecord(r)) == r
    ensures Pow256(32) == ID_SPACE && Pow256(4) == 0x1_0000_0000
    ensures var b := EncodeRecord(r);
            b[..32] == BE(r.id, 32) && b[32] == r.wf && b[33..37] == BE(r.expiresAt, 4) && b[37] == 0
  {
    PowerValues();
    FromBEofBE(r.id, 32);
    FromBEofBE(r.expiresAt, 4);
    RecordParts(BE(r.id, 32), r.wf, BE(r.expiresAt, 4));
  }

  lemma RecordParts(id: seq<Byte>, wf: Byte, exp: seq<Byte>)
    requires |id| == 32 && |exp| == 4
    ensures var b := id + ([wf] + (exp + [0]));
            |b| == 38 && b[..32] == id && b[32] == wf && b[33..37] == exp && b[37] == 0
  {}

  /** Equally long chunks, from the i-th on, one after the other. */
  function Flat(chunks: seq<seq<Byte>>, i: nat): (b: seq<Byte>)
    requires i <= |chunks| && forall k :: 0 <= k < |chunks| ==> |chunks[k]| == REC_SIZE
    ensures |b| == (|chunks| - i) * REC_SIZE
    decreases |chunks| - i
  {
    if i == |chunks| then [] else chunks[i] + Flat(chunks, i + 1)
  }

  function Chunks(rs: seq<Record>): (cs: seq<seq<Byte>>)
    ensures |cs| == |rs|
    ensures forall i :: 0 <= i < |cs| ==> cs[i] == EncodeRecord(rs[i]) && |cs[i]| == REC_SIZE
  {
    seq(|rs|, i requires 0 <= i < |rs| => EncodeRecord(rs[i]))
  }

  /** Magic, record count as a uint32, records. */
  function Encoded(rs: seq<Record>): (b: seq<Byte>)
    ensures |b| == 8 + |rs| * REC_SIZE
  {
    Header(|rs|) + Flat(Chunks(rs), 0)
  }

  function Header(count: nat): (b: seq<Byte>)
    ensures |b| == 8
  {
    MAGIC + BE4(count)
  }

  /** PutUint32(uint32(n)) */
  function BE4(n: nat): (b: seq<Byte>)
    ensures |b| == 4
  {
    WordValue();
    BE(n % COUNT_SPACE, 4)
  }

  method EncodeIndex(rs: seq<Record>) returns (data: seq<Byte>)
    ensures data == Encoded(rs)
    ensures |data| == 8 + |rs| * 38 && data[..4] == [83, 78, 75, 49] && FromBE(data[4..8]) == |rs| % 0x1_0000_0000
    ensures forall i :: 0 <= i < |rs| ==> Slice(data, i) == EncodeRecord(rs[i])
  {
    data := Header(|rs|);
    ghost var chunks := Chunks(rs);
    for i := 0 to |rs|
      invariant data + Flat(chunks, i) == Encoded(rs)
    {
      var rec := EncodeRecord(rs[i]);
      Regroup(data, rec, Flat(chunks, i + 1));
      data := data + rec;
    }
    assert data + [] == data;
    HeaderRoundTrip(rs);
    forall i | 0 <= i < |rs| ensures Slice(data, i) == EncodeRecord(rs[i]) { SliceOfEncoded(rs, i); }
  }

  /** The bytes of record i. */
  function Slice(data: seq<Byte>, i: nat): seq<Byte>
    requires 8 + (i + 1) * REC_SIZE <= |data|
  {
    data[8 + i * REC_SIZE..8 + (i + 1) * REC_SIZE]
  }

  predicate HeaderOk(data: seq<Byte>) {
    |data| >= 8 && data[..4] == MAGIC && |data| - 8 >= FromBE(data[4..8]) * REC_SIZE
  }

  /** parseIndex: None for a truncated header, a bad magic or missing records. */
  method ParseIndex(data: seq<Byte>) returns (index: Option<seq<Record>>)
    ensures index.Some? <==> HeaderOk(data)
    ensures index.Some? <==>
              |data| >= 8 && data[..4] == [83, 78, 75, 49] && |data| >= 8 + FromBE(data[4..8]) * 38
    ensures index.Some? ==> |index.value| == FromBE(data[4..8])
    ensures index.Some? ==> forall i :: 0 <= i < |index.value| ==> index.value[i] == DecodeRecord(Slice(data, i))
  {
    if |data| < 8 {
      return None;
    }
    if data[..4] != MAGIC {
      return None;
    }
    var count := FromBE(data[4..8]);
    if |data| - 8 < count * REC_SIZE {
      return None;
    }
    var rs: seq<Record> := [];
    for i := 0 to count
      invariant |rs| == i && forall k :: 0 <= k < i ==> rs[k] == DecodeRecord(Slice(data, k))
    {
      rs := rs + [DecodeRecord(Slice(data, i))];
    }
    index := Some(rs);
  }

  lemma {:induction false} SliceOfFlat(chunks: seq<seq<Byte>>, i: nat, k: nat)
    requires i <= k < |chunks| && forall j :: 0 <= j < |chunks| ==> |chunks[j]| == REC_SIZE
    ensures Flat(chunks, i)[(k - i) * REC_SIZE..(k - i + 1) * REC_SIZE] == chunks[k]
    decreases k - i
  {
    var lo := (k - i) * REC_SIZE;
    assert (k - i + 1) * REC_SIZE == lo + REC_SIZE;
    SliceChunk(chunks[i], Flat(chunks, i + 1), lo);
    if i < k {
      assert (k - (i + 1)) * REC_SIZE == lo - REC_SIZE;
      SliceOfFlat(chunks, i + 1, k);
    }
  }

  lemma SliceChunk(a: seq<Byte>, b: seq<Byte>, lo: nat)
    requires |a| == REC_SIZE
    ensures lo == 0 ==> (a + b)[lo..lo + REC_SIZE] == a
    ensures REC_SIZE <= lo <= |b| ==> (a + b)[lo..lo + REC_SIZE] == b[lo - REC_SIZE..lo]
  {}

  lemma SliceOfEncoded(rs: seq<Record>, i: nat)
    requires i < |rs|
    ensures Slice(Encoded(rs), i) == EncodeRecord(rs[i])
  {
    var chunks := Chunks(rs);
    SliceOfFlat(chunks, 0, i);
    SliceAt(Header(|rs|), Flat(chunks, 0), i, chunks[i]);
  }

  lemma SliceAt(head: seq<Byte>, body: seq<Byte>, i: nat, chunk: seq<Byte>)
    requires |head| == 8 && (i + 1) * REC_SIZE <= |body| && body[i * REC_SIZE..(i + 1) * REC_SIZE] == chunk
    ensures Slice(head + body, i) == chunk
  {
    SliceAfter(head, body, i * REC_SIZE, (i + 1) * REC_SIZE);
  }

  lemma SliceAfter(head: seq<Byte>, body: seq<Byte>, lo: nat, hi: nat)
    requires |head| == 8 && lo <= hi <= |body|
    ensures (head + body)[8 + lo..8 + hi] == body[lo..hi]
  {}

  lemma HeaderParts(count: seq<Byte>, body: seq<Byte>)
    requires |count| == 4 && FromBE(count) * REC_SIZE <= |body|
    ensures (MAGIC + count + body)[4..8] == count && HeaderOk(MAGIC + count + body)
  {}

  lemma CountRoundTrip(n: nat)
    ensures |BE4(n)| == 4 && FromBE(BE4(n)) == n % COUNT_SPACE
  {
    WordValue();
    FromBEofBE(n % COUNT_SPACE, 4);
  }

  lemma HeaderRoundTrip(rs: seq<Record>)
    ensures HeaderOk(Encoded(rs)) && FromBE(Encoded(rs)[4..8]) == |rs| % COUNT_SPACE
  {
    CountRoundTrip(|rs|);
    HeaderParts(BE4(|rs|), Flat(Chunks(rs), 0));
  }

  /** Parsing inverts encoding. The count is a uint32, so what comes back is the first
      |rs| mod 2^32 records: all of them exactly when there are fewer than 2^32. */
  lemma IndexRoundTrip(rs: seq<Record>, i: nat)
    ensures HeaderOk(Encoded(rs)) && FromBE(Encoded(rs)[4..8]) == |rs| % COUNT_SPACE
    ensures i < |rs| % COUNT_SPACE ==> DecodeRecord(Slice(Encoded(rs), i)) == rs[i]
  {
    HeaderRoundTrip(rs);
    if i < |rs| % COUNT_SPACE {
      SliceOfEncoded(rs, i);
      RecordRoundTrip(rs[i]);
    }
  }

  /** What is left of a list after it has been written to a file and read again. */
  function Kept(rs: seq<Record>): seq<Record> {
    rs[..|rs| % COUNT_SPACE]
  }

  /** Writing an index and parsing it. */
  method Reopen(rs: seq<Record>) returns (index: seq<Record>)
    ensures index == Kept(rs) == rs[..|rs| % 0x1_0000_0000]
  {
    var data := EncodeIndex(rs);
    var parsed := ParseIndex(data);
    HeaderRoundTrip(rs);
    index := parsed.value;
    forall i | 0 <= i < |index| ensures index[i] == rs[i] { IndexRoundTrip(rs, i); }
  }

  /** The whole path of a lookup: cut the sorted records into shards, write the shard that the id
      names, open it again, and search it. It finds the record with that id exactly when the
      shard's file holds it: always, if the shard has fewer than 2^32 records. */
  method Lookup(rs: seq<Record>, id: ID) returns (found: Option<Record>)
    requires SortedIds(rs)
    ensures found.Some? ==> found.value in rs && found.value.id == id
    ensures found.Some? <==> exists r :: r in Kept(OfShard(rs, ShardOf(id))) && r.id == id
    ensures |OfShard(rs, ShardOf(id))| < COUNT_SPACE ==> (found.Some? <==> exists r :: r in rs && r.id == id)
  {
    var shards := WriteShards(rs);
    var b := ShardOf(id);
    ShardsAre(shards, b);
    assert IsShard(shards[b], b);
    var index := Reopen(shards[b]);
    KeptFacts(shards[b]);
    found := Search(index, id);
    ShardHolds(shards, id);
    if found.Some? { InJoined(shards, found.value); }
  }

  lemma KeptFacts(rs: seq<Record>)
    requires SortedIds(rs)
    ensures SortedIds(Kept(rs)) && (forall r :: r in Kept(rs) ==> r in rs)
    ensures |rs| < COUNT_SPACE ==> Kept(rs) == rs
  {}

  /** A record is in the shard that its id names. */
  lemma ShardHolds(shards: seq<seq<Record>>, id: ID)
    requires |shards| == 256 && forall b :: 0 <= b < 256 ==> IsShard(shards[b], b)
    ensures forall r: Record :: r.id == id ==> (r in Joined(shards) <==> r in shards[ShardOf(id)])
  {
    forall r: Record | r.id == id ensures r in Joined(shards) <==> r in shards[ShardOf(id)] {
      InJoined(shards, r);
      if r in Joined(shards) {
        var b :| 0 <= b < |shards| && r in shards[b];
        assert IsShard(shards[b], b);
      }
    }
  }
}
