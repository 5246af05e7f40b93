/** The levelled Bloom filter that peers exchange. */
module Bloom {
  import opened Types
  import opened Bytes
  import opened Listing
  import opened Database

  const BLOOM_BYTES: nat := 8192
  const MAX_BLOOM_POW: nat := 16

  /** The level at which a work factor is looked up. */
  function Cap(wf: nat): (level: nat)
    ensures level <= wf && level <= 16 && (level == wf || level == 16)
  {
    if wf > MAX_BLOOM_POW then MAX_BLOOM_POW else wf
  }

  /** Exclusive or of the low `bits` bits. */
  function Xor(a: nat, b: nat, bits: nat): nat {
    if bits == 0 then 0
    else (if a % 2 == b % 2 then 0 else 1) + 2 * Xor(a / 2, b / 2, bits - 1)
  }

  /** Knuth's multiplier. */
  const KNUTH: nat := 2654435761

  /** binary.BigEndian.Uint32(id[off:off+4]) */
  function Word(id: ID, off: nat): nat {
    PowerValues();
    if off + 4 <= 32 then FromBE(BE(id, 32)[off..off + 4]) else 0
  }

  /** uint32(level) * 2654435761 */
  function Spread(level: nat): nat {
    (level * KNUTH) % 0x1_0000_0000
  }

  /** The hash in use. What follows LevelsDiffer holds for every hash. */
  function KnuthSlot(id: ID, off: nat, level: nat): SlotIndex {
    Xor(Word(id, off), Spread(level), 32) % BLOOM_BITS
  }

  /** Cutting a number to 32 bits keeps its low 16. */
  lemma TwoCuts(n: nat) returns (q: int)
    ensures n == BLOOM_BITS * q + n % 0x1_0000_0000 % BLOOM_BITS
  {
    var x := n % 0x1_0000_0000;
    q := n / 0x1_0000_0000 * BLOOM_BITS + x / BLOOM_BITS;
    assert n == n / 0x1_0000_0000 * 0x1_0000_0000 + x;
    assert x == x / BLOOM_BITS * BLOOM_BITS + x % BLOOM_BITS;
  }

  /** The multiplier is odd, so it can be undone modulo 2^16. */
  lemma KnuthInverse(level: SlotIndex, q: int, r: nat)
    requires level * KNUTH == BLOOM_BITS * q + r
    ensures (r * 12113) % BLOOM_BITS == level
  {
    var k := level * 490618597 - q * 12113;
    assert r * 12113 == BLOOM_BITS * k + level;
    ModUnique(r * 12113, BLOOM_BITS, k, level);
  }

  lemma ModDouble(b: nat, y: nat, p: nat)
    requires p > 0 && b < 2
    ensures (b + 2 * y) % (2 * p) == b + 2 * (y % p)
  {
    ModUnique(b + 2 * y, 2 * p, y / p, b + 2 * (y % p));
  }

  lemma ModUnique(n: int, d: int, q: int, r: int)
    requires 0 <= r < d && n == d * q + r
    ensures n % d == r
  {
    var k := n / d - q;
    assert n % d - r == -(d * k);
    assert k >= 1 ==> d * k >= d;
    assert k <= -1 ==> d * k <= -d;
  }

  /** The low bits of an exclusive or depend on the low bits only. */
  lemma {:induction false} XorLow(a: nat, b: nat, n: nat, m: nat)
    ensures Xor(a, b, n + m) % Pow2(n) == Xor(a, b, n)
    decreases n
  {
    if n > 0 {
      XorLow(a / 2, b / 2, n - 1, m);
      ModDouble(if a % 2 == b % 2 then 0 else 1, Xor(a / 2, b / 2, n - 1 + m), Pow2(n - 1));
    }
  }

  lemma {:induction false} XorInjective(a: nat, x: nat, y: nat, n: nat)
    requires Xor(a, x, n) == Xor(a, y, n)
    ensures x % Pow2(n) == y % Pow2(n)
    decreases n
  {
    if n > 0 {
      XorInjective(a / 2, x / 2, y / 2, n - 1);
      ModDouble(x % 2, x / 2, Pow2(n - 1));
      ModDouble(y % 2, y / 2, Pow2(n - 1));
    }
  }

  lemma Pow2Of16()
    ensures Pow2(16) == BLOOM_BITS
  {
    assert Pow2(4) == 16;
    assert Pow2(8) == 256;
    assert Pow2(12) == 4096;
  }

  /** One id at two different levels never shares a slot at the same offset. */
  lemma LevelsDiffer(id: ID, off: nat, a: SlotIndex, b: SlotIndex)
    ensures KnuthSlot(id, off, a) == KnuthSlot(id, off, b) <==> a == b
  {
    Pow2Of16();
    XorLow(Word(id, off), Spread(a), 16, 16);
    XorLow(Word(id, off), Spread(b), 16, 16);
    if KnuthSlot(id, off, a) == KnuthSlot(id, off, b) {
      XorInjective(Word(id, off), Spread(a), Spread(b), 16);
      var q := TwoCuts(a * KNUTH);
      KnuthInverse(a, q, Spread(a) % BLOOM_BITS);
      q := TwoCuts(b * KNUTH);
      KnuthInverse(b, q, Spread(b) % BLOOM_BITS);
    }
  }

  lemma {:induction false} XorCommutes(a: nat, b: nat, n: nat)
    ensures Xor(a, b, n) == Xor(b, a, n)
    decreases n
  {
    if n > 0 { XorCommutes(a / 2, b / 2, n - 1); }
  }

  lemma {:induction false} XorZero(a: nat, n: nat)
    ensures Xor(a, 0, n) == a % Pow2(n)
    decreases n
  {
    if n > 0 {
      XorZero(a / 2, n - 1);
      ModDouble(a % 2, a / 2, Pow2(n - 1));
    }
  }

  /** The low half of a word is its last two bytes. */
  lemma LowBytes(b: seq<Byte>)
    requires |b| == 4
    ensures FromBE(b) % BLOOM_BITS == FromBE(b[2..4])
  {
    var c := b[..3];
    assert FromBE(b) == 256 * FromBE(c) + b[3];
    assert c[..2] == b[..2] && FromBE(c) == 256 * FromBE(b[..2]) + b[2];
    assert b[2..4][..1] == [b[2]] && FromBE([b[2]]) == b[2];
    var high: int := b[2];
    assert FromBE(b[2..4]) == 256 * high + b[3];
    ModUnique(FromBE(b), BLOOM_BITS, FromBE(b[..2]), FromBE(b[2..4]));
  }

  /** At level 0 the slot is what the third and fourth byte from the offset on spell. */
  lemma SlotReads(id: ID, off: nat)
    requires off + 4 <= 32
    ensures Pow256(32) == ID_SPACE && KnuthSlot(id, off, 0) == FromBE(BE(id, 32)[off + 2..off + 4])
  {
    WordLow(id, off);
    LevelZero(id, off);
  }

  lemma LevelZero(id: ID, off: nat)
    ensures KnuthSlot(id, off, 0) == Word(id, off) % BLOOM_BITS
  {
    SlotLow(id, off, 0);
    SpreadZero();
    LowBits(Word(id, off), 16);
  }

  lemma SpreadZero()
    ensures Spread(0) == 0
  {}

  lemma LowBits(a: nat, n: nat)
    requires n == 16
    ensures Xor(a, 0, n) == a % BLOOM_BITS
  {
    Pow2Of16();
    XorZero(a, n);
  }

  /** At every level, two ids share a slot exactly if they agree in these bytes. */
  lemma SlotsShared(i: ID, j: ID, off: nat, level: nat)
    requires off + 4 <= 32
    ensures KnuthSlot(i, off, level) == KnuthSlot(j, off, level) <==> KnuthSlot(i, off, 0) == KnuthSlot(j, off, 0)
  {
    SlotLow(i, off, level);
    SlotLow(j, off, level);
    SlotLow(i, off, 0);
    SlotLow(j, off, 0);
    XorMod(Word(i, off), Word(j, off), Spread(level), 16);
    XorMod(Word(i, off), Word(j, off), Spread(0), 16);
  }

  lemma SlotLow(id: ID, off: nat, level: nat)
    ensures KnuthSlot(id, off, level) == Xor(Word(id, off), Spread(level), 16)
  {
    Pow2Of16();
    XorLow(Word(id, off), Spread(level), 16, 16);
  }

  lemma WordLow(id: ID, off: nat)
    requires off + 4 <= 32
    ensures Pow256(32) == ID_SPACE && Word(id, off) % BLOOM_BITS == FromBE(BE(id, 32)[off + 2..off + 4])
  {
    PowerValues();
    LowBytes(BE(id, 32)[off..off + 4]);
    assert BE(id, 32)[off..off + 4][2..4] == BE(id, 32)[off + 2..off + 4];
  }

  lemma XorMod(a: nat, b: nat, x: nat, n: nat)
    ensures Xor(a, x, n) == Xor(b, x, n) <==> a % Pow2(n) == b % Pow2(n)
  {
    XorCommutes(a, x, n);
    XorCommutes(b, x, n);
    if Xor(x, a, n) == Xor(x, b, n) { XorInjective(x, a, b, n); }
    if a % Pow2(n) == b % Pow2(n) { XorSame(x, a, b, n); }
  }

  lemma {:induction false} XorSame(a: nat, x: nat, y: nat, n: nat)
    requires x % Pow2(n) == y % Pow2(n)
    ensures Xor(a, x, n) == Xor(a, y, n)
    decreases n
  {
    if n > 0 {
      ModDouble(x % 2, x / 2, Pow2(n - 1));
      ModDouble(y % 2, y / 2, Pow2(n - 1));
      XorSame(a / 2, x / 2, y / 2, n - 1);
    }
  }

  function LevelSlots(h: Hash, id: ID, level: nat): set<nat> {
    {h(id, 0, level), h(id, 8, level), h(id, 16, level)}
  }

  function SlotsBelow(h: Hash, id: ID, n: nat): set<nat> {
    if n == 0 then {} else SlotsBelow(h, id, n - 1) + LevelSlots(h, id, n - 1)
  }

  /** A filter after its first n levels have been added for id. */
  ghost function Filled(h: Hash, ones: set<nat>, id: ID, n: nat): set<nat> {
    if n == 0 then ones else Filled(h, ones, id, n - 1) + LevelSlots(h, id, n - 1)
  }

  lemma {:induction false} FilledIs(h: Hash, ones: set<nat>, id: ID, n: nat)
    ensures Filled(h, ones, id, n) == ones + SlotsBelow(h, id, n)
  {
    if n > 0 { FilledIs(h, ones, id, n - 1); }
  }

  /** The bits Add sets: all three slots at every level up to the capped work factor. */
  function SlotsOf(h: Hash, id: ID, wf: nat): set<nat> {
    SlotsBelow(h, id, Cap(wf) + 1)
  }

  /** Slot s belongs to id at one of the levels 0 to min(wf, 16). */
  ghost predicate IsSlot(h: Hash, id: ID, wf: nat, s: nat) {
    exists level: nat, off: nat ::
      level <= Min(wf, 16) && (off == 0 || off == 8 || off == 16) && s == h(id, off, level)
  }

  lemma {:induction false} SlotLevel(h: Hash, id: ID, n: nat, s: nat) returns (level: nat, off: nat)
    requires s in SlotsBelow(h, id, n)
    ensures level < n && (off == 0 || off == 8 || off == 16) && s == h(id, off, level)
  {
    if s in SlotsBelow(h, id, n - 1) {
      level, off := SlotLevel(h, id, n - 1, s);
    } else {
      level := n - 1;
      off := if s == h(id, 0, level) then 0 else if s == h(id, 8, level) then 8 else 16;
    }
  }

  lemma SlotsExactly(h: Hash, id: ID, wf: nat, s: nat)
    ensures s in SlotsOf(h, id, wf) <==> IsSlot(h, id, wf, s)
  {
    if s in SlotsOf(h, id, wf) {
      var level, off := SlotLevel(h, id, Cap(wf) + 1, s);
      assert level <= Min(wf, 16) && s == h(id, off, level);
    }
    if IsSlot(h, id, wf, s) {
      var level: nat, off: nat :|
        level <= Min(wf, 16) && (off == 0 || off == 8 || off == 16) && s == h(id, off, level);
      LevelBelow(h, id, level, Cap(wf) + 1);
    }
  }

  /** Has: the three bits at the capped level are set. */
  predicate Claims(h: Hash, ones: set<nat>, id: ID, wf: nat) {
    LevelSlots(h, id, Cap(wf)) <= ones
  }

  ghost function AddAll(h: Hash, ones: set<nat>, refs: seq<BlockRef>): set<nat> {
    if refs == [] then ones
    else AddAll(h, ones, refs[..|refs| - 1]) + SlotsOf(h, refs[|refs| - 1].key.id, refs[|refs| - 1].val.wf)
  }

  lemma {:induction false} AddAllCovers(h: Hash, ones: set<nat>, refs: seq<BlockRef>, r: BlockRef)
    ensures ones <= AddAll(h, ones, refs)
    ensures r in refs ==> SlotsOf(h, r.key.id, r.val.wf) <= AddAll(h, ones, refs)
  {
    if refs != [] {
      AddAllCovers(h, ones, refs[..|refs| - 1], r);
      assert r in refs ==> r in refs[..|refs| - 1] || r == refs[|refs| - 1];
    }
  }

  lemma SlotsClaim(h: Hash, ones: set<nat>, id: ID, wf: nat, k: nat)
    requires SlotsOf(h, id, wf) <= ones && Min(k, 16) <= Min(wf, 16)
    ensures Claims(h, ones, id, k)
  {
    LevelBelow(h, id, Cap(k), Cap(wf) + 1);
  }

  lemma {:induction false} LevelBelow(h: Hash, id: ID, level: nat, n: nat)
    requires level < n
    ensures LevelSlots(h, id, level) <= SlotsBelow(h, id, n)
  {
    if level < n - 1 { LevelBelow(h, id, level, n - 1); }
  }

  /** After any sequence of Adds, an id added at some capped work factor is claimed at every
      capped level up to it. */
  lemma NeverFalseNegative(h: Hash, refs: seq<BlockRef>, r: BlockRef, k: nat)
    requires r in refs && Min(k, 16) <= Min(r.val.wf, 16)
    ensures Claims(h, AddAll(h, {}, refs), r.key.id, k)
  {
    AddAllCovers(h, {}, refs, r);
    SlotsClaim(h, AddAll(h, {}, refs), r.key.id, r.val.wf, k);
  }

  // ---- The filter of a whole store ----

  /** The bits of a filter to which every traversal entry has been added. */
  ghost function StoreBits(h: Hash, t: Trav): set<nat> {
    set k, s | k in t && s in SlotsOf(h, k.id, t[k].wf) :: s
  }

  lemma {:induction false} AddAllExactly(h: Hash, refs: seq<BlockRef>, s: nat)
    ensures s in AddAll(h, {}, refs) <==> exists r :: r in refs && s in SlotsOf(h, r.key.id, r.val.wf)
  {
    if refs != [] {
      var n := |refs| - 1;
      AddAllExactly(h, refs[..n], s);
      assert forall r :: r in refs <==> r in refs[..n] || r == refs[n];
    }
  }

  lemma ListedBits(h: Hash, t: Trav, listed: seq<BlockRef>)
    requires ListedTo(t, EVERYTHING, listed, None, true)
    ensures AddAll(h, {}, listed) == StoreBits(h, t)
  {
    forall s ensures s in AddAll(h, {}, listed) <==> s in StoreBits(h, t) {
      AddAllExactly(h, listed, s);
      if k :| k in t && s in SlotsOf(h, k.id, t[k].wf) {
        assert BlockRef(k, t[k]) in listed;
      }
    }
  }

  /** Every entry is claimed at every capped level up to its own. */
  lemma StoreClaims(h: Hash, t: Trav, k: TravKey, wf: nat)
    requires k in t && Min(wf, 16) <= Min(t[k].wf, 16)
    ensures Claims(h, StoreBits(h, t), k.id, wf)
  {
    SlotsClaim(h, StoreBits(h, t), k.id, t[k].wf, wf);
  }

  // ---- When a filter does not claim ----

  /** Slot s is one of some entry, at a level up to its own. */
  ghost predicate Hit(h: Hash, t: Trav, s: nat) {
    exists k :: k in t && IsSlot(h, k.id, t[k].wf, s)
  }

  lemma HitExactly(h: Hash, t: Trav, s: nat)
    ensures s in StoreBits(h, t) <==> Hit(h, t, s)
  {
    forall k | k in t ensures s in SlotsOf(h, k.id, t[k].wf) <==> IsSlot(h, k.id, t[k].wf, s) {
      SlotsExactly(h, k.id, t[k].wf, s);
    }
  }

  /** In general, collisions included: a filter claims id exactly if each of its three slots at
      level min(wf, 16) is one of some entry. */
  lemma ClaimsExactly(h: Hash, t: Trav, id: ID, wf: nat)
    ensures Claims(h, StoreBits(h, t), id, wf) <==>
              var level := Min(wf, 16);
              Hit(h, t, h(id, 0, level)) && Hit(h, t, h(id, 8, level)) && Hit(h, t, h(id, 16, level))
  {
    HitExactly(h, t, h(id, 0, Cap(wf)));
    HitExactly(h, t, h(id, 8, Cap(wf)));
    HitExactly(h, t, h(id, 16, Cap(wf)));
  }

  /** No slot of id at a level up to 16 is one of another of these ids, or of id at another level. */
  ghost predicate Apart(h: Hash, id: ID, ids: set<ID>) {
    forall i, a: nat, l: nat, b: nat, m: nat ::
      (&& (i == id || i in ids) && l <= 16 && m <= 16 && h(id, a, l) == h(i, b, m)
       && (a == 0 || a == 8 || a == 16) && (b == 0 || b == 8 || b == 16)) ==> i == id && l == m
  }

  lemma SharedSlot(h: Hash, id: ID, ids: set<ID>, i: ID, k: nat, wf: nat)
    requires Apart(h, id, ids) && (i == id || i in ids) && h(id, 0, Cap(k)) in SlotsOf(h, i, wf)
    ensures i == id && Min(k, 16) <= Min(wf, 16)
  {
    SlotsExactly(h, i, wf, h(id, 0, Cap(k)));
    var level: nat, off: nat :|
      level <= Min(wf, 16) && (off == 0 || off == 8 || off == 16) && h(id, 0, Cap(k)) == h(i, off, level);
  }

  /** If the slots of id stand apart, an id added at wf alone is claimed at exactly the levels up
      to min(wf, 16). */
  lemma AddedExactly(h: Hash, id: ID, wf: nat, k: nat)
    requires Apart(h, id, {})
    ensures Claims(h, {} + SlotsOf(h, id, wf), id, k) <==> Min(k, 16) <= Min(wf, 16)
  {
    if Claims(h, SlotsOf(h, id, wf), id, k) { SharedSlot(h, id, {}, id, k, wf); }
    if Min(k, 16) <= Min(wf, 16) { SlotsClaim(h, SlotsOf(h, id, wf), id, wf, k); }
  }

  /** The filter of a store claims an id whose slots stand apart exactly if the store holds it at
      a level that is no lower, levels being cut at 16. */
  lemma HeldExactly(env: Env, db: Db, now: nat, id: ID, k: nat)
    requires RepInv(env, db, now) && Apart(env.slot, id, db.blocks.Keys)
    ensures Claims(env.slot, StoreBits(env.slot, db.trav), id, k) <==>
              id in db.blocks && Min(k, 16) <= Min(db.blocks[id].wf, 16)
  {
    var s := env.slot(id, 0, Cap(k));
    if Claims(env.slot, StoreBits(env.slot, db.trav), id, k) {
      assert s in StoreBits(env.slot, db.trav);
      var key, u :| key in db.trav && u in SlotsOf(env.slot, key.id, db.trav[key].wf) && u == s;
      SharedSlot(env.slot, id, db.blocks.Keys, key.id, k, db.trav[key].wf);
      assert key == KeyOf(id, db.blocks[id]);
    }
    if id in db.blocks && Min(k, 16) <= Min(db.blocks[id].wf, 16) {
      StoreClaims(env.slot, db.trav, KeyOf(id, db.blocks[id]), k);
    }
  }

  lemma {:induction false} AddAllConcat(h: Hash, a: seq<BlockRef>, b: seq<BlockRef>)
    ensures AddAll(h, AddAll(h, {}, a), b) == AddAll(h, {}, a + b)
  {
    if b == [] {
      assert a + b == a;
    } else {
      var n := |b| - 1;
      AddAllConcat(h, a, b[..n]);
      assert (a + b)[..|a| + n] == a + b[..n];
    }
  }

  lemma AddAllOne(h: Hash, refs: seq<BlockRef>, r: BlockRef)
    ensures AddAll(h, {}, refs + [r]) == AddAll(h, {}, refs) + SlotsOf(h, r.key.id, r.val.wf)
  {}

  // ---- The byte array ----

  function Mask(i: nat): bv8
    requires i < 8
  {
    (1 as bv8) << i
  }

  lemma MaskBits(i: nat)
    requires i < 8
    ensures Mask(i) == [1, 2, 4, 8, 16, 32, 64, 128][i]
  {}

  predicate BitSet(bytes: seq<bv8>, s: nat)
    requires |bytes| == BLOOM_BYTES && s < BLOOM_BITS
  {
    bytes[s / 8] & Mask(s % 8) != 0
  }

  /** The slots whose bits are set. */
  ghost function Ones(bytes: seq<bv8>): set<nat>
    requires |bytes| == BLOOM_BYTES
  {
    set s: nat | s < BLOOM_BITS && BitSet(bytes, s)
  }

  lemma OrBit(x: bv8, i: nat, j: nat)
    requires i < 8 && j < 8
    ensures (x | Mask(i)) & Mask(j) != 0 <==> i == j || x & Mask(j) != 0
  {}

  lemma SetBit(bytes: seq<bv8>, s: nat)
    requires |bytes| == BLOOM_BYTES && s < BLOOM_BITS
    ensures Ones(bytes[s / 8 := bytes[s / 8] | Mask(s % 8)]) == Ones(bytes) + {s}
  {
    var bytes' := bytes[s / 8 := bytes[s / 8] | Mask(s % 8)];
    forall u: nat | u < BLOOM_BITS ensures BitSet(bytes', u) <==> u == s || BitSet(bytes, u) {
      OrBit(bytes[s / 8], s % 8, u % 8);
    }
  }

  lemma NoBits(bytes: seq<bv8>)
    requires |bytes| == BLOOM_BYTES && forall i :: 0 <= i < |bytes| ==> bytes[i] == 0
    ensures Ones(bytes) == {}
  {}

  class Filter {
    const h: Hash
    const bits: array<bv8>

    ghost predicate Valid() {
      bits.Length == BLOOM_BYTES
    }

    /** The slots whose bits are set. */
    ghost function Bits(): set<nat>
      requires Valid()
      reads bits
    {
      Ones(bits[..])
    }

    constructor (h: Hash)
      ensures this.h == h && Valid() && fresh(bits) && Bits() == {}
    {
      this.h := h;
      bits := new bv8[BLOOM_BYTES](_ => 0);
      new;
      NoBits(bits[..]);
    }

    method Add(id: ID, wf: nat)
      requires Valid()
      modifies bits
      ensures forall s :: s in Bits() <==> s in old(Bits()) || IsSlot(h, id, wf, s)
      ensures Bits() == old(Bits()) + SlotsOf(h, id, wf)
    {
      ghost var before := Bits();
      AddLevels(id, Cap(wf));
      FilledIs(h, before, id, Cap(wf) + 1);
      forall s ensures s in SlotsOf(h, id, wf) <==> IsSlot(h, id, wf, s) { SlotsExactly(h, id, wf, s); }
    }

    /** The loop of Add over the levels up to `top`. */
    method AddLevels(id: ID, top: nat)
      requires Valid()
      modifies bits
      ensures Bits() == Filled(h, old(Bits()), id, top + 1)
    {
      ghost var before := Bits();
      for level := 0 to top + 1
        invariant Bits() == Filled(h, before, id, level)
      {
        AddLevel(id, level, before);
      }
    }

    method AddLevel(id: ID, level: nat, ghost before: set<nat>)
      requires Valid() && Bits() == Filled(h, before, id, level)
      modifies bits
      ensures Bits() == Filled(h, before, id, level + 1)
    {
      SetSlot(h(id, 0, level));
      SetSlot(h(id, 8, level));
      SetSlot(h(id, 16, level));
    }

    method SetSlot(s: nat)
      requires Valid() && s < BLOOM_BITS
      modifies bits
      ensures Bits() == old(Bits()) + {s}
    {
      SetBit(bits[..], s);
      bits[s / 8] := bits[s / 8] | Mask(s % 8);
      assert bits[..] == old(bits[..])[s / 8 := old(bits[..])[s / 8] | Mask(s % 8)];
    }

    method Has(id: ID, wf: nat) returns (found: bool)
      requires Valid()
      ensures found <==> Claims(h, Bits(), id, wf)
      ensures found <==> var level := Min(wf, 16);
                         h(id, 0, level) in Bits() && h(id, 8, level) in Bits() && h(id, 16, level) in Bits()
    {
      var offsets := [0, 8, 16];
      for i := 0 to 3
        invariant forall j :: 0 <= j < i ==> h(id, offsets[j], Cap(wf)) in Bits()
      {
        var s := h(id, offsets[i], Cap(wf));
        assert s in Bits() <==> BitSet(bits[..], s);
        if bits[s / 8] & Mask(s % 8) == 0 {
          return false;
        }
      }
      assert h(id, offsets[0], Cap(wf)) in Bits() && h(id, offsets[1], Cap(wf)) in Bits() &&
             h(id, offsets[2], Cap(wf)) in Bits();
      return true;
    }

    /** The wire form of the filter. */
    method Bytes() returns (data: seq<bv8>)
      requires Valid()
      ensures |data| == BLOOM_BYTES && Ones(data) == Bits()
    {
      data := bits[..];
    }
  }

  /** Rebuilds a filter from its wire form; any other length is refused. */
  method FilterFromBytes(h: Hash, data: seq<bv8>) returns (f: Filter?)
    ensures f == null <==> |data| != BLOOM_BYTES
    ensures f != null ==> fresh(f) && f.h == h && f.Valid() && fresh(f.bits) && f.Bits() == Ones(data)
  {
    if |data| != BLOOM_BYTES {
      return null;
    }
    var g := new Filter(h);
    for i := 0 to BLOOM_BYTES
      invariant g.h == h && g.Valid() && fresh(g) && fresh(g.bits) && g.bits[..i] == data[..i]
    {
      g.bits[i] := data[i];
    }
    assert g.bits[..] == data;
    f := g;
  }
}
