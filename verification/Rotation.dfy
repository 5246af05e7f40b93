/** The desktop peer tracker in rotate mode: one peer per tick, least recently pulled first,
    with exponential backoff for peers that fail. */
module Rotation {
  import opened Types
  import opened SetSize
  import opened Bytes

  type Url = string

  datatype PeerState = PeerState(skipRounds: int, failures: nat, pullSince: int)

  type Known = map<Url, PeerState>

  const MAX_PEERS: nat := 200
  const MAX_BACKOFF_ROUNDS: int := 64

  // ---- Backoff ----

  /** `1 << k` on a 64-bit int. */
  function Shift(k: nat): int {
    if k < 63 then Pow2(k) else if k == 63 then -Pow2(63) else 0
  }

  /** skipRounds after the k-th failure in a row. */
  function Backoff(k: nat): int {
    if Shift(k) > MAX_BACKOFF_ROUNDS then MAX_BACKOFF_ROUNDS else Shift(k)
  }

  lemma {:induction false} Pow2Grows(j: nat, k: nat)
    requires j <= k
    ensures Pow2(j) <= Pow2(k)
    decreases k
  {
    if j < k { Pow2Grows(j, k - 1); }
  }

  /** The clamp holds for 1 to 62 failures: min(2^k, 64). From the 63rd on the shift has run
      out of bits and there is no backoff at all. */
  lemma BackoffValue(k: nat)
    requires k >= 1
    ensures k <= 62 ==> Backoff(k) == if k < 6 then Pow2(k) else 64
    ensures Backoff(k) > 0 <==> k <= 62
  {
    assert Pow2(6) == 64;
    if k >= 6 { Pow2Grows(6, k); } else { Pow2Grows(k, 6); }
  }

  // ---- One tick ----

  predicate Ready(st: PeerState) {
    st.skipRounds <= 0
  }

  function Wait(st: PeerState): PeerState {
    if st.skipRounds > 0 then st.(skipRounds := st.skipRounds - 1) else st
  }

  /** What syncOne makes of a pull. */
  function Pulled(st: PeerState, ok: bool, now: int): PeerState {
    if ok then PeerState(0, 0, now)
    else PeerState(Backoff(st.failures + 1), st.failures + 1, st.pullSince)
  }

  /** A ready peer pulled from no later than any other ready peer. */
  ghost predicate Picks(known: Known, u: Url) {
    && u in known && Ready(known[u])
    && forall v :: v in known && Ready(known[v]) ==> known[u].pullSince <= known[v].pullSince
  }

  /** One rotate tick: peers in backoff wait, the picked peer is pulled from. */
  ghost predicate Tick(known: Known, pick: Option<Url>, ok: bool, now: int, known': Known) {
    && known'.Keys == known.Keys
    && (pick == None ==> forall v :: v in known ==> !Ready(known[v]))
    && (pick.Some? ==> Picks(known, pick.value))
    && forall v :: v in known ==>
         known'[v] == if pick == Some(v) then Pulled(known[v], ok, now) else Wait(known[v])
  }

  class PeerTracker {
    var known: Known
    const advertiseURL: Url

    constructor (advertiseURL: Url)
      ensures known == map[] && this.advertiseURL == advertiseURL
    {
      this.advertiseURL := advertiseURL;
      known := map[];
    }

    /** Adds an unknown peer unless it is this node or the table is full. */
    method AddPeer(u: Url) returns (added: bool)
      modifies this
      ensures added == (!(advertiseURL != "" && u == advertiseURL) && u !in old(known) && |old(known)| < 200)
      ensures known == if added then old(known)[u := PeerState(0, 0, 0)] else old(known)
      ensures |old(known)| <= 200 ==> |known| <= 200
    {
      if advertiseURL != "" && u == advertiseURL {
        return false;
      }
      if u !in known && |known| < MAX_PEERS {
        assert known[u := PeerState(0, 0, 0)].Keys == known.Keys + {u};
        known := known[u := PeerState(0, 0, 0)];
        return true;
      }
      return false;
    }

    /** One tick of the rotate loop; `reachable` tells which pulls would succeed. */
    method DoSync(reachable: set<Url>, now: int) returns (pick: Option<Url>)
      modifies this
      ensures Tick(old(known), pick, pick.Some? && pick.value in reachable, now, known)
    {
      var ready := {};
      var todo := known.Keys;
      while todo != {}
        invariant todo <= known.Keys && known.Keys == old(known).Keys
        invariant forall v :: v in known ==> known[v] == if v in todo then old(known)[v] else Wait(old(known)[v])
        invariant forall v :: v in ready <==> v in known && v !in todo && Ready(old(known)[v])
        decreases todo
      {
        var u :| u in todo;
        todo := todo - {u};
        var st := known[u];
        if st.skipRounds > 0 {
          known := known[u := st.(skipRounds := st.skipRounds - 1)];
        } else {
          ready := ready + {u};
        }
      }
      if ready == {} {
        return None;
      }
      var u := LeastRecent(known, ready);
      var ok := u in reachable;
      SyncOne(u, ok, now);
      pick := Some(u);
    }

    /** The bookkeeping of syncOne after its pull; a peer no longer known is left alone. */
    method SyncOne(u: Url, ok: bool, now: int)
      modifies this
      ensures known == if u in old(known) then old(known)[u := Pulled(old(known)[u], ok, now)] else old(known)
      ensures u in old(known) && ok ==> known == old(known)[u := PeerState(0, 0, now)]
      ensures u in old(known) && !ok ==>
                && known[u].failures == old(known)[u].failures + 1 && known[u].pullSince == old(known)[u].pullSince
                && (known[u].failures <= 5 ==> known[u].skipRounds == Pow2(known[u].failures))
                && (6 <= known[u].failures <= 62 ==> known[u].skipRounds == 64)
                && (known[u].failures >= 63 ==> known[u].skipRounds <= 0)
    {
      if u !in known {
        return;
      }
      var st := known[u];
      if !ok {
        var failures := st.failures + 1;
        var rounds := Shift(failures);
        if rounds > MAX_BACKOFF_ROUNDS {
          rounds := MAX_BACKOFF_ROUNDS;
        }
        known := known[u := PeerState(rounds, failures, st.pullSince)];
        BackoffValue(failures);
      } else {
        known := known[u := PeerState(0, 0, now)];
      }
    }
  }

  method LeastRecent(known: Known, ready: set<Url>) returns (pick: Url)
    requires ready != {} && ready <= known.Keys
    ensures pick in ready && forall v :: v in ready ==> known[pick].pullSince <= known[v].pullSince
  {
    pick :| pick in ready;
    var todo := ready - {pick};
    while todo != {}
      invariant todo <= ready && pick in ready
      invariant forall v :: v in ready && v !in todo ==> known[pick].pullSince <= known[v].pullSince
      decreases todo
    {
      var u :| u in todo;
      todo := todo - {u};
      if known[u].pullSince < known[pick].pullSince {
        pick := u;
      }
    }
  }

  // ---- Runs of ticks ----

  datatype Step = Step(pick: Option<Url>, ok: bool, now: int)

  ghost predicate Run(ks: seq<Known>, ts: seq<Step>) {
    && |ks| == |ts| + 1
    && forall i :: 0 <= i < |ts| ==> Tick(ks[i], ts[i].pick, ts[i].ok, ts[i].now, ks[i + 1])
  }

  /** A waiting peer counts down one round per tick. */
  lemma {:induction false} CountsDown(ks: seq<Known>, ts: seq<Step>, u: Url, a: nat, n: nat)
    requires Run(ks, ts) && a + n < |ks| && u in ks[a] && n <= ks[a][u].skipRounds
    ensures u in ks[a + n] && ks[a + n][u] == ks[a][u].(skipRounds := ks[a][u].skipRounds - n)
  {
    if n > 0 {
      CountsDown(ks, ts, u, a, n - 1);
      assert Tick(ks[a + n - 1], ts[a + n - 1].pick, ts[a + n - 1].ok, ts[a + n - 1].now, ks[a + n]);
    }
  }

  /** After its k-th failure in a row at tick a, 1 <= k <= 62, a peer is skipped for exactly
      min(2^k, 64) ticks and is ready again on the next. */
  lemma SkippedExactly(ks: seq<Known>, ts: seq<Step>, u: Url, a: nat, k: nat, n: nat)
    requires Run(ks, ts) && a < |ts| && ts[a].pick == Some(u) && !ts[a].ok
    requires k == ks[a + 1][u].failures && 1 <= k <= 62
    requires a + 1 + n < |ks| && n <= if k < 6 then Pow2(k) else 64
    ensures u in ks[a + 1 + n]
    ensures ks[a + 1 + n][u].skipRounds <= 0 <==> n == if k < 6 then Pow2(k) else 64
    ensures n < (if k < 6 then Pow2(k) else 64) && a + 1 + n < |ts| ==> ts[a + 1 + n].pick != Some(u)
  {
    assert Tick(ks[a], ts[a].pick, ts[a].ok, ts[a].now, ks[a + 1]);
    BackoffValue(ks[a + 1][u].failures);
    CountsDown(ks, ts, u, a + 1, n);
    if a + 1 + n < |ts| {
      assert Tick(ks[a + 1 + n], ts[a + 1 + n].pick, ts[a + 1 + n].ok, ts[a + 1 + n].now, ks[a + 2 + n]);
    }
  }

  /** The ticks after a and before b that pull from u. */
  ghost function PullsBetween(ts: seq<Step>, u: Url, a: nat, b: nat): set<nat>
    requires b <= |ts|
  {
    set i | a < i < b && ts[i].pick == Some(u)
  }

  lemma PullsStep(ts: seq<Step>, u: Url, a: nat, b: nat)
    requires a < b < |ts|
    ensures |PullsBetween(ts, u, a, b + 1)| == |PullsBetween(ts, u, a, b)| + if ts[b].pick == Some(u) then 1 else 0
  {
    var more := if ts[b].pick == Some(u) then {b} else {};
    assert PullsBetween(ts, u, a, b + 1) == PullsBetween(ts, u, a, b) + more;
  }

  /** The count of failures is that of failures in a row: after a successful pull at tick a and no
      other since, it is the number of pulls since, and the last pull time is that of tick a. */
  lemma {:induction false} FailuresInARow(ks: seq<Known>, ts: seq<Step>, u: Url, a: nat, b: nat)
    requires Run(ks, ts) && a < b < |ks| && ts[a].pick == Some(u) && ts[a].ok
    requires forall i :: a < i < b && ts[i].pick == Some(u) ==> !ts[i].ok
    ensures u in ks[b] && ks[b][u].failures == |PullsBetween(ts, u, a, b)| && ks[b][u].pullSince == ts[a].now
  {
    assert Tick(ks[b - 1], ts[b - 1].pick, ts[b - 1].ok, ts[b - 1].now, ks[b]);
    if b == a + 1 {
      assert PullsBetween(ts, u, a, b) == {};
    } else {
      FailuresInARow(ks, ts, u, a, b - 1);
      PullsStep(ts, u, a, b - 1);
    }
  }

  // ---- Round robin among healthy peers ----

  /** Every pull succeeds, pull times grow, and all peers are ready to begin with. */
  ghost predicate Healthy(ks: seq<Known>, ts: seq<Step>) {
    && Run(ks, ts) && ks[0] != map[]
    && (forall i :: 0 <= i < |ts| ==> ts[i].ok)
    && (forall i, j :: 0 <= i < j < |ts| ==> ts[i].now < ts[j].now)
    && (forall v :: v in ks[0] ==> Ready(ks[0][v]) && (|ts| > 0 ==> ks[0][v].pullSince < ts[0].now))
  }

  /** Everyone is always ready, someone is always picked, and pulls so far are in the past. */
  lemma {:induction false} AlwaysReady(ks: seq<Known>, ts: seq<Step>, i: nat)
    requires Healthy(ks, ts) && i < |ks|
    ensures ks[i].Keys == ks[0].Keys
    ensures forall v :: v in ks[i] ==> Ready(ks[i][v]) && (i < |ts| ==> ks[i][v].pullSince < ts[i].now)
    ensures i < |ts| ==> ts[i].pick.Some? && Picks(ks[i], ts[i].pick.value)
  {
    if i > 0 {
      AlwaysReady(ks, ts, i - 1);
      assert Tick(ks[i - 1], ts[i - 1].pick, ts[i - 1].ok, ts[i - 1].now, ks[i]);
      forall v | v in ks[i] ensures Ready(ks[i][v]) && (i < |ts| ==> ks[i][v].pullSince < ts[i].now) {
        assert v in ks[i - 1];
        assert i < |ts| ==> ts[i - 1].now < ts[i].now;
      }
    }
    if i < |ts| {
      assert Tick(ks[i], ts[i].pick, ts[i].ok, ts[i].now, ks[i + 1]);
      assert ks[i].Keys != {};
      var v :| v in ks[i].Keys;
      assert Ready(ks[i][v]);
    }
  }

  ghost predicate PickedIn(ts: seq<Step>, u: Url, a: nat, b: nat) {
    exists i :: a <= i < b && i < |ts| && ts[i].pick == Some(u)
  }

  /** A peer not picked keeps its last pull time. */
  lemma {:induction false} NotPulled(ks: seq<Known>, ts: seq<Step>, u: Url, a: nat, b: nat)
    requires Healthy(ks, ts) && a <= b < |ks| && u in ks[0] && !PickedIn(ts, u, a, b)
    ensures u in ks[a] && u in ks[b] && ks[b][u].pullSince == ks[a][u].pullSince
    decreases b
  {
    AlwaysReady(ks, ts, a);
    if a < b {
      assert ts[b - 1].pick != Some(u);
      NotPulled(ks, ts, u, a, b - 1);
      AlwaysReady(ks, ts, b - 1);
      assert Tick(ks[b - 1], ts[b - 1].pick, ts[b - 1].ok, ts[b - 1].now, ks[b]);
    }
  }

  ghost function PickSet(ts: seq<Step>, a: nat, b: nat): set<Url>
    requires a <= b <= |ts| && forall i :: 0 <= i < |ts| ==> ts[i].pick.Some?
  {
    set i | a <= i < b :: ts[i].pick.value
  }

  lemma {:induction false} PickSetSize(ts: seq<Step>, a: nat, b: nat)
    requires a <= b <= |ts| && forall i :: 0 <= i < |ts| ==> ts[i].pick.Some?
    ensures |PickSet(ts, a, b)| <= b - a
    ensures (forall i, j :: a <= i < j < b ==> ts[i].pick != ts[j].pick) ==> |PickSet(ts, a, b)| == b - a
    decreases b
  {
    if a == b {
      assert PickSet(ts, a, b) == {};
    } else {
      PickSetSize(ts, a, b - 1);
      assert PickSet(ts, a, b) == PickSet(ts, a, b - 1) + {ts[b - 1].pick.value};
    }
  }

  /** Between two pulls of one peer, every other peer is pulled. */
  lemma OthersBetween(ks: seq<Known>, ts: seq<Step>, a: nat, b: nat, v: Url)
    requires Healthy(ks, ts) && a < b < |ts| && ts[a].pick == ts[b].pick
    requires ts[a].pick.Some? && !PickedIn(ts, ts[a].pick.value, a + 1, b)
    requires v in ks[0] && ts[a].pick != Some(v)
    ensures PickedIn(ts, v, a + 1, b)
  {
    var u := ts[a].pick.value;
    AlwaysReady(ks, ts, a);
    AlwaysReady(ks, ts, b);
    AlwaysReady(ks, ts, a + 1);
    assert Tick(ks[a], ts[a].pick, ts[a].ok, ts[a].now, ks[a + 1]);
    NotPulled(ks, ts, u, a + 1, b);
    if !PickedIn(ts, v, a + 1, b) { NotPulled(ks, ts, v, a + 1, b); }
  }

  /** So two pulls of one peer are at least as far apart as there are peers. */
  lemma {:induction false} FarApart(ks: seq<Known>, ts: seq<Step>, a: nat, b: nat)
    requires Healthy(ks, ts) && a < b < |ts| && ts[a].pick == ts[b].pick
    ensures b - a >= |ks[0]|
    decreases b
  {
    forall i | 0 <= i < |ts| ensures ts[i].pick.Some? { AlwaysReady(ks, ts, i); }
    var u := ts[a].pick.value;
    if PickedIn(ts, u, a + 1, b) {
      var c :| a + 1 <= c < b && ts[c].pick == Some(u);
      FarApart(ks, ts, a, c);
    } else {
      AlwaysReady(ks, ts, a);
      forall v | v in ks[0].Keys - {u} ensures v in PickSet(ts, a + 1, b) {
        OthersBetween(ks, ts, a, b, v);
        var i :| a + 1 <= i < b && ts[i].pick == Some(v);
      }
      PickSetSize(ts, a + 1, b);
      SubsetSize(ks[0].Keys - {u}, PickSet(ts, a + 1, b));
    }
  }

  /** Any N consecutive ticks pull each of N healthy peers exactly once. */
  lemma RoundRobin(ks: seq<Known>, ts: seq<Step>, i: nat, u: Url) returns (j: nat)
    requires Healthy(ks, ts) && i + |ks[0]| <= |ts| && u in ks[0]
    ensures i <= j < i + |ks[0]| && ts[j].pick == Some(u)
    ensures forall k :: i <= k < i + |ks[0]| && ts[k].pick == Some(u) ==> k == j
  {
    var n := i + |ks[0]|;
    forall k | 0 <= k < |ts| ensures ts[k].pick.Some? && ts[k].pick.value in ks[0] { AlwaysReady(ks, ts, k); }
    forall a, b | i <= a < b < n ensures ts[a].pick != ts[b].pick {
      if ts[a].pick == ts[b].pick { FarApart(ks, ts, a, b); }
    }
    PickSetSize(ts, i, n);
    SameSize(PickSet(ts, i, n), ks[0].Keys);
    j :| i <= j < n && ts[j].pick.value == u;
  }

  // ---- Failing peers cannot crowd out healthy ones ----

  /** Peers of `bad` fail whenever they are tried, at full backoff; the others always succeed
      and there is at least one. */
  ghost predicate Mixed(ks: seq<Known>, ts: seq<Step>, bad: set<Url>) {
    && Run(ks, ts) && bad < ks[0].Keys
    && AllReady(ks[0], bad)
    && (forall i :: 0 <= i < |ts| && ts[i].pick.Some? ==> (ts[i].ok <==> ts[i].pick.value !in bad))
    && (forall i :: 0 <= i < |ts| && ts[i].pick.Some? && ts[i].pick.value in bad ==>
          FullBackoff(ks[i + 1], ts[i].pick.value))
  }

  ghost predicate FullBackoff(known: Known, u: Url) {
    u in known && 6 <= known[u].failures <= 62
  }

  ghost predicate AllReady(known: Known, bad: set<Url>) {
    forall v :: v in known && v !in bad ==> Ready(known[v])
  }

  lemma TickKeepsReady(known: Known, t: Step, known': Known, bad: set<Url>)
    requires Tick(known, t.pick, t.ok, t.now, known') && AllReady(known, bad)
    requires t.pick.Some? && t.pick.value !in bad ==> t.ok
    ensures AllReady(known', bad)
  {}

  lemma SomeonePicked(known: Known, t: Step, known': Known, bad: set<Url>)
    requires Tick(known, t.pick, t.ok, t.now, known') && AllReady(known, bad) && bad < known.Keys
    ensures t.pick.Some? && t.pick.value in known
  {}

  lemma {:induction false} GoodReady(ks: seq<Known>, ts: seq<Step>, bad: set<Url>, i: nat)
    requires Mixed(ks, ts, bad) && i < |ks|
    ensures ks[i].Keys == ks[0].Keys && AllReady(ks[i], bad)
    ensures i < |ts| ==> ts[i].pick.Some? && ts[i].pick.value in ks[0]
  {
    if i > 0 {
      GoodReady(ks, ts, bad, i - 1);
      TickKeepsReady(ks[i - 1], ts[i - 1], ks[i], bad);
    }
    if i < |ts| {
      SomeonePicked(ks[i], ts[i], ks[i + 1], bad);
    }
  }

  ghost function BadTicks(ts: seq<Step>, bad: set<Url>, i: nat): set<nat>
    requires i + 65 <= |ts|
  {
    set k | i <= k < i + 65 && ts[k].pick.Some? && ts[k].pick.value in bad
  }

  ghost function GoodTicks(ts: seq<Step>, bad: set<Url>, i: nat): set<nat>
    requires i + 65 <= |ts|
  {
    set k | i <= k < i + 65 && ts[k].pick.Some? && ts[k].pick.value !in bad
  }

  /** A failing peer is tried at most once in 65 ticks. */
  lemma OnceIn65(ks: seq<Known>, ts: seq<Step>, bad: set<Url>, a: nat, b: nat)
    requires Mixed(ks, ts, bad) && a < b < a + 65 && b < |ts|
    requires ts[a].pick.Some? && ts[a].pick.value in bad
    ensures ts[b].pick != ts[a].pick
  {
    var u := ts[a].pick.value;
    assert FullBackoff(ks[a + 1], u);
    BackoffValue(ks[a + 1][u].failures);
    SkippedExactly(ks, ts, u, a, ks[a + 1][u].failures, b - a - 1);
  }

  lemma {:induction false} DistinctPicks(ts: seq<Step>, js: set<nat>, bad: set<Url>)
    requires forall j :: j in js ==> j < |ts| && ts[j].pick.Some? && ts[j].pick.value in bad
    requires forall j, k :: j in js && k in js && j < k ==> ts[j].pick != ts[k].pick
    ensures |js| <= |bad|
    decreases |js|
  {
    if js != {} {
      var j :| j in js;
      var u := ts[j].pick.value;
      forall k | k in js - {j} ensures ts[k].pick.value in bad - {u} {
        assert k < j || j < k;
      }
      DistinctPicks(ts, js - {j}, bad - {u});
    }
  }

  /** With F failing peers at full backoff, at least 65 - F of any 65 ticks go to healthy peers. */
  lemma HealthyShare(ks: seq<Known>, ts: seq<Step>, bad: set<Url>, i: nat)
    requires Mixed(ks, ts, bad) && i + 65 <= |ts|
    ensures |GoodTicks(ts, bad, i)| >= 65 - |bad|
  {
    var js, gs := BadTicks(ts, bad, i), GoodTicks(ts, bad, i);
    forall j, k | j in js && k in js && j < k ensures ts[j].pick != ts[k].pick {
      OnceIn65(ks, ts, bad, j, k);
    }
    DistinctPicks(ts, js, bad);
    forall k | k in Range(i, 65) ensures k in js + gs {
      RangeFacts(i, 65);
      GoodReady(ks, ts, bad, k);
    }
    RangeFacts(i, 65);
    SubsetSize(Range(i, 65), js + gs);
    assert |js + gs| <= |js| + |gs|;
  }

  ghost function Range(i: nat, n: nat): set<nat> {
    if n == 0 then {} else Range(i, n - 1) + {i + n - 1}
  }

  lemma {:induction false} RangeFacts(i: nat, n: nat)
    ensures |Range(i, n)| == n
    ensures forall k :: k in Range(i, n) <==> i <= k < i + n
  {
    if n > 0 { RangeFacts(i, n - 1); }
  }

  // ---- After the clamp has failed ----

  /** The peers of `dead` have each failed 62 times in a row and are due again, and every other
      peer was pulled from more recently than any of them. */
  ghost predicate Monopoly(known: Known, dead: set<Url>) {
    && dead != {} && dead <= known.Keys
    && (forall u :: u in dead ==> known[u].failures >= 62 && Ready(known[u]))
    && (forall u, v :: u in dead && v in known && v !in dead ==> known[u].pullSince < known[v].pullSince)
  }

  ghost predicate PickOf(t: Step, dead: set<Url>) {
    t.pick.Some? && t.pick.value in dead
  }

  lemma TakesTick(known: Known, t: Step, known': Known, dead: set<Url>)
    requires Tick(known, t.pick, t.ok, t.now, known') && Monopoly(known, dead) && (PickOf(t, dead) ==> !t.ok)
    ensures PickOf(t, dead) && Monopoly(known', dead)
  {
    var u :| u in dead;
    assert Ready(known[u]);
    BackoffValue(known[t.pick.value].failures + 1);
  }

  /** A failure does not move the time of the last pull, so from their 63rd failure on peers that
      keep failing take every tick between them, and all others starve. */
  lemma {:induction false} Starves(ks: seq<Known>, ts: seq<Step>, dead: set<Url>, a: nat, i: nat)
    requires Run(ks, ts) && a <= i < |ks| && Monopoly(ks[a], dead)
    requires forall j :: a <= j < |ts| && PickOf(ts[j], dead) ==> !ts[j].ok
    ensures Monopoly(ks[i], dead) && (i < |ts| ==> PickOf(ts[i], dead))
    decreases i
  {
    if a < i {
      Starves(ks, ts, dead, a, i - 1);
      TakesTick(ks[i - 1], ts[i - 1], ks[i], dead);
    }
    if i < |ts| { TakesTick(ks[i], ts[i], ks[i + 1], dead); }
  }
}
