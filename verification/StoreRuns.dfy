/** Every run of Put, Evict and the passing of time over a BadgerStore. */
module StoreRuns {
  import opened Types
  import opened Database
  import opened Eviction

  datatype State = State(db: Db, now: nat)

  /** A Put commits with the time `at` that it read before its transaction; it may be followed,
      within the same call, by the eviction of `victims`. */
  datatype Event =
    | Put(stamp: Stamp, payload: Payload, tag: Tag, at: nat, victims: set<ID>)
    | Evict(victims: set<ID>)
    | Tick(later: nat)

  datatype Config = Config(env: Env, res: Reservations)

  ghost predicate Next(c: Config, s: State, e: Event, s': State) {
    match e
    case Put(stamp, payload, tag, at, victims) =>
      var mid := CommitTxn(c.env, s.db, s.now, at, stamp, payload, tag);
      && at <= s.now == s'.now && Greedy(c.env, c.res, mid.blocks, victims)
      && s'.db == EvictAll(c.env, mid, s.now, victims)
    case Evict(victims) =>
      s'.now == s.now && Greedy(c.env, c.res, s.db.blocks, victims) && s'.db == EvictAll(c.env, s.db, s.now, victims)
    case Tick(later) =>
      s.now <= later && s' == State(s.db, later)
  }

  ghost function Victims(e: Event): set<ID> {
    if e.Tick? then {} else e.victims
  }

  ghost predicate Run(c: Config, ss: seq<State>, es: seq<Event>) {
    && |ss| == |es| + 1
    && RepInv(c.env, ss[0].db, ss[0].now)
    && forall i :: 0 <= i < |es| ==> Next(c, ss[i], es[i], ss[i + 1])
  }

  lemma NextKeepsRep(c: Config, s: State, e: Event, s': State)
    requires RepInv(c.env, s.db, s.now) && Next(c, s, e, s')
    ensures RepInv(c.env, s'.db, s'.now) && s.now <= s'.now
  {
    match e
    case Put(stamp, payload, tag, at, victims) =>
      CommitKeepsRep(c.env, s.db, s.now, at, stamp, payload, tag);
      EvictKeepsRep(c.env, CommitTxn(c.env, s.db, s.now, at, stamp, payload, tag), s.now, victims);
    case Evict(victims) =>
      EvictKeepsRep(c.env, s.db, s.now, victims);
    case Tick(later) =>
      TickKeepsRep(c.env, s.db, s.now, later);
  }

  /** Every state of every run: one traversal key per block and no orphan, ids and work
      factors that match the stored bytes, and no id both live and tombstoned. */
  lemma {:induction false} RunKeepsRep(c: Config, ss: seq<State>, es: seq<Event>, i: nat)
    requires Run(c, ss, es) && i < |ss|
    ensures RepInv(c.env, ss[i].db, ss[i].now)
  {
    if i > 0 {
      RunKeepsRep(c, ss, es, i - 1);
      NextKeepsRep(c, ss[i - 1], es[i - 1], ss[i]);
    }
  }

  /** A live id that no event evicts stays live, and its work factor never decreases. */
  lemma {:induction false} WorkNeverDecreases(c: Config, ss: seq<State>, es: seq<Event>, id: ID, i: nat, j: nat)
    requires Run(c, ss, es) && i <= j < |ss|
    requires id in ss[i].db.blocks
    requires forall k :: i <= k < j ==> id !in Victims(es[k])
    ensures id in ss[j].db.blocks && ss[j].db.blocks[id].wf >= ss[i].db.blocks[id].wf
  {
    if i < j {
      WorkNeverDecreases(c, ss, es, id, i, j - 1);
      assert Next(c, ss[j - 1], es[j - 1], ss[j]);
    }
  }

  ghost predicate Barred(s: State, id: ID, until: nat) {
    s.now < until ==> id !in s.db.blocks && id in s.db.tombs && s.db.tombs[id] == until
  }

  lemma BarredStays(c: Config, s: State, e: Event, s': State, id: ID, until: nat)
    requires Next(c, s, e, s') && Barred(s, id, until)
    ensures Barred(s', id, until)
  {}

  /** The work factor at which an event finds id when it evicts it: the stored one, unless the
      same call has just stored a better one. */
  function FoundAt(c: Config, s: State, e: Event, id: ID): (wf: WorkFactor)
    requires id in s.db.blocks || (e.Put? && id == c.env.computeID(e.payload))
    ensures id in s.db.blocks ==> wf >= s.db.blocks[id].wf
    ensures !(e.Put? && id == c.env.computeID(e.payload)) ==> wf == s.db.blocks[id].wf
    ensures e.Put? && id == c.env.computeID(e.payload) ==> wf >= c.env.workFactor(e.stamp, e.payload)
    ensures (id in s.db.blocks && wf == s.db.blocks[id].wf) || (e.Put? && wf == c.env.workFactor(e.stamp, e.payload))
  {
    if e.Put? && id == c.env.computeID(e.payload) then
      var wf := c.env.workFactor(e.stamp, e.payload);
      if id in s.db.blocks && s.db.blocks[id].wf >= wf then s.db.blocks[id].wf else wf
    else s.db.blocks[id].wf
  }

  lemma EvictedBars(c: Config, s: State, e: Event, s': State, id: ID)
    requires RepInv(c.env, s.db, s.now) && Next(c, s, e, s') && id in Victims(e)
    ensures id in s.db.blocks || (e.Put? && id == c.env.computeID(e.payload))
    ensures id !in s'.db.blocks && id in s'.db.tombs
    ensures s'.db.tombs[id] == s.now + 2 * c.env.ttl(FoundAt(c, s, e, id))
  {
    match e
    case Put(stamp, payload, tag, at, victims) =>
      CommitWrites(c.env, s.db, s.now, at, stamp, payload, tag, id);
      EvictWrites(c.env, CommitTxn(c.env, s.db, s.now, at, stamp, payload, tag), s.now, victims, id);
    case Evict(victims) =>
      EvictWrites(c.env, s.db, s.now, victims, id);
  }

  /** An id evicted at time t with work factor wf is not live before t + 2 TTL(wf), whatever
      is offered in between, and until then it counts as seen. */
  lemma EvictedStaysOut(c: Config, ss: seq<State>, es: seq<Event>, id: ID, i: nat, j: nat)
    requires Run(c, ss, es) && i < j < |ss|
    requires id in Victims(es[i])
    ensures id in ss[i].db.blocks || (es[i].Put? && id == c.env.computeID(es[i].payload))
    ensures ss[j].now < ss[i].now + 2 * c.env.ttl(FoundAt(c, ss[i], es[i], id)) ==>
              id !in ss[j].db.blocks && id in ss[j].db.tombs && ss[j].now < ss[j].db.tombs[id]
  {
    RunKeepsRep(c, ss, es, i);
    EvictedBars(c, ss[i], es[i], ss[i + 1], id);
    BarredUntil(c, ss, es, id, ss[i].now + 2 * c.env.ttl(FoundAt(c, ss[i], es[i], id)), i + 1, j);
  }

  lemma TombStays(c: Config, s: State, e: Event, s': State, id: ID)
    requires Next(c, s, e, s') && id in s.db.tombs && id !in Victims(e)
    ensures id in s'.db.tombs && s'.db.tombs[id] == s.db.tombs[id]
  {}

  /** The tombstone of an id is the one its last eviction left. */
  lemma {:induction false} TombOfLast(c: Config, ss: seq<State>, es: seq<Event>, id: ID, i: nat, j: nat)
    requires Run(c, ss, es) && i < j < |ss|
    requires id in Victims(es[i]) && forall k :: i < k < j ==> id !in Victims(es[k])
    ensures id in ss[i].db.blocks || (es[i].Put? && id == c.env.computeID(es[i].payload))
    ensures id in ss[j].db.tombs && ss[j].db.tombs[id] == ss[i].now + 2 * c.env.ttl(FoundAt(c, ss[i], es[i], id))
    decreases j
  {
    if j == i + 1 {
      RunKeepsRep(c, ss, es, i);
      EvictedBars(c, ss[i], es[i], ss[j], id);
    } else {
      TombOfLast(c, ss, es, id, i, j - 1);
      TombStays(c, ss[j - 1], es[j - 1], ss[j], id);
    }
  }

  /** The other half: after its eviction at time t, a Put of the id leaves it live if and only if it
      comes at t + 2 TTL(wf) or later. */
  lemma ReadmittedExactly(c: Config, ss: seq<State>, es: seq<Event>, id: ID, i: nat, j: nat)
    requires Run(c, ss, es) && i < j < |es|
    requires id in Victims(es[i]) && forall k :: i < k <= j ==> id !in Victims(es[k])
    requires es[j].Put? && id == c.env.computeID(es[j].payload)
    ensures id in ss[i].db.blocks || (es[i].Put? && id == c.env.computeID(es[i].payload))
    ensures id in ss[j + 1].db.blocks <==> ss[j].now >= ss[i].now + 2 * c.env.ttl(FoundAt(c, ss[i], es[i], id))
    ensures id in ss[j + 1].db.blocks ==> ss[j + 1].db.blocks[id].wf >= c.env.workFactor(es[j].stamp, es[j].payload)
  {
    TombOfLast(c, ss, es, id, i, j);
    EvictedStaysOut(c, ss, es, id, i, j);
    PutLetsIn(c, ss[j], es[j], ss[j + 1]);
  }

  /** A Put that does not evict its own block leaves it live exactly if it was live or no
      tombstone was visible. */
  lemma PutLetsIn(c: Config, s: State, e: Event, s': State)
    requires e.Put? && Next(c, s, e, s') && c.env.computeID(e.payload) !in e.victims
    ensures var id := c.env.computeID(e.payload);
            && (id in s'.db.blocks <==> id in s.db.blocks || !(id in s.db.tombs && s.now < s.db.tombs[id]))
            && (id in s'.db.blocks && !(id in s.db.tombs && s.now < s.db.tombs[id]) ==>
                  s'.db.blocks[id].wf >= c.env.workFactor(e.stamp, e.payload))
  {}

  lemma {:induction false} BarredUntil(c: Config, ss: seq<State>, es: seq<Event>, id: ID, until: nat, i: nat, j: nat)
    requires Run(c, ss, es) && i <= j < |ss| && Barred(ss[i], id, until)
    ensures Barred(ss[j], id, until)
  {
    if i < j {
      BarredUntil(c, ss, es, id, until, i, j - 1);
      BarredStays(c, ss[j - 1], es[j - 1], ss[j], id, until);
    }
  }

  /** After every Put the block counts as seen, even if the call evicted it again; and it is
      live at the offered work factor unless tombstoned before or evicted by this call. */
  lemma PutIsSeen(c: Config, s: State, e: Event, s': State)
    requires e.Put? && Next(c, s, e, s')
    requires forall wf: WorkFactor :: c.env.ttl(wf) > 0
    ensures var id := c.env.computeID(e.payload);
            && (id in s'.db.blocks || (id in s'.db.tombs && s'.now < s'.db.tombs[id]))
            && (!(id in s.db.tombs && s.now < s.db.tombs[id]) && id !in e.victims ==>
                  id in s'.db.blocks && s'.db.blocks[id].wf >= c.env.workFactor(e.stamp, e.payload))
            && (id in s.db.tombs && s.now < s.db.tombs[id] && id !in s.db.blocks ==> id !in s'.db.blocks)
  {}
}
