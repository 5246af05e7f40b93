/** topoSort: a thread's messages in reply order, by Kahn's algorithm. */
module ThreadOrder {
  import opened Types
  import opened Sorting

  /** `ref` is thread_refs[0], if any. */
  datatype Msg = Msg(id: ID, ref: Option<ID>, receivedAt: int)

  function Received(m: Msg): int {
    m.receivedAt
  }

  /** An absent or all-zero reference is none. */
  function Pred(m: Msg): Option<ID> {
    if m.ref.Some? && m.ref.value != 0 then m.ref else None
  }

  type Table = map<ID, Msg>

  /** The predecessor, if it is in the list. */
  function Parent(t: Table, id: ID): Option<ID>
    requires id in t
  {
    var p := Pred(t[id]);
    if p.Some? && p.value in t then p else None
  }

  ghost predicate DistinctIds(msgs: seq<Msg>) {
    forall i, j :: 0 <= i < j < |msgs| ==> msgs[i].id != msgs[j].id
  }

  ghost predicate WellKeyed(t: Table) {
    forall id :: id in t ==> t[id].id == id
  }

  ghost function Msgs(t: Table, ids: set<ID>): set<Msg>
    requires ids <= t.Keys
  {
    set id | id in ids :: t[id]
  }

  ghost function Children(t: Table, p: ID): set<ID> {
    set id | id in t && Parent(t, id) == Some(p)
  }

  // ---- Ancestry ----

  /** The k-th ancestor, or None once the chain of references has left the list. */
  function Climb(t: Table, id: ID, k: nat): Option<ID>
    requires id in t
    ensures Climb(t, id, k).Some? ==> Climb(t, id, k).value in t
  {
    if k == 0 then Some(id) else
      var a := Climb(t, id, k - 1);
      if a == None then None else Parent(t, a.value)
  }

  /** The chain of references ends. */
  ghost predicate Rooted(t: Table, id: ID)
    requires id in t
  {
    exists k: nat :: Climb(t, id, k) == None
  }

  /** The chain of references runs into a cycle. */
  ghost predicate OnOrBelowCycle(t: Table, id: ID)
    requires id in t
  {
    exists i: nat, j: nat :: i < j && Climb(t, id, i).Some? && Climb(t, id, i) == Climb(t, id, j)
  }

  lemma {:induction false} ClimbParent(t: Table, id: ID, k: nat)
    requires id in t && Parent(t, id).Some?
    ensures Climb(t, id, k + 1) == Climb(t, Parent(t, id).value, k)
  {
    if k > 0 { ClimbParent(t, id, k - 1); }
  }

  lemma RootedParent(t: Table, id: ID)
    requires id in t
    ensures Parent(t, id) == None ==> Rooted(t, id)
    ensures Parent(t, id).Some? ==> (Rooted(t, id) <==> Rooted(t, Parent(t, id).value))
  {
    if Parent(t, id) == None {
      assert Climb(t, id, 0) == Some(id);
      assert Climb(t, id, 1) == None;
    } else {
      var p := Parent(t, id).value;
      if Rooted(t, id) {
        var k: nat :| Climb(t, id, k) == None;
        ClimbParent(t, id, k - 1);
        assert Climb(t, p, k - 1) == None;
      }
      if Rooted(t, p) {
        var k: nat :| Climb(t, p, k) == None;
        ClimbParent(t, id, k);
        assert Climb(t, id, k + 1) == None;
      }
    }
  }

  lemma {:induction false} ClimbDown(t: Table, id: ID, i: nat, k: nat)
    requires id in t && i <= k && Climb(t, id, k).Some?
    ensures Climb(t, id, i).Some?
    decreases k
  {
    if i < k { ClimbDown(t, id, i, k - 1); }
  }

  lemma {:induction false} CycleRepeats(t: Table, id: ID, i: nat, j: nat, n: nat)
    requires id in t && Climb(t, id, i).Some? && Climb(t, id, i) == Climb(t, id, j)
    ensures Climb(t, id, i + n) == Climb(t, id, j + n)
  {
    if n > 0 { CycleRepeats(t, id, i, j, n - 1); }
  }

  lemma {:induction false} CycleNeverEnds(t: Table, id: ID, i: nat, j: nat, k: nat)
    requires id in t && i < j && Climb(t, id, i).Some? && Climb(t, id, i) == Climb(t, id, j)
    ensures Climb(t, id, k).Some?
  {
    if k <= j {
      ClimbDown(t, id, k, j);
    } else {
      CycleNeverEnds(t, id, i, j, k - (j - i));
      CycleRepeats(t, id, i, j, k - j);
    }
  }

  /** Distinct ancestors cannot outnumber the list. */
  lemma {:induction false} Pigeonhole(t: Table, id: ID, n: nat, pool: set<ID>) returns (i: nat, j: nat)
    requires id in t && n > |pool|
    requires forall k :: 0 <= k < n ==> Climb(t, id, k).Some? && Climb(t, id, k).value in pool
    ensures i < j < n && Climb(t, id, i) == Climb(t, id, j)
    decreases n
  {
    var last := Climb(t, id, n - 1).value;
    if k :| 0 <= k < n - 1 && Climb(t, id, k).value == last {
      i, j := k, n - 1;
    } else {
      i, j := Pigeonhole(t, id, n - 1, pool - {last});
    }
  }

  /** The chain ends exactly when it does not run into a cycle. */
  lemma RootedIffNoCycle(t: Table, id: ID)
    requires id in t
    ensures Rooted(t, id) <==> !OnOrBelowCycle(t, id)
  {
    if OnOrBelowCycle(t, id) {
      var i: nat, j: nat :| i < j && Climb(t, id, i).Some? && Climb(t, id, i) == Climb(t, id, j);
      forall k: nat ensures Climb(t, id, k).Some? { CycleNeverEnds(t, id, i, j, k); }
    } else if !Rooted(t, id) {
      var i, j := Pigeonhole(t, id, |t.Keys| + 1, t.Keys);
    }
  }

  // ---- What Kahn's loop produces ----

  /** Nothing in the list has to come before id except what is done. */
  ghost predicate Ready(t: Table, done: set<ID>, id: ID)
    requires id in t
  {
    Parent(t, id) == None || Parent(t, id).value in done
  }

  ghost function ReadySet(t: Table, done: set<ID>): set<ID> {
    set id | id in t && Ready(t, done, id)
  }

  /** m is an earliest received of the ready messages that are not done. */
  ghost predicate Earliest(t: Table, done: set<ID>, m: Msg) {
    && m.id in t && t[m.id] == m && m.id !in done && Ready(t, done, m.id)
    && forall id :: id in t && id !in done && Ready(t, done, id) ==> m.receivedAt <= t[id].receivedAt
  }

  ghost function Done(out: seq<Msg>, n: nat): set<ID>
    requires n <= |out|
  {
    set k | 0 <= k < n :: out[k].id
  }

  ghost predicate KahnOrder(t: Table, out: seq<Msg>) {
    forall i :: 0 <= i < |out| ==> Earliest(t, Done(out, i), out[i])
  }

  lemma DoneAppend(out: seq<Msg>, m: Msg, i: nat)
    requires i <= |out|
    ensures Done(out + [m], i) == Done(out, i)
    ensures Done(out + [m], |out| + 1) == Done(out, |out|) + {m.id}
  {
    var out' := out + [m];
    assert forall k :: 0 <= k < |out| ==> out'[k] == out[k];
    forall x | x in Done(out, |out|) + {m.id} ensures x in Done(out', |out| + 1) {
      if x == m.id {
        assert out'[|out|].id == x;
      } else {
        var k :| 0 <= k < |out| && out[k].id == x;
        assert out'[k].id == x;
      }
    }
    forall x | x in Done(out, i) ensures x in Done(out', i) {
      var k :| 0 <= k < i && out[k].id == x;
      assert out'[k].id == x;
    }
  }

  lemma KahnAppend(t: Table, out: seq<Msg>, m: Msg)
    requires KahnOrder(t, out) && Earliest(t, Done(out, |out|), m)
    ensures KahnOrder(t, out + [m])
  {
    forall i | 0 <= i < |out + [m]| ensures Earliest(t, Done(out + [m], i), (out + [m])[i]) {
      DoneAppend(out, m, i);
    }
  }

  /** Emitted messages have ending chains. */
  lemma {:induction false} EmittedRooted(t: Table, out: seq<Msg>, i: nat)
    requires KahnOrder(t, out) && i < |out|
    ensures out[i].id in t && Rooted(t, out[i].id)
    decreases i
  {
    assert Earliest(t, Done(out, i), out[i]);
    RootedParent(t, out[i].id);
    if Parent(t, out[i].id).Some? {
      var k :| 0 <= k < i && out[k].id == Parent(t, out[i].id).value;
      EmittedRooted(t, out, k);
    }
  }

  /** When nothing more is ready, every message with an ending chain is out. */
  lemma {:induction false} RootedEmitted(t: Table, done: set<ID>, id: ID, k: nat)
    requires id in t && ReadySet(t, done) <= done && Climb(t, id, k) == None
    ensures id in done
    decreases k
  {
    if Parent(t, id).Some? {
      ClimbParent(t, id, k - 1);
      RootedEmitted(t, done, Parent(t, id).value, k - 1);
    }
    assert Ready(t, done, id);
    assert id in ReadySet(t, done);
  }

  // ---- Building the maps ----

  function TableOf(msgs: seq<Msg>): Table {
    if msgs == [] then map[] else TableOf(msgs[..|msgs| - 1])[msgs[|msgs| - 1].id := msgs[|msgs| - 1]]
  }

  lemma {:induction false} TableFacts(msgs: seq<Msg>)
    requires DistinctIds(msgs)
    ensures WellKeyed(TableOf(msgs))
    ensures forall m :: m in msgs ==> m.id in TableOf(msgs) && TableOf(msgs)[m.id] == m
    ensures forall id :: id in TableOf(msgs) ==> TableOf(msgs)[id] in msgs
    ensures Lists(msgs, Msgs(TableOf(msgs), TableOf(msgs).Keys))
  {
    if msgs == [] {
      assert Msgs(map[], {}) == {};
    } else {
      var n := |msgs| - 1;
      var last, t := msgs[n], TableOf(msgs[..n]);
      assert msgs == msgs[..n] + [last];
      TableFacts(msgs[..n]);
      forall id | id in t ensures id != last.id {
        var i :| 0 <= i < n && msgs[..n][i] == t[id];
        assert msgs[i].id != msgs[n].id;
      }
      TableGrows(msgs[..n], t, last);
    }
  }

  lemma TableGrows(msgs: seq<Msg>, t: Table, last: Msg)
    requires WellKeyed(t) && last.id !in t && Lists(msgs, Msgs(t, t.Keys))
    requires forall m :: m in msgs ==> m.id in t && t[m.id] == m
    requires forall id :: id in t ==> t[id] in msgs
    ensures var t', msgs' := t[last.id := last], msgs + [last];
            && WellKeyed(t') && Lists(msgs', Msgs(t', t'.Keys))
            && (forall m :: m in msgs' ==> m.id in t' && t'[m.id] == m)
            && (forall id :: id in t' ==> t'[id] in msgs')
  {
    AddMsg(t, last);
    assert t[last.id := last].Keys == t.Keys + {last.id};
  }

  lemma AddMsg(t: Table, m: Msg)
    requires WellKeyed(t) && m.id !in t
    ensures Msgs(t[m.id := m], t.Keys + {m.id}) == Msgs(t, t.Keys) + {m}
    ensures m !in Msgs(t, t.Keys)
  {}

  /** Array.filter */
  method Filter<T(==)>(s: seq<T>, keep: T -> bool) returns (r: seq<T>)
    ensures forall x :: multiset(r)[x] == if keep(x) then multiset(s)[x] else 0
  {
    r := [];
    for n := 0 to |s|
      invariant forall x :: multiset(r)[x] == if keep(x) then multiset(s[..n])[x] else 0
    {
      assert s[..n + 1] == s[..n] + [s[n]];
      if keep(s[n]) {
        r := r + [s[n]];
      }
    }
    assert s[..|s|] == s;
  }

  /** The messages of the list whose ids are in `ids`. */
  lemma FilteredLists(t: Table, msgs: seq<Msg>, r: seq<Msg>, ids: set<ID>)
    requires WellKeyed(t) && ids <= t.Keys && Lists(msgs, Msgs(t, t.Keys))
    requires forall m :: multiset(r)[m] == if m.id in ids then multiset(msgs)[m] else 0
    ensures Lists(r, Msgs(t, ids))
  {}

  /** The replies to p among the first n messages, in list order. */
  function Replies(t: Table, msgs: seq<Msg>, p: ID, n: nat): seq<ID>
    requires n <= |msgs|
  {
    if n == 0 then [] else
      var m := msgs[n - 1];
      Replies(t, msgs, p, n - 1) + if m.id in t && Parent(t, m.id) == Some(p) then [m.id] else []
  }

  /** The first n messages are in the table, no two with the same id. */
  ghost predicate Placed(t: Table, msgs: seq<Msg>, n: nat)
    requires n <= |msgs|
  {
    n > 0 ==>
      var m := msgs[n - 1];
      Placed(t, msgs, n - 1) && m.id in t && t[m.id] == m && m.id !in Done(msgs, n - 1)
  }

  lemma {:induction false} AllPlaced(msgs: seq<Msg>, n: nat)
    requires DistinctIds(msgs) && n <= |msgs|
    ensures Placed(TableOf(msgs), msgs, n)
  {
    if n > 0 {
      AllPlaced(msgs, n - 1);
      InTable(msgs, n - 1);
      DoneNext(msgs, n - 1);
    }
  }

  lemma {:induction false} RepliesLists(t: Table, msgs: seq<Msg>, p: ID, n: nat)
    requires n <= |msgs| && Placed(t, msgs, n)
    ensures Lists(Replies(t, msgs, p, n), Children(t, p) * Done(msgs, n))
  {
    if n == 0 {
      NoReplies(t, msgs, p);
    } else {
      RepliesLists(t, msgs, p, n - 1);
      RepliesStep(t, msgs, p, n - 1);
    }
  }

  lemma NoReplies(t: Table, msgs: seq<Msg>, p: ID)
    ensures Lists(Replies(t, msgs, p, 0), Children(t, p) * Done(msgs, 0))
  {
    assert Done(msgs, 0) == {};
    assert Children(t, p) * {} == {};
  }

  lemma RepliesStep(t: Table, msgs: seq<Msg>, p: ID, n: nat)
    requires n < |msgs| && msgs[n].id in t && msgs[n].id !in Done(msgs, n)
    requires Lists(Replies(t, msgs, p, n), Children(t, p) * Done(msgs, n))
    ensures Lists(Replies(t, msgs, p, n + 1), Children(t, p) * Done(msgs, n + 1))
  {
    DoneNext(msgs, n);
    ListsAppend(Replies(t, msgs, p, n), Children(t, p), Done(msgs, n), msgs[n].id);
  }

  lemma ListsAppend(list: seq<ID>, a: set<ID>, b: set<ID>, id: ID)
    requires Lists(list, a * b) && id !in b
    ensures Lists(list + if id in a then [id] else [], a * (b + {id}))
  {
    if id in a {
      ListsAdd(list, a * b, id);
      assert a * (b + {id}) == a * b + {id};
    } else {
      assert a * (b + {id}) == a * b && list + [] == list;
    }
  }

  lemma DoneNext(msgs: seq<Msg>, n: nat)
    requires n < |msgs|
    ensures Done(msgs, n + 1) == Done(msgs, n) + {msgs[n].id}
    ensures DistinctIds(msgs) ==> msgs[n].id !in Done(msgs, n)
  {}

  lemma AllDone(msgs: seq<Msg>)
    requires DistinctIds(msgs)
    ensures Done(msgs, |msgs|) == TableOf(msgs).Keys
  {}

  /** In-degrees and successor lists. */
  method Links(msgs: seq<Msg>, t: Table) returns (inDeg: map<ID, int>, succs: map<ID, seq<ID>>)
    requires DistinctIds(msgs) && t == TableOf(msgs)
    ensures inDeg.Keys == t.Keys && succs.Keys == t.Keys
    ensures forall id :: id in t ==> inDeg[id] == if Parent(t, id) == None then 0 else 1
    ensures forall p :: p in t ==> succs[p] == Replies(t, msgs, p, |msgs|)
    ensures forall m :: m in msgs ==>
              m.id in t && inDeg[m.id] == if m.ref.Some? && m.ref.value != 0 && m.ref.value in t then 1 else 0
    ensures forall p, m :: p in t && m in msgs ==> (m.id in succs[p] <==> p != 0 && m.ref == Some(p))
  {
    inDeg, succs := map id | id in t :: 0, map id | id in t :: [];
    NoneLinked(t, msgs, inDeg, succs);
    AllPlaced(msgs, |msgs|);
    inDeg, succs := LinkAll(t, msgs, inDeg, succs);
    AllLinked(msgs, t, inDeg, succs);
    forall m | m in msgs
      ensures m.id in t && inDeg[m.id] == if m.ref.Some? && m.ref.value != 0 && m.ref.value in t then 1 else 0
    {
      DegreeMeans(msgs, t, m);
    }
    forall p, m | p in t && m in msgs ensures m.id in succs[p] <==> p != 0 && m.ref == Some(p) {
      RepliesMean(msgs, t, p, m);
    }
  }

  lemma DegreeMeans(msgs: seq<Msg>, t: Table, m: Msg)
    requires DistinctIds(msgs) && t == TableOf(msgs) && m in msgs
    ensures m.id in t && (Parent(t, m.id).Some? <==> m.ref.Some? && m.ref.value != 0 && m.ref.value in t)
  {
    TableFacts(msgs);
  }

  lemma RepliesMean(msgs: seq<Msg>, t: Table, p: ID, m: Msg)
    requires DistinctIds(msgs) && t == TableOf(msgs) && p in t && m in msgs
    ensures m.id in Replies(t, msgs, p, |msgs|) <==> p != 0 && m.ref == Some(p)
  {
    ChildMeans(msgs, t, p, m);
    RepliesAreChildren(msgs, t, p);
    ListsFacts(Replies(t, msgs, p, |msgs|), Children(t, p));
  }

  lemma ChildMeans(msgs: seq<Msg>, t: Table, p: ID, m: Msg)
    requires DistinctIds(msgs) && t == TableOf(msgs) && p in t && m in msgs
    ensures m.id in Children(t, p) <==> p != 0 && m.ref == Some(p)
  {
    TableFacts(msgs);
  }

  /** The loop over the messages. */
  method LinkAll(t: Table, msgs: seq<Msg>, inDeg0: map<ID, int>, succs0: map<ID, seq<ID>>)
    returns (inDeg: map<ID, int>, succs: map<ID, seq<ID>>)
    requires Linked(t, msgs, 0, inDeg0, succs0) && Placed(t, msgs, |msgs|)
    ensures Linked(t, msgs, |msgs|, inDeg, succs)
  {
    inDeg, succs := inDeg0, succs0;
    for n := 0 to |msgs|
      invariant Linked(t, msgs, n, inDeg, succs)
    {
      PlacedTo(t, msgs, n + 1, |msgs|);
      inDeg, succs := LinkOne(t, msgs, n, inDeg, succs);
    }
  }

  lemma {:induction false} PlacedTo(t: Table, msgs: seq<Msg>, n: nat, m: nat)
    requires n <= m <= |msgs| && Placed(t, msgs, m)
    ensures Placed(t, msgs, n)
    decreases m
  {
    if n < m { PlacedTo(t, msgs, n, m - 1); }
  }

  lemma NoneLinked(t: Table, msgs: seq<Msg>, inDeg: map<ID, int>, succs: map<ID, seq<ID>>)
    requires inDeg.Keys == t.Keys && (forall id :: id in t ==> inDeg[id] == 0)
    requires succs.Keys == t.Keys && (forall id :: id in t ==> succs[id] == [])
    ensures Linked(t, msgs, 0, inDeg, succs)
  {}

  lemma AllLinked(msgs: seq<Msg>, t: Table, inDeg: map<ID, int>, succs: map<ID, seq<ID>>)
    requires DistinctIds(msgs) && t == TableOf(msgs) && Linked(t, msgs, |msgs|, inDeg, succs)
    ensures forall id :: id in t ==> inDeg[id] == if Parent(t, id) == None then 0 else 1
  {
    AllDone(msgs);
  }

  lemma InTable(msgs: seq<Msg>, n: nat)
    requires DistinctIds(msgs) && n < |msgs|
    ensures msgs[n].id in TableOf(msgs) && TableOf(msgs)[msgs[n].id] == msgs[n]
  {}

  /** The links of the first n messages have been recorded. */
  ghost predicate Linked(t: Table, msgs: seq<Msg>, n: nat, inDeg: map<ID, int>, succs: map<ID, seq<ID>>)
    requires n <= |msgs|
  {
    Degrees(t, Done(msgs, n), inDeg) && Successors(t, msgs, n, succs)
  }

  ghost predicate Degrees(t: Table, linked: set<ID>, inDeg: map<ID, int>) {
    && inDeg.Keys == t.Keys
    && (forall id :: id in t ==> inDeg[id] == if id in linked && Parent(t, id).Some? then 1 else 0)
  }

  ghost predicate Successors(t: Table, msgs: seq<Msg>, n: nat, succs: map<ID, seq<ID>>)
    requires n <= |msgs|
  {
    && succs.Keys == t.Keys
    && (forall p :: p in t ==> succs[p] == Replies(t, msgs, p, n))
  }

  method LinkOne(t: Table, msgs: seq<Msg>, n: nat, inDeg0: map<ID, int>, succs0: map<ID, seq<ID>>)
    returns (inDeg: map<ID, int>, succs: map<ID, seq<ID>>)
    requires n < |msgs| && Linked(t, msgs, n, inDeg0, succs0)
    requires Placed(t, msgs, n + 1)
    ensures Linked(t, msgs, n + 1, inDeg, succs)
  {
    var m := msgs[n];
    DoneNext(msgs, n);
    inDeg, succs := inDeg0, succs0;
    LinkDegree(t, Done(msgs, n), inDeg, m.id);
    LinkSuccessor(t, msgs, n, succs);
    var p := Pred(m);
    if p.Some? && p.value in t {
      inDeg := inDeg[m.id := inDeg[m.id] + 1];
      succs := succs[p.value := succs[p.value] + [m.id]];
    }
  }

  lemma LinkDegree(t: Table, linked: set<ID>, inDeg: map<ID, int>, id: ID)
    requires Degrees(t, linked, inDeg) && id in t && id !in linked
    ensures Degrees(t, linked + {id}, if Parent(t, id).Some? then inDeg[id := inDeg[id] + 1] else inDeg)
  {}

  lemma LinkSuccessor(t: Table, msgs: seq<Msg>, n: nat, succs: map<ID, seq<ID>>)
    requires n < |msgs| && Successors(t, msgs, n, succs) && msgs[n].id in t
    ensures var p := Parent(t, msgs[n].id);
            Successors(t, msgs, n + 1, if p.Some? then succs[p.value := succs[p.value] + [msgs[n].id]] else succs)
  {}

  // ---- Kahn's loop ----

  /** Releases the replies to a message just emitted: their in-degree drops to 0, and they
      join the queue, which stays in order of receipt. */
  method Release(t: Table, replies: seq<ID>, inDeg0: map<ID, int>, queue0: seq<Msg>)
    returns (inDeg: map<ID, int>, queue: seq<Msg>)
    requires inDeg0.Keys == t.Keys && (forall i, j :: 0 <= i < j < |replies| ==> replies[i] != replies[j])
    requires forall i :: 0 <= i < |replies| ==> replies[i] in t && inDeg0[replies[i]] == 1
    requires SortedBy(queue0, Received)
    ensures inDeg.Keys == t.Keys
    ensures forall id :: id in t ==> inDeg[id] == if id in replies then 0 else inDeg0[id]
    ensures SortedBy(queue, Received)
    ensures multiset(queue) == multiset(queue0) + multiset(Lookup(t, replies))
  {
    inDeg, queue := inDeg0, queue0;
    for n := 0 to |replies|
      invariant inDeg.Keys == t.Keys && SortedBy(queue, Received)
      invariant forall id :: id in t ==> inDeg[id] == if id in replies[..n] then 0 else inDeg0[id]
      invariant multiset(queue) == multiset(queue0) + multiset(Lookup(t, replies[..n]))
    {
      var sid := replies[n];
      assert replies[..n + 1] == replies[..n] + [sid];
      assert sid !in replies[..n];
      var d := inDeg[sid] - 1;
      inDeg := inDeg[sid := d];
      if d == 0 {
        queue := SortSlice(queue + [t[sid]], Received);
      }
      LookupAppend(t, replies[..n], sid);
    }
    assert replies[..|replies|] == replies;
  }

  ghost function Lookup(t: Table, ids: seq<ID>): seq<Msg>
    requires forall i :: 0 <= i < |ids| ==> ids[i] in t
  {
    seq(|ids|, i requires 0 <= i < |ids| => t[ids[i]])
  }

  lemma LookupAppend(t: Table, ids: seq<ID>, id: ID)
    requires (forall i :: 0 <= i < |ids| ==> ids[i] in t) && id in t
    ensures multiset(Lookup(t, ids + [id])) == multiset(Lookup(t, ids)) + multiset{t[id]}
  {
    assert Lookup(t, ids + [id]) == Lookup(t, ids) + [t[id]];
  }

  lemma {:induction false} LookupLists(t: Table, ids: seq<ID>, S: set<ID>)
    requires WellKeyed(t) && S <= t.Keys && Lists(ids, S)
    ensures (forall i :: 0 <= i < |ids| ==> ids[i] in t) && Lists(Lookup(t, ids), Msgs(t, S))
    decreases |ids|
  {
    ListsFacts(ids, S);
    if ids == [] {
      assert Msgs(t, S) == {};
    } else {
      var n := |ids| - 1;
      var last := ids[n];
      assert ids == ids[..n] + [last];
      assert multiset(ids[..n]) == multiset(ids) - multiset{last};
      LookupLists(t, ids[..n], S - {last});
      LookupAppend(t, ids[..n], last);
      assert Msgs(t, S) == Msgs(t, S - {last}) + {t[last]};
    }
  }

  /** After `done`: the queue holds what is ready and not done, in order of receipt, and
      the in-degrees tell what is ready. */
  ghost predicate KahnInv(t: Table, out: seq<Msg>, done: set<ID>, inDeg: map<ID, int>, queue: seq<Msg>) {
    && KahnOrder(t, out) && done == Done(out, |out|) && done <= ReadySet(t, done)
    && Lists(queue, Msgs(t, ReadySet(t, done) - done)) && SortedBy(queue, Received)
    && inDeg.Keys == t.Keys
    && forall id :: id in t ==> inDeg[id] == if Ready(t, done, id) then 0 else 1
  }

  /** The head of the queue is an earliest ready message. */
  lemma HeadEarliest(t: Table, out: seq<Msg>, done: set<ID>, inDeg: map<ID, int>, queue: seq<Msg>)
    requires WellKeyed(t) && KahnInv(t, out, done, inDeg, queue) && queue != []
    ensures Earliest(t, done, queue[0])
  {
    var todo := ReadySet(t, done) - done;
    ListsFacts(queue, Msgs(t, todo));
    assert queue[0] in Msgs(t, todo);
    forall id | id in t && id !in done && Ready(t, done, id) ensures queue[0].receivedAt <= t[id].receivedAt {
      assert id in todo && t[id] in Msgs(t, todo);
      var i :| 0 <= i < |queue| && queue[i] == t[id];
      assert i > 0 ==> Received(queue[0]) <= Received(queue[i]);
    }
  }

  /** What becomes ready when m is emitted: its replies. */
  lemma ReadyGrows(t: Table, done: set<ID>, m: ID)
    requires m in t && m !in done && Ready(t, done, m) && done <= ReadySet(t, done)
    ensures done + {m} <= ReadySet(t, done + {m})
    ensures ReadySet(t, done + {m}) - (done + {m}) == (ReadySet(t, done) - done - {m}) + Children(t, m)
    ensures (ReadySet(t, done) - done - {m}) !! Children(t, m)
    ensures forall id :: id in t ==> (Ready(t, done + {m}, id) <==> Ready(t, done, id) || id in Children(t, m))
    ensures forall id :: id in Children(t, m) ==> !Ready(t, done, id)
  {}

  lemma MsgsSum(t: Table, a: set<ID>, b: set<ID>)
    requires WellKeyed(t) && a <= t.Keys && b <= t.Keys && a !! b
    ensures multiset(Msgs(t, a + b)) == multiset(Msgs(t, a)) + multiset(Msgs(t, b))
  {}

  lemma PopQueue(t: Table, todo: set<ID>, queue: seq<Msg>)
    requires WellKeyed(t) && todo <= t.Keys && queue != [] && Lists(queue, Msgs(t, todo))
    ensures queue[0].id in todo && t[queue[0].id] == queue[0]
    ensures Lists(queue[1..], Msgs(t, todo - {queue[0].id}))
  {
    ListsTail(queue, Msgs(t, todo));
    MsgsDrop(t, todo, queue[0]);
  }

  /** One turn of the loop: emit the head, release its replies. */
  lemma KahnStep(t: Table, out: seq<Msg>, done: set<ID>, inDeg: map<ID, int>, queue: seq<Msg>,
                 replies: seq<ID>, inDeg': map<ID, int>, queue': seq<Msg>)
    requires WellKeyed(t) && KahnInv(t, out, done, inDeg, queue) && queue != []
    requires Lists(replies, Children(t, queue[0].id)) && (forall i :: 0 <= i < |replies| ==> replies[i] in t)
    requires inDeg'.Keys == t.Keys && forall id :: id in t ==> inDeg'[id] == if id in replies then 0 else inDeg[id]
    requires SortedBy(queue', Received) && multiset(queue') == multiset(queue[1..]) + multiset(Lookup(t, replies))
    ensures KahnInv(t, out + [queue[0]], done + {queue[0].id}, inDeg', queue')
  {
    var m := queue[0];
    var todo := ReadySet(t, done) - done;
    HeadEarliest(t, out, done, inDeg, queue);
    KahnAppend(t, out, m);
    DoneAppend(out, m, |out|);
    PopQueue(t, todo, queue);
    ReadyGrows(t, done, m.id);
    ListsFacts(replies, Children(t, m.id));
    LookupLists(t, replies, Children(t, m.id));
    MsgsSum(t, todo - {m.id}, Children(t, m.id));
  }

  /** The replies of the head of the queue are in the table, once each, and wait for it only. */
  lemma HeadReplies(msgs: seq<Msg>, t: Table, succs: map<ID, seq<ID>>, out: seq<Msg>, done: set<ID>,
                    inDeg: map<ID, int>, queue: seq<Msg>)
    requires DistinctIds(msgs) && t == TableOf(msgs) && KahnInv(t, out, done, inDeg, queue) && queue != []
    requires succs.Keys == t.Keys && forall p :: p in t ==> succs[p] == Replies(t, msgs, p, |msgs|)
    ensures Earliest(t, done, queue[0]) && SortedBy(queue[1..], Received)
    ensures Lists(succs[queue[0].id], Children(t, queue[0].id))
    ensures var replies := succs[queue[0].id];
            && (forall i, j :: 0 <= i < j < |replies| ==> replies[i] != replies[j])
            && (forall i :: 0 <= i < |replies| ==> replies[i] in t && inDeg[replies[i]] == 1)
  {
    TableFacts(msgs);
    HeadEarliest(t, out, done, inDeg, queue);
    ChildrenOf(msgs, t, succs, done, inDeg, queue[0].id);
  }

  /** The first half of topoSort: everything whose references end, in reply order. */
  method KahnLoop(msgs: seq<Msg>, t: Table) returns (sorted: seq<Msg>)
    requires DistinctIds(msgs) && t == TableOf(msgs)
    ensures KahnOrder(t, sorted)
    ensures ReadySet(t, Done(sorted, |sorted|)) <= Done(sorted, |sorted|) <= t.Keys
  {
    TableFacts(msgs);
    var inDeg, succs := Links(msgs, t);
    var queue := StartQueue(msgs, t, inDeg);
    sorted := [];
    ghost var done: set<ID> := {};
    while queue != []
      invariant KahnInv(t, sorted, done, inDeg, queue)
      decreases t.Keys - done
    {
      var m := queue[0];
      HeadReplies(msgs, t, succs, sorted, done, inDeg, queue);
      var inDeg', queue' := Release(t, succs[m.id], inDeg, queue[1..]);
      KahnStep(t, sorted, done, inDeg, queue, succs[m.id], inDeg', queue');
      inDeg, queue := inDeg', queue';
      sorted := sorted + [m];
      done := done + {m.id};
    }
    EmptyQueue(t, done, queue);
  }

  lemma EmptyQueue(t: Table, done: set<ID>, queue: seq<Msg>)
    requires queue == [] && Lists(queue, Msgs(t, ReadySet(t, done) - done))
    ensures ReadySet(t, done) <= done
  {
    ListsFacts(queue, Msgs(t, ReadySet(t, done) - done));
    if ReadySet(t, done) - done != {} { MsgsNonEmpty(t, ReadySet(t, done) - done); }
  }

  lemma MsgsNonEmpty(t: Table, ids: set<ID>)
    requires ids <= t.Keys && ids != {}
    ensures Msgs(t, ids) != {}
  {
    var id :| id in ids;
    assert t[id] in Msgs(t, ids);
  }

  lemma RepliesAreChildren(msgs: seq<Msg>, t: Table, m: ID)
    requires DistinctIds(msgs) && t == TableOf(msgs)
    ensures Lists(Replies(t, msgs, m, |msgs|), Children(t, m))
  {
    AllPlaced(msgs, |msgs|);
    RepliesLists(t, msgs, m, |msgs|);
    AllDone(msgs);
    assert Children(t, m) * t.Keys == Children(t, m);
  }

  lemma ChildrenOf(msgs: seq<Msg>, t: Table, succs: map<ID, seq<ID>>, done: set<ID>, inDeg: map<ID, int>, m: ID)
    requires DistinctIds(msgs) && t == TableOf(msgs) && m in t && m !in done
    requires succs.Keys == t.Keys && succs[m] == Replies(t, msgs, m, |msgs|)
    requires inDeg.Keys == t.Keys && forall id :: id in t ==> inDeg[id] == if Ready(t, done, id) then 0 else 1
    ensures Lists(succs[m], Children(t, m))
    ensures forall i, j :: 0 <= i < j < |succs[m]| ==> succs[m][i] != succs[m][j]
    ensures forall i :: 0 <= i < |succs[m]| ==> succs[m][i] in t && inDeg[succs[m][i]] == 1
  {
    RepliesAreChildren(msgs, t, m);
    ListsFacts(succs[m], Children(t, m));
    forall i | 0 <= i < |succs[m]| ensures succs[m][i] in t && inDeg[succs[m][i]] == 1 {
      assert succs[m][i] in Children(t, m);
    }
  }

  /** The messages with no predecessor in the list, in order of receipt. */
  method StartQueue(msgs: seq<Msg>, t: Table, inDeg: map<ID, int>) returns (queue: seq<Msg>)
    requires DistinctIds(msgs) && t == TableOf(msgs) && inDeg.Keys == t.Keys
    requires forall id :: id in t ==> inDeg[id] == if Parent(t, id) == None then 0 else 1
    ensures KahnInv(t, [], {}, inDeg, queue)
  {
    TableFacts(msgs);
    var roots := Filter(msgs, (m: Msg) => m.id in inDeg && inDeg[m.id] == 0);
    queue := SortSlice(roots, Received);
    FilteredLists(t, msgs, roots, ReadySet(t, {}));
    assert ReadySet(t, {}) - {} == ReadySet(t, {});
  }

  /** topoSort: `n` messages come out by Kahn's order; they are exactly those whose chain of
      references does not run into a cycle. The rest follow in order of receipt. */
  method TopoSort(msgs: seq<Msg>) returns (out: seq<Msg>, ghost n: nat)
    requires DistinctIds(msgs)
    ensures multiset(out) == multiset(msgs)
    ensures n <= |out| && KahnOrder(TableOf(msgs), out[..n]) && SortedBy(out[n..], Received)
    ensures forall i :: 0 <= i < |out| ==> out[i].id in TableOf(msgs)
    ensures forall i :: 0 <= i < |out| ==> (i < n <==> !OnOrBelowCycle(TableOf(msgs), out[i].id))
    ensures forall i :: 0 <= i < |out| ==> (i < n <==> !Returns(msgs, out[i]))
    ensures forall i, j :: n <= i < j < |out| ==> out[i].receivedAt <= out[j].receivedAt
    ensures forall i, k :: 0 <= i < n && 0 <= k < |out| && out[i].ref == Some(out[k].id) && out[k].id != 0 ==> k < i
  {
    var t := TableOf(msgs);
    var sorted := KahnLoop(msgs, t);
    var seen := set i | 0 <= i < |sorted| :: sorted[i].id;
    var left := Filter(msgs, (m: Msg) => m.id !in seen);
    var rest := SortSlice(left, Received);
    out := sorted + rest;
    n := |sorted|;
    assert out[..n] == sorted && out[n..] == rest;
    Assembled(msgs, t, sorted, left, rest);
    OrderMeans(msgs, out, n);
  }

  lemma OrderMeans(msgs: seq<Msg>, out: seq<Msg>, n: nat)
    requires DistinctIds(msgs) && multiset(out) == multiset(msgs) && n <= |out| && KahnOrder(TableOf(msgs), out[..n])
    requires SortedBy(out[n..], Received) && forall i :: 0 <= i < |out| ==> out[i].id in TableOf(msgs)
    requires forall i :: 0 <= i < |out| ==> (i < n <==> !OnOrBelowCycle(TableOf(msgs), out[i].id))
    ensures forall i :: 0 <= i < |out| ==> (i < n <==> !Returns(msgs, out[i]))
    ensures forall i, j :: n <= i < j < |out| ==> out[i].receivedAt <= out[j].receivedAt
    ensures forall i, k :: 0 <= i < n && 0 <= k < |out| && out[i].ref == Some(out[k].id) && out[k].id != 0 ==> k < i
  {
    forall i | 0 <= i < |out| ensures i < n <==> !Returns(msgs, out[i]) {
      CycleAt(msgs, out, i);
    }
    forall i, j | n <= i < j < |out| ensures out[i].receivedAt <= out[j].receivedAt {
      assert Received(out[n..][i - n]) <= Received(out[n..][j - n]);
    }
    forall i, k | 0 <= i < n && 0 <= k < |out| && out[i].ref == Some(out[k].id) && out[k].id != 0 ensures k < i {
      RepliesFollow(msgs, out, n, i, k);
    }
  }

  lemma CycleAt(msgs: seq<Msg>, out: seq<Msg>, i: nat)
    requires DistinctIds(msgs) && multiset(out) == multiset(msgs) && i < |out|
    ensures out[i].id in TableOf(msgs) && (OnOrBelowCycle(TableOf(msgs), out[i].id) <==> Returns(msgs, out[i]))
  {
    assert out[i] in multiset(msgs);
    CycleMeans(msgs, out[i]);
  }

  lemma Assembled(msgs: seq<Msg>, t: Table, sorted: seq<Msg>, left: seq<Msg>, rest: seq<Msg>)
    requires DistinctIds(msgs) && t == TableOf(msgs) && KahnOrder(t, sorted)
    requires ReadySet(t, Done(sorted, |sorted|)) <= Done(sorted, |sorted|) <= t.Keys
    requires forall m :: multiset(left)[m] == if m.id !in Done(sorted, |sorted|) then multiset(msgs)[m] else 0
    requires multiset(rest) == multiset(left)
    ensures multiset(sorted + rest) == multiset(msgs)
    ensures forall i :: 0 <= i < |sorted + rest| ==> (sorted + rest)[i].id in t
    ensures forall i :: 0 <= i < |sorted + rest| ==> (i < |sorted| <==> !OnOrBelowCycle(t, (sorted + rest)[i].id))
  {
    var done := Done(sorted, |sorted|);
    RestLists(msgs, t, done, left, rest);
    WellKeyedTable(msgs);
    KahnPlaced(t, sorted, |sorted|);
    SortedLists(t, sorted, |sorted|);
    assert sorted[..|sorted|] == sorted;
    BothParts(t, done, sorted, rest);
    AllMsgs(msgs);
    forall i | 0 <= i < |sorted + rest|
      ensures (sorted + rest)[i].id in t && (i < |sorted| <==> !OnOrBelowCycle(t, (sorted + rest)[i].id))
    {
      WhichPart(t, sorted, rest, i);
    }
  }

  lemma RestLists(msgs: seq<Msg>, t: Table, done: set<ID>, left: seq<Msg>, rest: seq<Msg>)
    requires DistinctIds(msgs) && t == TableOf(msgs) && multiset(rest) == multiset(left)
    requires forall m :: multiset(left)[m] == if m.id !in done then multiset(msgs)[m] else 0
    ensures Lists(rest, Msgs(t, t.Keys - done)) && forall m :: m in rest ==> m in Msgs(t, t.Keys - done)
  {
    LeftLists(msgs, t, done, left);
    ListsFacts(rest, Msgs(t, t.Keys - done));
  }

  lemma WellKeyedTable(msgs: seq<Msg>)
    requires DistinctIds(msgs)
    ensures WellKeyed(TableOf(msgs))
  {
    TableFacts(msgs);
  }

  lemma AllMsgs(msgs: seq<Msg>)
    requires DistinctIds(msgs)
    ensures multiset(Msgs(TableOf(msgs), TableOf(msgs).Keys)) == multiset(msgs)
  {
    TableFacts(msgs);
  }

  lemma BothParts(t: Table, done: set<ID>, sorted: seq<Msg>, rest: seq<Msg>)
    requires WellKeyed(t) && done <= t.Keys && Lists(sorted, Msgs(t, done)) && Lists(rest, Msgs(t, t.Keys - done))
    ensures multiset(sorted + rest) == multiset(Msgs(t, t.Keys))
  {
    MsgsSum(t, done, t.Keys - done);
    assert done + (t.Keys - done) == t.Keys;
  }

  lemma LeftLists(msgs: seq<Msg>, t: Table, done: set<ID>, left: seq<Msg>)
    requires DistinctIds(msgs) && t == TableOf(msgs)
    requires forall m :: multiset(left)[m] == if m.id !in done then multiset(msgs)[m] else 0
    ensures Lists(left, Msgs(t, t.Keys - done))
  {
    TableFacts(msgs);
    forall m: Msg ensures multiset(left)[m] == if m.id in t.Keys - done then multiset(msgs)[m] else 0 {
      assert m in msgs <==> multiset(msgs)[m] > 0;
    }
    FilteredLists(t, msgs, left, t.Keys - done);
  }

  lemma WhichPart(t: Table, sorted: seq<Msg>, rest: seq<Msg>, i: nat)
    requires WellKeyed(t) && KahnOrder(t, sorted) && i < |sorted + rest|
    requires ReadySet(t, Done(sorted, |sorted|)) <= Done(sorted, |sorted|) <= t.Keys
    requires forall m :: m in rest ==> m in Msgs(t, t.Keys - Done(sorted, |sorted|))
    ensures (sorted + rest)[i].id in t && (i < |sorted| <==> !OnOrBelowCycle(t, (sorted + rest)[i].id))
  {
    if i < |sorted| {
      EmittedRooted(t, sorted, i);
      RootedIffNoCycle(t, sorted[i].id);
    } else {
      var m := rest[i - |sorted|];
      assert m in rest;
      RootedIffNoCycle(t, m.id);
      if Rooted(t, m.id) {
        var k: nat :| Climb(t, m.id, k) == None;
        RootedEmitted(t, Done(sorted, |sorted|), m.id, k);
      }
    }
  }

  lemma {:induction false} KahnPlaced(t: Table, sorted: seq<Msg>, n: nat)
    requires KahnOrder(t, sorted) && n <= |sorted|
    ensures Placed(t, sorted, n)
  {
    if n > 0 {
      KahnPlaced(t, sorted, n - 1);
      assert Earliest(t, Done(sorted, n - 1), sorted[n - 1]);
    }
  }

  lemma {:induction false} SortedLists(t: Table, sorted: seq<Msg>, n: nat)
    requires WellKeyed(t) && n <= |sorted| && Placed(t, sorted, n)
    ensures Done(sorted, n) <= t.Keys && Lists(sorted[..n], Msgs(t, Done(sorted, n)))
  {
    if n == 0 {
      assert Done(sorted, 0) == {};
      assert Msgs(t, {}) == {};
    } else {
      SortedLists(t, sorted, n - 1);
      SortedStep(t, sorted, n - 1);
    }
  }

  lemma SortedStep(t: Table, sorted: seq<Msg>, n: nat)
    requires WellKeyed(t) && n < |sorted| && sorted[n].id in t && t[sorted[n].id] == sorted[n]
    requires Done(sorted, n) <= t.Keys && sorted[n].id !in Done(sorted, n)
    requires Lists(sorted[..n], Msgs(t, Done(sorted, n)))
    ensures Done(sorted, n + 1) <= t.Keys && Lists(sorted[..n + 1], Msgs(t, Done(sorted, n + 1)))
  {
    DoneNext(sorted, n);
    MsgsAdd(t, Done(sorted, n), sorted[n]);
    ListsAdd(sorted[..n], Msgs(t, Done(sorted, n)), sorted[n]);
    assert sorted[..n + 1] == sorted[..n] + [sorted[n]];
  }

  lemma MsgsAdd(t: Table, ids: set<ID>, m: Msg)
    requires WellKeyed(t) && ids <= t.Keys && m.id in t && t[m.id] == m && m.id !in ids
    ensures Msgs(t, ids + {m.id}) == Msgs(t, ids) + {m} && m !in Msgs(t, ids)
  {}

  lemma MsgsDrop(t: Table, ids: set<ID>, m: Msg)
    requires WellKeyed(t) && ids <= t.Keys && m in Msgs(t, ids)
    ensures m.id in ids && t[m.id] == m && Msgs(t, ids - {m.id}) == Msgs(t, ids) - {m}
  {}

  // ---- The result, in terms of the messages ----

  /** p starts at m and goes from each message to the one of the list that it refers to. */
  ghost predicate Trail(msgs: seq<Msg>, m: Msg, p: seq<Msg>) {
    && p != [] && p[0] == m
    && forall k :: 0 < k < |p| ==> p[k] in msgs && p[k].id != 0 && p[k - 1].ref == Some(p[k].id)
  }

  /** Following the references from m returns to a message already met. */
  ghost predicate Returns(msgs: seq<Msg>, m: Msg) {
    exists p: seq<Msg>, a: nat :: Trail(msgs, m, p) && a < |p| - 1 && p[a] == p[|p| - 1]
  }

  lemma ParentMeans(msgs: seq<Msg>, m: Msg, r: ID)
    requires DistinctIds(msgs) && m in msgs
    ensures m.id in TableOf(msgs) && TableOf(msgs)[m.id] == m
    ensures Parent(TableOf(msgs), m.id) == Some(r) <==> m.ref == Some(r) && r != 0 && exists x :: x in msgs && x.id == r
  {
    TableFacts(msgs);
    if r in TableOf(msgs) { assert TableOf(msgs)[r] in msgs; }
  }

  lemma {:induction false} ClimbTrail(msgs: seq<Msg>, m: Msg, p: seq<Msg>, k: nat)
    requires DistinctIds(msgs) && m in msgs && Trail(msgs, m, p) && k < |p|
    ensures p[k] in msgs && m.id in TableOf(msgs) && Climb(TableOf(msgs), m.id, k) == Some(p[k].id)
  {
    TableFacts(msgs);
    if k > 0 {
      ClimbTrail(msgs, m, p, k - 1);
      ParentMeans(msgs, p[k - 1], p[k].id);
    }
  }

  lemma {:induction false} TrailOf(msgs: seq<Msg>, m: Msg, n: nat) returns (p: seq<Msg>)
    requires DistinctIds(msgs) && m in msgs && m.id in TableOf(msgs) && Climb(TableOf(msgs), m.id, n).Some?
    ensures Trail(msgs, m, p) && |p| == n + 1
  {
    TableFacts(msgs);
    if n == 0 {
      p := [m];
    } else {
      var q := TrailOf(msgs, m, n - 1);
      ClimbTrail(msgs, m, q, n - 1);
      var y := Climb(TableOf(msgs), m.id, n).value;
      ParentMeans(msgs, q[n - 1], y);
      p := q + [TableOf(msgs)[y]];
    }
  }

  lemma CycleMeans(msgs: seq<Msg>, m: Msg)
    requires DistinctIds(msgs) && m in msgs
    ensures m.id in TableOf(msgs) && (OnOrBelowCycle(TableOf(msgs), m.id) <==> Returns(msgs, m))
  {
    TableFacts(msgs);
    var t := TableOf(msgs);
    if OnOrBelowCycle(t, m.id) {
      var i: nat, j: nat :| i < j && Climb(t, m.id, i).Some? && Climb(t, m.id, i) == Climb(t, m.id, j);
      var p := TrailOf(msgs, m, j);
      ClimbTrail(msgs, m, p, i);
      ClimbTrail(msgs, m, p, j);
      assert t[p[i].id] == p[i] && t[p[j].id] == p[j];
    }
    if Returns(msgs, m) {
      var p: seq<Msg>, a: nat :| Trail(msgs, m, p) && a < |p| - 1 && p[a] == p[|p| - 1];
      ClimbTrail(msgs, m, p, a);
      ClimbTrail(msgs, m, p, |p| - 1);
    }
  }

  lemma {:induction false} DistinctOut(msgs: seq<Msg>, out: seq<Msg>)
    requires DistinctIds(msgs) && multiset(out) == multiset(msgs)
    ensures DistinctIds(out)
  {
    forall i, j | 0 <= i < j < |out| ensures out[i].id != out[j].id {
      Twice(out, i, j);
      assert out[i] in multiset(msgs) && out[j] in multiset(msgs);
      TableFacts(msgs);
      OnceIn(msgs, out[i]);
    }
  }

  /** A value that stands at two places counts twice. */
  lemma Twice(s: seq<Msg>, i: nat, j: nat)
    requires i < j < |s|
    ensures s[i] == s[j] ==> multiset(s)[s[i]] >= 2
  {
    assert s == s[..j] + [s[j]] + s[j + 1..];
    assert s[i] in s[..j];
  }

  lemma {:induction false} OnceIn(msgs: seq<Msg>, m: Msg)
    requires DistinctIds(msgs)
    ensures multiset(msgs)[m] <= 1
  {
    if msgs != [] {
      var n := |msgs| - 1;
      assert msgs == msgs[..n] + [msgs[n]];
      OnceIn(msgs[..n], m);
      if m == msgs[n] { assert forall i :: 0 <= i < n ==> msgs[i].id != m.id; }
    }
  }

  /** Linear extension: a message in the first part stands after the message it refers to. */
  lemma RepliesFollow(msgs: seq<Msg>, out: seq<Msg>, n: nat, i: nat, k: nat)
    requires DistinctIds(msgs) && multiset(out) == multiset(msgs) && n <= |out| && KahnOrder(TableOf(msgs), out[..n])
    requires i < n && k < |out| && out[i].ref == Some(out[k].id) && out[k].id != 0
    ensures k < i
  {
    DistinctOut(msgs, out);
    assert out[i] in multiset(msgs) && out[k] in multiset(msgs);
    ParentMeans(msgs, out[i], out[k].id);
    assert Earliest(TableOf(msgs), Done(out[..n], i), out[..n][i]);
    var j :| 0 <= j < i && out[..n][j].id == out[k].id;
    assert out[j].id == out[k].id;
  }

  /** And of the messages that stand from position i on and refer to none of these, the one at i
      was received first. */
  lemma EarliestFirst(msgs: seq<Msg>, out: seq<Msg>, n: nat, i: nat, k: nat)
    requires DistinctIds(msgs) && multiset(out) == multiset(msgs) && n <= |out| && KahnOrder(TableOf(msgs), out[..n])
    requires i < n && i <= k < |out|
    requires forall j :: 0 <= j < |out| && out[j].id != 0 && out[k].ref == Some(out[j].id) ==> j < i
    ensures out[i].receivedAt <= out[k].receivedAt
  {
    DistinctOut(msgs, out);
    var t, done, m := TableOf(msgs), Done(out[..n], i), out[k];
    assert m in multiset(msgs);
    TableFacts(msgs);
    assert Earliest(t, done, out[..n][i]);
    assert m.id !in done;
    if Parent(t, m.id).Some? {
      var r := Parent(t, m.id).value;
      ParentMeans(msgs, m, r);
      var x :| x in msgs && x.id == r;
      assert x in multiset(out);
      var j :| 0 <= j < |out| && out[j] == x;
      assert out[..n][j].id == r;
    }
    assert Ready(t, done, m.id);
  }
}
