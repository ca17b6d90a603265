/** Several generator names: each has its own counter in the database, but the block a process hands out from is a pair
    of package variables that all its names share.  Reservations are taken to succeed. */
module AllocatorNames {
  import opened Allocator

  type Name = string

  datatype Named = Named(counters: map<Name, nat>, blocks: map<Pid, Local>, ids: map<Name, seq<int>>)

  datatype Event = CallFor(pid: Pid, name: Name) | RestartOf(pid: Pid)

  const START := Named(map[], map[], map[])

  function CounterOf(w: Named, name: Name): nat { if name in w.counters then w.counters[name] else BASE }

  function BlockOf(w: Named, pid: Pid): Local { if pid in w.blocks then w.blocks[pid] else Fresh() }

  /** The ids handed out under a name, in order. */
  function IdsOf(w: Named, name: Name): seq<int> { if name in w.ids then w.ids[name] else [] }

  function Happen(w: Named, e: Event): Named
  {
    match e
    case CallFor(pid, name) =>
      var a := Next(BlockOf(w, pid), CounterOf(w, name), Answered);
      Named(w.counters[name := a.counter], w.blocks[pid := a.local], w.ids[name := IdsOf(w, name) + [a.id]])
    case RestartOf(pid) => w.(blocks := w.blocks[pid := Fresh()])
  }

  function History(w: Named, events: seq<Event>): Named
    decreases |events|
  {
    if events == [] then w else History(Happen(w, events[0]), events[1..])
  }

  // ---- Which process uses which names ----

  type Use = (Pid, Name)

  predicate Within(events: seq<Event>, uses: set<Use>)
  {
    forall e | e in events && e.CallFor? :: (e.pid, e.name) in uses
  }

  predicate OneNameEach(uses: set<Use>)
  {
    forall u, v | u in uses && v in uses && u.0 == v.0 :: u.1 == v.1
  }

  ghost predicate NeverTwice(uses: set<Use>)
  {
    forall events, name | Within(events, uses) :: Distinct(IdsOf(History(START, events), name))
  }

  // ---- One name each: every name is an allocator of its own ----

  function Projected(events: seq<Event>, name: Name): seq<Step>
  {
    if events == [] then []
    else
      (match events[0]
       case CallFor(pid, n) => if n == name then [Call(pid, Answered)] else []
       case RestartOf(pid) => [Restart(pid)]) + Projected(events[1..], name)
  }

  ghost predicate Agrees(w: Named, v: World, name: Name, uses: set<Use>)
  {
    && v.counter == CounterOf(w, name) && v.issued == IdsOf(w, name) && v.failed == 0
    && forall pid | (pid, name) in uses :: LocalOf(v, pid) == BlockOf(w, pid)
  }

  lemma CallAgrees(w: Named, v: World, pid: Pid, n: Name, name: Name, uses: set<Use>)
    requires Agrees(w, v, name, uses) && OneNameEach(uses) && (pid, n) in uses
    ensures Agrees(Happen(w, CallFor(pid, n)), if n == name then Apply(v, Call(pid, Answered)) else v, name, uses)
  {
    assert n != name ==> forall q | (q, name) in uses :: (q, name).0 != (pid, n).0;
  }

  lemma {:induction false} ProjectionAgrees(w: Named, v: World, events: seq<Event>, name: Name, uses: set<Use>)
    requires Agrees(w, v, name, uses) && OneNameEach(uses) && Within(events, uses)
    ensures Agrees(History(w, events), Run(v, Projected(events, name)), name, uses)
    decreases |events|
  {
    if events != [] {
      var e := events[0];
      assert e in events;
      var rest := Projected(events[1..], name);
      match e {
        case CallFor(pid, n) =>
          CallAgrees(w, v, pid, n, name, uses);
          if n == name {
            assert ([Call(pid, Answered)] + rest)[1..] == rest;
            ProjectionAgrees(Happen(w, e), Apply(v, Call(pid, Answered)), events[1..], name, uses);
          } else {
            assert [] + rest == rest;
            ProjectionAgrees(Happen(w, e), v, events[1..], name, uses);
          }
        case RestartOf(pid) =>
          assert ([Restart(pid)] + rest)[1..] == rest;
          ProjectionAgrees(Happen(w, e), Apply(v, Restart(pid)), events[1..], name, uses);
      }
    }
  }

  lemma OneNameEachIsSafe(uses: set<Use>, events: seq<Event>, name: Name)
    requires OneNameEach(uses) && Within(events, uses)
    ensures Distinct(IdsOf(History(START, events), name))
  {
    ProjectionAgrees(START, Init(), events, name, uses);
    NoIdTwice(Projected(events, name));
  }

  // ---- Two names in one process ----

  function Repeated(pid: Pid, name: Name, times: nat): seq<Event>
  {
    if times == 0 then [] else [CallFor(pid, name)] + Repeated(pid, name, times - 1)
  }

  lemma NextIds(before: seq<int>, next: int, times: nat)
    requires times > 0
    ensures before + [next + 1] + seq(times - 1, i => next + 1 + 1 + i) == before + seq(times, i => next + 1 + i)
  {
  }

  lemma OneFromTheBlock(w: Named, pid: Pid, name: Name)
    requires !Exhausted(BlockOf(w, pid))
    ensures var t, next := Happen(w, CallFor(pid, name)), BlockOf(w, pid).next;
      && BlockOf(t, pid) == Local(next + 1, BlockOf(w, pid).last)
      && CounterOf(t, name) == CounterOf(w, name)
      && IdsOf(t, name) == IdsOf(w, name) + [next + 1]
  {
  }

  /** Calls that the block still covers hand out its next ids, whatever the name. */
  lemma {:induction false} FromTheBlock(w: Named, pid: Pid, name: Name, times: nat)
    requires BlockOf(w, pid).next + times <= BlockOf(w, pid).last
    ensures var next := BlockOf(w, pid).next;
      var t := History(w, Repeated(pid, name, times));
      && BlockOf(t, pid) == Local(next + times, BlockOf(w, pid).last)
      && CounterOf(t, name) == CounterOf(w, name)
      && IdsOf(t, name) == IdsOf(w, name) + seq(times, i => next + 1 + i)
    decreases times
  {
    if times > 0 {
      var t := Happen(w, CallFor(pid, name));
      var next := BlockOf(w, pid).next;
      OneFromTheBlock(w, pid, name);
      var all := Repeated(pid, name, times);
      assert all[0] == CallFor(pid, name) && all[1..] == Repeated(pid, name, times - 1);
      FromTheBlock(t, pid, name, times - 1);
      NextIds(IdsOf(w, name), next, times);
    }
  }

  lemma {:induction false} HistoryConcat(w: Named, xs: seq<Event>, ys: seq<Event>)
    ensures History(w, xs + ys) == History(History(w, xs), ys)
    decreases |xs|
  {
    if xs == [] {
      assert xs + ys == ys;
    } else {
      assert (xs + ys)[1..] == xs[1..] + ys;
      HistoryConcat(Happen(w, xs[0]), xs[1..], ys);
    }
  }

  /** One call under the first name, nine under the second from the same block, and two from the second's own. */
  function Collision(pid: Pid, first: Name, second: Name): seq<Event>
  {
    [CallFor(pid, first)] + (Repeated(pid, second, 9) + [CallFor(pid, second), CallFor(pid, second)])
  }

  lemma CollisionIsWithin(pid: Pid, first: Name, second: Name, uses: set<Use>)
    requires (pid, first) in uses && (pid, second) in uses
    ensures Within(Collision(pid, first, second), uses)
  {
    RepeatedIs(pid, second, 9);
  }

  lemma {:induction false} RepeatedIs(pid: Pid, name: Name, times: nat)
    ensures forall e | e in Repeated(pid, name, times) :: e == CallFor(pid, name)
  {
    if times > 0 { RepeatedIs(pid, name, times - 1); }
  }

  lemma TwoEvents(w: Named, e: Event)
    ensures History(w, [e, e]) == Happen(Happen(w, e), e)
  {
    assert [e, e][1..] == [e] && [e][1..] == [];
    assert History(Happen(w, e), [e]) == Happen(Happen(w, e), e);
  }

  lemma TwoNamesCollide(pid: Pid, first: Name, second: Name)
    requires first != second
    ensures !Distinct(IdsOf(History(START, Collision(pid, first, second)), second))
  {
    var c := CallFor(pid, second);
    var w1 := Happen(START, CallFor(pid, first));
    var all := Collision(pid, first, second);
    assert all[0] == CallFor(pid, first) && all[1..] == Repeated(pid, second, 9) + [c, c];
    assert History(START, all) == History(w1, all[1..]);
    HistoryConcat(w1, Repeated(pid, second, 9), [c, c]);
    FromTheBlock(w1, pid, second, 9);
    var w2 := History(w1, Repeated(pid, second, 9));
    var w3 := Happen(w2, c);
    var w4 := Happen(w3, c);
    TwoEvents(w2, c);
    var ids := IdsOf(w4, second);
    assert ids == IdsOf(w2, second) + [BASE + 1] + [BASE + 2];
    assert ids[0] == BASE + 2 == ids[10];
  }

  // ---- Exactly one name each ----

  /** While no reservation fails, no name ever issues an id twice, in any run over a given use of names by processes,
      if and only if no process uses two names. */
  lemma NeverTwiceIffOneNameEach(uses: set<Use>)
    ensures NeverTwice(uses) <==> OneNameEach(uses)
  {
    if OneNameEach(uses) {
      forall events, name | Within(events, uses) ensures Distinct(IdsOf(History(START, events), name)) {
        OneNameEachIsSafe(uses, events, name);
      }
    } else {
      var u, v :| u in uses && v in uses && u.0 == v.0 && u.1 != v.1;
      CollisionIsWithin(u.0, u.1, v.1, uses);
      TwoNamesCollide(u.0, u.1, v.1);
    }
  }
}
