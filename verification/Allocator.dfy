/** The block id allocator: processes reserve blocks of ten ids from a shared database counter and hand them
    out locally.  A reservation may fail, in which case the allocator works with -1 as the end of the block. */
module Allocator {
  const BASE: nat := 10000000
  const BLOCK: int := 10

  /** What becomes of a reservation: it succeeds, it is not made, or it is made and its answer cannot be used (it was
      lost, or the stored value is of another number type). */
  datatype Fate = Answered | Refused | AnswerLost

  // ---- The code: package variables of one process, and the shared document ----

  class Setting {
    var value: nat

    constructor ()
      ensures value == BASE
    {
      value := BASE;
    }

    /** $inc, answering with the document before the update. */
    method FindOneAndUpdate(count: nat, fate: Fate) returns (found: bool, before: int)
      modifies this
      ensures found <==> fate.Answered?
      ensures found ==> before == old(value)
      ensures value == if fate.Refused? then old(value) else old(value) + count
    {
      found, before := fate.Answered?, value;
      if !fate.Refused? { value := value + count; }
    }
  }

  class Process {
    var idNext: int
    var idLast: int

    constructor ()
      ensures State() == Fresh()
    {
      idNext, idLast := 0, 0;
    }

    function State(): Local
      reads this
    {
      Local(idNext, idLast)
    }

    method GenerateIds(setting: Setting, count: nat, fate: Fate) returns (last: int)
      modifies setting
      ensures last == if fate.Answered? then old(setting.value) + count else -1
      ensures setting.value == if fate.Refused? then old(setting.value) else old(setting.value) + count
    {
      var found, before := setting.FindOneAndUpdate(count, fate);
      if !found { return -1; }
      last := before + count;
    }

    method Allocate(setting: Setting, fate: Fate) returns (id: int)
      modifies this, setting
      ensures Allocation(State(), setting.value, id) == Next(old(State()), old(setting.value), fate)
    {
      if idNext >= idLast {
        idLast := GenerateIds(setting, BLOCK, fate);
        if idNext + BLOCK != idLast {
          idNext := idLast - BLOCK;
        }
      }
      idNext := idNext + 1;
      id := idNext;
    }
  }

  // ---- Its specification ----

  datatype Local = Local(next: int, last: int)

  datatype Allocation = Allocation(local: Local, counter: nat, id: int)

  function Fresh(): Local { Local(0, 0) }

  predicate Exhausted(p: Local) { p.next >= p.last }

  function Next(p: Local, counter: nat, fate: Fate): Allocation
  {
    if !Exhausted(p) then Allocation(Local(p.next + 1, p.last), counter, p.next + 1)
    else
      match fate
      case Answered => Allocation(Local(counter + 1, counter + BLOCK), counter + BLOCK, counter + 1)
      case Refused => Allocation(Local(-BLOCK, -1), counter, -BLOCK)
      case AnswerLost => Allocation(Local(-BLOCK, -1), counter + BLOCK, -BLOCK)
  }

  // ---- Many processes ----

  type Pid = nat

  /** Where a reserved id went. */
  datatype Place = Issued | Held(holder: Pid) | Lost

  /** `issued` lists every id handed out, in order; `ledger` is a history of each id the counter ever covered;
      `failed` counts the reservations that failed. */
  datatype World = World(counter: nat, procs: map<Pid, Local>, issued: seq<int>, ledger: map<nat, Place>, failed: nat)

  datatype Step = Call(pid: Pid, fate: Fate) | Restart(pid: Pid)

  function Init(): World { World(BASE, map[], [], map[], 0) }

  function LocalOf(w: World, pid: Pid): Local { if pid in w.procs then w.procs[pid] else Fresh() }

  /** id is in the part of the real block that p has not handed out. */
  predicate Holds(p: Local, id: int) { p.last > BASE && p.next < id <= p.last }

  predicate Between(from: int, id: int, to: int) { from < id <= to }

  /** Ids newly covered by the counter go to one place. */
  function Cover(ledger: map<nat, Place>, from: nat, to: int, place: Place): map<nat, Place>
  {
    ledger + map id: nat | from < id <= to && Between(from, id, to) :: place
  }

  /** A block whose reservation was not answered is lost. */
  function PlaceOf(pid: Pid, fate: Fate): Place { if fate.Answered? then Held(pid) else Lost }

  function Apply(w: World, step: Step): World
  {
    match step
    case Call(pid, fate) =>
      var p := LocalOf(w, pid);
      var a := Next(p, w.counter, fate);
      var covered := Cover(w.ledger, w.counter, a.counter, PlaceOf(pid, fate));
      World(a.counter, w.procs[pid := a.local], w.issued + [a.id],
            if a.id > BASE then covered[a.id := Issued] else covered,
            if Exhausted(p) && !fate.Answered? then w.failed + 1 else w.failed)
    case Restart(pid) =>
      w.(procs := w.procs[pid := Fresh()],
         ledger := map id | id in w.ledger :: if w.ledger[id] == Held(pid) then Lost else w.ledger[id])
  }

  function Run(w: World, steps: seq<Step>): World
    decreases |steps|
  {
    if steps == [] then w else Run(Apply(w, steps[0]), steps[1..])
  }

  // ---- The invariant ----

  predicate LocalOk(p: Local, counter: nat)
  {
    || p == Fresh()
    || (BASE <= p.last - BLOCK < p.next <= p.last <= counter)
    || (p.last == -1 && -BLOCK <= p.next <= -1)
  }

  /** The ledger tells the truth about the processes and the ids handed out. */
  ghost predicate LedgerOk(w: World)
  {
    && (forall id: nat :: id in w.ledger <==> BASE < id <= w.counter)
    && (forall id | id in w.ledger :: w.ledger[id].Issued? <==> id in w.issued)
    && (forall q, id: nat :: (q in w.procs && Holds(w.procs[q], id)) <==> (id in w.ledger && w.ledger[id] == Held(q)))
  }

  predicate RealDistinct(issued: seq<int>)
  {
    forall i, j | 0 <= i < j < |issued| && issued[i] > BASE :: issued[i] != issued[j]
  }

  ghost predicate Inv(w: World)
  {
    && w.counter >= BASE
    && (forall pid | pid in w.procs :: LocalOk(w.procs[pid], w.counter))
    && (forall id: int | id in w.issued :: BASE < id <= w.counter || -BLOCK <= id <= -1)
    && LedgerOk(w)
    && RealDistinct(w.issued)
  }

  lemma RestartKeepsInv(w: World, pid: Pid)
    requires Inv(w)
    ensures Inv(Apply(w, Restart(pid)))
  {
  }

  /** The ids left after a call are those held before, or a new answered block, less the one handed out. */
  lemma CallMoves(p: Local, counter: nat, fate: Fate)
    requires LocalOk(p, counter) && counter >= BASE
    ensures var a := Next(p, counter, fate);
      && LocalOk(a.local, a.counter) && counter <= a.counter
      && (BASE < a.id <= a.counter || -BLOCK <= a.id <= -1)
      && (a.id > BASE ==> Holds(p, a.id) || (fate.Answered? && counter < a.id <= a.counter))
      && (forall id ::
            Holds(a.local, id) <==> (Holds(p, id) || (fate.Answered? && counter < id <= a.counter)) && id != a.id)
  {
  }

  lemma CoverEntry(ledger: map<nat, Place>, from: nat, to: int, place: Place, id: nat)
    requires forall i | i in ledger :: i <= from
    ensures var c := Cover(ledger, from, to, place);
      && (id in c <==> id in ledger || from < id <= to)
      && (id in c ==> c[id] == if id in ledger then ledger[id] else place)
  {
    assert Between(from, id, to) <==> from < id <= to;
  }

  lemma CallKeepsLedgerAt(w: World, pid: Pid, fate: Fate, id: nat)
    requires Inv(w)
    ensures var t := Apply(w, Call(pid, fate));
      && (id in t.ledger <==> BASE < id <= t.counter)
      && (id in t.ledger ==> (t.ledger[id].Issued? <==> id in t.issued))
      && (forall q :: (q in t.procs && Holds(t.procs[q], id)) <==> (id in t.ledger && t.ledger[id] == Held(q)))
  {
    var p := LocalOf(w, pid);
    var a := Next(p, w.counter, fate);
    var t := Apply(w, Call(pid, fate));
    CallMoves(p, w.counter, fate);
    CoverEntry(w.ledger, w.counter, a.counter, PlaceOf(pid, fate), id);
    var cover := Cover(w.ledger, w.counter, a.counter, PlaceOf(pid, fate));
    assert t.ledger == if a.id > BASE then cover[a.id := Issued] else cover;
    assert id in t.issued <==> id in w.issued || id == a.id;
    assert Holds(a.local, id) <==> (Holds(p, id) || (fate.Answered? && w.counter < id <= a.counter)) && id != a.id;
    assert Holds(p, id) <==> id in w.ledger && w.ledger[id] == Held(pid);
  }

  lemma CallKeepsLedger(w: World, pid: Pid, fate: Fate)
    requires Inv(w)
    ensures LedgerOk(Apply(w, Call(pid, fate)))
  {
    forall id: nat { CallKeepsLedgerAt(w, pid, fate, id); }
  }

  lemma CallKeepsInv(w: World, pid: Pid, fate: Fate)
    requires Inv(w)
    ensures Inv(Apply(w, Call(pid, fate)))
  {
    var a := Next(LocalOf(w, pid), w.counter, fate);
    CallMoves(LocalOf(w, pid), w.counter, fate);
    CallKeepsLedger(w, pid, fate);
    assert a.id > BASE ==> a.id !in w.issued;
  }

  lemma {:induction false} RunKeepsInv(w: World, steps: seq<Step>)
    requires Inv(w)
    ensures Inv(Run(w, steps))
    decreases |steps|
  {
    if steps != [] {
      match steps[0] {
        case Call(pid, fate) => CallKeepsInv(w, pid, fate);
        case Restart(pid) => RestartKeepsInv(w, pid);
      }
      RunKeepsInv(Apply(w, steps[0]), steps[1..]);
    }
  }

  // ---- Uniqueness ----

  predicate Distinct(issued: seq<int>)
  {
    forall i, j | 0 <= i < j < |issued| :: issued[i] != issued[j]
  }

  /** What failed reservations leave behind: the ids -10, -9, ... handed out from a block that ends in -1. */
  ghost predicate FailuresOk(w: World)
  {
    && (w.failed == 0 ==> forall id | id in w.issued :: id > BASE)
    && (w.failed == 0 ==> forall pid | pid in w.procs :: w.procs[pid].last != -1)
    && (w.failed == 1 ==> -BLOCK in w.issued && Distinct(w.issued))
    && (w.failed == 1 ==> forall a, b | a in w.procs && b in w.procs && w.procs[a].last == -1
        && w.procs[b].last == -1 :: a == b)
    && (w.failed == 1 ==> forall pid, id | pid in w.procs && w.procs[pid].last == -1 && id in w.issued && id < 0 ::
        id <= w.procs[pid].next)
    && (w.failed >= 2 ==> !Distinct(w.issued))
  }

  lemma AllRealDistinct(issued: seq<int>)
    requires RealDistinct(issued) && forall id | id in issued :: id > BASE
    ensures Distinct(issued)
  {
    assert forall i | 0 <= i < |issued| :: issued[i] in issued;
  }

  lemma Appended(issued: seq<int>, id: int)
    ensures var t := issued + [id];
      && (forall x :: x in t <==> x in issued || x == id)
      && (Distinct(t) <==> Distinct(issued) && id !in issued)
  {
    var t := issued + [id];
    assert t[|issued|] == id && forall i | 0 <= i < |issued| :: t[i] == issued[i];
    if id in issued {
      var i :| 0 <= i < |issued| && issued[i] == id;
      assert t[i] == t[|issued|];
    }
    if Distinct(t) {
      forall i, j | 0 <= i < j < |issued| ensures issued[i] != issued[j] { assert t[i] != t[j]; }
    }
  }

  /** A call hands out an id that is new, unless its reservation failed and an earlier one had failed too. */
  lemma CallIsNew(w: World, pid: Pid, fate: Fate)
    requires Inv(w) && FailuresOk(w) && w.failed <= 1
    ensures var p := LocalOf(w, pid); var id := Next(p, w.counter, fate).id;
      && (id in w.issued <==> w.failed == 1 && Exhausted(p) && !fate.Answered?)
      && (p.last == -1 && !Exhausted(p) ==> forall x | x in w.issued && x < 0 :: x < id)
  {
    var p := LocalOf(w, pid);
    CallMoves(p, w.counter, fate);
    var a := Next(p, w.counter, fate);
    assert a.id > BASE ==> a.id !in w.issued;
    if a.id < 0 && !Exhausted(p) {
      assert p.last == -1 && pid in w.procs && a.id == p.next + 1;
      assert forall x | x in w.issued && x < 0 :: x <= p.next;
    }
  }

  lemma CallKeepsFailures(w: World, pid: Pid, fate: Fate)
    requires Inv(w) && FailuresOk(w)
    ensures FailuresOk(Apply(w, Call(pid, fate)))
  {
    var p := LocalOf(w, pid);
    var a := Next(p, w.counter, fate);
    CallMoves(p, w.counter, fate);
    Appended(w.issued, a.id);
    if w.failed == 0 { AllRealDistinct(w.issued); }
    if w.failed <= 1 { CallIsNew(w, pid, fate); }
  }

  lemma {:induction false} RunKeepsFailures(w: World, steps: seq<Step>)
    requires Inv(w) && FailuresOk(w)
    ensures FailuresOk(Run(w, steps))
    decreases |steps|
  {
    if steps != [] {
      match steps[0] {
        case Call(pid, fate) => CallKeepsInv(w, pid, fate); CallKeepsFailures(w, pid, fate);
        case Restart(pid) => RestartKeepsInv(w, pid);
      }
      RunKeepsFailures(Apply(w, steps[0]), steps[1..]);
    }
  }

  /** Over all runs, with any number of processes, restarts and failures: no id above the base is handed out
      twice; and no id at all is, exactly if at most one reservation failed. */
  lemma NoIdTwice(steps: seq<Step>)
    ensures var w := Run(Init(), steps);
      RealDistinct(w.issued) && (Distinct(w.issued) <==> w.failed <= 1)
          && (w.failed == 0 ==> forall id | id in w.issued :: id > BASE)
  {
    RunKeepsInv(Init(), steps);
    RunKeepsFailures(Init(), steps);
    if Run(Init(), steps).failed == 0 { AllRealDistinct(Run(Init(), steps).issued); }
  }

  // ---- Conservation ----

  function RealCount(issued: seq<int>): nat
  {
    if issued == [] then 0 else RealCount(issued[..|issued| - 1]) + if issued[|issued| - 1] > BASE then 1 else 0
  }

  function RealIds(issued: seq<int>): set<nat>
  {
    set id: nat | id in issued && id > BASE
  }

  lemma RealIdsGrow(rest: seq<int>, last: int)
    ensures RealIds(rest + [last]) == RealIds(rest) + if last > BASE then {last} else {}
  {
    var whole, part := RealIds(rest + [last]), RealIds(rest);
    assert forall id :: id in rest + [last] <==> id in rest || id == last;
    if last > BASE {
      assert whole == part + {last};
    } else {
      assert whole == part;
    }
  }

  lemma {:induction false} RealCountIsSize(issued: seq<int>)
    requires RealDistinct(issued)
    ensures RealCount(issued) == |RealIds(issued)|
  {
    if issued == [] {
      assert RealIds(issued) == {};
    } else {
      var rest, last := issued[..|issued| - 1], issued[|issued| - 1];
      assert issued == rest + [last];
      RealIdsGrow(rest, last);
      RealCountIsSize(rest);
      if last > BASE { LastIsNew(rest, last); }
    }
  }

  lemma LastIsNew(rest: seq<int>, last: int)
    requires RealDistinct(rest + [last]) && last > BASE
    ensures last !in rest
  {
    forall i | 0 <= i < |rest| ensures rest[i] != last {
      assert (rest + [last])[i] == rest[i] && (rest + [last])[|rest|] == last;
    }
  }

  lemma {:induction false} RangeSize(ids: set<nat>, a: nat, b: nat)
    requires a <= b && forall id: nat :: id in ids <==> a < id <= b
    ensures |ids| == b - a
    decreases b - a
  {
    if a < b {
      RangeSize(ids - {b}, a, b - 1);
      assert ids == ids - {b} + {b};
    } else {
      assert ids == {};
    }
  }

  function PlacedIn(w: World, held: bool): set<nat>
  {
    set id | id in w.ledger && w.ledger[id] != Issued && w.ledger[id].Held? == held
  }

  lemma PlacesPartition(w: World, handed: set<nat>)
    requires Inv(w) && handed == RealIds(w.issued)
    ensures forall id: nat :: id in w.ledger <==> id in handed || id in PlacedIn(w, true) || id in PlacedIn(w, false)
    ensures handed !! PlacedIn(w, true) && handed !! PlacedIn(w, false) && PlacedIn(w, true) !! PlacedIn(w, false)
  {
    forall id: nat ensures id in handed <==> id in w.ledger && w.ledger[id] == Issued {}
  }

  lemma ThreeParts(whole: set<nat>, a: set<nat>, b: set<nat>, c: set<nat>)
    requires forall x: nat :: x in whole <==> x in a || x in b || x in c
    requires a !! b && a !! c && b !! c
    ensures |whole| == |a| + |b| + |c|
  {
    assert whole == (a + b) + c;
  }

  lemma PlacesAddUp(w: World)
    requires Inv(w)
    ensures w.counter - BASE == RealCount(w.issued) + |PlacedIn(w, true)| + |PlacedIn(w, false)|
  {
    RealCountIsSize(w.issued);
    PlacesPartition(w, RealIds(w.issued));
    ThreeParts(w.ledger.Keys, RealIds(w.issued), PlacedIn(w, true), PlacedIn(w, false));
    RangeSize(w.ledger.Keys, BASE, w.counter);
  }

  /** The counter's advance is always the ids handed out, plus those processes still hold, plus those lost to
      restarts and to unanswered reservations; and what a process holds is the rest of its block. */
  lemma Conservation(steps: seq<Step>)
    ensures var w := Run(Init(), steps);
      && w.counter - BASE == RealCount(w.issued) + |PlacedIn(w, true)| + |PlacedIn(w, false)|
      && (w.counter - BASE) % BLOCK == 0
      && (forall id: nat :: id in PlacedIn(w, true) <==> exists pid :: pid in w.procs && Holds(w.procs[pid], id))
  {
    RunKeepsInv(Init(), steps);
    var w := Run(Init(), steps);
    PlacesAddUp(w);
    WholeBlocks(Init(), steps);
    HeldIsHeld(w);
  }

  lemma HeldIsHeld(w: World)
    requires Inv(w)
    ensures forall id: nat :: id in PlacedIn(w, true) <==> exists pid :: pid in w.procs && Holds(w.procs[pid], id)
  {
    forall id: nat ensures id in PlacedIn(w, true) <==> exists pid :: pid in w.procs && Holds(w.procs[pid], id) {
      if id in PlacedIn(w, true) { assert Holds(w.procs[w.ledger[id].holder], id); }
    }
  }

  lemma {:induction false} WholeBlocks(w: World, steps: seq<Step>)
    requires (w.counter - BASE) % BLOCK == 0
    ensures (Run(w, steps).counter - BASE) % BLOCK == 0
    decreases |steps|
  {
    if steps != [] { WholeBlocks(Apply(w, steps[0]), steps[1..]); }
  }

  // ---- Order ----

  predicate Increasing(s: seq<int>)
  {
    forall i | 0 <= i < |s| - 1 :: s[i] < s[i + 1]
  }

  /** The ids pid was given since its last restart, `log` being those before `steps`. */
  function Log(w: World, steps: seq<Step>, pid: Pid, log: seq<int>): seq<int>
    decreases |steps|
  {
    if steps == [] then log
    else
      var log' := if steps[0] == Restart(pid) then []
                  else if steps[0].Call? && steps[0].pid == pid
                  then log + [Next(LocalOf(w, pid), w.counter, steps[0].fate).id]
                  else log;
      Log(Apply(w, steps[0]), steps[1..], pid, log')
  }

  /** A reservation of pid failed since its last restart, after an id had been handed out. */
  predicate FailedLate(w: World, steps: seq<Step>, pid: Pid, started: bool, late: bool)
    decreases |steps|
  {
    if steps == [] then late
    else if steps[0] == Restart(pid) then FailedLate(Apply(w, steps[0]), steps[1..], pid, false, false)
    else if steps[0].Call? && steps[0].pid == pid then
      FailedLate(Apply(w, steps[0]), steps[1..], pid, true, late
          || (started && Exhausted(LocalOf(w, pid)) && !steps[0].fate.Answered?))
    else FailedLate(Apply(w, steps[0]), steps[1..], pid, started, late)
  }

  lemma {:induction false} LogOrder(w: World, steps: seq<Step>, pid: Pid, log: seq<int>)
    requires Inv(w)
    requires log != [] ==> log[|log| - 1] == LocalOf(w, pid).next && LocalOf(w, pid) != Fresh()
    ensures Increasing(Log(w, steps, pid, log)) <==> !FailedLate(w, steps, pid, log != [], !Increasing(log))
    decreases |steps|
  {
    if steps != [] {
      var w1 := Apply(w, steps[0]);
      match steps[0] {
        case Restart(q) =>
          RestartKeepsInv(w, q);
          LogOrder(w1, steps[1..], pid, if q == pid then [] else log);
        case Call(q, fate) =>
          CallKeepsInv(w, q, fate);
          if q == pid {
            var id := Next(LocalOf(w, pid), w.counter, fate).id;
            var log1 := log + [id];
            assert Increasing(log1) <==> Increasing(log) && (log != [] ==> log[|log| - 1] < id) by {
              assert forall i | 0 <= i < |log| :: log1[i] == log[i];
              if log != [] { assert log1[|log| - 1] == log[|log| - 1] && log1[|log|] == id; }
            }
            LogOrder(w1, steps[1..], pid, log1);
          } else {
            LogOrder(w1, steps[1..], pid, log);
          }
      }
    }
  }

  /** Between restarts the ids of a process strictly increase, exactly if no reservation of its failed after
      its first id. */
  lemma IdsIncrease(steps: seq<Step>, pid: Pid)
    ensures Increasing(Log(Init(), steps, pid, [])) <==> !FailedLate(Init(), steps, pid, false, false)
  {
    LogOrder(Init(), steps, pid, []);
  }
}
