/** The Redis lease lock.  The two Lua scripts and SETNX are atomic server steps; clients are told apart by
    the random id each lock object carries.  Requests and replies travel over a network that may delay
    them without bound, reorder them or lose them. */
module Lease {
  import opened Options

  type Id = string

  // ---- The server: one key, one clock ----

  /** `deadline == None` is a key without expiry. */
  datatype Entry = Entry(owner: Id, deadline: Option<nat>)

  datatype Server = Server(now: nat, entry: Option<Entry>)

  predicate Live(deadline: Option<nat>, now: nat)
  {
    deadline.None? || now < deadline.value
  }

  function Holder(s: Server): Option<Id>
  {
    if s.entry.Some? && Live(s.entry.value.deadline, s.now) then Some(s.entry.value.owner) else None
  }

  datatype Reply = Ok | Nil | Error

  function After(now: nat, ttl: nat): Option<nat> { Some(now + ttl) }

  /** The lock script: refresh for the holder, SET NX otherwise.  PX 0 is refused by the server. */
  function LockScript(s: Server, id: Id, ttl: nat): (Server, Reply)
  {
    if ttl == 0 then (s, Error)
    else if Holder(s) == Some(id) || Holder(s) == None then (s.(entry := Some(Entry(id, After(s.now, ttl)))), Ok)
    else (s, Nil)
  }

  /** The delete script: only the holder's own id deletes. */
  function DelScript(s: Server, id: Id): (Server, bool)
  {
    if Holder(s) == Some(id) then (s.(entry := None), true) else (s, false)
  }

  /** SETNX of the second lock implementation: no refresh; a zero lease never expires. */
  function SetNx(s: Server, id: Id, ttl: nat): (Server, bool)
  {
    if Holder(s) == None
    then (s.(entry := Some(Entry(id, if ttl == 0 then None else After(s.now, ttl)))), true)
    else (s, false)
  }

  // ---- The whole system ----

  datatype Request =
    | LockReq(id: Id, ttl: nat, sentAt: nat)
    | SetNxReq(id: Id, ttl: nat, sentAt: nat)
    | DelReq(id: Id)

  /** A positive answer on its way to the client, or what the client believes once it has arrived.
      `serial` says which state-changing request of that id the server had executed last. */
  datatype Grant = Grant(id: Id, until: Option<nat>, serial: nat)

  /** `grants` and `serials` are history: for each id the lease it was last granted and has not deleted,
      and how many of its requests took effect. */
  datatype System = System(
    server: Server, pending: multiset<Request>, replies: multiset<Grant>, beliefs: map<Id, Grant>,
    grants: map<Id, Option<nat>>, serials: map<Id, nat>)

  datatype Step =
    | Send(req: Request)
    | Execute(req: Request)
    | Deliver(grant: Grant)
    | Lose(req: Request)
    | LoseReply(grant: Grant)
    | Crash(id: Id)
    | Tick(ms: nat)

  function Init(): System { System(Server(0, None), multiset{}, multiset{}, map[], map[], map[]) }

  function Serial(s: System, id: Id): nat { if id in s.serials then s.serials[id] else 0 }

  function Granted(s: System, server: Server, id: Id, deadline: Option<nat>, until: Option<nat>): System
  {
    var serial := Serial(s, id) + 1;
    s.(server := server, grants := s.grants[id := deadline], serials := s.serials[id := serial],
       replies := s.replies + multiset{Grant(id, until, serial)})
  }

  /** What the client may rely on: the lease counted from when it asked, not from when the server answered. */
  function SafeUntil(req: Request): Option<nat>
    requires !req.DelReq?
  {
    if req.SetNxReq? && req.ttl == 0 then None else After(req.sentAt, req.ttl)
  }

  function ExecuteRequest(s: System, req: Request): System
  {
    match req
    case LockReq(id, ttl, _) =>
      var (server, reply) := LockScript(s.server, id, ttl);
      if reply.Ok? then Granted(s, server, id, server.entry.value.deadline, SafeUntil(req)) else s
    case SetNxReq(id, ttl, _) =>
      var (server, ok) := SetNx(s.server, id, ttl);
      if ok then Granted(s, server, id, server.entry.value.deadline, SafeUntil(req)) else s
    case DelReq(id) =>
      var (server, deleted) := DelScript(s.server, id);
      if deleted
      then s.(server := server, grants := s.grants - {id}, serials := s.serials[id := Serial(s, id) + 1])
      else s
  }

  /** Every step but the server's own. */
  function Move(s: System, step: Step): System
    requires !step.Execute?
  {
    match step
    case Send(req) =>
      if req.DelReq? then s.(pending := s.pending + multiset{req}, beliefs := s.beliefs - {req.id})
      else if req.sentAt == s.server.now then s.(pending := s.pending + multiset{req})
      else s
    case Deliver(g) =>
      if g in s.replies then s.(replies := s.replies - multiset{g}, beliefs := s.beliefs[g.id := g]) else s
    case Lose(req) => s.(pending := s.pending - multiset{req})
    case LoseReply(g) => s.(replies := s.replies - multiset{g})
    case Crash(id) => s.(beliefs := s.beliefs - {id})
    case Tick(ms) => s.(server := s.server.(now := s.server.now + ms))
  }

  /** A step that is not possible changes nothing. */
  function Apply(s: System, step: Step): System
  {
    if !step.Execute? then Move(s, step)
    else if step.req in s.pending then ExecuteRequest(s.(pending := s.pending - multiset{step.req}), step.req)
    else s
  }

  function Run(s: System, steps: seq<Step>): System
    decreases |steps|
  {
    if steps == [] then s else Run(Apply(s, steps[0]), steps[1..])
  }

  // ---- The invariant ----

  predicate NoLater(a: Option<nat>, b: Option<nat>)
  {
    b.None? || (a.Some? && a.value <= b.value)
  }

  /** An answer that is still the last word about its id is backed by a lease at least as long. */
  predicate Backed(s: System, g: Grant)
  {
    && g.serial <= Serial(s, g.id)
    && (g.serial == Serial(s, g.id) ==> g.id in s.grants && NoLater(g.until, s.grants[g.id]))
  }

  ghost predicate Inv(s: System)
  {
    && (forall id | id in s.grants && Live(s.grants[id], s.server.now) ::
          s.server.entry == Some(Entry(id, s.grants[id])))
    && (forall id :: Holder(s.server) == Some(id) ==> id in s.grants && s.server.entry == Some(Entry(id, s.grants[id])))
    && (forall g | g in s.replies :: Backed(s, g))
    && (forall id | id in s.beliefs :: s.beliefs[id].id == id && Backed(s, s.beliefs[id]))
    && (forall r | r in s.pending && !r.DelReq? :: r.sentAt <= s.server.now)
  }

  /** A change that leaves the key, the history and the clock's direction alone. */
  predicate Quiet(s: System, t: System)
  {
    && t.server.entry == s.server.entry && s.server.now <= t.server.now
    && t.grants == s.grants && t.serials == s.serials
    && (forall g | g in t.replies :: g in s.replies)
    && (forall id | id in t.beliefs ::
          (id in s.beliefs && t.beliefs[id] == s.beliefs[id]) || (t.beliefs[id] in s.replies && t.beliefs[id].id == id))
    && (forall r | r in t.pending && !r.DelReq? :: r in s.pending || r.sentAt <= s.server.now)
  }

  lemma QuietKeepsInv(s: System, t: System)
    requires Inv(s) && Quiet(s, t)
    ensures Inv(t)
  {
    forall g | g in t.replies ensures Backed(t, g) { assert Backed(s, g); }
    forall id | id in t.beliefs ensures t.beliefs[id].id == id && Backed(t, t.beliefs[id]) {
      assert Backed(s, t.beliefs[id]);
    }
  }

  lemma SendIsQuiet(s: System, req: Request)
    ensures Quiet(s, Move(s, Send(req)))
  {
    forall r | r in s.pending + multiset{req} ensures r in s.pending || r == req {}
  }

  lemma DeliverIsQuiet(s: System, g: Grant)
    ensures Quiet(s, Move(s, Deliver(g)))
  {
    var t := Move(s, Deliver(g));
    if g in s.replies { DeliveredReplies(s, g); }
    forall h | h in t.replies ensures h in s.replies {}
  }

  lemma DeliveredReplies(s: System, g: Grant)
    ensures forall h | h in s.replies - multiset{g} :: h in s.replies
  {
  }

  lemma LossIsQuiet(s: System, step: Step)
    requires step.Lose? || step.LoseReply? || step.Crash? || step.Tick?
    ensures Quiet(s, Move(s, step))
  {
  }

  lemma MoveIsQuiet(s: System, step: Step)
    requires !step.Execute?
    ensures Quiet(s, Move(s, step))
  {
    match step
    case Send(req) => SendIsQuiet(s, req);
    case Deliver(g) => DeliverIsQuiet(s, g);
    case _ => LossIsQuiet(s, step);
  }

  lemma OnlyExecuteTouchesTheKey(s: System, step: Step)
    requires step.Execute? ==> step.req !in s.pending
    ensures Quiet(s, Apply(s, step))
  {
    if !step.Execute? { MoveIsQuiet(s, step); }
  }

  lemma TakenIsQuiet(s: System, req: Request)
    ensures Quiet(s, s.(pending := s.pending - multiset{req}))
  {
  }

  lemma GrantKeepsInv(s: System, id: Id, deadline: Option<nat>, until: Option<nat>)
    requires Inv(s) && NoLater(until, deadline) && (Holder(s.server) == None || Holder(s.server) == Some(id))
    ensures Inv(Granted(s, s.server.(entry := Some(Entry(id, deadline))), id, deadline, until))
  {
    var t := Granted(s, s.server.(entry := Some(Entry(id, deadline))), id, deadline, until);
    forall g | g in t.replies ensures Backed(t, g) { assert g in s.replies ==> Backed(s, g); }
    forall i | i in t.beliefs ensures Backed(t, t.beliefs[i]) { assert Backed(s, t.beliefs[i]); }
    assert forall i | i in s.grants && i != id :: !Live(s.grants[i], s.server.now);
  }

  lemma DeleteKeepsInv(s: System, id: Id)
    requires Inv(s)
    ensures Inv(ExecuteRequest(s, DelReq(id)))
  {
    var t := ExecuteRequest(s, DelReq(id));
    if Holder(s.server) == Some(id) {
      forall g | g in t.replies ensures Backed(t, g) { assert Backed(s, g); }
      forall i | i in t.beliefs ensures Backed(t, t.beliefs[i]) { assert Backed(s, t.beliefs[i]); }
    }
  }

  lemma ExecuteKeepsInv(s: System, req: Request)
    requires Inv(s) && (!req.DelReq? ==> req.sentAt <= s.server.now)
    ensures Inv(ExecuteRequest(s, req))
  {
    match req
    case LockReq(id, ttl, sentAt) =>
      if LockScript(s.server, id, ttl).1.Ok? { GrantKeepsInv(s, id, After(s.server.now, ttl), SafeUntil(req)); }
    case SetNxReq(id, ttl, sentAt) =>
      if SetNx(s.server, id, ttl).1 {
        GrantKeepsInv(s, id, if ttl == 0 then None else After(s.server.now, ttl), SafeUntil(req));
      }
    case DelReq(id) => DeleteKeepsInv(s, id);
  }

  lemma ApplyKeepsInv(s: System, step: Step)
    requires Inv(s)
    ensures Inv(Apply(s, step))
  {
    if step.Execute? && step.req in s.pending {
      var taken := s.(pending := s.pending - multiset{step.req});
      TakenIsQuiet(s, step.req);
      QuietKeepsInv(s, taken);
      ExecuteKeepsInv(taken, step.req);
    } else {
      OnlyExecuteTouchesTheKey(s, step);
      QuietKeepsInv(s, Apply(s, step));
    }
  }

  lemma {:induction false} RunKeepsInv(s: System, steps: seq<Step>)
    requires Inv(s)
    ensures Inv(Run(s, steps))
    decreases |steps|
  {
    if steps != [] {
      ApplyKeepsInv(s, steps[0]);
      RunKeepsInv(Apply(s, steps[0]), steps[1..]);
    }
  }

  // ---- What every run guarantees ----

  /** The id whose lease on the key was granted, not deleted by itself since, and not run out, is the holder,
      and nobody else is. */
  lemma HolderIsTheGrantee(steps: seq<Step>, id: Id)
    ensures var s := Run(Init(), steps);
      Holder(s.server) == Some(id) <==> id in s.grants && Live(s.grants[id], s.server.now)
  {
    RunKeepsInv(Init(), steps);
  }

  lemma AtMostOneLease(steps: seq<Step>, a: Id, b: Id)
    requires var s := Run(Init(), steps);
      a in s.grants && Live(s.grants[a], s.server.now) && b in s.grants && Live(s.grants[b], s.server.now)
    ensures a == b
  {
    HolderIsTheGrantee(steps, a);
    HolderIsTheGrantee(steps, b);
  }

  /** The steps that can end or replace id's lease: its own requests, when they take effect. */
  predicate OwnRequest(step: Step, id: Id)
  {
    step.Execute? && step.req.id == id
  }

  /** A step of someone else keeps an unexpired lease of id in place, and gives id no lease it did not have. */
  lemma OthersStep(s: System, id: Id, step: Step)
    requires Inv(s) && !OwnRequest(step, id)
    ensures var t := Apply(s, step);
      && s.server.now <= t.server.now
      && (Holder(s.server) == Some(id) && Live(s.server.entry.value.deadline, t.server.now) ==>
          t.server.entry == s.server.entry)
      && (Holder(s.server) != Some(id) ==> Holder(t.server) != Some(id))
  {
    if !step.Execute? || step.req !in s.pending {
      OnlyExecuteTouchesTheKey(s, step);
    } else {
      OthersRequest(s.(pending := s.pending - multiset{step.req}), id, step.req);
    }
  }

  lemma OthersRequest(s: System, id: Id, req: Request)
    requires req.id != id
    ensures var t := ExecuteRequest(s, req);
      && t.server.now == s.server.now
      && (Holder(s.server) == Some(id) ==> t.server.entry == s.server.entry)
      && (Holder(s.server) != Some(id) ==> Holder(t.server) != Some(id))
  {
  }

  lemma ClockStep(s: System, step: Step)
    ensures s.server.now <= Apply(s, step).server.now
  {
    if !step.Execute? || step.req !in s.pending {
      OnlyExecuteTouchesTheKey(s, step);
    } else {
      ExecuteKeepsClock(s.(pending := s.pending - multiset{step.req}), step.req);
    }
  }

  lemma ExecuteKeepsClock(s: System, req: Request)
    ensures ExecuteRequest(s, req).server.now == s.server.now
  {
  }

  /** From a successful lock on, whatever other clients, the network and the clock do, the id keeps the key
      until its lease runs out, provided none of its own requests is executed meanwhile. */
  lemma {:induction false} LeaseSurvivesOthers(s: System, id: Id, deadline: Option<nat>, steps: seq<Step>)
    requires Inv(s) && Live(deadline, s.server.now) && s.server.entry == Some(Entry(id, deadline))
    requires forall step | step in steps :: !OwnRequest(step, id)
    ensures Live(deadline, Run(s, steps).server.now) ==> Holder(Run(s, steps).server) == Some(id)
    decreases |steps|
  {
    if steps != [] {
      var s1 := Apply(s, steps[0]);
      ApplyKeepsInv(s, steps[0]);
      assert steps[0] in steps;
      OthersStep(s, id, steps[0]);
      if Live(deadline, s1.server.now) {
        LeaseSurvivesOthers(s1, id, deadline, steps[1..]);
      } else {
        ClockOnlyAdvances(s1, steps[1..]);
      }
    }
  }

  lemma {:induction false} ClockOnlyAdvances(s: System, steps: seq<Step>)
    ensures s.server.now <= Run(s, steps).server.now
    decreases |steps|
  {
    if steps != [] { ClockStep(s, steps[0]); ClockOnlyAdvances(Apply(s, steps[0]), steps[1..]); }
  }

  /** A client that acts on an answer is right to do so until the safe time, unless a later request of its
      own took effect. */
  lemma BeliefIsSound(steps: seq<Step>, id: Id)
    requires var s := Run(Init(), steps);
      id in s.beliefs && Live(s.beliefs[id].until, s.server.now) && s.beliefs[id].serial == Serial(s, id)
    ensures Holder(Run(Init(), steps).server) == Some(id)
  {
    RunKeepsInv(Init(), steps);
  }

  /** Two clients never both act on the key with such answers. */
  lemma TwoBelieversImpossible(steps: seq<Step>, a: Id, b: Id)
    requires var s := Run(Init(), steps);
      forall id | id in {a, b} ::
        id in s.beliefs && Live(s.beliefs[id].until, s.server.now) && s.beliefs[id].serial == Serial(s, id)
    ensures a == b
  {
    BeliefIsSound(steps, a);
    BeliefIsSound(steps, b);
  }

  lemma {:induction false} RunConcat(s: System, xs: seq<Step>, ys: seq<Step>)
    ensures Run(s, xs + ys) == Run(Run(s, xs), ys)
    decreases |xs|
  {
    if xs == [] { assert xs + ys == ys; }
    else {
      assert (xs + ys)[1..] == xs[1..] + ys;
      RunConcat(Apply(s, xs[0]), xs[1..], ys);
    }
  }

  // ---- Deletes ----

  /** What a call of the second implementation's TryLock with a busy key does: SETNX fails, time passes and
      others act, then the deferred delete runs. */
  lemma LosingTryLockDelete(s: System, id: Id, ttl: nat, between: seq<Step>)
    requires Inv(s) && Holder(s.server).Some?
    requires forall step | step in between :: !OwnRequest(step, id)
    ensures !SetNx(s.server, id, ttl).1
    ensures var later := Run(s, between).server;
      (DelScript(later, id).0 == later <==> Holder(later) != Some(id))
      && (DelScript(later, id).1 <==> Holder(later) == Some(id))
    ensures Holder(s.server) != Some(id) ==> DelScript(Run(s, between).server, id).0 == Run(s, between).server
  {
    if Holder(s.server) != Some(id) { NeverHolds(s, id, between); }
  }

  lemma {:induction false} NeverHolds(s: System, id: Id, steps: seq<Step>)
    requires Inv(s) && Holder(s.server) != Some(id)
    requires forall step | step in steps :: !OwnRequest(step, id)
    ensures Holder(Run(s, steps).server) != Some(id)
    decreases |steps|
  {
    if steps != [] {
      assert steps[0] in steps;
      ApplyKeepsInv(s, steps[0]);
      OthersStep(s, id, steps[0]);
      NeverHolds(Apply(s, steps[0]), id, steps[1..]);
    }
  }
}
