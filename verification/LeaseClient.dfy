/** The client side of the two lock implementations, statement by statement, against the server of module
    Lease.  What other clients and the clock do while a call sleeps or runs its body is a parameter. */
module LeaseClient {
  import opened Options
  import opened Lease

  // ---- The server's commands and scripts ----

  class RedisServer {
    var now: nat
    var entry: Option<Entry>

    function State(): Server
      reads this
    {
      Server(now, entry)
    }

    constructor ()
      ensures State() == Server(0, None)
    {
      now, entry := 0, None;
    }

    method Get() returns (owner: Option<Id>)
      ensures owner == Holder(State())
    {
      owner := None;
      if entry.Some? && Live(entry.value.deadline, now) { owner := Some(entry.value.owner); }
    }

    method SetPx(id: Id, ttl: nat) returns (reply: Reply)
      modifies this
      ensures now == old(now)
      ensures
        if ttl == 0 then reply == Error && entry == old(entry)
        else reply == Ok && entry == Some(Entry(id, Some(now + ttl)))
    {
      if ttl == 0 { return Error; }
      entry := Some(Entry(id, Some(now + ttl)));
      reply := Ok;
    }

    method SetNxPx(id: Id, ttl: nat) returns (reply: Reply)
      modifies this
      ensures now == old(now)
      ensures reply == if ttl == 0 then Error else if old(Holder(State())) == None then Ok else Nil
      ensures entry == if reply.Ok? then Some(Entry(id, Some(now + ttl))) else old(entry)
    {
      if ttl == 0 { return Error; }
      var owner := Get();
      if owner.Some? { return Nil; }
      entry := Some(Entry(id, Some(now + ttl)));
      reply := Ok;
    }

    method EvalLock(id: Id, ttl: nat) returns (reply: Reply)
      modifies this
      ensures (State(), reply) == LockScript(old(State()), id, ttl)
    {
      var owner := Get();
      if owner == Some(id) {
        reply := SetPx(id, ttl);
      } else {
        reply := SetNxPx(id, ttl);
      }
    }

    method EvalDel(id: Id) returns (deleted: bool)
      modifies this
      ensures (State(), deleted) == DelScript(old(State()), id)
    {
      var owner := Get();
      deleted := owner == Some(id);
      if deleted { entry := None; }
    }

    method SetNX(id: Id, ttl: nat) returns (ok: bool)
      modifies this
      ensures (State(), ok) == SetNx(old(State()), id, ttl)
    {
      var owner := Get();
      ok := owner == None;
      if ok { entry := Some(Entry(id, if ttl == 0 then None else Some(now + ttl))); }
    }

    /** The rest of the world. */
    method Elapse(events: seq<Event>)
      modifies this
      ensures State() == RunEvents(old(State()), events)
    {
      var i := 0;
      while i < |events|
        invariant 0 <= i <= |events|
        invariant RunEvents(State(), events[i..]) == RunEvents(old(State()), events)
      {
        assert events[i..][1..] == events[i + 1..];
        match events[i] {
          case Pass(ms) => now := now + ms;
          case OtherLock(id, ttl) => var _ := EvalLock(id, ttl);
          case OtherSetNx(id, ttl) => var _ := SetNX(id, ttl);
          case OtherDel(id) => var _ := EvalDel(id);
        }
        i := i + 1;
      }
    }
  }

  datatype Event = Pass(ms: nat) | OtherLock(id: Id, ttl: nat) | OtherSetNx(id: Id, ttl: nat) | OtherDel(id: Id)

  function RunEvent(s: Server, e: Event): Server
  {
    match e
    case Pass(ms) => s.(now := s.now + ms)
    case OtherLock(id, ttl) => LockScript(s, id, ttl).0
    case OtherSetNx(id, ttl) => SetNx(s, id, ttl).0
    case OtherDel(id) => DelScript(s, id).0
  }

  function RunEvents(s: Server, events: seq<Event>): Server
    decreases |events|
  {
    if events == [] then s else RunEvents(RunEvent(s, events[0]), events[1..])
  }

  // ---- One attempt, and the retry loop ----

  /** What the network does to an attempt. */
  datatype Fate = Answered | ReplyLost | RequestLost

  /** One turn of the retry loop: an attempt, then a sleep. */
  datatype Round = Round(fate: Fate, sleep: seq<Event>)

  function Attempt(s: Server, id: Id, ttl: nat, fate: Fate): (Server, bool)
  {
    match fate
    case Answered => (LockScript(s, id, ttl).0, LockScript(s, id, ttl).1.Ok?)
    case ReplyLost => (LockScript(s, id, ttl).0, false)
    case RequestLost => (s, false)
  }

  /** The server at the start of round i, if the loop got there. */
  function Before(s: Server, id: Id, ttl: nat, rounds: seq<Round>, i: nat): Server
    requires i <= |rounds|
  {
    if i == 0 then s
    else RunEvents(Attempt(Before(s, id, ttl, rounds, i - 1), id, ttl, rounds[i - 1].fate).0, rounds[i - 1].sleep)
  }

  predicate SucceedsAt(s: Server, id: Id, ttl: nat, rounds: seq<Round>, i: nat)
    requires i < |rounds|
  {
    var server := Before(s, id, ttl, rounds, i);
    ttl > 0 && rounds[i].fate.Answered? && (Holder(server) == None || Holder(server) == Some(id))
  }

  function AfterDelete(s: Server, id: Id, fate: Fate): Server
  {
    if fate.RequestLost? then s else DelScript(s, id).0
  }

  class RedisLock {
    const redis: RedisServer
    const id: Id

    constructor (redis: RedisServer, id: Id)
      ensures this.redis == redis && this.id == id
    {
      this.redis, this.id := redis, id;
    }

    method TryLock(ttl: nat, fate: Fate) returns (ok: bool)
      modifies redis
      ensures (redis.State(), ok) == Attempt(old(redis.State()), id, ttl, fate)
    {
      ok := false;
      if !fate.RequestLost? {
        var reply := redis.EvalLock(id, ttl);
        ok := fate.Answered? && reply.Ok?;
      }
    }

    /** `rounds` ends where the context is cancelled. */
    method LockRetry(ttl: nat, rounds: seq<Round>) returns (cancelled: bool, ghost at: nat)
      modifies redis
      ensures at <= |rounds| && forall i: nat | i < at :: !SucceedsAt(old(redis.State()), id, ttl, rounds, i)
      ensures cancelled <==> at == |rounds|
      ensures !cancelled ==> SucceedsAt(old(redis.State()), id, ttl, rounds, at)
      ensures !cancelled ==>
        redis.State() ==
        Before(old(redis.State()), id, ttl, rounds, at).(entry := Some(Entry(id, Some(redis.now + ttl))))
      ensures cancelled ==> redis.State() == Before(old(redis.State()), id, ttl, rounds, at)
    {
      var i := 0;
      at := 0;
      while i < |rounds|
        invariant 0 <= i <= |rounds| && at == i
        invariant redis.State() == Before(old(redis.State()), id, ttl, rounds, i)
        invariant forall j: nat | j < i :: !SucceedsAt(old(redis.State()), id, ttl, rounds, j)
      {
        var ok := TryLock(ttl, rounds[i].fate);
        if ok { return false, at; }
        redis.Elapse(rounds[i].sleep);
        i, at := i + 1, at + 1;
      }
      cancelled := true;
    }

    /** Whatever becomes of the answer is ignored. */
    method Unlock(fate: Fate)
      modifies redis
      ensures redis.State() == AfterDelete(old(redis.State()), id, fate)
    {
      if !fate.RequestLost? { var _ := redis.EvalDel(id); }
    }
  }

  // ---- The second implementation: SETNX, a body, a deferred delete ----

  function AfterSetNx(s: Server, id: Id, ttl: nat, fate: Fate): Server
  {
    if fate.RequestLost? then s else SetNx(s, id, ttl).0
  }

  function AfterLockAndRun(s: Server, id: Id, ttl: nat, ask: Fate, body: seq<Event>, release: Fate): Server
  {
    var asked := AfterSetNx(s, id, ttl, ask);
    var ran := if ask.Answered? && SetNx(s, id, ttl).1 then RunEvents(asked, body) else asked;
    AfterDelete(ran, id, release)
  }

  method LockAndRun(redis: RedisServer, id: Id, ttl: nat, ask: Fate, body: seq<Event>, bodyFails: bool, release: Fate)
      returns (locked: bool, err: bool)
    modifies redis
    ensures locked == (ask.Answered? && old(SetNx(redis.State(), id, ttl).1))
    ensures err == (!ask.Answered? || (locked && bodyFails))
    ensures redis.State() == AfterLockAndRun(old(redis.State()), id, ttl, ask, body, release)
  {
    locked, err := false, !ask.Answered?;
    if !ask.RequestLost? {
      var ok := redis.SetNX(id, ttl);
      locked := ok && ask.Answered?;
    }
    if locked {
      redis.Elapse(body);
      err := bodyFails;
    }
    if !release.RequestLost? { var _ := redis.EvalDel(id); }
  }

  // ---- Re-entrance makes a lost answer harmless ----

  predicate ByOthers(events: seq<Event>, id: Id)
  {
    forall e | e in events :: e.Pass? || e.id != id
  }

  function Elapsed(events: seq<Event>): nat
  {
    if events == [] then 0 else (if events[0].Pass? then events[0].ms else 0) + Elapsed(events[1..])
  }

  lemma {:induction false} HeldThrough(s: Server, id: Id, deadline: nat, events: seq<Event>)
    requires s.entry == Some(Entry(id, Some(deadline))) && ByOthers(events, id) && s.now + Elapsed(events) < deadline
    ensures RunEvents(s, events) == s.(now := s.now + Elapsed(events))
    decreases |events|
  {
    if events != [] {
      assert events[0] in events;
      HeldThrough(RunEvent(s, events[0]), id, deadline, events[1..]);
    }
  }

  /** The server granted the lock but the answer was lost: the next answered attempt within the lease succeeds. */
  lemma LostReplyRecovers(s: Server, id: Id, ttl: nat, rounds: seq<Round>, i: nat)
    requires i + 1 < |rounds| && ttl > 0
    requires rounds[i].fate.ReplyLost? && rounds[i + 1].fate.Answered?
    requires Holder(Before(s, id, ttl, rounds, i)) == None || Holder(Before(s, id, ttl, rounds, i)) == Some(id)
    requires ByOthers(rounds[i].sleep, id) && Elapsed(rounds[i].sleep) < ttl
    ensures SucceedsAt(s, id, ttl, rounds, i + 1)
  {
    var server := Before(s, id, ttl, rounds, i);
    HeldThrough(LockScript(server, id, ttl).0, id, server.now + ttl, rounds[i].sleep);
  }

  // ---- What a lost delete leaves ----

  lemma {:induction false} NotHeldStays(s: Server, id: Id, events: seq<Event>)
    requires Holder(s) != Some(id) && ByOthers(events, id)
    ensures Holder(RunEvents(s, events)) != Some(id)
    decreases |events|
  {
    if events != [] {
      assert events[0] in events;
      NotHeldStays(RunEvent(s, events[0]), id, events[1..]);
    }
  }

  /** A lease that others cannot touch is held exactly as long as it lasts. */
  lemma {:induction false} HolderThrough(s: Server, id: Id, deadline: Option<nat>, events: seq<Event>)
    requires s.entry == Some(Entry(id, deadline)) && Live(deadline, s.now) && ByOthers(events, id)
    ensures Holder(RunEvents(s, events)) == Some(id) <==> Live(deadline, s.now + Elapsed(events))
    decreases |events|
  {
    if events != [] {
      assert events[0] in events;
      var next := RunEvent(s, events[0]);
      if Live(deadline, next.now) {
        HolderThrough(next, id, deadline, events[1..]);
      } else {
        NotHeldStays(next, id, events[1..]);
      }
    }
  }

  /** After the call the value holds the key if and only if the delete never reached the server, and the value either
      held it before, or was granted it unanswered, or was granted it for longer than the body took. */
  lemma KeyStaysIff(s: Server, id: Id, ttl: nat, ask: Fate, body: seq<Event>, release: Fate)
    requires ByOthers(body, id)
    ensures Holder(AfterLockAndRun(s, id, ttl, ask, body, release)) == Some(id) <==>
      release.RequestLost?
      && (Holder(s) == Some(id)
          || (Holder(s) == None && ask.ReplyLost?)
          || (Holder(s) == None && ask.Answered? && (ttl == 0 || Elapsed(body) < ttl)))
  {
    if Holder(s) == None && ask.Answered? {
      var granted := SetNx(s, id, ttl).0;
      if ttl == 0 || s.now < s.now + ttl { HolderThrough(granted, id, granted.entry.value.deadline, body); }
    }
  }
}
