/** What a client of the lease lock may conclude from a positive answer, by the calls it makes.  The client knows
    which kinds of requests it sends under an id, and nothing else; the network may still deliver any of them late. */
module LeaseUse {
  import opened Options
  import opened Lease

  // ---- Kinds of requests ----

  datatype Kind = LockFor(ttl: nat) | SetNxFor(ttl: nat) | Unlocking

  function KindOf(req: Request): Kind
  {
    match req
    case LockReq(_, ttl, _) => LockFor(ttl)
    case SetNxReq(_, ttl, _) => SetNxFor(ttl)
    case DelReq(_) => Unlocking
  }

  /** The request of a kind sent at the start of time. */
  function RequestOf(k: Kind, id: Id): Request
  {
    match k
    case LockFor(ttl) => LockReq(id, ttl, 0)
    case SetNxFor(ttl) => SetNxReq(id, ttl, 0)
    case Unlocking => DelReq(id)
  }

  /** The server can answer the request with a lease; a lock for no time is refused. */
  predicate Granting(k: Kind)
  {
    k.SetNxFor? || (k.LockFor? && k.ttl > 0)
  }

  /** The request can replace a lease its id still has. */
  predicate Refreshing(k: Kind)
  {
    k.LockFor? && k.ttl > 0
  }

  /** None is a lease without end. */
  function Length(k: Kind): Option<nat>
    requires Granting(k)
  {
    if k == SetNxFor(0) then None else Some(k.ttl)
  }

  /** What a client sends under an id, in order.  Nothing that can be granted comes after an unlock, and no refresh is
      for less time than any of the leases. */
  predicate SafeUse(script: seq<Kind>)
  {
    && (forall i, j | 0 <= i < j < |script| && script[i].Unlocking? :: !Granting(script[j]))
    && (forall i, j | 0 <= i < |script| && 0 <= j < |script| && Refreshing(script[i]) && Granting(script[j]) ::
          NoLater(Length(script[j]), Length(script[i])))
  }

  /** The request of the id that the step sends, if it is one. */
  function SentBy(step: Step, id: Id): seq<Kind>
  {
    if step.Send? && step.req.id == id then [KindOf(step.req)] else []
  }

  function Sent(steps: seq<Step>, id: Id): seq<Kind>
  {
    if steps == [] then [] else SentBy(steps[0], id) + Sent(steps[1..], id)
  }

  /** The client asks for the key again between the two steps. */
  predicate AsksBetween(steps: seq<Step>, id: Id, i: nat, j: nat)
  {
    exists k | 0 <= i < k < j < |steps| :: steps[k].Send? && steps[k].req.id == id && Granting(KindOf(steps[k].req))
  }

  /** After an unlock the client takes no answer until it has asked again. */
  predicate Attentive(steps: seq<Step>, id: Id)
  {
    forall i, j | 0 <= i < j < |steps| && steps[i] == Send(DelReq(id))
                  && steps[j].Deliver? && steps[j].grant.id == id ::
      AsksBetween(steps, id, i, j)
  }

  /** In the run the client has sent no more than the script, in its order; it may have stopped anywhere. */
  predicate Follows(steps: seq<Step>, id: Id, script: seq<Kind>)
  {
    Sent(steps, id) <= script && Attentive(steps, id)
  }

  /** The client holds a positive answer whose time, counted from its sending the request, is not over. */
  predicate Believes(s: System, id: Id)
  {
    id in s.beliefs && Live(s.beliefs[id].until, s.server.now)
  }

  ghost predicate AlwaysRight(id: Id, script: seq<Kind>)
  {
    forall steps | Follows(steps, id, script) ::
      Believes(Run(Init(), steps), id) ==> Holder(Run(Init(), steps).server) == Some(id)
  }

  // ---- Before the first unlock ----

  predicate SafeKinds(uses: set<Kind>)
  {
    && Unlocking !in uses
    && (forall a, b | a in uses && b in uses && Refreshing(a) && Granting(b) :: NoLater(Length(b), Length(a)))
  }

  predicate OnlySends(steps: seq<Step>, id: Id, uses: set<Kind>)
  {
    forall step | step in steps && step.Send? && step.req.id == id :: KindOf(step.req) in uses
  }

  predicate Covered(s: System, g: Grant)
  {
    g.id in s.grants && NoLater(g.until, s.grants[g.id])
  }

  /** No refresh sent from now on shortens the lease. */
  predicate Lasting(deadline: Option<nat>, now: nat, uses: set<Kind>)
  {
    forall a | a in uses && Refreshing(a) :: deadline.Some? && deadline.value <= now + a.ttl
  }

  ghost predicate UseInv(s: System, id: Id, uses: set<Kind>)
  {
    && (forall r | r in s.pending && r.id == id :: KindOf(r) in uses)
    && (forall g | g in s.replies && g.id == id :: Covered(s, g))
    && (id in s.beliefs ==> s.beliefs[id].id == id && Covered(s, s.beliefs[id]))
    && (id in s.grants ==> Lasting(s.grants[id], s.server.now, uses))
  }

  lemma MovePending(s: System, step: Step, r: Request)
    requires !step.Execute? && r in Move(s, step).pending
    ensures r in s.pending || step == Send(r)
  {
    if step.Send? { assert r in s.pending + multiset{step.req} ==> r in s.pending || r == step.req; }
  }

  lemma MoveKeepsUse(s: System, id: Id, uses: set<Kind>, step: Step)
    requires UseInv(s, id, uses) && !step.Execute? && OnlySends([step], id, uses)
    ensures UseInv(Move(s, step), id, uses)
  {
    var t := Move(s, step);
    MoveIsQuiet(s, step);
    forall r | r in t.pending && r.id == id ensures KindOf(r) in uses {
      MovePending(s, step, r);
      assert step in [step];
    }
    forall g | g in t.replies && g.id == id ensures Covered(t, g) { assert Covered(s, g); }
  }

  /** A grant to the id itself: its new deadline is no earlier than the one before. */
  lemma GrantKeepsUse(s: System, id: Id, uses: set<Kind>, server: Server, deadline: Option<nat>, until: Option<nat>)
    requires UseInv(s, id, uses) && server.now == s.server.now
    requires id in s.grants ==> NoLater(s.grants[id], deadline)
    requires NoLater(until, deadline) && Lasting(deadline, s.server.now, uses)
    ensures UseInv(Granted(s, server, id, deadline, until), id, uses)
  {
    var t := Granted(s, server, id, deadline, until);
    forall g | g in t.replies && g.id == id ensures Covered(t, g) {
      if g in s.replies { assert Covered(s, g); }
    }
  }

  lemma LockKeepsUse(s: System, uses: set<Kind>, req: Request)
    requires Inv(s) && UseInv(s, req.id, uses) && SafeKinds(uses)
    requires req.LockReq? && KindOf(req) in uses && req.sentAt <= s.server.now
    ensures UseInv(ExecuteRequest(s, req), req.id, uses)
  {
    var (server, reply) := LockScript(s.server, req.id, req.ttl);
    if reply.Ok? {
      var k := KindOf(req);
      assert Granting(k) && Refreshing(k);
      var deadline := Some(s.server.now + req.ttl);
      assert Lasting(deadline, s.server.now, uses) by {
        forall a | a in uses && Refreshing(a) ensures req.ttl <= a.ttl { assert NoLater(Length(k), Length(a)); }
      }
      GrantKeepsUse(s, req.id, uses, server, deadline, SafeUntil(req));
    }
  }

  lemma SetNxKeepsUse(s: System, uses: set<Kind>, req: Request)
    requires Inv(s) && UseInv(s, req.id, uses) && SafeKinds(uses)
    requires req.SetNxReq? && KindOf(req) in uses && req.sentAt <= s.server.now
    ensures UseInv(ExecuteRequest(s, req), req.id, uses)
  {
    var (server, ok) := SetNx(s.server, req.id, req.ttl);
    if ok {
      var k := KindOf(req);
      assert Granting(k);
      var deadline := if req.ttl == 0 then None else Some(s.server.now + req.ttl);
      assert Lasting(deadline, s.server.now, uses) by {
        forall a | a in uses && Refreshing(a) ensures req.ttl > 0 && req.ttl <= a.ttl {
          assert NoLater(Length(k), Length(a));
        }
      }
      assert req.id in s.grants ==> !Live(s.grants[req.id], s.server.now);
      GrantKeepsUse(s, req.id, uses, server, deadline, SafeUntil(req));
    }
  }

  lemma OthersKeepUse(s: System, id: Id, uses: set<Kind>, req: Request)
    requires UseInv(s, id, uses) && req.id != id
    ensures UseInv(ExecuteRequest(s, req), id, uses)
  {
    var t := ExecuteRequest(s, req);
    ExecuteKeepsClock(s, req);
    forall g | g in t.replies && g.id == id ensures Covered(t, g) { assert g in s.replies && Covered(s, g); }
  }

  lemma ExecuteKeepsUse(s: System, id: Id, uses: set<Kind>, req: Request)
    requires Inv(s) && UseInv(s, id, uses) && SafeKinds(uses)
    requires req.id == id ==> KindOf(req) in uses
    requires !req.DelReq? ==> req.sentAt <= s.server.now
    ensures UseInv(ExecuteRequest(s, req), id, uses)
  {
    if req.id != id {
      OthersKeepUse(s, id, uses, req);
    } else {
      if req.LockReq? { LockKeepsUse(s, uses, req); } else { SetNxKeepsUse(s, uses, req); }
    }
  }

  lemma ApplyKeepsUse(s: System, id: Id, uses: set<Kind>, step: Step)
    requires Inv(s) && UseInv(s, id, uses) && SafeKinds(uses) && OnlySends([step], id, uses)
    ensures UseInv(Apply(s, step), id, uses)
  {
    if !step.Execute? {
      MoveKeepsUse(s, id, uses, step);
    } else if step.req in s.pending {
      var taken := s.(pending := s.pending - multiset{step.req});
      TakenIsQuiet(s, step.req);
      QuietKeepsInv(s, taken);
      TakingKeepsUse(s, id, uses, step.req);
      ExecuteKeepsUse(taken, id, uses, step.req);
    }
  }

  lemma TakingKeepsUse(s: System, id: Id, uses: set<Kind>, req: Request)
    requires UseInv(s, id, uses)
    ensures UseInv(s.(pending := s.pending - multiset{req}), id, uses)
  {
    var t := s.(pending := s.pending - multiset{req});
    forall r | r in t.pending && r.id == id ensures KindOf(r) in uses { assert r in s.pending; }
    forall g | g in t.replies && g.id == id ensures Covered(t, g) { assert Covered(s, g); }
  }

  lemma {:induction false} RunKeepsUse(s: System, id: Id, uses: set<Kind>, steps: seq<Step>)
    requires Inv(s) && UseInv(s, id, uses) && SafeKinds(uses) && OnlySends(steps, id, uses)
    ensures Inv(Run(s, steps)) && UseInv(Run(s, steps), id, uses)
    decreases |steps|
  {
    if steps != [] {
      assert steps[0] in steps;
      ApplyKeepsInv(s, steps[0]);
      ApplyKeepsUse(s, id, uses, steps[0]);
      RunKeepsUse(Apply(s, steps[0]), id, uses, steps[1..]);
    }
  }

  lemma SentConcat(xs: seq<Step>, ys: seq<Step>, id: Id)
    ensures Sent(xs + ys, id) == Sent(xs, id) + Sent(ys, id)
    decreases |xs|
  {
    if xs == [] { assert xs + ys == ys; }
    else {
      assert (xs + ys)[1..] == xs[1..] + ys;
      SentConcat(xs[1..], ys, id);
    }
  }

  lemma {:induction false} SentHas(steps: seq<Step>, id: Id, k: Kind)
    ensures k in Sent(steps, id) <==>
      exists i | 0 <= i < |steps| :: steps[i].Send? && steps[i].req.id == id && KindOf(steps[i].req) == k
  {
    if steps != [] {
      SentHas(steps[1..], id, k);
      if i :| 0 <= i < |steps| && steps[i].Send? && steps[i].req.id == id && KindOf(steps[i].req) == k && i > 0 {
        assert steps[1..][i - 1] == steps[i];
      }
    }
  }

  lemma RightBeforeUnlock(id: Id, script: seq<Kind>, steps: seq<Step>)
    requires SafeUse(script) && Follows(steps, id, script) && Unlocking !in Sent(steps, id)
    requires Believes(Run(Init(), steps), id)
    ensures Holder(Run(Init(), steps).server) == Some(id)
  {
    var uses := set k | k in Sent(steps, id);
    forall step | step in steps && step.Send? && step.req.id == id ensures KindOf(step.req) in uses {
      SentHas(steps, id, KindOf(step.req));
    }
    RunKeepsUse(Init(), id, uses, steps);
    var s := Run(Init(), steps);
    assert Covered(s, s.beliefs[id]);
    HolderIsTheGrantee(steps, id);
  }

  // ---- After an unlock ----

  lemma {:induction false} NothingTaken(s: System, id: Id, steps: seq<Step>)
    requires id !in s.beliefs
    requires forall step | step in steps && step.Deliver? :: step.grant.id != id
    ensures id !in Run(s, steps).beliefs
    decreases |steps|
  {
    if steps != [] {
      assert steps[0] in steps;
      NothingTaken(Apply(s, steps[0]), id, steps[1..]);
    }
  }

  lemma NothingAskedAfterUnlock(id: Id, script: seq<Kind>, steps: seq<Step>, i: nat, k: nat)
    requires SafeUse(script) && Sent(steps, id) <= script
    requires i < k < |steps| && steps[i] == Send(DelReq(id)) && steps[k].Send? && steps[k].req.id == id
    ensures !Granting(KindOf(steps[k].req))
  {
    var xs, ys := steps[..i + 1], steps[i + 1..];
    assert steps == xs + ys && xs[i] == steps[i] && ys[k - i - 1] == steps[k];
    SentConcat(xs, ys, id);
    SentHas(xs, id, Unlocking);
    SentHas(ys, id, KindOf(steps[k].req));
    var p :| 0 <= p < |Sent(xs, id)| && Sent(xs, id)[p] == Unlocking;
    var q :| 0 <= q < |Sent(ys, id)| && Sent(ys, id)[q] == KindOf(steps[k].req);
    assert script[p] == Unlocking && script[|Sent(xs, id)| + q] == KindOf(steps[k].req);
  }

  lemma NoAnswerAfterUnlock(id: Id, script: seq<Kind>, steps: seq<Step>, i: nat, j: nat)
    requires SafeUse(script) && Follows(steps, id, script) && i < j < |steps|
    requires steps[i] == Send(DelReq(id)) && steps[j].Deliver?
    ensures steps[j].grant.id != id
  {
    if steps[j].grant.id == id {
      assert AsksBetween(steps, id, i, j);
      var k :| i < k < j && steps[k].Send? && steps[k].req.id == id && Granting(KindOf(steps[k].req));
      NothingAskedAfterUnlock(id, script, steps, i, k);
    }
  }

  lemma RunFrom(s: System, steps: seq<Step>, i: nat)
    requires i < |steps|
    ensures Run(s, steps) == Run(Apply(Run(s, steps[..i]), steps[i]), steps[i + 1..])
  {
    var t := Run(s, steps[..i]);
    assert steps == steps[..i] + steps[i..];
    RunConcat(s, steps[..i], steps[i..]);
    RunCons(t, steps[i..]);
    assert steps[i..][0] == steps[i] && steps[i..][1..] == steps[i + 1..];
  }

  lemma NoBeliefAfterUnlock(id: Id, script: seq<Kind>, steps: seq<Step>, i: nat)
    requires SafeUse(script) && Follows(steps, id, script) && i < |steps| && steps[i] == Send(DelReq(id))
    ensures !Believes(Run(Init(), steps), id)
  {
    var rest := steps[i + 1..];
    RunFrom(Init(), steps, i);
    forall step | step in rest && step.Deliver? ensures step.grant.id != id {
      var j :| 0 <= j < |rest| && rest[j] == step;
      NoAnswerAfterUnlock(id, script, steps, i, i + 1 + j);
    }
    UnlockEndsBelief(Run(Init(), steps[..i]), id);
    NothingTaken(Apply(Run(Init(), steps[..i]), steps[i]), id, rest);
  }

  lemma UnlockEndsBelief(s: System, id: Id)
    ensures id !in Apply(s, Send(DelReq(id))).beliefs
  {
  }

  lemma SafeUseIsRight(id: Id, script: seq<Kind>, steps: seq<Step>)
    requires SafeUse(script) && Follows(steps, id, script) && Believes(Run(Init(), steps), id)
    ensures Holder(Run(Init(), steps).server) == Some(id)
  {
    SentHas(steps, id, Unlocking);
    if Unlocking in Sent(steps, id) {
      var i :| 0 <= i < |steps| && steps[i].Send? && steps[i].req.id == id && KindOf(steps[i].req) == Unlocking;
      NoBeliefAfterUnlock(id, script, steps, i);
    } else {
      RightBeforeUnlock(id, script, steps);
    }
  }

  // ---- Unsafe uses ----

  lemma RunCons(s: System, steps: seq<Step>)
    requires steps != []
    ensures Run(s, steps) == Run(Apply(s, steps[0]), steps[1..])
  {
  }

  function SendAll(script: seq<Kind>, id: Id): seq<Step>
  {
    seq(|script|, i requires 0 <= i < |script| => Send(RequestOf(script[i], id)))
  }

  function Requests(script: seq<Kind>, id: Id): multiset<Request>
  {
    if script == [] then multiset{} else multiset{RequestOf(script[0], id)} + Requests(script[1..], id)
  }

  lemma {:induction false} RequestsHas(script: seq<Kind>, id: Id, k: Kind)
    requires k in script
    ensures RequestOf(k, id) in Requests(script, id)
  {
    if k != script[0] { RequestsHas(script[1..], id, k); }
  }

  /** A free key, nobody told anything, and these requests in the network. */
  function Free(rest: multiset<Request>): System
  {
    System(Server(0, None), rest, multiset{}, map[], map[], map[])
  }

  lemma SentFree(rest: multiset<Request>, k: Kind, id: Id)
    ensures Apply(Free(rest), Send(RequestOf(k, id))) == Free(rest + multiset{RequestOf(k, id)})
  {
    var none: map<Id, Grant> := map[];
    assert none - {id} == none;
  }

  lemma {:induction false} AllSent(rest: multiset<Request>, script: seq<Kind>, id: Id)
    ensures Run(Free(rest), SendAll(script, id)) == Free(rest + Requests(script, id))
    decreases |script|
  {
    var steps := SendAll(script, id);
    if script == [] {
      assert rest + Requests(script, id) == rest;
    } else {
      var first := multiset{RequestOf(script[0], id)};
      assert steps[0] == Send(RequestOf(script[0], id)) && steps[1..] == SendAll(script[1..], id);
      RunCons(Free(rest), steps);
      SentFree(rest, script[0], id);
      AllSent(rest + first, script[1..], id);
      assert (rest + first) + Requests(script[1..], id) == rest + Requests(script, id);
    }
  }

  lemma {:induction false} SendsScript(script: seq<Kind>, id: Id)
    ensures Sent(SendAll(script, id), id) == script
  {
    if script != [] {
      assert SendAll(script, id)[1..] == SendAll(script[1..], id);
      SendsScript(script[1..], id);
    }
  }

  function GrantOf(k: Kind, id: Id): Grant
    requires Granting(k)
  {
    Grant(id, Length(k), 1)
  }

  /** The client has just been answered; `rest` is still in the network. */
  function Answered(k: Kind, id: Id, rest: multiset<Request>): System
    requires Granting(k)
  {
    System(Server(0, Some(Entry(id, Length(k)))), rest, multiset{}, map[id := GrantOf(k, id)],
           map[id := Length(k)], map[id := 1])
  }

  /** The server has granted, and the answer is under way. */
  function JustGranted(k: Kind, id: Id, rest: multiset<Request>): System
    requires Granting(k)
  {
    System(Server(0, Some(Entry(id, Length(k)))), rest, multiset{GrantOf(k, id)}, map[], map[id := Length(k)],
           map[id := 1])
  }

  lemma Answering(k: Kind, id: Id, rest: multiset<Request>)
    requires Granting(k) && RequestOf(k, id) in rest
    ensures Apply(Apply(Free(rest), Execute(RequestOf(k, id))), Deliver(GrantOf(k, id)))
         == Answered(k, id, rest - multiset{RequestOf(k, id)})
  {
    var left := rest - multiset{RequestOf(k, id)};
    assert Apply(Free(rest), Execute(RequestOf(k, id))) == JustGranted(k, id, left);
    assert multiset{GrantOf(k, id)} - multiset{GrantOf(k, id)} == multiset{};
  }

  /** Once granted k, the client loses the key to its own request of kind x: to an unlock at once, to a refresh for
      less time when that time is over. */
  predicate Spoils(x: Kind, k: Kind)
    requires Granting(k)
  {
    x.Unlocking? || (Refreshing(x) && !NoLater(Length(k), Length(x)))
  }

  function Wait(x: Kind): nat { if x.Unlocking? then 0 else x.ttl }

  lemma Spoiled(k: Kind, x: Kind, id: Id, rest: multiset<Request>)
    requires Granting(k) && Spoils(x, k) && RequestOf(x, id) in rest
    ensures var s := Apply(Apply(Answered(k, id, rest), Execute(RequestOf(x, id))), Tick(Wait(x)));
      Believes(s, id) && Holder(s.server) == None
  {
    var s := Answered(k, id, rest);
    Overtaken(k, x, id, rest);
    var t := Apply(s, Execute(RequestOf(x, id)));
    assert Apply(t, Tick(Wait(x))) == t.(server := t.server.(now := Wait(x)));
  }

  lemma Overtaken(k: Kind, x: Kind, id: Id, rest: multiset<Request>)
    requires Granting(k) && Spoils(x, k) && RequestOf(x, id) in rest
    ensures var s, t := Answered(k, id, rest), Apply(Answered(k, id, rest), Execute(RequestOf(x, id)));
      t.beliefs == s.beliefs
      && t.server == Server(0, if x.Unlocking? then None else Some(Entry(id, Some(x.ttl))))
  {
  }

  function Spoiling(k: Kind, x: Kind, id: Id): seq<Step>
    requires Granting(k)
  {
    [Execute(RequestOf(k, id)), Deliver(GrantOf(k, id)), Execute(RequestOf(x, id)), Tick(Wait(x))]
  }

  lemma RunFour(s: System, w: Step, x: Step, y: Step, z: Step)
    ensures Run(s, [w, x, y, z]) == Apply(Apply(Apply(Apply(s, w), x), y), z)
  {
    assert [w, x, y, z][1..] == [x, y, z] && [x, y, z][1..] == [y, z] && [y, z][1..] == [z] && [z][1..] == [];
    RunCons(s, [w, x, y, z]);
    RunCons(Apply(s, w), [x, y, z]);
    RunCons(Apply(Apply(s, w), x), [y, z]);
  }

  lemma MisledRun(script: seq<Kind>, k: Kind, x: Kind, id: Id)
    requires Granting(k)
    ensures Run(Init(), SendAll(script, id) + Spoiling(k, x, id))
         == Run(Free(Requests(script, id)), Spoiling(k, x, id))
  {
    AllSent(multiset{}, script, id);
    assert multiset{} + Requests(script, id) == Requests(script, id);
    RunConcat(Init(), SendAll(script, id), Spoiling(k, x, id));
  }

  /** All of the script is in the network before the server takes the request that it grants and the one that spoils
      the lease. */
  lemma Misled(script: seq<Kind>, k: Kind, x: Kind, id: Id)
    requires k in script && x in script && Granting(k) && Spoils(x, k)
    ensures var s := Run(Init(), SendAll(script, id) + Spoiling(k, x, id)); Believes(s, id) && Holder(s.server) == None
  {
    var all := Requests(script, id);
    MisledRun(script, k, x, id);
    RequestsHas(script, id, k);
    RequestsHas(script, id, x);
    RunFour(Free(all), Execute(RequestOf(k, id)), Deliver(GrantOf(k, id)), Execute(RequestOf(x, id)), Tick(Wait(x)));
    Answering(k, id, all);
    assert RequestOf(x, id) in all - multiset{RequestOf(k, id)};
    Spoiled(k, x, id, all - multiset{RequestOf(k, id)});
  }

  /** Nobody else sends or is told anything. */
  predicate Alone(steps: seq<Step>, id: Id)
  {
    forall step | step in steps :: (step.Send? ==> step.req.id == id) && (step.Deliver? ==> step.grant.id == id)
  }

  lemma MisledFollows(script: seq<Kind>, k: Kind, x: Kind, id: Id)
    requires script != [] && Granting(script[|script| - 1]) && Granting(k)
    ensures var steps := SendAll(script, id) + Spoiling(k, x, id); Follows(steps, id, script) && Alone(steps, id)
  {
    SendsScript(script, id);
    SentConcat(SendAll(script, id), Spoiling(k, x, id), id);
    NoneSent(Spoiling(k, x, id), id);
    MisledAttentive(script, k, x, id);
    MisledAlone(script, k, x, id);
  }

  lemma MisledAttentive(script: seq<Kind>, k: Kind, x: Kind, id: Id)
    requires script != [] && Granting(script[|script| - 1]) && Granting(k)
    ensures Attentive(SendAll(script, id) + Spoiling(k, x, id), id)
  {
    var sends, steps := SendAll(script, id), SendAll(script, id) + Spoiling(k, x, id);
    var n := |script| - 1;
    assert steps[n] == sends[n] == Send(RequestOf(script[n], id));
    assert forall m | 0 <= m < |steps| :: steps[m].Send? <==> m <= n;
    forall i, j | 0 <= i < j < |steps| && steps[i] == Send(DelReq(id)) && steps[j].Deliver? && steps[j].grant.id == id
      ensures AsksBetween(steps, id, i, j)
    {
      assert i < n < j;
    }
  }

  lemma MisledAlone(script: seq<Kind>, k: Kind, x: Kind, id: Id)
    requires Granting(k)
    ensures Alone(SendAll(script, id) + Spoiling(k, x, id), id)
  {
    assert Alone(SendAll(script, id), id) && Alone(Spoiling(k, x, id), id);
  }

  lemma NoneSent(steps: seq<Step>, id: Id)
    requires forall step | step in steps :: SentBy(step, id) == []
    ensures Sent(steps, id) == []
  {
    if steps != [] {
      assert steps[0] in steps;
      NoneSent(steps[1..], id);
    }
  }

  /** The run that misleads a client whose script has these two kinds at these places. */
  function Misleading(script: seq<Kind>, i: nat, j: nat, id: Id): seq<Step>
    requires i < |script| && j < |script| && Granting(script[j])
  {
    SendAll(script[..(if i < j then j else i) + 1], id) + Spoiling(script[j], script[i], id)
  }

  lemma MisleadingMisleads(script: seq<Kind>, i: nat, j: nat, id: Id)
    requires i < |script| && j < |script| && Granting(script[j]) && Spoils(script[i], script[j])
    requires script[i].Unlocking? ==> i < j
    ensures var steps := Misleading(script, i, j, id); var s := Run(Init(), steps);
      Follows(steps, id, script) && Alone(steps, id) && Believes(s, id) && Holder(s.server) == None
  {
    var part := script[..(if i < j then j else i) + 1];
    assert part[i] == script[i] && part[j] == script[j];
    Misled(part, script[j], script[i], id);
    MisledFollows(part, script[j], script[i], id);
  }

  /** An unlock sent before a lock of the same id and delayed past its grant takes the key away. */
  lemma LateUnlockMisleads(script: seq<Kind>, i: nat, j: nat, id: Id)
    requires i < j < |script| && script[i].Unlocking? && Granting(script[j])
    ensures var steps := Misleading(script, i, j, id); var s := Run(Init(), steps);
      Follows(steps, id, script) && Alone(steps, id) && Believes(s, id) && Holder(s.server) == None
  {
    MisleadingMisleads(script, i, j, id);
  }

  /** A refresh for less time, sent before or after the other lock, ends the lease before that one's answer says. */
  lemma ShortRefreshMisleads(script: seq<Kind>, i: nat, j: nat, id: Id)
    requires i < |script| && j < |script| && Refreshing(script[i]) && Granting(script[j])
    requires !NoLater(Length(script[j]), Length(script[i]))
    ensures var steps := Misleading(script, i, j, id); var s := Run(Init(), steps);
      Follows(steps, id, script) && Alone(steps, id) && Believes(s, id) && Holder(s.server) == None
  {
    MisleadingMisleads(script, i, j, id);
  }

  // ---- Exactly the safe uses ----

  /** Acting on a positive answer until its time is over, counted from the sending of the request, is right in every
      run if and only if the client's requests under the id make up a safe use. */
  lemma RightIffSafeUse(id: Id, script: seq<Kind>)
    ensures AlwaysRight(id, script) <==> SafeUse(script)
  {
    if SafeUse(script) {
      forall steps | Follows(steps, id, script) && Believes(Run(Init(), steps), id)
        ensures Holder(Run(Init(), steps).server) == Some(id)
      {
        SafeUseIsRight(id, script, steps);
      }
    } else {
      var steps := UnsafeUseMisleads(id, script);
    }
  }

  lemma UnsafeUseMisleads(id: Id, script: seq<Kind>) returns (steps: seq<Step>)
    requires !SafeUse(script)
    ensures Follows(steps, id, script) && Alone(steps, id)
    ensures var s := Run(Init(), steps); Believes(s, id) && Holder(s.server) == None
  {
    if i, j :| 0 <= i < j < |script| && script[i].Unlocking? && Granting(script[j]) {
      LateUnlockMisleads(script, i, j, id);
      steps := Misleading(script, i, j, id);
    } else {
      var i, j :| 0 <= i < |script| && 0 <= j < |script| && Refreshing(script[i]) && Granting(script[j])
        && !NoLater(Length(script[j]), Length(script[i]));
      ShortRefreshMisleads(script, i, j, id);
      steps := Misleading(script, i, j, id);
    }
  }

  /** Locking, and locking again, for one length of time, and unlocking at the end, is such a use. */
  lemma OneLengthIsSafe(id: Id, ttl: nat, script: seq<Kind>, n: nat, steps: seq<Step>)
    requires n <= |script| && (forall i | 0 <= i < |script| :: script[i] == if i < n then LockFor(ttl) else Unlocking)
    requires Follows(steps, id, script) && Believes(Run(Init(), steps), id)
    ensures Holder(Run(Init(), steps).server) == Some(id)
  {
    SafeUseIsRight(id, script, steps);
  }

  // ---- Two clients ----

  /** Two clients whose uses are safe never act on the key at once. */
  lemma OneBeliever(steps: seq<Step>, a: Id, b: Id, scriptA: seq<Kind>, scriptB: seq<Kind>)
    requires SafeUse(scriptA) && Follows(steps, a, scriptA) && Believes(Run(Init(), steps), a)
    requires SafeUse(scriptB) && Follows(steps, b, scriptB) && Believes(Run(Init(), steps), b)
    ensures a == b
  {
    SafeUseIsRight(a, scriptA, steps);
    SafeUseIsRight(b, scriptB, steps);
  }

  function Taking(s: System, id: Id, ttl: nat): seq<Step>
  {
    var req := LockReq(id, ttl, s.server.now);
    [Send(req), Execute(req), Deliver(Grant(id, SafeUntil(req), Serial(s, id) + 1)), Tick(0)]
  }

  /** Whenever the key is free anyone who asks gets it, whatever others believe. */
  lemma FreeKeyIsTaken(s: System, id: Id, ttl: nat, other: Id)
    requires Holder(s.server) == None && ttl > 0 && other != id
    ensures var t := Run(s, Taking(s, id, ttl)); Believes(t, id) && (Believes(s, other) ==> Believes(t, other))
  {
    var req := LockReq(id, ttl, s.server.now);
    var g := Grant(id, SafeUntil(req), Serial(s, id) + 1);
    RunFour(s, Send(req), Execute(req), Deliver(g), Tick(0));
    var u := Asked(s, req);
    AskedFree(s, id, ttl);
    Told(u, g, other);
  }

  function Asked(s: System, req: Request): System { Apply(Apply(s, Send(req)), Execute(req)) }

  lemma AskedFree(s: System, id: Id, ttl: nat)
    requires Holder(s.server) == None && ttl > 0
    ensures var req := LockReq(id, ttl, s.server.now);
      var t := Asked(s, req);
      && Grant(id, SafeUntil(req), Serial(s, id) + 1) in t.replies
      && t.beliefs == s.beliefs && t.server.now == s.server.now
  {
    var req := LockReq(id, ttl, s.server.now);
    var t := Apply(s, Send(req));
    assert t == s.(pending := s.pending + multiset{req});
  }

  lemma Told(s: System, g: Grant, other: Id)
    requires g in s.replies && Live(g.until, s.server.now) && other != g.id
    ensures var t := Apply(Apply(s, Deliver(g)), Tick(0));
      Believes(t, g.id) && (Believes(s, other) ==> Believes(t, other))
  {
  }

  /** A client whose use is not safe can be made to share the key with another that locks once. */
  lemma UnsafeUseShares(a: Id, script: seq<Kind>, b: Id, ttl: nat) returns (steps: seq<Step>)
    requires !SafeUse(script) && a != b && ttl > 0
    ensures Follows(steps, a, script) && Follows(steps, b, [LockFor(ttl)])
    ensures Believes(Run(Init(), steps), a) && Believes(Run(Init(), steps), b)
  {
    var before := UnsafeUseMisleads(a, script);
    var s := Run(Init(), before);
    var after := Taking(s, b, ttl);
    steps := before + after;
    RunConcat(Init(), before, after);
    FreeKeyIsTaken(s, b, ttl, a);
    AloneSends(before, a, b);
    SentConcat(before, after, a);
    SentConcat(before, after, b);
    TakingSends(s, b, ttl, a);
    assert Sent(steps, a) == Sent(before, a) && Sent(steps, b) == [LockFor(ttl)];
    AloneThenTaking(before, a, s, b, ttl);
  }

  lemma {:induction false} AloneSends(steps: seq<Step>, a: Id, b: Id)
    requires Alone(steps, a) && a != b
    ensures Sent(steps, b) == []
  {
    forall step | step in steps ensures SentBy(step, b) == [] {}
    NoneSent(steps, b);
  }

  lemma TakingSends(s: System, id: Id, ttl: nat, other: Id)
    requires other != id
    ensures Sent(Taking(s, id, ttl), id) == [LockFor(ttl)] && Sent(Taking(s, id, ttl), other) == []
  {
    var steps := Taking(s, id, ttl);
    NoneSent(steps[1..], id);
    NoneSent(steps, other);
  }

  lemma AloneThenTaking(before: seq<Step>, a: Id, s: System, b: Id, ttl: nat)
    requires Alone(before, a) && Attentive(before, a) && a != b
    ensures Attentive(before + Taking(s, b, ttl), a) && Attentive(before + Taking(s, b, ttl), b)
  {
    var steps := before + Taking(s, b, ttl);
    forall i, j | 0 <= i < j < |steps| && steps[i] == Send(DelReq(a)) && steps[j].Deliver? && steps[j].grant.id == a
      ensures AsksBetween(steps, a, i, j)
    {
      assert before[i] == steps[i] && before[j] == steps[j];
      assert AsksBetween(before, a, i, j);
      var k :| i < k < j && before[k].Send? && before[k].req.id == a && Granting(KindOf(before[k].req));
      assert steps[k] == before[k];
    }
    forall i | 0 <= i < |steps| ensures steps[i] != Send(DelReq(b)) {
      if i < |before| { assert steps[i] == before[i] && before[i] in before; }
    }
  }
}
