/** The pull queue of each user: a list of messages under one key of the cache, filled by sends, rewritten by status
    updates and deletes, and emptied by the user fetching it. */
module UserCache {
  type Id = nat
  type User = string

  /** `content` stands for every other field, Status and StatusSync among them. */
  datatype Msg = Msg(id: Id, content: string)

  type Lists = map<User, seq<Msg>>

  /** A missing key reads as an empty list. */
  function List(lists: Lists, user: User): seq<Msg>
  {
    if user in lists then lists[user] else []
  }

  // ---- The code ----

  class Cache {
    var lists: Lists

    constructor ()
      ensures lists == map[]
    {
      lists := map[];
    }

    method Add(user: User, m: Msg)
      modifies this
      ensures lists == old(lists)[user := List(old(lists), user) + [m]]
    {
      if user in lists {
        var held := lists[user];
        held := held + [m];
        lists := lists[user := held];
      } else {
        assert List(lists, user) + [m] == [m];
        lists := lists[user := [m]];
      }
    }

    method Update(user: User, m: Msg)
      modifies this
      ensures lists == old(lists)[user := Put(List(old(lists), user), m)]
    {
      if user in lists {
        var held := lists[user];
        var check := false;
        var i := 0;
        while i < |held| && !check
          invariant 0 <= i <= Place(old(lists)[user], m.id)
          invariant lists == old(lists)
          invariant held == if check then Put(old(lists)[user], m) else old(lists)[user]
          decreases !check, |held| - i
        {
          if held[i].id == m.id {
            PutInPlace(held, m);
            held := held[i := m];
            check := true;
          } else {
            i := i + 1;
          }
        }
        if !check {
          PutInPlace(held, m);
          held := held + [m];
        }
        lists := lists[user := held];
      } else {
        assert Put(List(lists, user), m) == [m];
        lists := lists[user := [m]];
      }
    }

    /** getMessagesFromRedis */
    method Drain(user: User) returns (messages: seq<Msg>)
      modifies this
      ensures messages == List(old(lists), user) && lists == old(lists) - {user}
    {
      messages := [];
      if user in lists {
        messages := lists[user];
        lists := lists - {user};
      }
    }

    /** sendMessage, for a class in pull mode. */
    method Send(target: seq<User>, m: Msg)
      modifies this
      ensures lists == Sent(old(lists), target, m)
    {
      for k := 0 to |target|
        invariant Sent(lists, target[k..], m) == Sent(old(lists), target, m)
      {
        assert target[k..][1..] == target[k + 1..];
        Add(target[k], m);
      }
    }

    /** updateMessageStatus and the delete handler, for a class in pull mode. */
    method Refresh(target: seq<User>, actor: User, m: Msg)
      modifies this
      ensures lists == Refreshed(old(lists), target, actor, m)
    {
      for k := 0 to |target|
        invariant Refreshed(lists, target[k..], actor, m) == Refreshed(old(lists), target, actor, m)
      {
        assert target[k..][1..] == target[k + 1..];
        if target[k] != actor { Update(target[k], m); }
      }
    }
  }

  // ---- Its specification ----

  function Put(held: seq<Msg>, m: Msg): seq<Msg>
  {
    if held == [] then [m]
    else if held[0].id == m.id then [m] + held[1..]
    else [held[0]] + Put(held[1..], m)
  }

  function Sent(lists: Lists, target: seq<User>, m: Msg): Lists
    decreases |target|
  {
    if target == [] then lists
    else Sent(lists[target[0] := List(lists, target[0]) + [m]], target[1..], m)
  }

  function Refreshed(lists: Lists, target: seq<User>, actor: User, m: Msg): Lists
    decreases |target|
  {
    if target == [] then lists
    else
      var head := target[0];
      var next := if head == actor then lists else lists[head := Put(List(lists, head), m)];
      Refreshed(next, target[1..], actor, m)
  }

  // ---- What one call does to one list ----

  /** The first place with the id, or the end. */
  function Place(held: seq<Msg>, id: Id): (k: nat)
    ensures k <= |held| && (k < |held| ==> held[k].id == id) && forall j | 0 <= j < k :: held[j].id != id
  {
    if held == [] || held[0].id == id then 0 else 1 + Place(held[1..], id)
  }

  predicate Distinct(held: seq<Msg>)
  {
    forall j, k | 0 <= j < k < |held| :: held[j].id != held[k].id
  }

  function Without(held: seq<Msg>, id: Id): seq<Msg>
  {
    if held == [] then []
    else if held[0].id == id then Without(held[1..], id)
    else [held[0]] + Without(held[1..], id)
  }

  function Only(held: seq<Msg>, id: Id): seq<Msg>
  {
    if held == [] then []
    else if held[0].id == id then [held[0]] + Only(held[1..], id)
    else Only(held[1..], id)
  }

  lemma {:induction false} OnlyNone(held: seq<Msg>, id: Id)
    requires forall k | 0 <= k < |held| :: held[k].id != id
    ensures Only(held, id) == [] && Without(held, id) == held
  {
    if held != [] { OnlyNone(held[1..], id); }
  }

  /** The message at the first place with the id is overwritten where it stands, or the message is added at the end. */
  lemma {:induction false} PutInPlace(held: seq<Msg>, m: Msg)
    ensures var k := Place(held, m.id);
      Put(held, m) == if k < |held| then held[k := m] else held + [m]
  {
    if held != [] && held[0].id != m.id { PutInPlace(held[1..], m); }
  }

  lemma PutDistinct(held: seq<Msg>, m: Msg)
    requires Distinct(held)
    ensures Distinct(Put(held, m))
  {
    PutInPlace(held, m);
  }

  /** In a list with distinct ids an update leaves one entry with the id, the new one, and every other entry in
      its order. */
  lemma {:induction false} PutExact(held: seq<Msg>, m: Msg)
    requires Distinct(held)
    ensures Only(Put(held, m), m.id) == [m] && Without(Put(held, m), m.id) == Without(held, m.id)
  {
    if held != [] {
      if held[0].id == m.id {
        assert Put(held, m)[1..] == held[1..];
        OnlyNone(held[1..], m.id);
      } else {
        assert Put(held, m)[1..] == Put(held[1..], m);
        PutExact(held[1..], m);
      }
    } else {
      assert [m][1..] == [];
    }
  }

  lemma {:induction false} PutTwice(held: seq<Msg>, m: Msg)
    ensures Put(Put(held, m), m) == Put(held, m)
  {
    if held != [] && held[0].id != m.id {
      assert Put(held, m)[1..] == Put(held[1..], m);
      PutTwice(held[1..], m);
    } else {
      assert Put(held, m)[0] == m;
      assert Put(Put(held, m), m) == [m] + Put(held, m)[1..];
    }
  }

  // ---- What one call does to every list ----

  function Copies(m: Msg, n: nat): seq<Msg>
  {
    seq(n, _ => m)
  }

  /** A send adds the message to a user's list once for every time the user is named. */
  lemma {:induction false} SentList(lists: Lists, target: seq<User>, m: Msg, user: User)
    ensures List(Sent(lists, target, m), user) == List(lists, user) + Copies(m, multiset(target)[user])
    decreases |target|
  {
    if target == [] {
      assert Copies(m, 0) == [];
    } else {
      var next := lists[target[0] := List(lists, target[0]) + [m]];
      SentList(next, target[1..], m, user);
      assert target == [target[0]] + target[1..];
      var n := multiset(target[1..])[user];
      assert target[0] == user ==> List(next, user) + Copies(m, n) == List(lists, user) + Copies(m, n + 1);
    }
  }

  /** A status change puts the message in the list of every receiver but the actor, and leaves all other lists. */
  lemma {:induction false} RefreshedList(lists: Lists, target: seq<User>, actor: User, m: Msg, user: User)
    ensures List(Refreshed(lists, target, actor, m), user) ==
      if user in target && user != actor then Put(List(lists, user), m) else List(lists, user)
    decreases |target|
  {
    if target != [] {
      var head := target[0];
      var next := if head == actor then lists else lists[head := Put(List(lists, head), m)];
      assert target == [head] + target[1..];
      assert user in target <==> user == head || user in target[1..];
      RefreshedList(next, target[1..], actor, m, user);
      PutTwice(List(lists, user), m);
    }
  }

  // ---- Runs ----

  datatype Event =
    | SendEv(m: Msg, target: seq<User>)
    | RefreshEv(m: Msg, target: seq<User>, actor: User)
    | DrainEv(user: User)

  /** `targets` remembers every message ever created and to whom. */
  datatype World = World(lists: Lists, targets: map<Id, seq<User>>)

  predicate NoDup(s: seq<User>)
  {
    forall j, k | 0 <= j < k < |s| :: s[j] != s[k]
  }

  /** A send creates a message with a new id; a status change names a created message with the target it was
      created with. */
  predicate Enabled(w: World, e: Event)
  {
    match e
    case SendEv(m, target) => m.id !in w.targets
    case RefreshEv(m, target, actor) => m.id in w.targets && w.targets[m.id] == target
    case DrainEv(_) => true
  }

  function Step(w: World, e: Event): World
  {
    match e
    case SendEv(m, target) => World(Sent(w.lists, target, m), w.targets[m.id := target])
    case RefreshEv(m, target, actor) => w.(lists := Refreshed(w.lists, target, actor, m))
    case DrainEv(user) => w.(lists := w.lists - {user})
  }

  predicate Possible(w: World, events: seq<Event>)
    decreases |events|
  {
    events == [] || (Enabled(w, events[0]) && Possible(Step(w, events[0]), events[1..]))
  }

  function Run(w: World, events: seq<Event>): World
    decreases |events|
  {
    if events == [] then w else Run(Step(w, events[0]), events[1..])
  }

  const START := World(map[], map[])

  // ---- One entry per id ----

  ghost predicate IdsCreated(w: World)
  {
    forall u, m | u in w.lists && m in w.lists[u] :: m.id in w.targets
  }

  ghost predicate AllDistinct(w: World)
  {
    forall u | u in w.lists :: Distinct(w.lists[u])
  }

  predicate CleanTargets(events: seq<Event>)
  {
    forall e | e in events && e.SendEv? :: NoDup(e.target)
  }

  lemma {:induction false} NamedAtMostOnce(target: seq<User>, user: User)
    requires NoDup(target)
    ensures multiset(target)[user] <= 1
  {
    if target != [] {
      assert target == [target[0]] + target[1..];
      assert NoDup(target[1..]) by {
        forall j, k | 0 <= j < k < |target[1..]| ensures target[1..][j] != target[1..][k] {}
      }
      NamedAtMostOnce(target[1..], user);
      assert target[0] == user ==> user !in target[1..];
    }
  }

  lemma NamedTwice(target: seq<User>, j: nat, k: nat)
    requires j < k < |target| && target[j] == target[k]
    ensures multiset(target)[target[j]] >= 2
  {
    assert target == target[..k] + target[k..];
    assert target[j] in target[..k] by { assert target[..k][j] == target[j]; }
    assert target[k] in target[k..] by { assert target[k..][0] == target[k]; }
  }

  lemma HeldIdsCreated(w: World, user: User, k: nat)
    requires IdsCreated(w) && k < |List(w.lists, user)|
    ensures List(w.lists, user)[k].id in w.targets
  {
    assert List(w.lists, user)[k] in w.lists[user];
  }

  lemma SentEntries(w: World, m: Msg, target: seq<User>, user: User)
    requires IdsCreated(w)
    ensures forall x | x in List(Sent(w.lists, target, m), user) :: x.id in w.targets || x == m
  {
    SentList(w.lists, target, m, user);
    forall x | x in List(Sent(w.lists, target, m), user) ensures x.id in w.targets || x == m {
      if x in List(w.lists, user) { assert x in w.lists[user]; }
    }
  }

  lemma PutEntries(held: seq<Msg>, m: Msg)
    ensures forall x | x in Put(held, m) :: x in held || x == m
  {
    PutInPlace(held, m);
  }

  lemma RefreshedEntries(w: World, m: Msg, target: seq<User>, actor: User, user: User)
    requires IdsCreated(w) && m.id in w.targets
    ensures forall x | x in List(Refreshed(w.lists, target, actor, m), user) :: x.id in w.targets
  {
    RefreshedList(w.lists, target, actor, m, user);
    PutEntries(List(w.lists, user), m);
    forall x | x in List(Refreshed(w.lists, target, actor, m), user) ensures x.id in w.targets {
      if x in List(w.lists, user) { assert x in w.lists[user]; }
    }
  }

  lemma StepIdsCreated(w: World, e: Event)
    requires IdsCreated(w) && Enabled(w, e)
    ensures IdsCreated(Step(w, e))
  {
    var after := Step(w, e);
    forall u, x | u in after.lists && x in after.lists[u] ensures x.id in after.targets {
      assert x in List(after.lists, u);
      match e {
        case SendEv(m, target) => SentEntries(w, m, target, u);
        case RefreshEv(m, target, actor) => RefreshedEntries(w, m, target, actor, u);
        case DrainEv(_) =>
      }
    }
  }

  lemma SentDistinct(w: World, m: Msg, target: seq<User>, user: User)
    requires IdsCreated(w) && m.id !in w.targets && NoDup(target) && Distinct(List(w.lists, user))
    ensures Distinct(List(Sent(w.lists, target, m), user))
  {
    SentList(w.lists, target, m, user);
    NamedAtMostOnce(target, user);
    forall k | 0 <= k < |List(w.lists, user)| ensures List(w.lists, user)[k].id != m.id { HeldIdsCreated(w, user, k); }
  }

  lemma StepDistinct(w: World, e: Event)
    requires IdsCreated(w) && AllDistinct(w) && Enabled(w, e) && (e.SendEv? ==> NoDup(e.target))
    ensures AllDistinct(Step(w, e))
  {
    var after := Step(w, e);
    forall u | u in after.lists ensures Distinct(after.lists[u]) {
      match e {
        case SendEv(m, target) => SentDistinct(w, m, target, u);
        case RefreshEv(m, target, actor) =>
          RefreshedList(w.lists, target, actor, m, u);
          PutDistinct(List(w.lists, u), m);
        case DrainEv(_) =>
      }
    }
  }

  lemma {:induction false} RunDistinct(w: World, events: seq<Event>)
    requires Possible(w, events) && CleanTargets(events) && IdsCreated(w) && AllDistinct(w)
    ensures IdsCreated(Run(w, events)) && AllDistinct(Run(w, events))
    decreases |events|
  {
    if events != [] {
      assert events[0] in events;
      StepIdsCreated(w, events[0]);
      StepDistinct(w, events[0]);
      RunDistinct(Step(w, events[0]), events[1..]);
    }
  }

  /** In every run whose sends name no receiver twice, no list holds two entries with one id. */
  lemma OneEntryPerId(events: seq<Event>)
    requires Possible(START, events) && CleanTargets(events)
    ensures forall u :: Distinct(List(Run(START, events).lists, u))
  {
    RunDistinct(START, events);
    assert Distinct([]);
  }

  lemma SendTwiceToOne(w: World, m: Msg, target: seq<User>)
    requires !NoDup(target)
    ensures exists u :: !Distinct(List(Sent(w.lists, target, m), u))
  {
    var j: nat, k: nat :| j < k < |target| && target[j] == target[k];
    NamedTwice(target, j, k);
    var u := target[j];
    SentList(w.lists, target, m, u);
    var held := List(Sent(w.lists, target, m), u);
    var n := |List(w.lists, u)|;
    assert held[n].id == held[n + 1].id;
    assert !Distinct(held);
  }

  /** That the target names no one twice is what a send needs: a receiver named twice gets the entry twice. */
  lemma SendKeepsDistinctIffClean(events: seq<Event>, m: Msg, target: seq<User>)
    requires Possible(START, events) && CleanTargets(events) && Enabled(Run(START, events), SendEv(m, target))
    ensures (forall u :: Distinct(List(Sent(Run(START, events).lists, target, m), u))) <==> NoDup(target)
  {
    var w := Run(START, events);
    RunDistinct(START, events);
    if NoDup(target) {
      forall u ensures Distinct(List(Sent(w.lists, target, m), u)) { SentDistinct(w, m, target, u); }
    } else {
      SendTwiceToOne(w, m, target);
      var u :| !Distinct(List(Sent(w.lists, target, m), u));
      assert !Distinct(List(Sent(Run(START, events).lists, target, m), u));
    }
  }

  // ---- What a status change leaves ----

  /** After a status change anywhere in such a run, every receiver but the actor holds one entry with the id, the new
      message, and its other entries in order; the actor and everyone else hold what they held. */
  lemma RefreshReachesTheReceivers(events: seq<Event>, m: Msg, target: seq<User>, actor: User, user: User)
    requires Possible(START, events + [RefreshEv(m, target, actor)]) && CleanTargets(events)
    ensures var before := List(Run(START, events).lists, user);
      var after := List(Run(START, events + [RefreshEv(m, target, actor)]).lists, user);
      if user in target && user != actor
      then Only(after, m.id) == [m] && Without(after, m.id) == Without(before, m.id)
      else after == before
  {
    RunSnoc(START, events, RefreshEv(m, target, actor));
    OneEntryPerId(events);
    var w := Run(START, events);
    RefreshedList(w.lists, target, actor, m, user);
    assert Distinct(List(w.lists, user));
    PutExact(List(w.lists, user), m);
  }

  lemma {:induction false} RunSnoc(w: World, events: seq<Event>, e: Event)
    requires Possible(w, events + [e])
    ensures Possible(w, events) && Enabled(Run(w, events), e)
    ensures Run(w, events + [e]) == Step(Run(w, events), e)
    decreases |events|
  {
    if events == [] {
      assert Run(Step(w, e), []) == Step(w, e);
      assert (events + [e])[0] == e && (events + [e])[1..] == [];
    } else {
      assert (events + [e])[1..] == events[1..] + [e] && (events + [e])[0] == events[0];
      RunSnoc(Step(w, events[0]), events[1..], e);
    }
  }

  // ---- A message leaves only by being fetched or replaced ----

  predicate Writes(e: Event, user: User)
  {
    match e
    case SendEv(_, target) => user in target
    case RefreshEv(_, target, actor) => user in target && user != actor
    case DrainEv(_) => false
  }

  /** The entries an event puts into a user's list, */
  function Entered(e: Event, user: User): multiset<Msg>
  {
    match e
    case SendEv(m, target) => multiset(Copies(m, multiset(target)[user]))
    case RefreshEv(m, _, _) => if Writes(e, user) then multiset{m} else multiset{}
    case DrainEv(_) => multiset{}
  }

  /** and those it takes out: all when the user fetches, and the one with the same id when it is replaced. */
  function Fetched(w: World, e: Event, user: User): multiset<Msg>
  {
    if e == DrainEv(user) then multiset(List(w.lists, user)) else multiset{}
  }

  function Replaced(w: World, e: Event, user: User): multiset<Msg>
  {
    if e.RefreshEv? && Writes(e, user) then
      var held := List(w.lists, user);
      var k := Place(held, e.m.id);
      if k < |held| then multiset{held[k]} else multiset{}
    else multiset{}
  }

  function AllEntered(events: seq<Event>, user: User): multiset<Msg>
  {
    if events == [] then multiset{} else Entered(events[0], user) + AllEntered(events[1..], user)
  }

  function AllFetched(w: World, events: seq<Event>, user: User): multiset<Msg>
    decreases |events|
  {
    if events == [] then multiset{} else Fetched(w, events[0], user) + AllFetched(Step(w, events[0]), events[1..], user)
  }

  function AllReplaced(w: World, events: seq<Event>, user: User): multiset<Msg>
    decreases |events|
  {
    if events == [] then multiset{}
    else Replaced(w, events[0], user) + AllReplaced(Step(w, events[0]), events[1..], user)
  }

  lemma PutEntry(held: seq<Msg>, m: Msg)
    ensures var k := Place(held, m.id);
      multiset(Put(held, m)) + (if k < |held| then multiset{held[k]} else multiset{}) == multiset(held) + multiset{m}
  {
    PutInPlace(held, m);
  }

  lemma SendBalance(w: World, m: Msg, target: seq<User>, user: User)
    ensures multiset(List(Step(w, SendEv(m, target)).lists, user))
         == multiset(List(w.lists, user)) + Entered(SendEv(m, target), user)
  {
    SentList(w.lists, target, m, user);
  }

  lemma RefreshBalance(w: World, m: Msg, target: seq<User>, actor: User, user: User)
    ensures var e := RefreshEv(m, target, actor);
      multiset(List(Step(w, e).lists, user)) + Replaced(w, e, user) == multiset(List(w.lists, user)) + Entered(e, user)
  {
    RefreshedList(w.lists, target, actor, m, user);
    PutEntry(List(w.lists, user), m);
  }

  lemma StepBalance(w: World, e: Event, user: User)
    ensures multiset(List(Step(w, e).lists, user)) + Fetched(w, e, user) + Replaced(w, e, user)
         == multiset(List(w.lists, user)) + Entered(e, user)
  {
    match e
    case SendEv(m, target) => SendBalance(w, m, target, user);
    case RefreshEv(m, target, actor) => RefreshBalance(w, m, target, actor, user);
    case DrainEv(_) =>
  }

  lemma AddUp(h0: multiset<Msg>, e: multiset<Msg>, f: multiset<Msg>, r: multiset<Msg>, h1: multiset<Msg>,
      es: multiset<Msg>, fs: multiset<Msg>, rs: multiset<Msg>, h2: multiset<Msg>)
    requires h1 + f + r == h0 + e && h2 + fs + rs == h1 + es
    ensures h2 + (f + fs) + (r + rs) == h0 + (e + es)
  {
    forall x ensures (h2 + (f + fs) + (r + rs))[x] == (h0 + (e + es))[x] {
      assert (h1 + f + r)[x] == (h0 + e)[x] && (h2 + fs + rs)[x] == (h1 + es)[x];
    }
  }

  /** Counting repetitions, what a user holds, has fetched, and had replaced by a newer entry of the same id is exactly
      what was put into the user's list: in every run nothing is lost and nothing appears. */
  lemma {:induction false} NothingLost(w: World, events: seq<Event>, user: User)
    ensures multiset(List(Run(w, events).lists, user)) + AllFetched(w, events, user) + AllReplaced(w, events, user)
         == multiset(List(w.lists, user)) + AllEntered(events, user)
    decreases |events|
  {
    if events != [] {
      var e, next, rest := events[0], Step(w, events[0]), events[1..];
      StepBalance(w, e, user);
      NothingLost(next, rest, user);
      AddUp(multiset(List(w.lists, user)), Entered(e, user), Fetched(w, e, user), Replaced(w, e, user),
            multiset(List(next.lists, user)), AllEntered(rest, user), AllFetched(next, rest, user),
            AllReplaced(next, rest, user), multiset(List(Run(next, rest).lists, user)));
    }
  }

  predicate LeavesEntry(events: seq<Event>, user: User, id: Id)
  {
    forall e | e in events :: e != DrainEv(user) && (Writes(e, user) ==> e.m.id != id)
  }

  lemma PutKeepsOthers(held: seq<Msg>, m: Msg, x: Msg)
    requires x in held && x.id != m.id
    ensures x in Put(held, m)
  {
    PutInPlace(held, m);
    var j :| 0 <= j < |held| && held[j] == x;
    var k := Place(held, m.id);
    assert k < |held| ==> held[k := m][j] == x;
  }

  /** An entry stays as it is, whatever happens to other lists and other messages, until its user fetches it or it is
      written again. */
  lemma {:induction false} EntryStays(w: World, events: seq<Event>, user: User, x: Msg)
    requires x in List(w.lists, user) && LeavesEntry(events, user, x.id)
    ensures x in List(Run(w, events).lists, user)
    decreases |events|
  {
    if events != [] {
      var e := events[0];
      assert e in events;
      match e {
        case SendEv(m, target) => SentList(w.lists, target, m, user);
        case RefreshEv(m, target, actor) =>
          RefreshedList(w.lists, target, actor, m, user);
          if Writes(e, user) { PutKeepsOthers(List(w.lists, user), m, x); }
        case DrainEv(_) =>
      }
      EntryStays(Step(w, e), events[1..], user, x);
    }
  }
}
