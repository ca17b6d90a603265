/** The status of a message under its class: creation, update, bulk update and deletion.  A message that was
    reloaded from storage has a nil StatusSync where it was stored with an empty one, and writing to a nil map
    panics. */
module MessageStatus {
  import opened Options

  /** `linkage`, `shared` and anything else share one rule. */
  datatype Kind = Exclusive | Broadcast | Other

  datatype Class = Class(kind: Kind, states: seq<string>)

  type Sync = map<string, string>

  datatype State = State(status: string, sync: Option<Sync>)

  datatype Outcome = Done | Rejected(code: int) | Panic

  const DELETED := "deleted"

  // ---- The rules ----

  function Entry(s: State, user: string): string
  {
    if s.sync.Some? && user in s.sync.value then s.sync.value[user] else ""
  }

  function Write(s: State, user: string, status: string): (State, Outcome)
  {
    if s.sync.None? then (s, Panic) else (s.(sync := Some(s.sync.value[user := status])), Done)
  }

  function Update(s: State, class_: Class, target: seq<string>, user: string, status: string): (State, Outcome)
  {
    if status == DELETED then (s, Rejected(100309))
    else if status !in class_.states then (s, Rejected(100307))
    else if class_.kind.Broadcast? then
      if Entry(s, user) == status then (s, Rejected(100308))
      else if Entry(s, user) == DELETED then (s, Rejected(100316))
      else Write(s, user, status)
    else if status == s.status then (s, Rejected(100308))
    else if s.status == DELETED then (s, Rejected(100316))
    else if class_.kind.Exclusive? && user !in target then (s, Rejected(100313))
    else (s.(status := status), Done)
  }

  function Delete(s: State, class_: Class, target: seq<string>, user: string): (State, Outcome)
  {
    if DELETED !in class_.states then (s, Rejected(100307))
    else if class_.kind.Broadcast? then Write(s, user, DELETED)
    else if class_.kind.Exclusive? && user !in target then (s, Rejected(100313))
    else (s.(status := DELETED), Done)
  }

  function InitialSync(target: seq<string>, state: string): Sync
  {
    map u | u in target :: state
  }

  lemma InitialStep(base: Sync, target: seq<string>, i: nat, state: string)
    requires i < |target|
    ensures base + InitialSync(target[..i + 1], state)
         == (if i == 0 then base else base + InitialSync(target[..i], state))[target[i] := state]
  {
    assert target[..i + 1] == target[..i] + [target[i]];
  }

  /** setDefaultMessageStatus; None is the panic of a class without states.  A broadcast message keeps whatever
      Status the request carried. */
  function Default(s: State, class_: Class, target: seq<string>): Option<State>
  {
    if class_.kind.Broadcast? then
      if target == [] then Some(s.(sync := Some(if s.sync.Some? then s.sync.value else map[])))
      else if class_.states == [] then None
      else
        var base := if s.sync.Some? then s.sync.value else map[];
        Some(s.(sync := Some(base + InitialSync(target, class_.states[0]))))
    else if class_.states == [] then None
    else Some(s.(status := class_.states[0]))
  }

  /** Writing a message to storage and reading it back: an empty map is omitted. */
  function Reload(s: State): State
  {
    if s.sync == Some(map[]) then s.(sync := None) else s
  }

  /** The two kinds of send.  The older one gives the message its first status and then, in mode "listening", replaces
      the receivers the request named by those who listen; the newer one replaces them first. */
  datatype Version = Older | Newer

  /** The receivers who get the first status. */
  function Marked(v: Version, requested: seq<string>, listeners: Option<seq<string>>): seq<string>
  {
    if v.Newer? && listeners.Some? then listeners.value else requested
  }

  /** A new message with its target; None is the panic of a class without states. */
  function Created(v: Version, carried: string, class_: Class, requested: seq<string>, listeners: Option<seq<string>>):
      Option<(State, seq<string>)>
  {
    var blank := if v.Older? then State(carried, Some(map[])) else State("", None);
    match Default(blank, class_, Marked(v, requested, listeners))
    case None => None
    case Some(s) => Some((s, if listeners.Some? then listeners.value else requested))
  }

  // ---- The handlers ----

  class Message {
    var status: string
    var sync: Option<Sync>
    var target: seq<string>

    constructor (status: string, sync: Option<Sync>, target: seq<string>)
      ensures Current() == State(status, sync) && this.target == target
    {
      this.status, this.sync, this.target := status, sync, target;
    }

    function Current(): State
      reads this
    {
      State(status, sync)
    }

    method ValidateForBroadcast(newStatus: string, user: string) returns (outcome: Outcome)
      modifies this`sync
      ensures (Current(), outcome) ==
        if Entry(old(Current()), user) == newStatus then (old(Current()), Rejected(100308))
        else if Entry(old(Current()), user) == DELETED then (old(Current()), Rejected(100316))
        else Write(old(Current()), user, newStatus)
    {
      var current := Entry(Current(), user);
      if current != newStatus {
        if current != DELETED {
          if sync.None? { return Panic; }
          sync := Some(sync.value[user := newStatus]);
        } else {
          return Rejected(100316);
        }
      } else {
        return Rejected(100308);
      }
      outcome := Done;
    }

    method ValidateUpdate(class_: Class, user: string, newStatus: string) returns (outcome: Outcome)
      modifies this`status, this`sync
      ensures (Current(), outcome) == Update(old(Current()), class_, target, user, newStatus)
    {
      if newStatus == DELETED { return Rejected(100309); }
      if newStatus !in class_.states { return Rejected(100307); }
      if class_.kind.Exclusive? {
        if newStatus == status { return Rejected(100308); }
        if status == DELETED { return Rejected(100316); }
        if user !in target { return Rejected(100313); }
        status := newStatus;
        outcome := Done;
      } else if class_.kind.Broadcast? {
        outcome := ValidateForBroadcast(newStatus, user);
      } else {
        if newStatus == status { return Rejected(100308); }
        if status == DELETED { return Rejected(100316); }
        status := newStatus;
        outcome := Done;
      }
    }

    method ValidateDelete(class_: Class, user: string) returns (outcome: Outcome)
      modifies this`status, this`sync
      ensures (Current(), outcome) == Delete(old(Current()), class_, target, user)
    {
      if DELETED !in class_.states { return Rejected(100307); }
      if class_.kind.Exclusive? {
        if user !in target { return Rejected(100313); }
        status := DELETED;
      } else if class_.kind.Broadcast? {
        if sync.None? { return Panic; }
        sync := Some(sync.value[user := DELETED]);
      } else {
        status := DELETED;
      }
      outcome := Done;
    }

    method SetDefault(class_: Class) returns (panicked: bool)
      modifies this`status, this`sync
      ensures panicked <==> Default(old(Current()), class_, target).None?
      ensures !panicked ==> Current() == Default(old(Current()), class_, target).value
    {
      panicked := false;
      if class_.kind.Broadcast? {
        if sync.None? { sync := Some(map[]); }
        panicked := SetReceivers(class_);
      } else {
        if class_.states == [] { return true; }
        status := class_.states[0];
      }
    }

    method Create(v: Version, class_: Class, listeners: Option<seq<string>>) returns (panicked: bool)
      modifies this
      ensures panicked <==> Created(v, old(status), class_, old(target), listeners).None?
      ensures !panicked ==> Created(v, old(status), class_, old(target), listeners) == Some((Current(), target))
    {
      if v.Older? {
        sync := Some(map[]);
        panicked := SetDefault(class_);
        if listeners.Some? { target := listeners.value; }
      } else {
        if listeners.Some? { target := listeners.value; }
        status, sync := "", None;
        panicked := SetDefault(class_);
      }
    }

    method SetReceivers(class_: Class) returns (panicked: bool)
      requires sync.Some?
      modifies this`sync
      ensures panicked <==> target != [] && class_.states == []
      ensures target == [] ==> sync == old(sync)
      ensures !panicked && target != [] ==> sync == Some(old(sync).value + InitialSync(target, class_.states[0]))
    {
      ghost var base := sync.value;
      var i := 0;
      while i < |target|
        invariant 0 <= i <= |target| && (i > 0 ==> class_.states != [])
        invariant sync == Some(if i == 0 then base else base + InitialSync(target[..i], class_.states[0]))
      {
        if class_.states == [] { return true; }
        InitialStep(base, target, i, class_.states[0]);
        sync := Some(sync.value[target[i] := class_.states[0]]);
        i := i + 1;
      }
      assert target[..|target|] == target;
      panicked := false;
    }
  }

  // ---- The bulk update ----

  /** `classId` is the parent's id if the class of the message, `subClassId`, has one. */
  datatype Stored = Stored(state: State, target: seq<string>, classId: string, subClassId: string)

  /** A class that is not configured has no states. */
  function ClassOf(classes: map<string, Class>, id: string): Class
  {
    if id in classes then classes[id] else Class(Other, [])
  }

  /** The messages whose single update succeeds, updated and in order; None if one of them panics. */
  function Bulk(messages: seq<Stored>, classes: map<string, Class>, user: string, status: string): Option<seq<Stored>>
  {
    if messages == [] then Some([])
    else
      var m := messages[0];
      var (s, outcome) := Update(m.state, ClassOf(classes, m.subClassId), m.target, user, status);
      if outcome.Panic? then None
      else
        match Bulk(messages[1..], classes, user, status)
        case None => None
        case Some(rest) => Some((if outcome.Done? then [m.(state := s)] else []) + rest)
  }

  /** The loop of the bulk handler, with its own copy of every check; a message the loop skips is left alone. */
  method BulkUpdate(messages: seq<Stored>, classes: map<string, Class>, user: string, status: string)
      returns (panicked: bool, updated: seq<Stored>)
    ensures panicked <==> Bulk(messages, classes, user, status).None?
    ensures !panicked ==> Bulk(messages, classes, user, status) == Some(updated)
  {
    panicked, updated := false, [];
    var i := 0;
    assert messages[0..] == messages;
    PrefixedNothing(Bulk(messages, classes, user, status));
    while i < |messages|
      invariant 0 <= i <= |messages|
      invariant Prefixed(updated, Bulk(messages[i..], classes, user, status)) == Bulk(messages, classes, user, status)
      decreases |messages| - i
    {
      assert messages[i..][0] == messages[i] && messages[i..][1..] == messages[i + 1..];
      PrefixedTwice(updated, messages[i..], classes, user, status);
      var message := messages[i];
      i := i + 1;
      var class_ := ClassOf(classes, message.subClassId);
      if status == DELETED { continue; }
      if status !in class_.states { continue; }
      if class_.kind.Exclusive? {
        if status == message.state.status { continue; }
        if message.state.status == DELETED { continue; }
        if user !in message.target { continue; }
        message := message.(state := message.state.(status := status));
      } else if class_.kind.Broadcast? {
        var (s, outcome) := BroadcastRule(message.state, status, user);
        if outcome.Panic? { return true, updated; }
        if !outcome.Done? { continue; }
        message := message.(state := s);
      } else {
        if status == message.state.status { continue; }
        if message.state.status == DELETED { continue; }
        message := message.(state := message.state.(status := status));
      }
      updated := updated + [message];
    }
    assert messages[i..] == [] && updated + [] == updated;
  }

  function BroadcastRule(s: State, status: string, user: string): (State, Outcome)
  {
    if Entry(s, user) == status then (s, Rejected(100308))
    else if Entry(s, user) == DELETED then (s, Rejected(100316))
    else Write(s, user, status)
  }

  function Prefixed(done: seq<Stored>, rest: Option<seq<Stored>>): Option<seq<Stored>>
  {
    match rest
    case None => None
    case Some(r) => Some(done + r)
  }

  lemma PrefixedNothing(rest: Option<seq<Stored>>)
    ensures Prefixed([], rest) == rest
  {
    if rest.Some? { assert [] + rest.value == rest.value; }
  }

  lemma PrefixedTwice(done: seq<Stored>, messages: seq<Stored>, classes: map<string, Class>, user: string,
      status: string)
    requires messages != []
    ensures var m := messages[0];
      var (s, outcome) := Update(m.state, ClassOf(classes, m.subClassId), m.target, user, status);
      Prefixed(done, Bulk(messages, classes, user, status)) ==
        if outcome.Panic? then None
        else
          Prefixed(if outcome.Done? then done + [m.(state := s)] else done, Bulk(messages[1..], classes, user, status))
  {
    var m := messages[0];
    var (s, outcome) := Update(m.state, ClassOf(classes, m.subClassId), m.target, user, status);
    match Bulk(messages[1..], classes, user, status)
    case None =>
    case Some(rest) =>
      assert done + ([m.(state := s)] + rest) == (done + [m.(state := s)]) + rest;
      assert [] + rest == rest;
  }

  // ---- The whole bulk request ----

  /** The class ids, or the subclass ids, that the request asks for. */
  datatype Filter = ByClass(ids: seq<string>) | BySubclass(ids: seq<string>)

  predicate Matches(m: Stored, filter: Filter)
  {
    (if filter.ByClass? then m.classId else m.subClassId) in filter.ids
  }

  /** The query: an entry other than the new status or, without entries, a receiver and another status. */
  predicate Selected(m: Stored, filter: Filter, user: string, status: string)
  {
    && Matches(m, filter)
    && (if m.state.sync.Some? then user !in m.state.sync.value || m.state.sync.value[user] != status
        else user in m.target && m.state.status != status)
  }

  function Only(messages: seq<Stored>, p: Stored -> bool): seq<Stored>
  {
    if messages == [] then []
    else (if p(messages[0]) then [messages[0]] else []) + Only(messages[1..], p)
  }

  function Reads(filter: Filter, user: string, status: string): Stored -> bool
  {
    m => Selected(m, filter, user, status)
  }

  function MatchedBy(filter: Filter): Stored -> bool { m => Matches(m, filter) }

  function WithClassIn(p: Stored -> bool, ids: seq<string>): Stored -> bool { m => p(m) && m.subClassId in ids }

  /** The request looks up no class but those whose ids it asks for. */
  function Loaded(stored: map<string, Class>, ids: seq<string>): map<string, Class>
  {
    map id | id in stored && id in ids :: stored[id]
  }

  /** The whole request: the classes and the messages it reads, then its loop. */
  method UpdateMany(messages: seq<Stored>, filter: Filter, stored: map<string, Class>, user: string, status: string)
      returns (panicked: bool, updated: seq<Stored>)
    ensures panicked <==> Handle(messages, filter, stored, user, status).None?
    ensures !panicked ==> Handle(messages, filter, stored, user, status) == Some(updated)
  {
    panicked, updated :=
      BulkUpdate(Only(messages, Reads(filter, user, status)), Loaded(stored, filter.ids), user, status);
  }

  function Handle(messages: seq<Stored>, filter: Filter, stored: map<string, Class>, user: string, status: string):
      Option<seq<Stored>>
  {
    Bulk(Only(messages, Reads(filter, user, status)), Loaded(stored, filter.ids), user, status)
  }

  /** The update of one message, by its own request: the class looked up is the message's subclass. */
  function Single(m: Stored, stored: map<string, Class>, user: string, status: string): (State, Outcome)
  {
    if m.subClassId !in stored then (m.state, Rejected(100112))
    else Update(m.state, stored[m.subClassId], m.target, user, status)
  }

  /** One request for each message, keeping the successes. */
  function Singles(messages: seq<Stored>, stored: map<string, Class>, user: string, status: string):
      Option<seq<Stored>>
  {
    if messages == [] then Some([])
    else
      var (s, outcome) := Single(messages[0], stored, user, status);
      if outcome.Panic? then None
      else Prefixed(if outcome.Done? then [messages[0].(state := s)] else [],
                    Singles(messages[1..], stored, user, status))
  }

  predicate Panics(m: Stored, stored: map<string, Class>, user: string, status: string)
  {
    Single(m, stored, user, status).1.Panic?
  }

  predicate Acts(m: Stored, stored: map<string, Class>, user: string, status: string)
  {
    !Single(m, stored, user, status).1.Rejected?
  }

  /** The loop over the loaded classes treats a message whose subclass was not asked for as one to be skipped, and any
      other as its single update does. */
  lemma {:induction false} BulkOfLoaded(messages: seq<Stored>, p: Stored -> bool, stored: map<string, Class>,
      ids: seq<string>, user: string, status: string)
    ensures Bulk(Only(messages, p), Loaded(stored, ids), user, status)
         == Singles(Only(messages, WithClassIn(p, ids)), stored, user, status)
  {
    if messages != [] {
      var m, rest, q := messages[0], messages[1..], WithClassIn(p, ids);
      BulkOfLoaded(rest, p, stored, ids, user, status);
      BulkCons(m, Only(rest, p), Loaded(stored, ids), user, status);
      SinglesCons(m, Only(rest, q), stored, user, status);
      if p(m) && !q(m) { PrefixedNothing(Bulk(Only(rest, p), Loaded(stored, ids), user, status)); }
      assert [] + Only(rest, p) == Only(rest, p) && [] + Only(rest, q) == Only(rest, q);
    }
  }

  lemma BulkCons(m: Stored, rest: seq<Stored>, classes: map<string, Class>, user: string, status: string)
    ensures var (s, outcome) := Update(m.state, ClassOf(classes, m.subClassId), m.target, user, status);
      Bulk([m] + rest, classes, user, status) ==
        if outcome.Panic? then None
        else Prefixed(if outcome.Done? then [m.(state := s)] else [], Bulk(rest, classes, user, status))
  {
    assert ([m] + rest)[1..] == rest;
  }

  lemma SinglesCons(m: Stored, rest: seq<Stored>, stored: map<string, Class>, user: string, status: string)
    ensures var (s, outcome) := Single(m, stored, user, status);
      Singles([m] + rest, stored, user, status) ==
        if outcome.Panic? then None
        else Prefixed(if outcome.Done? then [m.(state := s)] else [], Singles(rest, stored, user, status))
  {
    assert ([m] + rest)[1..] == rest;
  }

  lemma {:induction false} SinglesPanic(messages: seq<Stored>, p: Stored -> bool, stored: map<string, Class>,
      user: string, status: string)
    ensures Singles(Only(messages, p), stored, user, status).None?
      <==> exists m :: m in messages && p(m) && Panics(m, stored, user, status)
  {
    if messages != [] {
      var m, rest := messages[0], messages[1..];
      SinglesPanic(rest, p, stored, user, status);
      SinglesCons(m, Only(rest, p), stored, user, status);
      assert [] + Only(rest, p) == Only(rest, p);
    }
  }

  /** Keeping fewer messages makes a difference exactly if one of those dropped is updated. */
  lemma {:induction false} FewerSingles(messages: seq<Stored>, p: Stored -> bool, q: Stored -> bool,
      stored: map<string, Class>, user: string, status: string)
    requires forall m :: p(m) ==> q(m)
    requires forall m | m in messages && q(m) :: !Panics(m, stored, user, status)
    ensures var fewer := Singles(Only(messages, p), stored, user, status);
      var all := Singles(Only(messages, q), stored, user, status);
      && fewer.Some? && all.Some? && |fewer.value| <= |all.value|
      && (fewer == all <==> forall m | m in messages && q(m) && Acts(m, stored, user, status) :: p(m))
  {
    if messages != [] {
      var m, rest := messages[0], messages[1..];
      FewerSingles(rest, p, q, stored, user, status);
      SinglesCons(m, Only(rest, p), stored, user, status);
      SinglesCons(m, Only(rest, q), stored, user, status);
      assert [] + Only(rest, p) == Only(rest, p) && [] + Only(rest, q) == Only(rest, q);
      var fewer, all := Singles(Only(rest, p), stored, user, status), Singles(Only(rest, q), stored, user, status);
      PrefixedNothing(fewer);
      PrefixedNothing(all);
      assert forall x :: x in messages <==> x == m || x in rest;
      if p(m) && Acts(m, stored, user, status) {
        PrefixedOne(m.(state := Single(m, stored, user, status).0), fewer, all);
      }
    }
  }

  lemma PrefixedOne(m: Stored, a: Option<seq<Stored>>, b: Option<seq<Stored>>)
    ensures Prefixed([m], a) == Prefixed([m], b) <==> a == b
  {
    if a.Some? && b.Some? && [m] + a.value == [m] + b.value {
      assert ([m] + a.value)[1..] == a.value && ([m] + b.value)[1..] == b.value;
    }
  }

  /** The bulk request does for the messages it matches what one request for each would do, panics included, exactly if
      a message it reads with its class panics, or every message it matches that a single request would update, or
      panic on, is one it reads with its class. */
  lemma BulkIsSinglesIff(messages: seq<Stored>, filter: Filter, stored: map<string, Class>, user: string,
      status: string)
    ensures var agree := Handle(messages, filter, stored, user, status)
          == Singles(Only(messages, MatchedBy(filter)), stored, user, status);
      agree <==>
        || (exists m :: m in messages && Selected(m, filter, user, status) && m.subClassId in filter.ids
                        && Panics(m, stored, user, status))
        || (forall m | m in messages && Matches(m, filter) && Acts(m, stored, user, status) ::
              Selected(m, filter, user, status) && m.subClassId in filter.ids)
  {
    var p, q := WithClassIn(Reads(filter, user, status), filter.ids), MatchedBy(filter);
    BulkOfLoaded(messages, Reads(filter, user, status), stored, filter.ids, user, status);
    SinglesPanic(messages, p, stored, user, status);
    SinglesPanic(messages, q, stored, user, status);
    if forall m | m in messages && q(m) :: !Panics(m, stored, user, status) {
      FewerSingles(messages, p, q, stored, user, status);
    }
  }

  lemma UpdatableIsRead(m: Stored, filter: Filter, stored: map<string, Class>, user: string, status: string)
    requires (if filter.ByClass? then m.classId else m.subClassId) in filter.ids
    requires Single(m, stored, user, status).1.Done?
    ensures stored[m.subClassId].kind.Broadcast? ==> Selected(m, filter, user, status)
    ensures !stored[m.subClassId].kind.Broadcast? && m.state.sync.None? ==>
      (Selected(m, filter, user, status) <==> user in m.target)
    ensures stored[m.subClassId].kind.Exclusive? ==> user in m.target
  {
  }

  /** Where no single request panics and only broadcasts have entries, as created, that is: every message updated by a
      single request is of a class whose id is asked for and, unless exclusive or broadcast, addressed to the user. */
  lemma BulkIsSinglesIffAddressed(messages: seq<Stored>, filter: Filter, stored: map<string, Class>, user: string,
      status: string)
    requires forall m | m in messages && Matches(m, filter) ::
      !Panics(m, stored, user, status) && (ClassOf(stored, m.subClassId).kind.Broadcast? || m.state.sync.None?)
    ensures var agree := Handle(messages, filter, stored, user, status)
          == Singles(Only(messages, MatchedBy(filter)), stored, user, status);
      agree <==> forall m | m in messages && Matches(m, filter) && Acts(m, stored, user, status) ::
        m.subClassId in filter.ids && (stored[m.subClassId].kind.Other? ==> user in m.target)
  {
    BulkIsSinglesIff(messages, filter, stored, user, status);
    forall m | m in messages && Matches(m, filter) && Acts(m, stored, user, status)
      ensures Selected(m, filter, user, status) <==> (stored[m.subClassId].kind.Other? ==> user in m.target)
    {
      UpdatableIsRead(m, filter, stored, user, status);
    }
  }

  /** A message of a child class: asked for by its parent's id it is skipped, by its own it is updated. */
  lemma ParentSkipsChild(m: Stored, stored: map<string, Class>, user: string, status: string)
    requires Single(m, stored, user, status).1.Done?
    requires stored[m.subClassId].kind.Broadcast? || (m.state.sync.None? && user in m.target)
    ensures var updated := [m.(state := Single(m, stored, user, status).0)];
      && Handle([m], ByClass([m.classId]), stored, user, status)
         == Some(if m.subClassId == m.classId then updated else [])
      && Handle([m], BySubclass([m.subClassId]), stored, user, status) == Some(updated)
  {
    var byClass, bySubclass := ByClass([m.classId]), BySubclass([m.subClassId]);
    UpdatableIsRead(m, byClass, stored, user, status);
    UpdatableIsRead(m, bySubclass, stored, user, status);
    BulkOfLoaded([m], Reads(byClass, user, status), stored, byClass.ids, user, status);
    BulkOfLoaded([m], Reads(bySubclass, user, status), stored, bySubclass.ids, user, status);
    OnlyOne(m, WithClassIn(Reads(byClass, user, status), byClass.ids));
    OnlyOne(m, WithClassIn(Reads(bySubclass, user, status), bySubclass.ids));
    assert m.subClassId in byClass.ids <==> m.subClassId == m.classId;
    SinglesOne(m, stored, user, status);
  }

  lemma SinglesOne(m: Stored, stored: map<string, Class>, user: string, status: string)
    requires Single(m, stored, user, status).1.Done?
    ensures Singles([m], stored, user, status) == Some([m.(state := Single(m, stored, user, status).0)])
  {
    var done := [m.(state := Single(m, stored, user, status).0)];
    assert [m][1..] == [] && done + [] == done;
  }

  lemma OnlyOne(m: Stored, p: Stored -> bool)
    ensures Only([m], p) == if p(m) then [m] else []
  {
    assert [m][1..] == [];
  }

  // ---- Every run ----

  datatype Action = UpdateBy(user: string, status: string) | DeleteBy(user: string) | Reloaded

  function Act(s: State, class_: Class, target: seq<string>, a: Action): (State, Outcome)
  {
    match a
    case UpdateBy(user, status) => Update(s, class_, target, user, status)
    case DeleteBy(user) => Delete(s, class_, target, user)
    case Reloaded => (Reload(s), Done)
  }

  function Run(s: State, class_: Class, target: seq<string>, actions: seq<Action>): State
    decreases |actions|
  {
    if actions == [] then s else Run(Act(s, class_, target, actions[0]).0, class_, target, actions[1..])
  }

  predicate Conforms(s: State, class_: Class)
  {
    if class_.kind.Broadcast? then s.sync.Some? ==> forall u | u in s.sync.value :: s.sync.value[u] in class_.states
    else s.status in class_.states
  }

  lemma {:induction false} RunConforms(s: State, class_: Class, target: seq<string>, actions: seq<Action>)
    requires Conforms(s, class_)
    ensures Conforms(Run(s, class_, target, actions), class_)
    decreases |actions|
  {
    if actions != [] { RunConforms(Act(s, class_, target, actions[0]).0, class_, target, actions[1..]); }
  }

  /** From its creation on, a message's status (each receiver's, for a broadcast) is one of its class's states,
      whoever its receivers are by then. */
  lemma StatusStaysInStates(v: Version, carried: string, class_: Class, requested: seq<string>,
      listeners: Option<seq<string>>, target: seq<string>, actions: seq<Action>)
    requires Created(v, carried, class_, requested, listeners).Some?
    ensures Conforms(Run(Created(v, carried, class_, requested, listeners).value.0, class_, target, actions), class_)
  {
    RunConforms(Created(v, carried, class_, requested, listeners).value.0, class_, target, actions);
  }

  /** A deleted message (a broadcast message a receiver deleted, for that receiver) stays deleted. */
  lemma {:induction false} DeletedForever(s: State, class_: Class, target: seq<string>, user: string,
      actions: seq<Action>)
    requires if class_.kind.Broadcast? then Entry(s, user) == DELETED else s.status == DELETED
    ensures var t := Run(s, class_, target, actions);
      if class_.kind.Broadcast? then Entry(t, user) == DELETED else t.status == DELETED
    decreases |actions|
  {
    if actions != [] { DeletedForever(Act(s, class_, target, actions[0]).0, class_, target, user, actions[1..]); }
  }

  /** An action on a broadcast message changes at most the actor's entry, and one on any other message at most
      Status; on an exclusive message that takes a receiver. */
  lemma OnlyTheActor(s: State, class_: Class, target: seq<string>, a: Action, other: string)
    ensures var t := Act(s, class_, target, a).0;
      && (class_.kind.Broadcast? ==> t.status == s.status)
      && (class_.kind.Broadcast? && (a.Reloaded? || a.user != other) ==> Entry(t, other) == Entry(s, other))
      && (!class_.kind.Broadcast? ==> Entry(t, other) == Entry(s, other))
      && (class_.kind.Exclusive? && t.status != s.status ==> a.user in target)
      && (a.Reloaded? ==> t.status == s.status)
  {
  }

  predicate ActsNot(actions: seq<Action>, users: set<string>)
  {
    forall a | a in actions && !a.Reloaded? :: a.user !in users
  }

  /** Over a run, the entry of a user who does not act stays as it is, and the status of an exclusive message stays as
      it is if no receiver acts. */
  lemma {:induction false} OnlyActorsChange(s: State, class_: Class, target: seq<string>,
      actions: seq<Action>, user: string)
    ensures class_.kind.Broadcast? && ActsNot(actions, {user}) ==>
      Entry(Run(s, class_, target, actions), user) == Entry(s, user)
    ensures class_.kind.Exclusive? && ActsNot(actions, set u | u in target) ==>
      Run(s, class_, target, actions).status == s.status
    decreases |actions|
  {
    if actions != [] {
      assert actions[0] in actions;
      OnlyTheActor(s, class_, target, actions[0], user);
      OnlyActorsChange(Act(s, class_, target, actions[0]).0, class_, target, actions[1..], user);
    }
  }

  // ---- What is done, and when ----

  /** The status that the user's actions are about: the user's own entry for a broadcast, else the message's. */
  function Seen(s: State, class_: Class, user: string): string
  {
    if class_.kind.Broadcast? then Entry(s, user) else s.status
  }

  /** Nothing but what the user's actions are about differs. */
  predicate OnlySeenDiffers(s: State, t: State, class_: Class, user: string)
  {
    if class_.kind.Broadcast? then
      t.status == s.status && s.sync.Some? && t.sync.Some? && t.sync.value - {user} == s.sync.value - {user}
    else t.sync == s.sync
  }

  /** An update is done exactly if the status is a state of the class other than "deleted" and than the current one, the
      current one is not "deleted", the user is a receiver where the class is exclusive, and there is a map to write to
      where it is a broadcast.  Then the status is the one asked for, and nothing else differs; otherwise nothing at all
      does.  Lacking only the map it panics. */
  lemma UpdateDoneIff(s: State, class_: Class, target: seq<string>, user: string, status: string)
    ensures var (t, outcome) := Update(s, class_, target, user, status);
      var allowed := status in class_.states && status != DELETED && Seen(s, class_, user) != status
        && Seen(s, class_, user) != DELETED && (class_.kind.Exclusive? ==> user in target);
      && (outcome.Done? <==> allowed && (class_.kind.Broadcast? ==> s.sync.Some?))
      && (outcome.Panic? <==> allowed && class_.kind.Broadcast? && s.sync.None?)
      && (outcome.Done? ==> OnlySeenDiffers(s, t, class_, user) && Seen(t, class_, user) == status)
      && (!outcome.Done? ==> t == s)
  {
  }

  /** The first check that fails names the error. */
  lemma UpdateErrors(s: State, class_: Class, target: seq<string>, user: string, status: string)
    ensures var outcome := Update(s, class_, target, user, status).1;
      && (outcome == Rejected(100309) <==> status == DELETED)
      && (outcome == Rejected(100307) <==> status != DELETED && status !in class_.states)
      && (outcome == Rejected(100308) <==>
            status != DELETED && status in class_.states && Seen(s, class_, user) == status)
      && (outcome == Rejected(100316) <==>
            status != DELETED && status in class_.states && Seen(s, class_, user) == DELETED)
      && (outcome == Rejected(100313) <==>
            status != DELETED && status in class_.states && Seen(s, class_, user) !in [status, DELETED]
            && class_.kind.Exclusive? && user !in target)
  {
  }

  /** A deletion is done exactly if the class has the state "deleted", and the receiver and the map there must be; a
      message can be deleted twice. */
  lemma DeleteDoneIff(s: State, class_: Class, target: seq<string>, user: string)
    ensures var (t, outcome) := Delete(s, class_, target, user);
      var allowed := DELETED in class_.states && (class_.kind.Exclusive? ==> user in target);
      && (outcome.Done? <==> allowed && (class_.kind.Broadcast? ==> s.sync.Some?))
      && (outcome.Panic? <==> allowed && class_.kind.Broadcast? && s.sync.None?)
      && (outcome.Done? ==> OnlySeenDiffers(s, t, class_, user) && Seen(t, class_, user) == DELETED)
      && (!outcome.Done? ==> t == s)
      && (outcome == Rejected(100307) <==> DELETED !in class_.states)
      && (outcome == Rejected(100313) <==> DELETED in class_.states && class_.kind.Exclusive? && user !in target)
  {
  }

  /** What an action that is done leaves as the status. */
  function Wanted(a: Action): string
    requires !a.Reloaded?
  {
    if a.UpdateBy? then a.status else DELETED
  }

  /** Action i of a run is done; of a broadcast, by this user. */
  predicate DoneAt(s: State, class_: Class, target: seq<string>, actions: seq<Action>, user: string, i: nat)
    requires i < |actions|
  {
    && !actions[i].Reloaded?
    && Act(Run(s, class_, target, actions[..i]), class_, target, actions[i]).1.Done?
    && (class_.kind.Broadcast? ==> actions[i].user == user)
  }

  lemma {:induction false} RunSnoc(s: State, class_: Class, target: seq<string>, actions: seq<Action>, a: Action)
    ensures Run(s, class_, target, actions + [a]) == Act(Run(s, class_, target, actions), class_, target, a).0
    decreases |actions|
  {
    if actions == [] {
      assert actions + [a] == [a] && [a][1..] == [];
      assert Run(Act(s, class_, target, a).0, class_, target, []) == Act(s, class_, target, a).0;
    } else {
      assert (actions + [a])[1..] == actions[1..] + [a];
      RunSnoc(Act(s, class_, target, actions[0]).0, class_, target, actions[1..], a);
    }
  }

  /** One action: it leaves what it wants if it is done by the user (by anyone, but for a broadcast), else what was. */
  lemma OneAction(s: State, class_: Class, target: seq<string>, a: Action, user: string)
    ensures var (t, outcome) := Act(s, class_, target, a);
      Seen(t, class_, user) ==
        if !a.Reloaded? && outcome.Done? && (class_.kind.Broadcast? ==> a.user == user) then Wanted(a)
        else Seen(s, class_, user)
  {
    match a
    case UpdateBy(u, status) => UpdateDoneIff(s, class_, target, u, status);
    case DeleteBy(u) => DeleteDoneIff(s, class_, target, u);
    case Reloaded =>
  }

  lemma DoneBefore(s: State, class_: Class, target: seq<string>, before: seq<Action>, a: Action, user: string, i: nat)
    requires i < |before|
    ensures DoneAt(s, class_, target, before + [a], user, i) <==> DoneAt(s, class_, target, before, user, i)
  {
    assert (before + [a])[..i] == before[..i];
  }

  /** In every run the status a user sees (the user's own entry of a broadcast) is the one wanted by the last action
      that was done, at i, or the first status if none was. */
  lemma {:induction false} LastDoneStays(s: State, class_: Class, target: seq<string>, actions: seq<Action>,
      user: string, i: int)
    requires -1 <= i < |actions| && (i >= 0 ==> DoneAt(s, class_, target, actions, user, i))
    requires forall j | i < j < |actions| :: !DoneAt(s, class_, target, actions, user, j)
    ensures Seen(Run(s, class_, target, actions), class_, user) ==
      if i < 0 then Seen(s, class_, user) else Wanted(actions[i])
    decreases |actions|
  {
    if actions != [] {
      var n := |actions| - 1;
      var before, a := actions[..n], actions[n];
      assert actions == before + [a];
      RunSnoc(s, class_, target, before, a);
      OneAction(Run(s, class_, target, before), class_, target, a, user);
      if i < n {
        assert !DoneAt(s, class_, target, actions, user, n);
        if i >= 0 { DoneBefore(s, class_, target, before, a, user, i); }
        forall j | i < j < n ensures !DoneAt(s, class_, target, before, user, j) {
          DoneBefore(s, class_, target, before, a, user, j);
        }
        LastDoneStays(s, class_, target, before, user, i);
      }
    }
  }

  /** A new message of a broadcast class has an entry for each receiver that gets a first status, which is the first
      state of the class, and for no one else; any other has the first state as its status.  The class needs a state
      unless there is no receiver to give one. */
  lemma FirstStatus(v: Version, carried: string, class_: Class, requested: seq<string>, listeners: Option<seq<string>>)
    ensures var created := Created(v, carried, class_, requested, listeners);
      var marked := if v.Older? || listeners.None? then requested else listeners.value;
      && (created.None? <==> class_.states == [] && (class_.kind.Broadcast? ==> marked != []))
      && (created.Some? ==>
            var (s, target) := created.value;
            && target == (if listeners.Some? then listeners.value else requested)
            && (!class_.kind.Broadcast? ==> s.status == class_.states[0])
            && (class_.kind.Broadcast? ==>
                  && s.status == (if v.Older? then carried else "")
                  && s.sync.Some? && (forall u :: u in s.sync.value <==> u in marked)
                  && (forall u | u in marked :: s.sync.value[u] == class_.states[0])))
  {
  }

  // ---- The nil map ----

  predicate WritesEntry(class_: Class, a: Action)
  {
    class_.kind.Broadcast? && DELETED in class_.states &&
    (a.DeleteBy? || (a.UpdateBy? && a.status != DELETED && a.status in class_.states && a.status != ""))
  }

  lemma {:induction false} SyncStays(s: State, class_: Class, target: seq<string>, actions: seq<Action>)
    requires class_.kind.Broadcast? && s.sync != Some(map[])
    ensures var t := Run(s, class_, target, actions); t.sync.None? == s.sync.None? && t.sync != Some(map[])
    decreases |actions|
  {
    if actions != [] {
      var t := Act(s, class_, target, actions[0]).0;
      if s.sync.Some? {
        var u :| u in s.sync.value;
        assert u in t.sync.value;
      }
      SyncStays(t, class_, target, actions[1..]);
    }
  }

  /** Once stored, under a class with the deleted state, and whatever happened since, an action on a message makes a
      handler panic exactly if no receiver got a first status when it was created and the action writes an entry; who
      the receivers are by now does not matter. */
  lemma PanicsIffNoneMarked(v: Version, carried: string, class_: Class, requested: seq<string>,
      listeners: Option<seq<string>>, target: seq<string>, actions: seq<Action>, a: Action)
    requires DELETED in class_.states
    ensures Created(v, carried, class_, requested, listeners).Some?
    ensures var s := Run(Reload(Created(v, carried, class_, requested, listeners).value.0), class_, target, actions);
      Act(s, class_, target, a).1.Panic? <==> Marked(v, requested, listeners) == [] && WritesEntry(class_, a)
  {
    assert class_.states != [];
    var marked := Marked(v, requested, listeners);
    var s := Created(v, carried, class_, requested, listeners).value.0;
    if class_.kind.Broadcast? {
      if marked != [] { assert marked[0] in s.sync.value; }
      SyncStays(Reload(s), class_, target, actions);
    }
  }
}
