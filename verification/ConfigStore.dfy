/** The store of message class configurations: creation with inheritance from a parent, update, deletion, the check
    of action graphs, and the stored email credentials. */
module ConfigStore {
  import opened Options
  import opened Base64
  import Aes

  const DELETED := "deleted"
  const TYPES := ["shared", "broadcast", "exclusive", "linkage"]
  const MODES := ["push", "pull", "third-party", "email", "sms", "feishu", "dingtalk", "listening"]
  const METHODS := ["get", "post", "put", "delete"]
  const ACTION_TYPES := ["http"]

  /** A Go string is a string of bytes; one character stands for one byte. */
  type Text = s: string | forall k | 0 <= k < |s| :: s[k] as int < 256

  function BytesOf(s: Text): Bytes
  {
    seq(|s|, k requires 0 <= k < |s| => s[k] as int)
  }

  datatype Trigger = Trigger(kind: string, url: string, verb: string)

  datatype Action = Action(name: string, trigger: Trigger, next: string)

  datatype Policy = Policy(kafka: string, http: string)

  datatype Email = Email(account: string, password: string)

  /** `kind` is the field Type.  A missing list of states or actions is None, and reads as empty once stored. */
  datatype Configuration = Configuration(
    classId: string, parentId: string, appId: string, name: string, persist: bool, states: seq<string>,
    kind: string, mode: string, callbacks: Policy, actions: seq<Action>, email: Email)

  datatype Request = Request(
    classId: string, parentId: string, appId: string, name: string, persist: bool, states: Option<seq<string>>,
    kind: string, mode: string, callbacks: Policy, actions: Option<seq<Action>>, account: string, password: Text)

  /** The service's own settings: the default account and password, the secret key, and the block cipher. */
  datatype Settings = Settings(account: string, password: Text, key: Bytes, family: Aes.Family)

  /** Whether the read that looks for an existing class, the read that loads a configuration (or a parent), the write
      to the cache and the write to the database succeed. */
  datatype Env = Env(probeOk: bool, loadOk: bool, cacheOk: bool, databaseOk: bool)

  datatype Result<+T> = Done(value: T) | Failed(code: int)

  // ---- Checks on actions ----

  method ValidateNextAction(a: Action, actions: seq<Action>) returns (r: Option<int>)
    ensures r == NextActionError(a, actions)
  {
    if a.next == a.name { return Some(100106); }
    var count, check := 0, false;
    for k := 0 to |actions|
      invariant count == |Named(actions[..k], a.name)|
      invariant check <==> Named(actions[..k], a.next) != []
    {
      assert actions[..k + 1] == actions[..k] + [actions[k]];
      NamedSnoc(actions[..k], actions[k], a.name);
      NamedSnoc(actions[..k], actions[k], a.next);
      if a.name == actions[k].name { count := count + 1; }
      if a.next == actions[k].name { check := true; }
    }
    assert actions[..|actions|] == actions;
    if count > 1 { return Some(100107); }
    if !check { return Some(100108); }
    r := None;
  }

  method ValidateActions(actions: seq<Action>) returns (r: Option<int>)
    ensures r == ActionsError(actions, actions)
  {
    for k := 0 to |actions|
      invariant ActionsError(actions, actions) == ActionsError(actions[k..], actions)
    {
      var a := actions[k];
      assert actions[k..][1..] == actions[k + 1..];
      if a.next != "" {
        r := ValidateNextAction(a, actions);
        if r.Some? { return; }
      }
      if a.trigger.url != "" {
        if a.trigger.kind !in ACTION_TYPES { return Some(100109); }
        if a.trigger.verb !in METHODS { return Some(100110); }
      }
    }
    r := None;
  }

  function Named(actions: seq<Action>, name: string): seq<Action>
  {
    if actions == [] then []
    else (if actions[0].name == name then [actions[0]] else []) + Named(actions[1..], name)
  }

  function NextActionError(a: Action, actions: seq<Action>): Option<int>
  {
    if a.next == a.name then Some(100106)
    else if |Named(actions, a.name)| > 1 then Some(100107)
    else if Named(actions, a.next) == [] then Some(100108)
    else None
  }

  function TriggerError(t: Trigger): Option<int>
  {
    if t.url == "" then None
    else if t.kind !in ACTION_TYPES then Some(100109)
    else if t.verb !in METHODS then Some(100110)
    else None
  }

  function ActionsError(todo: seq<Action>, actions: seq<Action>): Option<int>
  {
    if todo == [] then None
    else if todo[0].next != "" && NextActionError(todo[0], actions).Some? then NextActionError(todo[0], actions)
    else if TriggerError(todo[0].trigger).Some? then TriggerError(todo[0].trigger)
    else ActionsError(todo[1..], actions)
  }

  lemma Regroup(a: seq<Action>, b: seq<Action>, c: seq<Action>)
    ensures a + (b + c) == (a + b) + c
  {
  }

  lemma {:induction false} NamedSnoc(actions: seq<Action>, a: Action, name: string)
    ensures Named(actions + [a], name) == Named(actions, name) + if a.name == name then [a] else []
  {
    if actions == [] {
      assert [a][1..] == [];
    } else {
      var rest := actions[1..];
      assert (actions + [a])[1..] == rest + [a];
      NamedSnoc(rest, a, name);
      Regroup(if actions[0].name == name then [actions[0]] else [], Named(rest, name),
              if a.name == name then [a] else []);
    }
  }

  lemma {:induction false} NamedNone(actions: seq<Action>, name: string)
    ensures Named(actions, name) == [] <==> forall b | b in actions :: b.name != name
  {
    if actions != [] {
      assert actions == [actions[0]] + actions[1..];
      NamedNone(actions[1..], name);
    }
  }

  lemma {:induction false} NamedOnce(actions: seq<Action>, name: string)
    ensures |Named(actions, name)| <= 1 <==>
      forall j, k | 0 <= j < k < |actions| :: !(actions[j].name == name == actions[k].name)
  {
    if actions != [] {
      var rest := actions[1..];
      NamedOnce(rest, name);
      NamedNone(rest, name);
      if |Named(actions, name)| <= 1 {
        forall j, k | 0 <= j < k < |actions| ensures !(actions[j].name == name == actions[k].name) {
          assert actions[k] == rest[k - 1] && rest[k - 1] in rest;
          if j > 0 { assert actions[j] == rest[j - 1]; }
        }
      } else if |Named(rest, name)| <= 1 {
        var b :| b in rest && b.name == name;
        var k :| 0 <= k < |rest| && rest[k] == b;
        assert actions[0].name == name == actions[k + 1].name;
      } else {
        var j, k :| 0 <= j < k < |rest| && rest[j].name == name == rest[k].name;
        assert actions[j + 1].name == name == actions[k + 1].name;
      }
    }
  }

  /** What the checks ask of one action among all: its successor is another action of the list, its own name is
      unique if it has a successor, and its trigger is a known request. */
  predicate Sound(a: Action, actions: seq<Action>)
  {
    && (a.next != "" ==>
          && a.next != a.name
          && (exists b | b in actions :: b.name == a.next)
          && (forall j, k | 0 <= j < k < |actions| :: !(actions[j].name == a.name == actions[k].name)))
    && (a.trigger.url != "" ==> a.trigger.kind in ACTION_TYPES && a.trigger.verb in METHODS)
  }

  lemma SoundMeaning(a: Action, actions: seq<Action>)
    ensures Sound(a, actions) <==> (a.next != "" ==> NextActionError(a, actions).None?) && TriggerError(a.trigger).None?
  {
    NamedNone(actions, a.next);
    NamedOnce(actions, a.name);
  }

  lemma {:induction false} ErrorFree(todo: seq<Action>, actions: seq<Action>)
    ensures ActionsError(todo, actions).None? <==> forall a | a in todo :: Sound(a, actions)
  {
    if todo != [] {
      SoundMeaning(todo[0], actions);
      ErrorFree(todo[1..], actions);
      assert todo == [todo[0]] + todo[1..];
    }
  }

  /** The error is that of the first action that is not sound: a successor that is itself, a name that is not unique, a
      successor that is no action of the list, or a trigger of unknown kind or method, in this order. */
  lemma {:induction false} FirstUnsound(todo: seq<Action>, actions: seq<Action>, k: nat)
    requires k < |todo| && (forall j | 0 <= j < k :: Sound(todo[j], actions)) && !Sound(todo[k], actions)
    ensures var a := todo[k];
      ActionsError(todo, actions) == Some(
        if a.next != "" && a.next == a.name then 100106
        else if a.next != "" && exists i, j | 0 <= i < j < |actions| :: actions[i].name == a.name == actions[j].name
        then 100107
        else if a.next != "" && forall b | b in actions :: b.name != a.next then 100108
        else if a.trigger.kind !in ACTION_TYPES then 100109
        else 100110)
    decreases k
  {
    SoundMeaning(todo[0], actions);
    if k > 0 {
      assert Sound(todo[0], actions);
      FirstUnsound(todo[1..], actions, k - 1);
    } else {
      NamedOnce(actions, todo[0].name);
      NamedNone(actions, todo[0].next);
    }
  }

  /** The action reached from a name; a name the list does not hold leads nowhere. */
  function Next(actions: seq<Action>, name: string): Option<string>
  {
    if Named(actions, name) == [] then None else Some(Named(actions, name)[0].next)
  }

  /** Following nextAction `steps` times, stopping at an action without one; None when the list was left. */
  function Walk(actions: seq<Action>, name: string, steps: nat): Option<string>
    decreases steps
  {
    if steps == 0 || name == "" then Some(name)
    else
      match Next(actions, name)
      case Some(next) => Walk(actions, next, steps - 1)
      case None => None
  }

  lemma {:induction false} NamedHead(actions: seq<Action>, name: string)
    requires Named(actions, name) != []
    ensures Named(actions, name)[0] in actions && Named(actions, name)[0].name == name
    decreases |actions|
  {
    if actions[0].name != name { NamedHead(actions[1..], name); }
  }

  /** However long one follows nextAction from an action of a checked list, one stays in the list or reaches an
      action without a successor. */
  lemma {:induction false} WalkStays(actions: seq<Action>, name: string, steps: nat)
    requires ActionsError(actions, actions).None?
    requires name == "" || exists a | a in actions :: a.name == name
    ensures var end := Walk(actions, name, steps);
      end.Some? && (end.value == "" || exists a | a in actions :: a.name == end.value)
    decreases steps
  {
    if steps > 0 && name != "" {
      NamedNone(actions, name);
      NamedHead(actions, name);
      var a := Named(actions, name)[0];
      ErrorFree(actions, actions);
      assert Sound(a, actions);
      WalkStays(actions, a.next, steps - 1);
    }
  }

  // ---- Finding ----

  function Place(docs: seq<Configuration>, classId: string): (k: nat)
    ensures k <= |docs| && (k < |docs| ==> docs[k].classId == classId)
    ensures forall j | 0 <= j < k :: docs[j].classId != classId
  {
    if docs == [] || docs[0].classId == classId then 0 else 1 + Place(docs[1..], classId)
  }

  // ---- What creation builds ----

  function Seal(settings: Settings, password: Text): Option<string>
  {
    Aes.EncryptBase64(settings.family, BytesOf(password), settings.key)
  }

  predicate Supplies(req: Request)
  {
    req.account != "" && req.password != ""
  }

  /** The checks of a request whose fields are all its own. */
  function FieldsError(states: Option<seq<string>>, kind: Option<string>, mode: Option<string>,
      actions: Option<seq<Action>>): Option<int>
  {
    if states.Some? && DELETED !in states.value then Some(100103)
    else if kind.Some? && kind.value !in TYPES then Some(100104)
    else if mode.Some? && mode.value !in MODES then Some(100105)
    else if actions.Some? then ActionsError(actions.value, actions.value)
    else None
  }

  function Given(s: string): Option<string>
  {
    if s == "" then None else Some(s)
  }

  function Or(s: string, fallback: string): string
  {
    if s == "" then fallback else s
  }

  function GetOr<T>(o: Option<T>, fallback: T): T
  {
    if o.Some? then o.value else fallback
  }

  function ChildBase(req: Request, parent: Configuration): Result<Configuration>
  {
    var error := FieldsError(req.states, Given(req.kind), Given(req.mode), req.actions);
    if error.Some? then Failed(error.value)
    else
      var complete := req.callbacks.kafka != "" && req.callbacks.http != "";
      var callbacks := if complete then req.callbacks else parent.callbacks;
      Done(Configuration(
        req.classId, req.parentId, Or(req.appId, parent.appId), Or(req.name, parent.name), req.persist,
        GetOr(req.states, parent.states), Or(req.kind, parent.kind), Or(req.mode, parent.mode), callbacks,
        GetOr(req.actions, parent.actions), Email("", "")))
  }

  function RootBase(req: Request): Result<Configuration>
  {
    var states, actions := GetOr(req.states, []), GetOr(req.actions, []);
    var error := FieldsError(Some(states), Some(req.kind), Some(req.mode), Some(actions));
    if error.Some? then Failed(error.value)
    else
      Done(Configuration(
        req.classId, req.parentId, req.appId, req.name, req.persist, states, req.kind, req.mode, req.callbacks,
        actions, Email("", "")))
  }

  function ChildEmail(req: Request, parent: Configuration, settings: Settings): Result<Email>
  {
    if !Supplies(req) then Done(parent.email)
    else
      match Seal(settings, req.password)
      case Some(sealed) => Done(Email(req.account, sealed))
      case None => Failed(1000)
  }

  function RootEmail(req: Request, settings: Settings): Result<Email>
  {
    match Seal(settings, if Supplies(req) then req.password else settings.password)
    case Some(sealed) => Done(Email(if Supplies(req) then req.account else settings.account, sealed))
    case None => Failed(1000)
  }

  /** Only a configuration in email mode has email credentials. */
  function WithEmail(made: Result<Configuration>, email: Result<Email>): Result<Configuration>
  {
    if made.Failed? || made.value.mode != "email" then made
    else if email.Failed? then Failed(email.code)
    else Done(made.value.(email := email.value))
  }

  function ChildOf(req: Request, parent: Configuration, settings: Settings): Result<Configuration>
  {
    WithEmail(ChildBase(req, parent), ChildEmail(req, parent, settings))
  }

  function RootOf(req: Request, settings: Settings): Result<Configuration>
  {
    WithEmail(RootBase(req), RootEmail(req, settings))
  }

  /** A read that fails finds nothing: the class id then counts as free, and a parent as missing. */
  function Made(docs: seq<Configuration>, req: Request, env: Env, settings: Settings): Result<Configuration>
  {
    if req.classId == "" || req.parentId == "" then Failed(100002)
    else if env.probeOk && Place(docs, req.classId) < |docs| then Failed(100101)
    else if req.parentId == "0" then RootOf(req, settings)
    else if !env.loadOk || Place(docs, req.parentId) == |docs| then Failed(100102)
    else ChildOf(req, docs[Place(docs, req.parentId)], settings)
  }

  function ChangedBase(c: Configuration, req: Request): Result<Configuration>
  {
    var error := FieldsError(req.states, Given(req.kind), Given(req.mode), req.actions);
    if error.Some? then Failed(error.value)
    else
      Done(c.(appId := Or(req.appId, c.appId), name := Or(req.name, c.name), states := GetOr(req.states, c.states),
              kind := Or(req.kind, c.kind), mode := Or(req.mode, c.mode), actions := GetOr(req.actions, c.actions)))
  }

  /** What validation of an update makes of the configuration it loaded. */
  function Changed(c: Configuration, req: Request, settings: Settings): Result<Configuration>
  {
    if req.classId == "" then Failed(100002)
    else
      var made := ChangedBase(c, req);
      if made.Failed? || req.mode != "email" || !Supplies(req) then made
      else
        match Seal(settings, req.password)
        case Some(sealed) => Done(made.value.(email := Email(req.account, sealed)))
        case None => Failed(1000)
  }

  // ---- The store ----

  /** The collection, in order of insertion, and the class ids with a user list in the cache. */
  datatype State = State(docs: seq<Configuration>, lists: set<string>)

  class Store {
    var docs: seq<Configuration>
    var lists: set<string>
    const settings: Settings

    constructor (settings: Settings)
      ensures Now() == State([], {}) && this.settings == settings
    {
      docs, lists := [], {};
      this.settings := settings;
    }

    function Now(): State
      reads this
    {
      State(docs, lists)
    }

    /** FindOne: the first document with the class id; the end if there is none or the read fails. */
    method Find(classId: string, readOk: bool) returns (k: nat)
      ensures k == if readOk then Place(docs, classId) else |docs|
    {
      if !readOk { return |docs|; }
      k := 0;
      while k < |docs| && docs[k].classId != classId
        invariant k <= |docs| && Place(docs, classId) == k + Place(docs[k..], classId)
      {
        assert docs[k..][1..] == docs[k + 1..];
        k := k + 1;
      }
    }

    method ValidateChildFields(req: Request, parent: Configuration) returns (r: Result<Configuration>)
      ensures r == ChildBase(req, parent)
    {
      var appId, name, kind, mode := req.appId, req.name, req.kind, req.mode;
      var states, actions, callbacks := parent.states, parent.actions, req.callbacks;
      if appId == "" { appId := parent.appId; }
      if name == "" { name := parent.name; }
      if req.states.Some? {
        if DELETED !in req.states.value { return Failed(100103); }
        states := req.states.value;
      }
      if kind == "" { kind := parent.kind; } else if kind !in TYPES { return Failed(100104); }
      if mode == "" { mode := parent.mode; } else if mode !in MODES { return Failed(100105); }
      if callbacks.kafka == "" || callbacks.http == "" { callbacks := parent.callbacks; }
      if req.actions.Some? {
        var error := ValidateActions(req.actions.value);
        if error.Some? { return Failed(error.value); }
        actions := req.actions.value;
      }
      r := Done(Configuration(req.classId, req.parentId, appId, name, req.persist, states, kind, mode, callbacks,
          actions, Email("", "")));
    }

    method ValidateChild(req: Request, parent: Configuration) returns (r: Result<Configuration>)
      ensures r == ChildOf(req, parent, settings)
    {
      r := ValidateChildFields(req, parent);
      if r.Done? && r.value.mode == "email" {
        if req.account == "" || req.password == "" {
          r := Done(r.value.(email := parent.email));
        } else {
          var sealed := Aes.AesEncryptBase64(settings.family, BytesOf(req.password), settings.key);
          if sealed.None? { return Failed(1000); }
          r := Done(r.value.(email := Email(req.account, sealed.value)));
        }
      }
    }

    method ValidateRootFields(req: Request) returns (r: Result<Configuration>)
      ensures r == RootBase(req)
    {
      var states, actions := [], [];
      if req.states.Some? { states := req.states.value; }
      if req.actions.Some? { actions := req.actions.value; }
      if DELETED !in states { return Failed(100103); }
      if req.kind !in TYPES { return Failed(100104); }
      if req.mode !in MODES { return Failed(100105); }
      var error := ValidateActions(actions);
      if error.Some? { return Failed(error.value); }
      r := Done(Configuration(req.classId, req.parentId, req.appId, req.name, req.persist, states, req.kind, req.mode,
                              req.callbacks, actions, Email("", "")));
    }

    method ValidateRoot(req: Request) returns (r: Result<Configuration>)
      ensures r == RootOf(req, settings)
    {
      r := ValidateRootFields(req);
      if r.Done? && r.value.mode == "email" {
        var account, password := req.account, req.password;
        if account == "" || password == "" {
          account, password := settings.account, settings.password;
        }
        var sealed := Aes.AesEncryptBase64(settings.family, BytesOf(password), settings.key);
        if sealed.None? { return Failed(1000); }
        r := Done(r.value.(email := Email(account, sealed.value)));
      }
    }

    method ValidateCreate(req: Request, env: Env) returns (r: Result<Configuration>)
      ensures r == Made(docs, req, env, settings)
    {
      if req.classId == "" || req.parentId == "" { return Failed(100002); }
      var same := Find(req.classId, env.probeOk);
      if same < |docs| { return Failed(100101); }
      if req.parentId != "0" {
        var p := Find(req.parentId, env.loadOk);
        if p == |docs| { return Failed(100102); }
        r := ValidateChild(req, docs[p]);
      } else {
        r := ValidateRoot(req);
      }
    }

    method CreateConfiguration(req: Request, env: Env) returns (r: Result<Configuration>)
      modifies this
      ensures (Now(), r) == Create(old(Now()), req, env, settings)
    {
      r := ValidateCreate(req, env);
      if r.Failed? { return; }
      if r.value.mode == "listening" {
        if !env.cacheOk { return Failed(1001); }
        lists := lists + {r.value.classId};
      }
      if !env.databaseOk { return Failed(1001); }
      docs := docs + [r.value];
    }

    method ValidateUpdateFields(c: Configuration, req: Request) returns (r: Result<Configuration>)
      ensures r == ChangedBase(c, req)
    {
      var appId, name, states, kind, mode, actions := c.appId, c.name, c.states, c.kind, c.mode, c.actions;
      if req.appId != "" { appId := req.appId; }
      if req.name != "" { name := req.name; }
      if req.states.Some? {
        if DELETED !in req.states.value { return Failed(100103); }
        states := req.states.value;
      }
      if req.kind != "" {
        if req.kind !in TYPES { return Failed(100104); }
        kind := req.kind;
      }
      if req.mode != "" {
        if req.mode !in MODES { return Failed(100105); }
        mode := req.mode;
      }
      if req.actions.Some? {
        var error := ValidateActions(req.actions.value);
        if error.Some? { return Failed(error.value); }
        actions := req.actions.value;
      }
      r := Done(c.(appId := appId, name := name, states := states, kind := kind, mode := mode, actions := actions));
    }

    method ValidateUpdate(c: Configuration, req: Request) returns (r: Result<Configuration>)
      ensures r == Changed(c, req, settings)
    {
      if req.classId == "" { return Failed(100002); }
      r := ValidateUpdateFields(c, req);
      if r.Done? && req.mode == "email" && req.account != "" && req.password != "" {
        var sealed := Aes.AesEncryptBase64(settings.family, BytesOf(req.password), settings.key);
        if sealed.None? { return Failed(1000); }
        r := Done(r.value.(email := Email(req.account, sealed.value)));
      }
    }

    /** The write names the fields it sets, and the credentials are not among them. */
    method UpdateConfiguration(req: Request, id: string, env: Env) returns (r: Result<Configuration>)
      modifies this
      ensures (Now(), r) == Update(old(Now()), req, id, env, settings)
    {
      var k := Find(id, env.loadOk);
      if k == |docs| { return Failed(100112); }
      r := ValidateUpdate(docs[k], req);
      if r.Failed? { return; }
      if !env.databaseOk { return Failed(1001); }
      var c := r.value;
      docs := docs[k := docs[k].(classId := c.classId, parentId := c.parentId, appId := c.appId, name := c.name,
                                 persist := c.persist, states := c.states, kind := c.kind, mode := c.mode,
                                 callbacks := c.callbacks, actions := c.actions)];
    }

    method DeleteConfiguration(id: string, env: Env) returns (r: Result<Configuration>)
      modifies this
      ensures (Now(), r) == Delete(old(Now()), id, env)
    {
      var k := Find(id, env.loadOk);
      if k == |docs| { return Failed(100112); }
      if !env.databaseOk { return Failed(1001); }
      var c := docs[k];
      docs := docs[..k] + docs[k + 1..];
      if c.mode == "listening" {
        if !env.cacheOk { return Failed(1001); }
        lists := lists - {c.classId};
      }
      r := Done(c);
    }
  }

  // ---- Its specification ----

  function Create(s: State, req: Request, env: Env, settings: Settings): (State, Result<Configuration>)
  {
    var made := Made(s.docs, req, env, settings);
    if made.Failed? then (s, made)
    else
      var listening := made.value.mode == "listening";
      if listening && !env.cacheOk then (s, Failed(1001))
      else
        var next := if listening then s.(lists := s.lists + {made.value.classId}) else s;
        if !env.databaseOk then (next, Failed(1001)) else (next.(docs := s.docs + [made.value]), made)
  }

  function Loaded(s: State, id: string, env: Env): nat
  {
    if env.loadOk then Place(s.docs, id) else |s.docs|
  }

  function Update(s: State, req: Request, id: string, env: Env, settings: Settings): (State, Result<Configuration>)
  {
    var k := Loaded(s, id, env);
    if k == |s.docs| then (s, Failed(100112))
    else
      var changed := Changed(s.docs[k], req, settings);
      if changed.Failed? then (s, changed)
      else if !env.databaseOk then (s, Failed(1001))
      else (s.(docs := s.docs[k := changed.value.(email := s.docs[k].email)]), changed)
  }

  function Delete(s: State, id: string, env: Env): (State, Result<Configuration>)
  {
    var k := Loaded(s, id, env);
    if k == |s.docs| then (s, Failed(100112))
    else if !env.databaseOk then (s, Failed(1001))
    else
      var c := s.docs[k];
      var next := s.(docs := s.docs[..k] + s.docs[k + 1..]);
      if c.mode != "listening" then (next, Done(c))
      else if !env.cacheOk then (next, Failed(1001))
      else (next.(lists := s.lists - {c.classId}), Done(c))
  }

  // ---- Runs ----

  datatype Event =
    | CreateEv(req: Request, env: Env)
    | UpdateEv(req: Request, id: string, env: Env)
    | DeleteEv(id: string, env: Env)

  function Step(s: State, e: Event, settings: Settings): (State, Result<Configuration>)
  {
    match e
    case CreateEv(req, env) => Create(s, req, env, settings)
    case UpdateEv(req, id, env) => Update(s, req, id, env, settings)
    case DeleteEv(id, env) => Delete(s, id, env)
  }

  function Run(s: State, events: seq<Event>, settings: Settings): State
    decreases |events|
  {
    if events == [] then s else Run(Step(s, events[0], settings).0, events[1..], settings)
  }

  predicate Legal(c: Configuration)
  {
    && DELETED in c.states && c.kind in TYPES && c.mode in MODES
    && forall a | a in c.actions :: Sound(a, c.actions)
  }

  predicate AllLegal(docs: seq<Configuration>)
  {
    forall k | 0 <= k < |docs| :: Legal(docs[k])
  }

  lemma ChildLegal(req: Request, parent: Configuration)
    requires Legal(parent) && ChildBase(req, parent).Done?
    ensures Legal(ChildBase(req, parent).value)
  {
    if req.actions.Some? { ErrorFree(req.actions.value, req.actions.value); }
  }

  lemma RootLegal(req: Request)
    requires RootBase(req).Done?
    ensures Legal(RootBase(req).value)
  {
    ErrorFree(GetOr(req.actions, []), GetOr(req.actions, []));
  }

  lemma EmailKeepsLegal(c: Configuration, email: Email)
    requires Legal(c)
    ensures Legal(c.(email := email))
  {
  }

  lemma MadeLegal(docs: seq<Configuration>, req: Request, env: Env, settings: Settings)
    requires AllLegal(docs) && Made(docs, req, env, settings).Done?
    ensures Legal(Made(docs, req, env, settings).value)
  {
    var made := Made(docs, req, env, settings).value;
    if req.parentId == "0" {
      RootLegal(req);
      EmailKeepsLegal(RootBase(req).value, made.email);
    } else {
      var parent := docs[Place(docs, req.parentId)];
      ChildLegal(req, parent);
      EmailKeepsLegal(ChildBase(req, parent).value, made.email);
    }
  }

  lemma ChangedBaseLegal(c: Configuration, req: Request)
    requires Legal(c) && ChangedBase(c, req).Done?
    ensures Legal(ChangedBase(c, req).value)
  {
    if req.actions.Some? { ErrorFree(req.actions.value, req.actions.value); }
  }

  lemma ChangedLegal(c: Configuration, req: Request, settings: Settings)
    requires Legal(c) && Changed(c, req, settings).Done?
    ensures Legal(Changed(c, req, settings).value.(email := c.email))
        && Changed(c, req, settings).value.classId == c.classId
  {
    ChangedBaseLegal(c, req);
    EmailKeepsLegal(ChangedBase(c, req).value, c.email);
    assert Changed(c, req, settings).value.(email := c.email) == ChangedBase(c, req).value.(email := c.email);
  }

  lemma StepKeepsLegal(s: State, e: Event, settings: Settings)
    requires AllLegal(s.docs)
    ensures AllLegal(Step(s, e, settings).0.docs)
  {
    match e {
      case CreateEv(req, env) =>
        if Made(s.docs, req, env, settings).Done? { MadeLegal(s.docs, req, env, settings); }
      case UpdateEv(req, id, env) =>
        var k := Loaded(s, id, env);
        if k < |s.docs| && Changed(s.docs[k], req, settings).Done? { ChangedLegal(s.docs[k], req, settings); }
      case DeleteEv(_, _) =>
    }
  }

  lemma {:induction false} RunKeepsLegal(s: State, events: seq<Event>, settings: Settings)
    requires AllLegal(s.docs)
    ensures AllLegal(Run(s, events, settings).docs)
    decreases |events|
  {
    if events != [] {
      StepKeepsLegal(s, events[0], settings);
      RunKeepsLegal(Step(s, events[0], settings).0, events[1..], settings);
    }
  }

  const EMPTY := State([], {})

  /** Whatever requests are made, and whichever reads and writes fail, every stored configuration has the state
      "deleted", a known type and mode, and sound actions. */
  lemma StoredIsLegal(events: seq<Event>, settings: Settings)
    ensures AllLegal(Run(EMPTY, events, settings).docs)
  {
    RunKeepsLegal(EMPTY, events, settings);
  }

  /** Following nextAction from any stored action, one without a name included, for however long, never leaves the list
      of its configuration. */
  lemma StoredActionsStayInside(events: seq<Event>, settings: Settings, c: Configuration, a: Action, steps: nat)
    requires c in Run(EMPTY, events, settings).docs && a in c.actions
    ensures var end := Walk(c.actions, a.next, steps);
      end.Some? && (end.value == "" || exists b | b in c.actions :: b.name == end.value)
  {
    RunKeepsLegal(EMPTY, events, settings);
    ErrorFree(c.actions, c.actions);
    assert Sound(a, c.actions);
    WalkStays(c.actions, a.next, steps);
  }

  /** A failed request leaves the collection as it was, but for one case: a listening class is removed before its
      user list is, so that a deletion that fails at the cache has happened. */
  lemma FailureLeavesCollection(s: State, e: Event, settings: Settings)
    requires Step(s, e, settings).1.Failed?
    ensures var k := if e.DeleteEv? then Place(s.docs, e.id) else |s.docs|;
      Step(s, e, settings).0.docs != s.docs <==>
        e.DeleteEv? && e.env.loadOk && e.env.databaseOk && !e.env.cacheOk
        && k < |s.docs| && s.docs[k].mode == "listening"
  {
    if e.DeleteEv? {
      var k := Place(s.docs, e.id);
      if k < |s.docs| { assert |s.docs[..k] + s.docs[k + 1..]| == |s.docs| - 1; }
    }
  }

  // ---- What is stored ----

  /** The credentials of a new class below a parent (a root has none above it): none unless it is in email mode; there
      its own, the password sealed, if it supplies both account and password; else the parent's, or for a root the
      service's own account with its password sealed. */
  predicate CredentialsAre(email: Email, mode: string, req: Request, parent: Option<Configuration>, settings: Settings)
  {
    if mode != "email" then email == Email("", "")
    else if req.account != "" && req.password != "" then
      email.account == req.account && Seal(settings, req.password) == Some(email.password)
    else if parent.Some? then email == parent.value.email
    else email.account == settings.account && Seal(settings, settings.password) == Some(email.password)
  }

  /** A class created below a parent has every field that is given as given, and every other as the parent has it; the
      callbacks count as given only both together. */
  predicate Inherits(c: Configuration, req: Request, parent: Configuration)
  {
    && c.classId == req.classId && c.parentId == req.parentId && c.persist == req.persist
    && c.appId == (if req.appId != "" then req.appId else parent.appId)
    && c.name == (if req.name != "" then req.name else parent.name)
    && c.states == (if req.states.Some? then req.states.value else parent.states)
    && c.kind == (if req.kind != "" then req.kind else parent.kind)
    && c.mode == (if req.mode != "" then req.mode else parent.mode)
    && c.callbacks ==
       (if req.callbacks.kafka != "" && req.callbacks.http != "" then req.callbacks else parent.callbacks)
    && c.actions == (if req.actions.Some? then req.actions.value else parent.actions)
  }

  /** A root has every field as requested. */
  predicate IsRequested(c: Configuration, req: Request)
  {
    && c.classId == req.classId && c.parentId == req.parentId && c.persist == req.persist
    && c.appId == req.appId && c.name == req.name && c.kind == req.kind && c.mode == req.mode
    && c.callbacks == req.callbacks
    && c.states == (if req.states.Some? then req.states.value else [])
    && c.actions == (if req.actions.Some? then req.actions.value else [])
  }

  lemma ChildInherits(req: Request, parent: Configuration, settings: Settings)
    requires ChildOf(req, parent, settings).Done?
    ensures var c := ChildOf(req, parent, settings).value;
      Inherits(c, req, parent) && CredentialsAre(c.email, c.mode, req, Some(parent), settings)
  {
    EmailKeepsFields(ChildBase(req, parent), ChildEmail(req, parent, settings));
  }

  lemma RootIsRequested(req: Request, settings: Settings)
    requires RootOf(req, settings).Done?
    ensures var c := RootOf(req, settings).value;
      IsRequested(c, req) && CredentialsAre(c.email, c.mode, req, None, settings)
  {
    EmailKeepsFields(RootBase(req), RootEmail(req, settings));
  }

  /** The first document with the class id. */
  predicate FirstWith(docs: seq<Configuration>, classId: string, k: nat)
  {
    k < |docs| && docs[k].classId == classId && forall j | 0 <= j < k :: docs[j].classId != classId
  }

  lemma PlaceOfFirst(docs: seq<Configuration>, classId: string, k: nat)
    requires FirstWith(docs, classId, k)
    ensures Place(docs, classId) == k
  {
  }

  /** A successful creation appends one document and leaves the others: below the parent that stands at p it inherits
      field by field what the request does not give, and a root is what was requested. */
  lemma CreationStores(s: State, req: Request, env: Env, settings: Settings, p: nat)
    requires Create(s, req, env, settings).1.Done?
    requires req.parentId != "0" ==> FirstWith(s.docs, req.parentId, p)
    ensures var docs := Create(s, req, env, settings).0.docs;
      && |docs| == |s.docs| + 1 && docs[..|s.docs|] == s.docs
      && var c := docs[|s.docs|];
         if req.parentId == "0" then IsRequested(c, req) && CredentialsAre(c.email, c.mode, req, None, settings)
         else Inherits(c, req, s.docs[p]) && CredentialsAre(c.email, c.mode, req, Some(s.docs[p]), settings)
  {
    if req.parentId == "0" {
      RootIsRequested(req, settings);
    } else {
      PlaceOfFirst(s.docs, req.parentId, p);
      ChildInherits(req, s.docs[p], settings);
    }
  }

  /** What a request must give for a field to be accepted, unless it may leave it out. */
  predicate FieldsLegal(req: Request, root: bool)
  {
    && (if req.states.Some? then DELETED in req.states.value else !root)
    && ((!root && req.kind == "") || req.kind in TYPES)
    && ((!root && req.mode == "") || req.mode in MODES)
    && (req.actions.Some? ==> forall a | a in req.actions.value :: Sound(a, req.actions.value))
  }

  lemma FieldsErrorFree(req: Request)
    ensures FieldsError(req.states, Given(req.kind), Given(req.mode), req.actions).None? <==> FieldsLegal(req, false)
    ensures FieldsError(Some(GetOr(req.states, [])), Some(req.kind), Some(req.mode), Some(GetOr(req.actions, []))).None?
       <==> FieldsLegal(req, true)
  {
    ErrorFree(GetOr(req.actions, []), GetOr(req.actions, []));
  }

  predicate ValidSecret(settings: Settings)
  {
    |settings.key| == 16 || |settings.key| == 24 || |settings.key| == 32
  }

  lemma SealsIff(settings: Settings, password: Text)
    ensures Seal(settings, password).Some? <==> ValidSecret(settings)
  {
    Aes.DecryptUndoesEncrypt(settings.family, BytesOf(password), settings.key);
  }

  /** The code of the first field that is not legal. */
  predicate FieldCode(req: Request, root: bool, code: int)
  {
    if (if req.states.Some? then DELETED !in req.states.value else root) then code == 100103
    else if (root || req.kind != "") && req.kind !in TYPES then code == 100104
    else if (root || req.mode != "") && req.mode !in MODES then code == 100105
    else req.actions.Some? && ActionsError(req.actions.value, req.actions.value) == Some(code)
  }

  predicate Outcome(made: Result<Configuration>, mode: string, legal: bool, req: Request, root: bool, sealable: bool)
  {
    && (made.Done? <==> legal && (mode == "email" && (root || Supplies(req)) ==> sealable))
    && (made.Done? ==> made.value.mode == mode)
    && (made.Failed? ==> if legal then made.code == 1000 else FieldCode(req, root, made.code))
  }

  lemma RootOutcome(req: Request, settings: Settings)
    ensures Outcome(RootOf(req, settings), req.mode, FieldsLegal(req, true), req, true, ValidSecret(settings))
  {
    FieldsErrorFree(req);
    SealsIff(settings, req.password);
    SealsIff(settings, settings.password);
  }

  lemma ChildOutcome(req: Request, parent: Configuration, settings: Settings)
    ensures Outcome(ChildOf(req, parent, settings), Or(req.mode, parent.mode), FieldsLegal(req, false), req, false,
                    ValidSecret(settings))
  {
    FieldsErrorFree(req);
    SealsIff(settings, req.password);
  }

  /** A creation succeeds exactly if class id and parent id are given, no class of this id is found (none is looked at
      if that read fails), the parent is found, every given field is legal and a root gives all of them, the secret key
      has a legal length where a password is to be sealed, and the writes it makes succeed. */
  lemma CreationSucceedsIff(s: State, req: Request, env: Env, settings: Settings)
    ensures var root, p := req.parentId == "0", Place(s.docs, req.parentId);
      var mode := if root || req.mode != "" || p == |s.docs| then req.mode else s.docs[p].mode;
      Create(s, req, env, settings).1.Done? <==>
        && req.classId != "" && req.parentId != ""
        && (env.probeOk ==> forall c | c in s.docs :: c.classId != req.classId)
        && (!root ==> env.loadOk && exists c | c in s.docs :: c.classId == req.parentId)
        && FieldsLegal(req, root)
        && (mode == "email" && (root || Supplies(req)) ==> ValidSecret(settings))
        && (mode == "listening" ==> env.cacheOk) && env.databaseOk
  {
    FoundIff(s.docs, req.classId);
    FoundIff(s.docs, req.parentId);
    RootOutcome(req, settings);
    var p := Place(s.docs, req.parentId);
    if p < |s.docs| { ChildOutcome(req, s.docs[p], settings); }
  }

  /** A creation that fails names the first check that failed: ids, existence, parent, fields, sealing, writes. */
  lemma CreationErrors(s: State, req: Request, env: Env, settings: Settings)
    requires Create(s, req, env, settings).1.Failed?
    ensures var root, code, p := req.parentId == "0", Create(s, req, env, settings).1.code, Place(s.docs, req.parentId);
      var mode := if root || req.mode != "" || p == |s.docs| then req.mode else s.docs[p].mode;
      if req.classId == "" || req.parentId == "" then code == 100002
      else if env.probeOk && exists c | c in s.docs :: c.classId == req.classId then code == 100101
      else if !root && !(env.loadOk && exists c | c in s.docs :: c.classId == req.parentId) then code == 100102
      else if !FieldsLegal(req, root) then FieldCode(req, root, code)
      else code == if mode == "email" && (root || Supplies(req)) && !ValidSecret(settings) then 1000 else 1001
  {
    FoundIff(s.docs, req.classId);
    FoundIff(s.docs, req.parentId);
    RootOutcome(req, settings);
    var p := Place(s.docs, req.parentId);
    if p < |s.docs| { ChildOutcome(req, s.docs[p], settings); }
  }

  lemma FoundIff(docs: seq<Configuration>, id: string)
    ensures Place(docs, id) < |docs| <==> exists c | c in docs :: c.classId == id
  {
    if Place(docs, id) < |docs| { assert docs[Place(docs, id)] in docs; }
  }

  /** An update succeeds exactly if the class is found, the request names it, every given field is legal, the secret key
      has a legal length where a password is to be sealed, and the write succeeds; else it changes nothing and names
      the first of these that failed. */
  lemma UpdateSucceedsIff(s: State, req: Request, id: string, env: Env, settings: Settings, k: nat)
    requires FirstWith(s.docs, id, k)
    ensures var (t, r) := Update(s, req, id, env, settings);
      var sealable := req.mode == "email" && Supplies(req) ==> ValidSecret(settings);
      && (r.Done? <==> env.loadOk && req.classId != "" && FieldsLegal(req, false) && sealable && env.databaseOk)
      && (r.Failed? ==> t == s)
      && (r.Failed? ==>
            if !env.loadOk then r.code == 100112
            else if req.classId == "" then r.code == 100002
            else if !FieldsLegal(req, false) then FieldCode(req, false, r.code)
            else r.code == if sealable then 1001 else 1000)
  {
    PlaceOfFirst(s.docs, id, k);
    FieldsErrorFree(req);
    SealsIff(settings, req.password);
  }

  /** A successful update changes the one document it loaded: each field it gives is as given, and every other field,
      the credentials among them, as it was. */
  lemma UpdateStores(s: State, req: Request, id: string, env: Env, settings: Settings, k: nat)
    requires FirstWith(s.docs, id, k) && Update(s, req, id, env, settings).1.Done?
    ensures var (t, r) := Update(s, req, id, env, settings);
      var old_ := s.docs[k];
      && t.lists == s.lists && |t.docs| == |s.docs|
      && (forall j | 0 <= j < |s.docs| && j != k :: t.docs[j] == s.docs[j])
      && t.docs[k] == old_.(appId := if req.appId != "" then req.appId else old_.appId,
                            name := if req.name != "" then req.name else old_.name,
                            states := if req.states.Some? then req.states.value else old_.states,
                            kind := if req.kind != "" then req.kind else old_.kind,
                            mode := if req.mode != "" then req.mode else old_.mode,
                            actions := if req.actions.Some? then req.actions.value else old_.actions)
  {
    PlaceOfFirst(s.docs, id, k);
    ChangedIs(s.docs[k], req, settings);
  }

  lemma ChangedIs(c: Configuration, req: Request, settings: Settings)
    requires Changed(c, req, settings).Done?
    ensures Changed(c, req, settings).value.(email := c.email) == ChangedBase(c, req).value
  {
  }

  /** What it reports has, beside what is stored, the credentials it gives in email mode, which are not. */
  lemma UpdateReports(s: State, req: Request, id: string, env: Env, settings: Settings, k: nat)
    requires FirstWith(s.docs, id, k) && Update(s, req, id, env, settings).1.Done?
    ensures var (t, r) := Update(s, req, id, env, settings);
      && r.value.(email := s.docs[k].email) == t.docs[k]
      && (if req.mode == "email" && Supplies(req) then CredentialsAre(r.value.email, "email", req, None, settings)
          else r.value.email == s.docs[k].email)
  {
    PlaceOfFirst(s.docs, id, k);
  }

  /** An update or deletion of a class that is not found, or could not be read, changes nothing. */
  lemma NothingFound(s: State, req: Request, id: string, env: Env, settings: Settings)
    requires env.loadOk ==> forall c | c in s.docs :: c.classId != id
    ensures Update(s, req, id, env, settings) == (s, Failed(100112)) && Delete(s, id, env) == (s, Failed(100112))
  {
    FoundIff(s.docs, id);
  }

  /** A deletion takes out the one document it loaded, whether or not the user list can be taken out too. */
  lemma DeletionRemoves(s: State, id: string, env: Env, k: nat)
    requires FirstWith(s.docs, id, k)
    ensures var (t, r) := Delete(s, id, env);
      && (r.Done? <==> env.loadOk && env.databaseOk && (s.docs[k].mode == "listening" ==> env.cacheOk))
      && (if r.Done? then r.value == s.docs[k] else r.code == if env.loadOk then 1001 else 100112)
      && t.docs == (if env.loadOk && env.databaseOk then s.docs[..k] + s.docs[k + 1..] else s.docs)
      && t.lists == (if r.Done? && s.docs[k].mode == "listening" then s.lists - {s.docs[k].classId} else s.lists)
  {
    PlaceOfFirst(s.docs, id, k);
  }

  // ---- Class ids ----

  predicate UniqueIds(docs: seq<Configuration>)
  {
    forall j, k | 0 <= j < k < |docs| :: docs[j].classId != docs[k].classId
  }

  /** A creation that is carried out although its class is stored; its existence read must have failed. */
  predicate Doubles(s: State, e: Event, settings: Settings)
  {
    e.CreateEv? && Step(s, e, settings).1.Done? && !e.env.probeOk && Place(s.docs, e.req.classId) < |s.docs|
  }

  lemma EmailKeepsFields(made: Result<Configuration>, email: Result<Email>)
    requires WithEmail(made, email).Done?
    ensures made.Done? && WithEmail(made, email).value == made.value.(email := WithEmail(made, email).value.email)
  {
  }

  lemma MadeId(docs: seq<Configuration>, req: Request, env: Env, settings: Settings)
    requires Made(docs, req, env, settings).Done?
    ensures Made(docs, req, env, settings).value.classId == req.classId
    ensures env.probeOk ==> Place(docs, req.classId) == |docs|
  {
    if req.parentId == "0" {
      EmailKeepsFields(RootBase(req), RootEmail(req, settings));
    } else {
      var parent := docs[Place(docs, req.parentId)];
      EmailKeepsFields(ChildBase(req, parent), ChildEmail(req, parent, settings));
    }
  }

  lemma ChangedFields(c: Configuration, req: Request, settings: Settings)
    requires Changed(c, req, settings).Done?
    ensures Changed(c, req, settings).value.classId == c.classId
    ensures Changed(c, req, settings).value.mode == Or(req.mode, c.mode)
  {
  }

  lemma AppendUnique(docs: seq<Configuration>, c: Configuration)
    requires UniqueIds(docs)
    ensures UniqueIds(docs + [c]) <==> Place(docs, c.classId) == |docs|
  {
    var k := Place(docs, c.classId);
    if k < |docs| { assert (docs + [c])[k].classId == (docs + [c])[|docs|].classId; }
  }

  lemma RemoveUnique(docs: seq<Configuration>, k: nat)
    requires UniqueIds(docs) && k < |docs|
    ensures UniqueIds(docs[..k] + docs[k + 1..])
  {
  }

  /** Unique class ids stay unique in every step but a doubling creation, which does break them. */
  lemma UniqueIffNotDoubled(s: State, e: Event, settings: Settings)
    requires UniqueIds(s.docs)
    ensures UniqueIds(Step(s, e, settings).0.docs) <==> !Doubles(s, e, settings)
  {
    match e {
      case CreateEv(req, env) =>
        var made := Made(s.docs, req, env, settings);
        if made.Done? {
          MadeId(s.docs, req, env, settings);
          AppendUnique(s.docs, made.value);
        }
      case UpdateEv(req, id, env) =>
        var k := Loaded(s, id, env);
        if k < |s.docs| && Changed(s.docs[k], req, settings).Done? { ChangedFields(s.docs[k], req, settings); }
      case DeleteEv(id, env) =>
        if Loaded(s, id, env) < |s.docs| { RemoveUnique(s.docs, Loaded(s, id, env)); }
    }
  }

  /** In every run whose existence reads succeed, no two stored configurations share a class id. */
  lemma {:induction false} RunKeepsUnique(s: State, events: seq<Event>, settings: Settings)
    requires UniqueIds(s.docs) && forall e | e in events && e.CreateEv? :: e.env.probeOk
    ensures UniqueIds(Run(s, events, settings).docs)
    decreases |events|
  {
    if events != [] {
      assert events[0] in events;
      UniqueIffNotDoubled(s, events[0], settings);
      RunKeepsUnique(Step(s, events[0], settings).0, events[1..], settings);
    }
  }

  // ---- User lists of listening classes ----

  function Listening(docs: seq<Configuration>): set<string>
  {
    if docs == [] then {}
    else (if docs[0].mode == "listening" then {docs[0].classId} else {}) + Listening(docs[1..])
  }

  lemma {:induction false} ListeningJoin(a: seq<Configuration>, b: seq<Configuration>)
    ensures Listening(a + b) == Listening(a) + Listening(b)
  {
    if a == [] {
      assert a + b == b;
    } else {
      assert (a + b)[1..] == a[1..] + b;
      ListeningJoin(a[1..], b);
    }
  }

  lemma {:induction false} ListeningHas(docs: seq<Configuration>, id: string)
    requires forall k | 0 <= k < |docs| :: docs[k].classId != id
    ensures id !in Listening(docs)
  {
    if docs != [] { ListeningHas(docs[1..], id); }
  }

  function One(c: Configuration): set<string>
  {
    if c.mode == "listening" then {c.classId} else {}
  }

  lemma ListeningAround(before: seq<Configuration>, c: Configuration, after: seq<Configuration>)
    ensures Listening(before + [c] + after) == Listening(before + after) + One(c)
  {
    ListeningJoin(before + [c], after);
    ListeningAppend(before, c);
    ListeningJoin(before, after);
  }

  lemma UniqueAround(docs: seq<Configuration>, k: nat)
    requires UniqueIds(docs) && k < |docs|
    ensures docs[k].classId !in Listening(docs[..k]) && docs[k].classId !in Listening(docs[k + 1..])
  {
    ListeningHas(docs[..k], docs[k].classId);
    ListeningHas(docs[k + 1..], docs[k].classId);
  }

  lemma ListeningSplit(docs: seq<Configuration>, k: nat)
    requires UniqueIds(docs) && k < |docs|
    ensures Listening(docs) == Listening(docs[..k] + docs[k + 1..]) + One(docs[k])
    ensures docs[k].classId !in Listening(docs[..k] + docs[k + 1..])
  {
    var before, after := docs[..k], docs[k + 1..];
    assert docs == before + [docs[k]] + after;
    ListeningAround(before, docs[k], after);
    ListeningJoin(before, after);
    UniqueAround(docs, k);
  }

  lemma ListeningReplace(docs: seq<Configuration>, k: nat, c: Configuration)
    requires UniqueIds(docs) && k < |docs| && c.classId == docs[k].classId
    ensures Listening(docs[k := c]) == Listening(docs) <==> One(c) == One(docs[k])
  {
    ListeningSplit(docs, k);
    ListeningSplit(docs[k := c], k);
    assert docs[k := c][..k] == docs[..k] && docs[k := c][k + 1..] == docs[k + 1..];
    var rest := Listening(docs[..k] + docs[k + 1..]);
    if c.mode == "listening" && docs[k].mode != "listening" {
      assert c.classId in rest + One(c);
    } else if c.mode != "listening" && docs[k].mode == "listening" {
      assert c.classId in rest + One(docs[k]);
    }
  }

  lemma ListeningAppend(docs: seq<Configuration>, c: Configuration)
    ensures Listening(docs + [c]) == Listening(docs) + One(c)
  {
    ListeningJoin(docs, [c]);
    assert [c][1..] == [];
    assert Listening([c]) == One(c);
  }

  /** The steps that let the user lists and the collection drift apart: a creation or deletion of a listening class
      that stops between its two writes, and an update that turns listening on or off. */
  predicate Drifts(s: State, e: Event, settings: Settings)
  {
    match e
    case CreateEv(req, env) =>
      var made := Made(s.docs, req, env, settings);
      made.Done? && made.value.mode == "listening" && env.cacheOk && !env.databaseOk
      && made.value.classId !in Listening(s.docs)
    case UpdateEv(req, id, env) =>
      var k := Loaded(s, id, env);
      k < |s.docs| && Changed(s.docs[k], req, settings).Done? && env.databaseOk
      && req.mode != "" && (req.mode == "listening") != (s.docs[k].mode == "listening")
    case DeleteEv(id, env) =>
      var k := Loaded(s, id, env);
      k < |s.docs| && s.docs[k].mode == "listening" && env.databaseOk && !env.cacheOk
  }

  lemma CreateKeepsLists(s: State, req: Request, env: Env, settings: Settings)
    requires UniqueIds(s.docs) && s.lists == Listening(s.docs)
    ensures var after := Create(s, req, env, settings).0;
      after.lists == Listening(after.docs) <==> !Drifts(s, CreateEv(req, env), settings)
  {
    var made := Made(s.docs, req, env, settings);
    if made.Done? {
      ListeningAppend(s.docs, made.value);
    }
  }

  lemma UpdateKeepsLists(s: State, req: Request, id: string, env: Env, settings: Settings)
    requires UniqueIds(s.docs) && s.lists == Listening(s.docs)
    ensures var after := Update(s, req, id, env, settings).0;
      after.lists == Listening(after.docs) <==> !Drifts(s, UpdateEv(req, id, env), settings)
  {
    var k := Loaded(s, id, env);
    if k < |s.docs| && Changed(s.docs[k], req, settings).Done? {
      ChangedFields(s.docs[k], req, settings);
      ListeningReplace(s.docs, k, Changed(s.docs[k], req, settings).value.(email := s.docs[k].email));
    }
  }

  lemma DeleteKeepsLists(s: State, id: string, env: Env, settings: Settings)
    requires UniqueIds(s.docs) && s.lists == Listening(s.docs)
    ensures var after := Delete(s, id, env).0;
      after.lists == Listening(after.docs) <==> !Drifts(s, DeleteEv(id, env), settings)
  {
    var k := Loaded(s, id, env);
    if k < |s.docs| { ListeningSplit(s.docs, k); }
  }

  /** From a state where the user lists are those of the listening classes, a request keeps it so exactly when it is
      not one of the drifting ones. */
  lemma ListsKeptIffNoDrift(s: State, e: Event, settings: Settings)
    requires UniqueIds(s.docs) && s.lists == Listening(s.docs)
    ensures var after := Step(s, e, settings).0;
      after.lists == Listening(after.docs) <==> !Drifts(s, e, settings)
  {
    match e
    case CreateEv(req, env) => CreateKeepsLists(s, req, env, settings);
    case UpdateEv(req, id, env) => UpdateKeepsLists(s, req, id, env, settings);
    case DeleteEv(id, env) => DeleteKeepsLists(s, id, env, settings);
  }
}
