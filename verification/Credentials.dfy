/** The stored email credentials over whole runs of the configuration store: which password a stored configuration
    stands for, through inheritance, updates, deletions and failing reads and writes. */
module Credentials {
  import opened Options
  import opened ConfigStore
  import Aes

  /** `lines` keeps beside each stored document, from its creation on, the line of creation requests it descends from
      in email mode, its own last; None for one that has no email credentials.  A line begins at a root, or at a
      request that supplied an account and a password below a class without credentials. */
  type Line = seq<Request>

  datatype World = World(s: State, lines: seq<Option<Line>>)

  const FRESH := World(EMPTY, [])

  predicate Paired(w: World)
  {
    |w.lines| == |w.s.docs|
  }

  /** The line of a new document whose parent's line is `above`. */
  function Descend(above: Option<Line>, req: Request, mode: string): Option<Line>
  {
    if mode != "email" then None
    else if req.parentId == "0" then Some([req])
    else if above.Some? then Some(above.value + [req])
    else if Supplies(req) then Some([req])
    else None
  }

  function LineAbove(w: World, req: Request): Option<Line>
    requires Paired(w)
  {
    var k := Place(w.s.docs, req.parentId);
    if k < |w.s.docs| then w.lines[k] else None
  }

  function Advance(w: World, e: Event, settings: Settings): (t: World)
    requires Paired(w)
    ensures Paired(t)
  {
    var (next, r) := Step(w.s, e, settings);
    match e
    case CreateEv(req, env) =>
      if r.Done? then World(next, w.lines + [Descend(LineAbove(w, req), req, r.value.mode)]) else World(next, w.lines)
    case UpdateEv(_, _, _) => World(next, w.lines)
    case DeleteEv(id, env) =>
      var k := Loaded(w.s, id, env);
      if k < |w.s.docs| && env.databaseOk then World(next, w.lines[..k] + w.lines[k + 1..]) else World(next, w.lines)
  }

  function RunWorld(w: World, events: seq<Event>, settings: Settings): (t: World)
    requires Paired(w)
    ensures Paired(t)
    decreases |events|
  {
    if events == [] then w else RunWorld(Advance(w, events[0], settings), events[1..], settings)
  }

  /** The history does not touch the store. */
  lemma {:induction false} SameRun(w: World, events: seq<Event>, settings: Settings)
    requires Paired(w)
    ensures RunWorld(w, events, settings).s == Run(w.s, events, settings)
    decreases |events|
  {
    if events != [] { SameRun(Advance(w, events[0], settings), events[1..], settings); }
  }

  // ---- The nearest supplied password ----

  /** The password in force below a line: the last one supplied together with an account, else `above`. */
  function Nearest(line: Line, above: Text): Text
  {
    if line == [] then above
    else Nearest(line[1..], if Supplies(line[0]) then line[0].password else above)
  }

  lemma {:induction false} NearestSnoc(line: Line, req: Request, above: Text)
    ensures Nearest(line + [req], above) == if Supplies(req) then req.password else Nearest(line, above)
    decreases |line|
  {
    if line == [] {
      assert [req][1..] == [];
    } else {
      assert (line + [req])[1..] == line[1..] + [req];
      NearestSnoc(line[1..], req, if Supplies(line[0]) then line[0].password else above);
    }
  }

  /** It is the password of the last request that supplied both. */
  lemma {:induction false} NearestMeaning(line: Line, above: Text, k: nat)
    requires k <= |line| && forall j | k <= j < |line| :: !Supplies(line[j])
    ensures Nearest(line, above) ==
      if k > 0 && Supplies(line[k - 1]) then line[k - 1].password else Nearest(line[..k], above)
    decreases |line|
  {
    if k == |line| {
      assert line[..k] == line;
      if k > 0 {
        assert line == line[..k - 1] + [line[k - 1]];
        NearestSnoc(line[..k - 1], line[k - 1], above);
      }
    } else {
      var init := line[..|line| - 1];
      assert line == init + [line[|line| - 1]] && init[..k] == line[..k];
      NearestSnoc(init, line[|line| - 1], above);
      NearestMeaning(init, above, k);
    }
  }

  // ---- The stored password ----

  /** The stored password is the single encryption of the nearest one, or empty where there is no line. */
  predicate Holds(c: Configuration, line: Option<Line>, settings: Settings)
  {
    match line
    case Some(l) => Seal(settings, Nearest(l, settings.password)) == Some(c.email.password)
    case None => c.email.password == ""
  }

  /** Each request of a line names the class of the one before as its parent, and the last is the document's own. */
  predicate Linked(c: Configuration, l: Line)
  {
    && l != [] && l[|l| - 1].classId == c.classId
    && (l[0].parentId == "0" || Supplies(l[0]))
    && (forall j | 0 < j < |l| :: l[j].parentId == l[j - 1].classId)
  }

  predicate Kept(c: Configuration, line: Option<Line>, settings: Settings)
  {
    Holds(c, line, settings) && (line.Some? ==> Linked(c, line.value))
  }

  predicate Faithful(w: World, settings: Settings)
  {
    Paired(w) && forall k | 0 <= k < |w.lines| :: Kept(w.s.docs[k], w.lines[k], settings)
  }

  lemma EmailChildHolds(req: Request, parent: Configuration, above: Option<Line>, settings: Settings)
    requires Holds(parent, above, settings) && ChildEmail(req, parent, settings).Done? && req.parentId != "0"
    ensures var password := ChildEmail(req, parent, settings).value.password;
      match Descend(above, req, "email")
      case Some(l) => Seal(settings, Nearest(l, settings.password)) == Some(password)
      case None => password == ""
  {
    if above.Some? {
      NearestSnoc(above.value, req, settings.password);
    } else {
      NearestSnoc([], req, settings.password);
      assert [] + [req] == [req];
    }
  }

  lemma ChildLinked(req: Request, parent: Configuration, above: Option<Line>, c: Configuration)
    requires above.Some? ==> Linked(parent, above.value)
    requires req.parentId == parent.classId && req.parentId != "0" && c.classId == req.classId
    ensures var line := Descend(above, req, "email"); line.Some? ==> Linked(c, line.value)
  {
  }

  lemma ChildKept(req: Request, parent: Configuration, above: Option<Line>, settings: Settings)
    requires Kept(parent, above, settings) && ChildOf(req, parent, settings).Done?
    requires req.parentId == parent.classId && req.parentId != "0"
    ensures var c := ChildOf(req, parent, settings).value;
      Kept(c, Descend(above, req, c.mode), settings)
  {
    var c := ChildOf(req, parent, settings).value;
    EmailKeepsFields(ChildBase(req, parent), ChildEmail(req, parent, settings));
    if c.mode == "email" {
      EmailChildHolds(req, parent, above, settings);
      ChildLinked(req, parent, above, c);
    }
  }

  lemma RootKept(req: Request, settings: Settings)
    requires RootOf(req, settings).Done? && req.parentId == "0"
    ensures var c := RootOf(req, settings).value;
      Kept(c, Descend(None, req, c.mode), settings)
  {
    EmailKeepsFields(RootBase(req), RootEmail(req, settings));
    assert [req][1..] == [];
  }

  lemma CreateFaithful(w: World, req: Request, env: Env, settings: Settings)
    requires Faithful(w, settings)
    ensures Faithful(Advance(w, CreateEv(req, env), settings), settings)
  {
    var made := Made(w.s.docs, req, env, settings);
    if made.Done? {
      if req.parentId == "0" {
        RootKept(req, settings);
      } else {
        var k := Place(w.s.docs, req.parentId);
        ChildKept(req, w.s.docs[k], w.lines[k], settings);
      }
    }
  }

  lemma UpdateFaithful(w: World, req: Request, id: string, env: Env, settings: Settings)
    requires Faithful(w, settings)
    ensures Faithful(Advance(w, UpdateEv(req, id, env), settings), settings)
  {
    var k := Loaded(w.s, id, env);
    if k < |w.s.docs| && Changed(w.s.docs[k], req, settings).Done? { ChangedFields(w.s.docs[k], req, settings); }
  }

  lemma DeleteFaithful(w: World, id: string, env: Env, settings: Settings)
    requires Faithful(w, settings)
    ensures Faithful(Advance(w, DeleteEv(id, env), settings), settings)
  {
    var k := Loaded(w.s, id, env);
    if k < |w.s.docs| && env.databaseOk { RemoveFaithful(w, k, settings); }
  }

  lemma RemoveFaithful(w: World, k: nat, settings: Settings)
    requires Faithful(w, settings) && k < |w.lines|
    ensures var docs, lines := w.s.docs[..k] + w.s.docs[k + 1..], w.lines[..k] + w.lines[k + 1..];
      |lines| == |docs| && forall j | 0 <= j < |lines| :: Kept(docs[j], lines[j], settings)
  {
    var docs, lines := w.s.docs[..k] + w.s.docs[k + 1..], w.lines[..k] + w.lines[k + 1..];
    forall j | 0 <= j < |lines| ensures Kept(docs[j], lines[j], settings) {
      if j < k { assert Kept(w.s.docs[j], w.lines[j], settings); }
      else { assert Kept(w.s.docs[j + 1], w.lines[j + 1], settings); }
    }
  }

  lemma {:induction false} RunFaithful(w: World, events: seq<Event>, settings: Settings)
    requires Faithful(w, settings)
    ensures Faithful(RunWorld(w, events, settings), settings)
    decreases |events|
  {
    if events != [] {
      match events[0] {
        case CreateEv(req, env) => CreateFaithful(w, req, env, settings);
        case UpdateEv(req, id, env) => UpdateFaithful(w, req, id, env, settings);
        case DeleteEv(id, env) => DeleteFaithful(w, id, env, settings);
      }
      RunFaithful(Advance(w, events[0], settings), events[1..], settings);
    }
  }

  // ---- Decryption ----

  /** In every run, decrypting the stored password of a document once gives the password of the nearest request up its
      line that supplied an account and a password, or the root's default; and it fails exactly for the documents
      that have no line.  Nothing encrypts twice, and no later update, deletion or failure changes it. */
  lemma DecryptOnce(events: seq<Event>, settings: Settings, k: nat)
    requires k < |Run(EMPTY, events, settings).docs|
    ensures var w := RunWorld(FRESH, events, settings);
      && w.s == Run(EMPTY, events, settings)
      && var plain := Aes.DecryptBase64(settings.family, w.s.docs[k].email.password, settings.key);
         match w.lines[k]
         case Some(l) =>
           var password := Nearest(l, settings.password);
           && Linked(w.s.docs[k], l) && plain.Ok? && |plain.data| == |password|
           && (forall i | 0 <= i < |password| :: plain.data[i] == password[i] as int)
         case None => plain.Err?
  {
    SameRun(FRESH, events, settings);
    RunFaithful(FRESH, events, settings);
    var w := RunWorld(FRESH, events, settings);
    assert Kept(w.s.docs[k], w.lines[k], settings);
    if w.lines[k].Some? {
      var password := BytesOf(Nearest(w.lines[k].value, settings.password));
      Aes.DecryptUndoesEncrypt(settings.family, password, settings.key);
      Aes.Base64RoundTrip(settings.family, password, settings.key, "");
    } else {
      EmptyFails(settings);
    }
  }

  lemma EmptyFails(settings: Settings)
    ensures Aes.DecryptBase64(settings.family, "", settings.key).Err?
  {
  }
}
