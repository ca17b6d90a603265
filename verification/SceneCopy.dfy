/** Copying an application: its configurations, templates and scene relations are copied under the new
    application's id, with ids renamed, what already exists skipped, and everything undone by deletion when an
    insert fails. */
module SceneCopy {
  import opened Options

  datatype Config = Config(classId: string, parentId: string, appId: string, rest: string)
  datatype Template = Template(templateId: string, appId: string, rest: string)
  datatype Relation = Relation(sceneId: string, configId: string, templateId: string, tenantId: string,
      instanceId: string, appId: string, rest: string)

  datatype Db = Db(configs: seq<Config>, templates: seq<Template>, relations: seq<Relation>)

  // ---- Sequences ----

  function Pick<D, E>(docs: seq<D>, f: D -> Option<E>): seq<E>
  {
    if docs == [] then []
    else match f(docs[0])
      case None => Pick(docs[1..], f)
      case Some(e) => [e] + Pick(docs[1..], f)
  }

  lemma {:induction false} PickHas<D, E>(docs: seq<D>, f: D -> Option<E>, e: E)
    ensures e in Pick(docs, f) <==> exists d :: d in docs && f(d) == Some(e)
  {
    if docs != [] {
      PickHas(docs[1..], f, e);
      if d :| d in docs && f(d) == Some(e) {
        assert d == docs[0] || d in docs[1..];
      }
    }
  }

  lemma {:induction false} PickConcat<D, E>(xs: seq<D>, ys: seq<D>, f: D -> Option<E>)
    ensures Pick(xs + ys, f) == Pick(xs, f) + Pick(ys, f)
  {
    if xs == [] { assert xs + ys == ys; }
    else {
      assert (xs + ys)[1..] == xs[1..] + ys;
      PickConcat(xs[1..], ys, f);
    }
  }

  predicate Distinct(s: seq<string>)
  {
    forall i, j | 0 <= i < j < |s| :: s[i] != s[j]
  }

  // ---- What is read, renamed and kept ----

  function Rename(id: string, newApp: string): string { id + "-" + newApp }

  function ClassOf(app: string): Config -> Option<string>
  {
    (c: Config) => if c.appId == app then Some(c.classId) else None
  }

  function TemplateOf(app: string): Template -> Option<string>
  {
    (t: Template) => if t.appId == app then Some(t.templateId) else None
  }

  function SceneOf(app: string): Relation -> Option<string>
  {
    (r: Relation) => if r.appId == app then Some(r.sceneId) else None
  }

  function ClassIds(db: Db, app: string): seq<string>
  {
    Pick(db.configs, ClassOf(app))
  }

  function TemplateIds(db: Db, app: string): seq<string>
  {
    Pick(db.templates, TemplateOf(app))
  }

  function SceneIds(db: Db, app: string): seq<string>
  {
    Pick(db.relations, SceneOf(app))
  }

  /** The document to insert for c, if any. */
  function CopyConfig(c: Config, oldApp: string, newApp: string, exist: seq<string>): Option<Config>
  {
    if c.appId == oldApp && Rename(c.classId, newApp) !in exist
    then Some(c.(classId := Rename(c.classId, newApp), appId := newApp))
    else None
  }

  function CopyTemplate(t: Template, oldApp: string, newApp: string, exist: seq<string>): Option<Template>
  {
    if t.appId == oldApp && Rename(t.templateId, newApp) !in exist
    then Some(t.(templateId := Rename(t.templateId, newApp), appId := newApp))
    else None
  }

  function CopyRelation(r: Relation, oldApp: string, newApp: string, exist: seq<string>): Option<Relation>
  {
    if r.appId == oldApp && r.sceneId !in exist then
      Some(r.(configId := Rename(r.configId, newApp), templateId := Rename(r.templateId, newApp), appId := newApp))
    else None
  }

  function ConfigCopier(oldApp: string, newApp: string, exist: seq<string>): Config -> Option<Config>
  {
    (c: Config) => CopyConfig(c, oldApp, newApp, exist)
  }

  function TemplateCopier(oldApp: string, newApp: string, exist: seq<string>): Template -> Option<Template>
  {
    (t: Template) => CopyTemplate(t, oldApp, newApp, exist)
  }

  function RelationCopier(oldApp: string, newApp: string, exist: seq<string>): Relation -> Option<Relation>
  {
    (r: Relation) => CopyRelation(r, oldApp, newApp, exist)
  }

  function Configs(db: Db, oldApp: string, newApp: string, exist: seq<string>): seq<Config>
  {
    Pick(db.configs, ConfigCopier(oldApp, newApp, exist))
  }

  function Templates(db: Db, oldApp: string, newApp: string, exist: seq<string>): seq<Template>
  {
    Pick(db.templates, TemplateCopier(oldApp, newApp, exist))
  }

  function Relations(db: Db, oldApp: string, newApp: string, exist: seq<string>): seq<Relation>
  {
    Pick(db.relations, RelationCopier(oldApp, newApp, exist))
  }

  /** Which of the three deletions of an application's documents take effect; the service does not look at their
      outcome. */
  datatype Deletes = Deletes(configs: bool, templates: bool, relations: bool)

  const ALL := Deletes(true, true, true)

  function NotOf<D>(belongs: D -> bool): D -> Option<D>
  {
    (d: D) => if belongs(d) then None else Some(d)
  }

  function ConfigIn(app: string): Config -> bool { (c: Config) => c.appId == app }

  function TemplateIn(app: string): Template -> bool { (t: Template) => t.appId == app }

  function RelationIn(app: string): Relation -> bool { (r: Relation) => r.appId == app }

  function Without(db: Db, app: string, took: Deletes): Db
  {
    Db(if took.configs then Pick(db.configs, NotOf(ConfigIn(app))) else db.configs,
       if took.templates then Pick(db.templates, NotOf(TemplateIn(app))) else db.templates,
       if took.relations then Pick(db.relations, NotOf(RelationIn(app))) else db.relations)
  }

  // ---- The database's answers ----

  /** The find that fails, if one does, counted from 1 in program order, the first three being those of the
      unforced branch; where an insert stops; and which deletions take effect, of those that clear the new application
      first and of those after a failed insert.  `indexed` says whether scene relations carry the unique index over
      scene, tenant and instance. */
  datatype Faults = Faults(findFails: nat, configStop: Option<nat>, templateStop: Option<nat>,
      relationStop: Option<nat>, indexed: bool, cleared: Deletes, undone: Deletes)

  /** How many of n documents an insert puts in. */
  function Count(n: nat, stop: Option<nat>): nat
  {
    if stop.Some? && stop.value < n then stop.value else n
  }

  function Inserted<D>(coll: seq<D>, docs: seq<D>, stop: Option<nat>): (seq<D>, bool)
  {
    (coll + docs[..Count(|docs|, stop)], Count(|docs|, stop) == |docs|)
  }

  predicate SameKey(a: Relation, b: Relation)
  {
    a.sceneId == b.sceneId && a.tenantId == b.tenantId && a.instanceId == b.instanceId
  }

  /** Ordered insertion under the unique index: the first clash ends it. */
  function FirstClash(coll: seq<Relation>, docs: seq<Relation>): nat
    decreases |docs|
  {
    if docs == [] || (exists r | r in coll :: SameKey(r, docs[0])) then 0
    else 1 + FirstClash(coll + [docs[0]], docs[1..])
  }

  function RelationStop(coll: seq<Relation>, docs: seq<Relation>, faults: Faults): Option<nat>
  {
    if faults.indexed && (faults.relationStop.None? || FirstClash(coll, docs) < faults.relationStop.value)
    then Some(FirstClash(coll, docs))
    else faults.relationStop
  }

  // ---- The copy as a function ----

  function Plus(db: Db, configs: seq<Config>, templates: seq<Template>, relations: seq<Relation>): Db
  {
    Db(db.configs + configs, db.templates + templates, db.relations + relations)
  }

  /** The documents put in before an insert fails, if one does. */
  function Entered(db: Db, docs: Db, faults: Faults): Db
  {
    var i := Count(|docs.configs|, faults.configStop);
    var j := if i < |docs.configs| then 0 else Count(|docs.templates|, faults.templateStop);
    var k := if i < |docs.configs| || j < |docs.templates| then 0
      else Count(|docs.relations|, RelationStop(db.relations, docs.relations, faults));
    Db(docs.configs[..i], docs.templates[..j], docs.relations[..k])
  }

  /** The three inserts; after one that fails everything of the new application is deleted. */
  function InsertAll(db: Db, docs: Db, newApp: string, faults: Faults): (Db, bool)
  {
    var entered := Entered(db, docs, faults);
    var reached := Plus(db, entered.configs, entered.templates, entered.relations);
    if entered == docs then (reached, true) else (Without(reached, newApp, faults.undone), false)
  }

  /** What the new application starts from. */
  function Start(db: Db, newApp: string, force: bool, faults: Faults): Db
  {
    if force then Without(db, newApp, faults.cleared) else db
  }

  /** The ids taken for existing. */
  function Exist(ids: seq<string>, force: bool): seq<string> { if force then [] else ids }

  function Copies(db: Db, oldApp: string, newApp: string, force: bool, faults: Faults): Db
  {
    var start := Start(db, newApp, force, faults);
    Db(Configs(start, oldApp, newApp, Exist(ClassIds(db, newApp), force)),
       Templates(start, oldApp, newApp, Exist(TemplateIds(db, newApp), force)),
       Relations(start, oldApp, newApp, Exist(SceneIds(db, newApp), force)))
  }

  predicate FindFails(force: bool, faults: Faults)
  {
    (!force && 1 <= faults.findFails <= 3) || 4 <= faults.findFails <= 6
  }

  function CopyApp(db: Db, oldApp: string, newApp: string, force: bool, faults: Faults): (Db, bool)
  {
    var start := Start(db, newApp, force, faults);
    if FindFails(force, faults) then (start, false)
    else InsertAll(start, Copies(db, oldApp, newApp, force, faults), newApp, faults)
  }

  // ---- The copy as the service performs it ----

  class Store {
    var configs: seq<Config>
    var templates: seq<Template>
    var relations: seq<Relation>

    constructor (db: Db)
      ensures State() == db
    {
      configs, templates, relations := db.configs, db.templates, db.relations;
    }

    function State(): Db
      reads this
    {
      Db(configs, templates, relations)
    }

    method DeleteApp(app: string, took: Deletes)
      modifies this
      ensures State() == Without(old(State()), app, took)
    {
      if took.configs { configs := Pick(configs, NotOf(ConfigIn(app))); }
      if took.templates { templates := Pick(templates, NotOf(TemplateIn(app))); }
      if took.relations { relations := Pick(relations, NotOf(RelationIn(app))); }
    }

    method ReadExisting(app: string) returns (classIds: seq<string>, templateIds: seq<string>, sceneIds: seq<string>)
      ensures classIds == ClassIds(State(), app) && templateIds == TemplateIds(State(), app)
          && sceneIds == SceneIds(State(), app)
    {
      classIds, templateIds, sceneIds := [], [], [];
      ghost var fc, ft, fr := ClassOf(app),
                              TemplateOf(app),
                              SceneOf(app);
      for i := 0 to |configs|
        invariant classIds == Pick(configs[..i], fc)
      {
        assert configs[..i + 1] == configs[..i] + [configs[i]];
        PickConcat(configs[..i], [configs[i]], fc);
        if configs[i].appId == app { classIds := classIds + [configs[i].classId]; }
      }
      for i := 0 to |templates|
        invariant templateIds == Pick(templates[..i], ft)
      {
        assert templates[..i + 1] == templates[..i] + [templates[i]];
        PickConcat(templates[..i], [templates[i]], ft);
        if templates[i].appId == app { templateIds := templateIds + [templates[i].templateId]; }
      }
      for i := 0 to |relations|
        invariant sceneIds == Pick(relations[..i], fr)
      {
        assert relations[..i + 1] == relations[..i] + [relations[i]];
        PickConcat(relations[..i], [relations[i]], fr);
        if relations[i].appId == app { sceneIds := sceneIds + [relations[i].sceneId]; }
      }
      assert configs[..|configs|] == configs && templates[..|templates|] == templates
          && relations[..|relations|] == relations;
    }

    method BuildConfigs(oldApp: string, newApp: string, exist: seq<string>) returns (docs: seq<Config>)
      ensures docs == Configs(State(), oldApp, newApp, exist)
    {
      docs := [];
      ghost var f := ConfigCopier(oldApp, newApp, exist);
      for i := 0 to |configs|
        invariant docs == Pick(configs[..i], f)
      {
        assert configs[..i + 1] == configs[..i] + [configs[i]];
        PickConcat(configs[..i], [configs[i]], f);
        if configs[i].appId == oldApp {
          var c := configs[i];
          c := c.(classId := c.classId + "-" + newApp);
          c := c.(appId := newApp);
          if c.classId !in exist { docs := docs + [c]; }
        }
      }
      assert configs[..|configs|] == configs;
    }

    method BuildTemplates(oldApp: string, newApp: string, exist: seq<string>) returns (docs: seq<Template>)
      ensures docs == Templates(State(), oldApp, newApp, exist)
    {
      docs := [];
      ghost var f := TemplateCopier(oldApp, newApp, exist);
      for i := 0 to |templates|
        invariant docs == Pick(templates[..i], f)
      {
        assert templates[..i + 1] == templates[..i] + [templates[i]];
        PickConcat(templates[..i], [templates[i]], f);
        if templates[i].appId == oldApp {
          var t := templates[i];
          t := t.(templateId := t.templateId + "-" + newApp);
          t := t.(appId := newApp);
          if t.templateId !in exist { docs := docs + [t]; }
        }
      }
      assert templates[..|templates|] == templates;
    }

    method BuildRelations(oldApp: string, newApp: string, exist: seq<string>) returns (docs: seq<Relation>)
      ensures docs == Relations(State(), oldApp, newApp, exist)
    {
      docs := [];
      ghost var f := RelationCopier(oldApp, newApp, exist);
      for i := 0 to |relations|
        invariant docs == Pick(relations[..i], f)
      {
        assert relations[..i + 1] == relations[..i] + [relations[i]];
        PickConcat(relations[..i], [relations[i]], f);
        if relations[i].appId == oldApp {
          var r := relations[i];
          r := r.(appId := newApp);
          r := r.(configId := r.configId + "-" + newApp);
          r := r.(templateId := r.templateId + "-" + newApp);
          if r.sceneId !in exist { docs := docs + [r]; }
        }
      }
      assert relations[..|relations|] == relations;
    }

    method InsertDocuments(newConfigs: seq<Config>, newTemplates: seq<Template>, newRelations: seq<Relation>,
        newApp: string, faults: Faults) returns (ok: bool)
      modifies this
      ensures (State(), ok) == InsertAll(old(State()), Db(newConfigs, newTemplates, newRelations), newApp, faults)
    {
      ghost var docs := Db(newConfigs, newTemplates, newRelations);
      ghost var entered := Entered(State(), docs, faults);
      ghost var start := State();
      assert docs.configs[..|docs.configs|] == docs.configs && docs.templates[..|docs.templates|] == docs.templates;
      assert docs.relations[..|docs.relations|] == docs.relations;
      assert start.templates + [] == start.templates && start.relations + [] == start.relations;
      if |newConfigs| > 0 {
        var inserted := Inserted(configs, newConfigs, faults.configStop);
        configs := inserted.0;
        if !inserted.1 {
          assert State() == Plus(start, entered.configs, [], []);
          DeleteApp(newApp, faults.undone);
          return false;
        }
      }
      assert configs == start.configs + newConfigs;
      if |newTemplates| > 0 {
        var inserted := Inserted(templates, newTemplates, faults.templateStop);
        templates := inserted.0;
        if !inserted.1 {
          assert State() == Plus(start, newConfigs, entered.templates, []);
          DeleteApp(newApp, faults.undone);
          return false;
        }
      }
      assert templates == start.templates + newTemplates;
      if |newRelations| > 0 {
        var inserted := Inserted(relations, newRelations, RelationStop(relations, newRelations, faults));
        relations := inserted.0;
        if !inserted.1 {
          assert State() == Plus(start, newConfigs, newTemplates, entered.relations);
          DeleteApp(newApp, faults.undone);
          return false;
        }
      }
      assert relations == start.relations + newRelations;
      assert entered == docs;
      ok := true;
    }

    method CopySceneRelation(oldApp: string, newApp: string, force: bool, faults: Faults) returns (ok: bool)
      modifies this
      ensures (State(), ok) == CopyApp(old(State()), oldApp, newApp, force, faults)
    {
      var existConfigIds: seq<string>, existTemplateIds: seq<string>, existSceneIds: seq<string> := [], [], [];
      if force {
        DeleteApp(newApp, faults.cleared);
      } else {
        if 1 <= faults.findFails <= 3 { return false; }
        existConfigIds, existTemplateIds, existSceneIds := ReadExisting(newApp);
      }
      if 4 <= faults.findFails <= 6 { return false; }
      var newConfigs := BuildConfigs(oldApp, newApp, existConfigIds);
      var newTemplates := BuildTemplates(oldApp, newApp, existTemplateIds);
      var newRelations := BuildRelations(oldApp, newApp, existSceneIds);
      ok := InsertDocuments(newConfigs, newTemplates, newRelations, newApp, faults);
    }
  }

  // ---- Who is touched ----

  /** Documents of an application, in order. */
  function Of(db: Db, app: string): Db
  {
    Db(Pick(db.configs, Just(ConfigIn(app))), Pick(db.templates, Just(TemplateIn(app))),
       Pick(db.relations, Just(RelationIn(app))))
  }

  lemma {:induction false} PickNone<D, E>(docs: seq<D>, f: D -> Option<E>)
    requires forall d | d in docs :: f(d) == None
    ensures Pick(docs, f) == []
  {
    if docs != [] {
      assert docs[0] in docs;
      PickNone(docs[1..], f);
    }
  }

  /** Selecting twice is selecting what both select. */
  lemma {:induction false} PickPick<D, E, F>(docs: seq<D>, f: D -> Option<E>, g: E -> Option<F>, h: D -> Option<F>)
    requires forall d | d in docs :: h(d) == if f(d).Some? then g(f(d).value) else None
    ensures Pick(Pick(docs, f), g) == Pick(docs, h)
  {
    if docs != [] {
      assert docs[0] in docs;
      PickPick(docs[1..], f, g, h);
      match f(docs[0])
      case None =>
      case Some(e) => PickConcat([e], Pick(docs[1..], f), g);
    }
  }

  function Cut(db: Db, took: Deletes): Db
  {
    Db(if took.configs then [] else db.configs, if took.templates then [] else db.templates,
       if took.relations then [] else db.relations)
  }

  function Just<D>(belongs: D -> bool): D -> Option<D>
  {
    (d: D) => if belongs(d) then Some(d) else None
  }

  lemma PickNotOf<D>(docs: seq<D>, gone: D -> bool, kept: D -> bool)
    ensures (forall d | d in docs && kept(d) :: gone(d)) ==> Pick(Pick(docs, NotOf(gone)), Just(kept)) == []
    ensures (forall d | d in docs && kept(d) :: !gone(d)) ==>
      Pick(Pick(docs, NotOf(gone)), Just(kept)) == Pick(docs, Just(kept))
  {
    if forall d | d in docs && kept(d) :: gone(d) {
      var none: D -> Option<D> := d => None;
      PickPick(docs, NotOf(gone), Just(kept), none);
      PickNone(docs, none);
    }
    if forall d | d in docs && kept(d) :: !gone(d) { PickPick(docs, NotOf(gone), Just(kept), Just(kept)); }
  }

  lemma WithoutKeepsOthers(db: Db, app: string, took: Deletes, other: string)
    ensures Of(Without(db, app, took), other) == if other == app then Cut(Of(db, app), took) else Of(db, other)
  {
    PickNotOf(db.configs, ConfigIn(app), ConfigIn(other));
    PickNotOf(db.templates, TemplateIn(app), TemplateIn(other));
    PickNotOf(db.relations, RelationIn(app), RelationIn(other));
  }

  lemma {:induction false} PickAll<D>(docs: seq<D>, f: D -> Option<D>)
    requires forall d | d in docs :: f(d) == Some(d)
    ensures Pick(docs, f) == docs
  {
    if docs != [] {
      assert docs[0] in docs;
      PickAll(docs[1..], f);
    }
  }

  predicate AllOf(docs: Db, app: string)
  {
    && (forall c | c in docs.configs :: c.appId == app)
    && (forall t | t in docs.templates :: t.appId == app)
    && (forall r | r in docs.relations :: r.appId == app)
  }

  lemma OfPlus(db: Db, docs: Db, app: string, other: string)
    requires AllOf(docs, app)
    ensures Of(Plus(db, docs.configs, docs.templates, docs.relations), other) ==
      if other == app then Plus(Of(db, app), docs.configs, docs.templates, docs.relations) else Of(db, other)
  {
    var gc, gt, gr := Just(ConfigIn(other)), Just(TemplateIn(other)), Just(RelationIn(other));
    PickConcat(db.configs, docs.configs, gc);
    PickConcat(db.templates, docs.templates, gt);
    PickConcat(db.relations, docs.relations, gr);
    if other == app {
      PickAll(docs.configs, gc); PickAll(docs.templates, gt); PickAll(docs.relations, gr);
    } else {
      PickNone(docs.configs, gc); PickNone(docs.templates, gt); PickNone(docs.relations, gr);
    }
  }

  lemma InsertAllTouchesOnly(db: Db, docs: Db, app: string, faults: Faults, other: string)
    requires AllOf(docs, app)
    ensures var (db', ok) := InsertAll(db, docs, app, faults);
      var entered := Entered(db, docs, faults);
      var reached := Plus(Of(db, app), entered.configs, entered.templates, entered.relations);
      && (other != app ==> Of(db', other) == Of(db, other))
      && Of(db', app) == if ok then reached else Cut(reached, faults.undone)
  {
    var entered := Entered(db, docs, faults);
    EnteredAllOf(db, docs, app, faults);
    OfPlus(db, entered, app, other);
    OfPlus(db, entered, app, app);
    var reached := Plus(db, entered.configs, entered.templates, entered.relations);
    WithoutKeepsOthers(reached, app, faults.undone, other);
    WithoutKeepsOthers(reached, app, faults.undone, app);
  }

  predicate Clashes(coll: seq<Relation>, docs: seq<Relation>, k: nat)
    requires k < |docs|
  {
    exists r | r in coll + docs[..k] ::
      r.sceneId == docs[k].sceneId && r.tenantId == docs[k].tenantId && r.instanceId == docs[k].instanceId
  }

  /** The index stops the inserts at the first relation with the scene, tenant and instance of one that is stored or
      was just inserted. */
  lemma {:induction false} FirstClashMeaning(coll: seq<Relation>, docs: seq<Relation>)
    ensures var k := FirstClash(coll, docs);
      k <= |docs| && (forall j | 0 <= j < k :: !Clashes(coll, docs, j)) && (k < |docs| ==> Clashes(coll, docs, k))
    decreases |docs|
  {
    if docs != [] && !(exists r | r in coll :: SameKey(r, docs[0])) {
      var rest := docs[1..];
      FirstClashMeaning(coll + [docs[0]], rest);
      forall j | 0 <= j < |rest| ensures Clashes(coll + [docs[0]], rest, j) <==> Clashes(coll, docs, j + 1) {
        assert coll + [docs[0]] + rest[..j] == coll + docs[..j + 1];
      }
      assert coll + docs[..0] == coll;
      var k := FirstClash(coll, docs);
      forall j | 0 <= j < k ensures !Clashes(coll, docs, j) {
        if j > 0 { assert !Clashes(coll + [docs[0]], rest, j - 1); }
      }
    }
  }

  /** An insert of n documents puts in m of them. */
  predicate StopsAt(m: nat, n: nat, stop: Option<nat>)
  {
    m <= n && (m < n ==> stop == Some(m)) && (stop.Some? && stop.value < n ==> m == stop.value)
  }

  /** Classes are inserted before templates and these before relations, each in order up to where the insert stops. */
  lemma InsertsInOrder(db: Db, docs: Db, faults: Faults)
    ensures var e := Entered(db, docs, faults);
      && e.configs <= docs.configs && e.templates <= docs.templates && e.relations <= docs.relations
      && (e.configs != docs.configs ==> e.templates == [] && e.relations == [])
      && (e.templates != docs.templates ==> e.relations == [])
      && StopsAt(|e.configs|, |docs.configs|, faults.configStop)
      && (e.configs == docs.configs ==> StopsAt(|e.templates|, |docs.templates|, faults.templateStop))
      && (e.configs == docs.configs && e.templates == docs.templates ==>
            var clash := FirstClash(db.relations, docs.relations);
            if faults.indexed && clash <= |e.relations| then |e.relations| == clash
            else StopsAt(|e.relations|, |docs.relations|, faults.relationStop))
  {
  }

  lemma EnteredAllOf(db: Db, docs: Db, app: string, faults: Faults)
    requires AllOf(docs, app)
    ensures AllOf(Entered(db, docs, faults), app)
  {
    var entered := Entered(db, docs, faults);
    forall c | c in entered.configs ensures c in docs.configs {}
    forall t | t in entered.templates ensures t in docs.templates {}
    forall r | r in entered.relations ensures r in docs.relations {}
  }

  lemma CopiesBelongToNewApp(db: Db, oldApp: string, newApp: string, force: bool, faults: Faults)
    ensures AllOf(Copies(db, oldApp, newApp, force, faults), newApp)
  {
    var start, copies := Start(db, newApp, force, faults), Copies(db, oldApp, newApp, force, faults);
    forall c | c in copies.configs ensures c.appId == newApp {
      PickHas(start.configs, ConfigCopier(oldApp, newApp, Exist(ClassIds(db, newApp), force)), c);
    }
    forall t | t in copies.templates ensures t.appId == newApp {
      PickHas(start.templates, TemplateCopier(oldApp, newApp, Exist(TemplateIds(db, newApp), force)), t);
    }
    forall r | r in copies.relations ensures r.appId == newApp {
      PickHas(start.relations, RelationCopier(oldApp, newApp, Exist(SceneIds(db, newApp), force)), r);
    }
  }

  /** What a call leaves behind, for any answers of the database: every other application is as it was; a failed find
      leaves what the first deletions left; a success adds the copies after that; a failed insert leaves that and
      what was put in, but for the collections whose deletion takes effect. */
  lemma CopyOutcome(db: Db, oldApp: string, newApp: string, force: bool, faults: Faults, other: string)
    ensures var (db', ok) := CopyApp(db, oldApp, newApp, force, faults);
      var before := if force then Cut(Of(db, newApp), faults.cleared) else Of(db, newApp);
      var findFails := (if force then 4 else 1) <= faults.findFails <= 6;
      var copies := Copies(db, oldApp, newApp, force, faults);
      var entered := Entered(Start(db, newApp, force, faults), copies, faults);
      && (other != newApp ==> Of(db', other) == Of(db, other))
      && (ok ==> Of(db', newApp) == Plus(before, copies.configs, copies.templates, copies.relations))
      && (findFails ==> !ok) && (!ok && findFails ==> Of(db', newApp) == before)
      && (!ok && !findFails ==>
            Of(db', newApp) == Cut(Plus(before, entered.configs, entered.templates, entered.relations), faults.undone))
  {
    var start := Start(db, newApp, force, faults);
    if force {
      WithoutKeepsOthers(db, newApp, faults.cleared, other);
      WithoutKeepsOthers(db, newApp, faults.cleared, newApp);
    }
    if !FindFails(force, faults) {
      CopiesBelongToNewApp(db, oldApp, newApp, force, faults);
      InsertAllTouchesOnly(start, Copies(db, oldApp, newApp, force, faults), newApp, faults, other);
    }
  }

  /** After a failed insert the new application is empty exactly if every deletion that fails is of a collection that
      held nothing of it and was put nothing in. */
  lemma EmptyIffDeleted(db: Db, oldApp: string, newApp: string, force: bool, faults: Faults)
    requires !FindFails(force, faults) && !CopyApp(db, oldApp, newApp, force, faults).1
    ensures var start := Start(db, newApp, force, faults);
      var entered := Entered(start, Copies(db, oldApp, newApp, force, faults), faults);
      Of(CopyApp(db, oldApp, newApp, force, faults).0, newApp) == Db([], [], []) <==>
        && (faults.undone.configs || (ClassIds(start, newApp) == [] && entered.configs == []))
        && (faults.undone.templates || (TemplateIds(start, newApp) == [] && entered.templates == []))
        && (faults.undone.relations || (SceneIds(start, newApp) == [] && entered.relations == []))
  {
    var start := Start(db, newApp, force, faults);
    CopiesBelongToNewApp(db, oldApp, newApp, force, faults);
    InsertAllTouchesOnly(start, Copies(db, oldApp, newApp, force, faults), newApp, faults, newApp);
    PickBoth(start.configs, Just(ConfigIn(newApp)), ClassOf(newApp));
    PickBoth(start.templates, Just(TemplateIn(newApp)), TemplateOf(newApp));
    PickBoth(start.relations, Just(RelationIn(newApp)), SceneOf(newApp));
  }

  lemma {:induction false} PickBoth<D, E, F>(docs: seq<D>, f: D -> Option<E>, g: D -> Option<F>)
    requires forall d :: f(d).Some? <==> g(d).Some?
    ensures |Pick(docs, f)| == |Pick(docs, g)|
  {
    if docs != [] { PickBoth(docs[1..], f, g); }
  }

  // ---- References resolve ----

  predicate HasClass(db: Db, app: string, classId: string)
  {
    exists c | c in db.configs :: c.appId == app && c.classId == classId
  }

  predicate HasTemplate(db: Db, app: string, templateId: string)
  {
    exists t | t in db.templates :: t.appId == app && t.templateId == templateId
  }

  lemma ClassIdsHas(db: Db, app: string, id: string)
    ensures id in ClassIds(db, app) <==> HasClass(db, app, id)
  {
    PickHas(db.configs, ClassOf(app), id);
  }

  lemma TemplateIdsHas(db: Db, app: string, id: string)
    ensures id in TemplateIds(db, app) <==> HasTemplate(db, app, id)
  {
    PickHas(db.templates, TemplateOf(app), id);
  }

  lemma RenameInjective(a: string, b: string, newApp: string)
    ensures Rename(a, newApp) == Rename(b, newApp) <==> a == b
  {
    assert Rename(a, newApp)[..|Rename(a, newApp)| - |"-" + newApp|] == a;
    assert Rename(b, newApp)[..|Rename(b, newApp)| - |"-" + newApp|] == b;
  }

  lemma WithoutHas(db: Db, app: string, took: Deletes)
    ensures forall c :: c in Without(db, app, took).configs <==> c in db.configs && (took.configs ==> c.appId != app)
    ensures forall t ::
      t in Without(db, app, took).templates <==> t in db.templates && (took.templates ==> t.appId != app)
    ensures forall r ::
      r in Without(db, app, took).relations <==> r in db.relations && (took.relations ==> r.appId != app)
  {
    NotOfHas(db.configs, ConfigIn(app));
    NotOfHas(db.templates, TemplateIn(app));
    NotOfHas(db.relations, RelationIn(app));
  }

  lemma NotOfHas<D(!new)>(docs: seq<D>, gone: D -> bool)
    ensures forall d :: d in Pick(docs, NotOf(gone)) <==> d in docs && !gone(d)
  {
    forall d ensures d in Pick(docs, NotOf(gone)) <==> d in docs && !gone(d) { PickHas(docs, NotOf(gone), d); }
  }

  // ---- One collection ----

  /** f copies documents of one application into another: `theirs` is the id of a document of the old one, `mine` that
      of a document of the new one, and copies get the renamed id unless it exists. */
  ghost predicate CopiesIds<D(!new)>(docs: seq<D>, f: D -> Option<D>, mine: D -> Option<string>,
      theirs: D -> Option<string>, rename: string -> string, exist: seq<string>)
  {
    && (forall a, b :: rename(a) == rename(b) ==> a == b)
    && (forall d | d in docs :: f(d).Some? <==> theirs(d).Some? && rename(theirs(d).value) !in exist)
    && (forall d | d in docs && f(d).Some? ::
          mine(f(d).value) == Some(rename(theirs(d).value)) && theirs(f(d).value).None?)
  }

  function NewId<D>(f: D -> Option<D>, mine: D -> Option<string>): D -> Option<string>
  {
    (d: D) => if f(d).Some? then mine(f(d).value) else None
  }

  lemma IdsAfter<D(!new)>(docs: seq<D>, f: D -> Option<D>, mine: D -> Option<string>,
      theirs: D -> Option<string>, rename: string -> string, exist: seq<string>, y: string)
    requires CopiesIds(docs, f, mine, theirs, rename, exist)
    ensures Pick(docs + Pick(docs, f), mine) == Pick(docs, mine) + Pick(docs, NewId(f, mine))
    ensures y in Pick(docs, NewId(f, mine)) <==> y !in exist && exists x :: x in Pick(docs, theirs) && rename(x) == y
  {
    PickPick(docs, f, mine, NewId(f, mine));
    PickConcat(docs, Pick(docs, f), mine);
    PickHas(docs, NewId(f, mine), y);
    forall x ensures x in Pick(docs, theirs) <==> exists d :: d in docs && theirs(d) == Some(x) {
      PickHas(docs, theirs, x);
    }
    if x :| x in Pick(docs, theirs) && rename(x) == y && y !in exist {
      var d :| d in docs && theirs(d) == Some(x);
      assert NewId(f, mine)(d) == Some(y);
    }
    if y in Pick(docs, NewId(f, mine)) {
      var d :| d in docs && NewId(f, mine)(d) == Some(y);
      assert theirs(d).value in Pick(docs, theirs) && rename(theirs(d).value) == y;
    }
  }

  lemma {:induction false} PickRenamedDistinct<D>(docs: seq<D>, id: D -> Option<string>, renamed: D -> Option<string>,
      rename: string -> string)
    requires Distinct(Pick(docs, id)) && forall a, b :: rename(a) == rename(b) ==> a == b
    requires forall d | d in docs :: renamed(d).Some? ==> id(d).Some? && renamed(d).value == rename(id(d).value)
    ensures Distinct(Pick(docs, renamed))
  {
    if docs != [] {
      assert docs[0] in docs;
      var rest := Pick(docs[1..], id);
      if id(docs[0]).Some? {
        assert Pick(docs, id)[1..] == rest;
        assert forall i | 0 <= i < |rest| :: Pick(docs, id)[i + 1] == rest[i];
      }
      PickRenamedDistinct(docs[1..], id, renamed, rename);
      if renamed(docs[0]).Some? {
        var x := renamed(docs[0]).value;
        forall i | 0 <= i < |rest| ensures rest[i] != id(docs[0]).value {
          assert Pick(docs, id)[0] != Pick(docs, id)[i + 1];
        }
        forall d | d in docs[1..] ensures renamed(d) != Some(x) {
          assert d in docs;
          if renamed(d).Some? { PickHas(docs[1..], id, id(d).value); }
        }
        PickHas(docs[1..], renamed, x);
      }
    }
  }

  lemma {:induction false} NewIdsDistinct<D(!new)>(docs: seq<D>, f: D -> Option<D>, mine: D -> Option<string>,
      theirs: D -> Option<string>, rename: string -> string, exist: seq<string>)
    requires CopiesIds(docs, f, mine, theirs, rename, exist) && Distinct(Pick(docs, theirs))
    ensures Distinct(Pick(docs, NewId(f, mine))) && forall x | x in Pick(docs, NewId(f, mine)) :: x !in exist
  {
    var renamed := NewId(f, mine);
    forall x | x in Pick(docs, renamed) ensures x !in exist { PickHas(docs, renamed, x); }
    PickRenamedDistinct(docs, theirs, renamed, rename);
  }

  lemma DistinctConcat(xs: seq<string>, ys: seq<string>)
    requires Distinct(ys)
    ensures Distinct(xs + ys) <==> Distinct(xs) && forall y | y in ys :: y !in xs
  {
    var zs := xs + ys;
    if Distinct(xs) && forall y | y in ys :: y !in xs {
      forall i, j | 0 <= i < j < |zs| ensures zs[i] != zs[j] {
        if i < |xs| <= j { assert ys[j - |xs|] in ys; }
      }
    }
    if Distinct(zs) {
      forall i, j | 0 <= i < j < |xs| ensures xs[i] != xs[j] { assert zs[i] != zs[j]; }
      forall i, j | 0 <= i < |xs| && 0 <= j < |ys| ensures xs[i] != ys[j] { assert zs[i] != zs[|xs| + j]; }
    }
  }

  lemma IdsStayDistinct<D(!new)>(docs: seq<D>, f: D -> Option<D>, mine: D -> Option<string>,
      theirs: D -> Option<string>, rename: string -> string, exist: seq<string>)
    requires CopiesIds(docs, f, mine, theirs, rename, exist) && Distinct(Pick(docs, theirs))
    ensures Distinct(Pick(docs + Pick(docs, f), mine)) <==>
      && Distinct(Pick(docs, mine))
      && forall x | x in Pick(docs, theirs) && rename(x) !in exist :: rename(x) !in Pick(docs, mine)
  {
    var news := Pick(docs, NewId(f, mine));
    NewIdsDistinct(docs, f, mine, theirs, rename, exist);
    DistinctConcat(Pick(docs, mine), news);
    forall y ensures y in news <==> y !in exist && exists x :: x in Pick(docs, theirs) && rename(x) == y {
      IdsAfter(docs, f, mine, theirs, rename, exist, y);
    }
    IdsAfter(docs, f, mine, theirs, rename, exist, "");
    forall x | x in Pick(docs, theirs) && rename(x) !in exist ensures rename(x) in news {}
  }

  /** With everything copied there is nothing left to copy. */
  lemma NothingLeft<D(!new)>(docs: seq<D>, f: D -> Option<D>, mine: D -> Option<string>,
      theirs: D -> Option<string>, rename: string -> string, exist: seq<string>, again: D -> Option<D>)
    requires CopiesIds(docs, f, mine, theirs, rename, exist)
    requires forall x | x in exist :: x in Pick(docs, mine)
    requires var after := docs + Pick(docs, f);
      forall d | d in after :: again(d).Some? ==> theirs(d).Some? && rename(theirs(d).value) !in Pick(after, mine)
    ensures Pick(docs + Pick(docs, f), again) == []
  {
    var after := docs + Pick(docs, f);
    forall d | d in Pick(docs, f) ensures theirs(d).None? { PickHas(docs, f, d); }
    forall d | d in after ensures again(d) == None {
      if theirs(d).Some? {
        IdsAfter(docs, f, mine, theirs, rename, exist, rename(theirs(d).value));
        PickHas(docs, theirs, theirs(d).value);
      }
    }
    PickNone(after, again);
  }

  // ---- The three collections ----

  function Renamer(newApp: string): string -> string { (s: string) => Rename(s, newApp) }

  function SameName(): string -> string { (s: string) => s }

  lemma StartIds<D(!new)>(docs: seq<D>, gone: D -> bool, theirs: D -> Option<string>)
    requires forall d :: gone(d) ==> theirs(d).None?
    ensures Pick(Pick(docs, NotOf(gone)), theirs) == Pick(docs, theirs)
  {
    PickPick(docs, NotOf(gone), theirs, theirs);
  }

  /** How classes are copied, from what the new application starts with. */
  lemma ClassesCopied(db: Db, oldApp: string, newApp: string, force: bool, faults: Faults)
    requires oldApp != newApp
    ensures var docs, exist := Start(db, newApp, force, faults).configs, Exist(ClassIds(db, newApp), force);
      && CopiesIds(docs, ConfigCopier(oldApp, newApp, exist), ClassOf(newApp), ClassOf(oldApp), Renamer(newApp), exist)
      && Pick(docs, ClassOf(oldApp)) == ClassIds(db, oldApp)
  {
    forall a, b | Renamer(newApp)(a) == Renamer(newApp)(b) ensures a == b { RenameInjective(a, b, newApp); }
    StartIds(db.configs, ConfigIn(newApp), ClassOf(oldApp));
  }

  /** How templates are copied, from what the new application starts with. */
  lemma TemplatesCopied(db: Db, oldApp: string, newApp: string, force: bool, faults: Faults)
    requires oldApp != newApp
    ensures var docs, exist := Start(db, newApp, force, faults).templates, Exist(TemplateIds(db, newApp), force);
      && CopiesIds(docs, TemplateCopier(oldApp, newApp, exist), TemplateOf(newApp), TemplateOf(oldApp), Renamer(newApp),
                   exist)
      && Pick(docs, TemplateOf(oldApp)) == TemplateIds(db, oldApp)
  {
    forall a, b | Renamer(newApp)(a) == Renamer(newApp)(b) ensures a == b { RenameInjective(a, b, newApp); }
    StartIds(db.templates, TemplateIn(newApp), TemplateOf(oldApp));
  }

  /** How scene relations are copied, from what the new application starts with. */
  lemma RelationsCopied(db: Db, oldApp: string, newApp: string, force: bool, faults: Faults)
    requires oldApp != newApp
    ensures var docs, exist := Start(db, newApp, force, faults).relations, Exist(SceneIds(db, newApp), force);
      && CopiesIds(docs, RelationCopier(oldApp, newApp, exist), SceneOf(newApp), SceneOf(oldApp), SameName(), exist)
      && Pick(docs, SceneOf(oldApp)) == SceneIds(db, oldApp)
  {
    forall a, b | SameName()(a) == SameName()(b) ensures a == b {}
    StartIds(db.relations, RelationIn(newApp), SceneOf(oldApp));
  }

  lemma Succeeded(db: Db, oldApp: string, newApp: string, force: bool, faults: Faults)
    requires CopyApp(db, oldApp, newApp, force, faults).1
    ensures var copies := Copies(db, oldApp, newApp, force, faults);
      CopyApp(db, oldApp, newApp, force, faults).0
         == Plus(Start(db, newApp, force, faults), copies.configs, copies.templates, copies.relations)
  {
  }

  // ---- What a copy holds ----

  /** After a successful copy a class is stored exactly if it was (and was not deleted first), or it is the copy of a
      class of the old application whose renamed id the new one is not taken to have: the id renamed, the application
      the new one, and everything else, the parent's id included, as in the original. */
  lemma ClassesStored(db: Db, oldApp: string, newApp: string, force: bool, faults: Faults, d: Config)
    requires oldApp != newApp && CopyApp(db, oldApp, newApp, force, faults).1
    ensures d in CopyApp(db, oldApp, newApp, force, faults).0.configs <==>
        || (d in db.configs && !(force && faults.cleared.configs && d.appId == newApp))
        || (exists c :: c in db.configs && c.appId == oldApp
                        && (force || !HasClass(db, newApp, c.classId + "-" + newApp))
                        && d == Config(c.classId + "-" + newApp, c.parentId, newApp, c.rest))
  {
    var start, exist := Start(db, newApp, force, faults), Exist(ClassIds(db, newApp), force);
    var f := ConfigCopier(oldApp, newApp, exist);
    Succeeded(db, oldApp, newApp, force, faults);
    WithoutHas(db, newApp, faults.cleared);
    PickHas(start.configs, f, d);
    forall c | c in db.configs && c.appId == oldApp
      ensures c in start.configs
      ensures f(c) == if force || !HasClass(db, newApp, c.classId + "-" + newApp)
                      then Some(Config(c.classId + "-" + newApp, c.parentId, newApp, c.rest)) else None
    {
      ClassIdsHas(db, newApp, c.classId + "-" + newApp);
    }
  }

  /** Likewise for templates. */
  lemma TemplatesStored(db: Db, oldApp: string, newApp: string, force: bool, faults: Faults, d: Template)
    requires oldApp != newApp && CopyApp(db, oldApp, newApp, force, faults).1
    ensures d in CopyApp(db, oldApp, newApp, force, faults).0.templates <==>
        || (d in db.templates && !(force && faults.cleared.templates && d.appId == newApp))
        || (exists t :: t in db.templates && t.appId == oldApp
                        && (force || !HasTemplate(db, newApp, t.templateId + "-" + newApp))
                        && d == Template(t.templateId + "-" + newApp, newApp, t.rest))
  {
    var start, exist := Start(db, newApp, force, faults), Exist(TemplateIds(db, newApp), force);
    var f := TemplateCopier(oldApp, newApp, exist);
    Succeeded(db, oldApp, newApp, force, faults);
    WithoutHas(db, newApp, faults.cleared);
    PickHas(start.templates, f, d);
    forall t | t in db.templates && t.appId == oldApp
      ensures t in start.templates
      ensures f(t) == if force || !HasTemplate(db, newApp, t.templateId + "-" + newApp)
                      then Some(Template(t.templateId + "-" + newApp, newApp, t.rest)) else None
    {
      TemplateIdsHas(db, newApp, t.templateId + "-" + newApp);
    }
  }

  predicate HasScene(db: Db, app: string, sceneId: string)
  {
    exists r | r in db.relations :: r.appId == app && r.sceneId == sceneId
  }

  /** Likewise for relations, with both references renamed and the scene, tenant and instance kept. */
  lemma RelationsStored(db: Db, oldApp: string, newApp: string, force: bool, faults: Faults, d: Relation)
    requires oldApp != newApp && CopyApp(db, oldApp, newApp, force, faults).1
    ensures d in CopyApp(db, oldApp, newApp, force, faults).0.relations <==>
        || (d in db.relations && !(force && faults.cleared.relations && d.appId == newApp))
        || (exists r :: r in db.relations && r.appId == oldApp && (force || !HasScene(db, newApp, r.sceneId))
                        && d == Relation(r.sceneId, r.configId + "-" + newApp, r.templateId + "-" + newApp, r.tenantId,
                                         r.instanceId, newApp, r.rest))
  {
    var start, exist := Start(db, newApp, force, faults), Exist(SceneIds(db, newApp), force);
    var f := RelationCopier(oldApp, newApp, exist);
    Succeeded(db, oldApp, newApp, force, faults);
    WithoutHas(db, newApp, faults.cleared);
    PickHas(start.relations, f, d);
    forall r | r in db.relations && r.appId == oldApp
      ensures r in start.relations
      ensures f(r) == if force || !HasScene(db, newApp, r.sceneId)
                      then Some(Relation(r.sceneId, r.configId + "-" + newApp, r.templateId + "-" + newApp, r.tenantId,
                                         r.instanceId, newApp, r.rest)) else None
    {
      PickHas(db.relations, SceneOf(newApp), r.sceneId);
    }
  }

  // ---- References resolve after the copy ----

  /** After a successful copy between distinct applications the new one has a class of some id exactly if it started
      with it, or the id is the renamed one of a class of the old one. */
  lemma ClassesAfterCopy(db: Db, oldApp: string, newApp: string, force: bool, faults: Faults, classId: string)
    requires oldApp != newApp && CopyApp(db, oldApp, newApp, force, faults).1
    ensures HasClass(CopyApp(db, oldApp, newApp, force, faults).0, newApp, classId) <==>
        || HasClass(Start(db, newApp, force, faults), newApp, classId)
        || exists x :: HasClass(db, oldApp, x) && Rename(x, newApp) == classId
  {
    var start, exist := Start(db, newApp, force, faults), Exist(ClassIds(db, newApp), force);
    Succeeded(db, oldApp, newApp, force, faults);
    ClassesCopied(db, oldApp, newApp, force, faults);
    IdsAfter(start.configs, ConfigCopier(oldApp, newApp, exist), ClassOf(newApp), ClassOf(oldApp), Renamer(newApp),
             exist, classId);
    ClassIdsHas(CopyApp(db, oldApp, newApp, force, faults).0, newApp, classId);
    ClassIdsHas(start, newApp, classId);
    forall x ensures x in ClassIds(db, oldApp) <==> HasClass(db, oldApp, x) { ClassIdsHas(db, oldApp, x); }
    forall x ensures Renamer(newApp)(x) == Rename(x, newApp) {}
  }

  lemma TemplatesAfterCopy(db: Db, oldApp: string, newApp: string, force: bool, faults: Faults, templateId: string)
    requires oldApp != newApp && CopyApp(db, oldApp, newApp, force, faults).1
    ensures HasTemplate(CopyApp(db, oldApp, newApp, force, faults).0, newApp, templateId) <==>
        || HasTemplate(Start(db, newApp, force, faults), newApp, templateId)
        || exists x :: HasTemplate(db, oldApp, x) && Rename(x, newApp) == templateId
  {
    var start, exist := Start(db, newApp, force, faults), Exist(TemplateIds(db, newApp), force);
    Succeeded(db, oldApp, newApp, force, faults);
    TemplatesCopied(db, oldApp, newApp, force, faults);
    IdsAfter(start.templates, TemplateCopier(oldApp, newApp, exist), TemplateOf(newApp), TemplateOf(oldApp),
             Renamer(newApp), exist, templateId);
    TemplateIdsHas(CopyApp(db, oldApp, newApp, force, faults).0, newApp, templateId);
    TemplateIdsHas(start, newApp, templateId);
    forall x ensures x in TemplateIds(db, oldApp) <==> HasTemplate(db, oldApp, x) { TemplateIdsHas(db, oldApp, x); }
    forall x ensures Renamer(newApp)(x) == Rename(x, newApp) {}
  }

  lemma RenamedFrom(id: string, newApp: string)
    ensures forall x :: Rename(x, newApp) == Rename(id, newApp) <==> x == id
  {
    forall x ensures Rename(x, newApp) == Rename(id, newApp) <==> x == id { RenameInjective(x, id, newApp); }
  }

  /** A copied relation finds its class (template) in the new application exactly if its original's was in the
      old application, or the new application started with one of the renamed id. */
  lemma CopiedRelationResolves(db: Db, oldApp: string, newApp: string, force: bool, faults: Faults, r: Relation)
    requires oldApp != newApp && CopyApp(db, oldApp, newApp, force, faults).1
    requires r in db.relations && r.appId == oldApp && (force || r.sceneId !in SceneIds(db, newApp))
    ensures var db', start := CopyApp(db, oldApp, newApp, force, faults).0, Start(db, newApp, force, faults);
      var copy := CopyRelation(r, oldApp, newApp, []).value;
      && copy in db'.relations && copy.appId == newApp && copy.sceneId == r.sceneId
      && (HasClass(db', newApp, copy.configId) <==>
            HasClass(db, oldApp, r.configId) || HasClass(start, newApp, copy.configId))
      && (HasTemplate(db', newApp, copy.templateId) <==>
            HasTemplate(db, oldApp, r.templateId) || HasTemplate(start, newApp, copy.templateId))
  {
    var start, exist := Start(db, newApp, force, faults), Exist(SceneIds(db, newApp), force);
    Succeeded(db, oldApp, newApp, force, faults);
    WithoutHas(db, newApp, faults.cleared);
    PickHas(start.relations, RelationCopier(oldApp, newApp, exist), CopyRelation(r, oldApp, newApp, []).value);
    ClassesAfterCopy(db, oldApp, newApp, force, faults, Rename(r.configId, newApp));
    TemplatesAfterCopy(db, oldApp, newApp, force, faults, Rename(r.templateId, newApp));
    RenamedFrom(r.configId, newApp);
    RenamedFrom(r.templateId, newApp);
  }

  /** A copied class keeps the parent's id as it is: its parent is in the new application exactly if that started with a
      class of this id, or the id is itself a renamed one of the old application.  The parent's copy is there under
      the renamed id. */
  lemma CopiedParent(db: Db, oldApp: string, newApp: string, force: bool, faults: Faults, c: Config)
    requires oldApp != newApp && CopyApp(db, oldApp, newApp, force, faults).1
    requires c in db.configs && c.appId == oldApp && (force || Rename(c.classId, newApp) !in ClassIds(db, newApp))
    ensures var db' := CopyApp(db, oldApp, newApp, force, faults).0;
      var copy := CopyConfig(c, oldApp, newApp, []).value;
      && copy in db'.configs && copy.appId == newApp && copy.parentId == c.parentId
      && (HasClass(db', newApp, copy.parentId) <==>
            || HasClass(Start(db, newApp, force, faults), newApp, c.parentId)
            || exists x :: HasClass(db, oldApp, x) && Rename(x, newApp) == c.parentId)
      && (HasClass(db, oldApp, c.parentId) ==> HasClass(db', newApp, Rename(c.parentId, newApp)))
  {
    var start, exist := Start(db, newApp, force, faults), Exist(ClassIds(db, newApp), force);
    Succeeded(db, oldApp, newApp, force, faults);
    WithoutHas(db, newApp, faults.cleared);
    PickHas(start.configs, ConfigCopier(oldApp, newApp, exist), CopyConfig(c, oldApp, newApp, []).value);
    ClassesAfterCopy(db, oldApp, newApp, force, faults, c.parentId);
    ClassesAfterCopy(db, oldApp, newApp, force, faults, Rename(c.parentId, newApp));
  }

  // ---- Ids stay unique ----

  /** Class ids unique in the old application are unique in the new one after a successful copy exactly if those it
      started with are, and none of those not taken for existing is a renamed id; so are template ids, and scene ids,
      which are not renamed. */
  lemma ClassIdsStayDistinct(db: Db, oldApp: string, newApp: string, force: bool, faults: Faults)
    requires oldApp != newApp && CopyApp(db, oldApp, newApp, force, faults).1 && Distinct(ClassIds(db, oldApp))
    ensures var before := ClassIds(Start(db, newApp, force, faults), newApp);
      Distinct(ClassIds(CopyApp(db, oldApp, newApp, force, faults).0, newApp)) <==>
        Distinct(before) && (force ==> forall x | x in ClassIds(db, oldApp) :: Rename(x, newApp) !in before)
  {
    var docs, exist := Start(db, newApp, force, faults).configs, Exist(ClassIds(db, newApp), force);
    Succeeded(db, oldApp, newApp, force, faults);
    ClassesCopied(db, oldApp, newApp, force, faults);
    IdsStayDistinct(docs, ConfigCopier(oldApp, newApp, exist), ClassOf(newApp), ClassOf(oldApp),
                    Renamer(newApp), exist);
    forall x ensures Renamer(newApp)(x) == Rename(x, newApp) {}
  }

  lemma TemplateIdsStayDistinct(db: Db, oldApp: string, newApp: string, force: bool, faults: Faults)
    requires oldApp != newApp && CopyApp(db, oldApp, newApp, force, faults).1 && Distinct(TemplateIds(db, oldApp))
    ensures var before := TemplateIds(Start(db, newApp, force, faults), newApp);
      Distinct(TemplateIds(CopyApp(db, oldApp, newApp, force, faults).0, newApp)) <==>
        Distinct(before) && (force ==> forall x | x in TemplateIds(db, oldApp) :: Rename(x, newApp) !in before)
  {
    var docs, exist := Start(db, newApp, force, faults).templates, Exist(TemplateIds(db, newApp), force);
    Succeeded(db, oldApp, newApp, force, faults);
    TemplatesCopied(db, oldApp, newApp, force, faults);
    IdsStayDistinct(docs, TemplateCopier(oldApp, newApp, exist), TemplateOf(newApp), TemplateOf(oldApp),
                    Renamer(newApp), exist);
    forall x ensures Renamer(newApp)(x) == Rename(x, newApp) {}
  }

  lemma SceneIdsStayDistinct(db: Db, oldApp: string, newApp: string, force: bool, faults: Faults)
    requires oldApp != newApp && CopyApp(db, oldApp, newApp, force, faults).1 && Distinct(SceneIds(db, oldApp))
    ensures var before := SceneIds(Start(db, newApp, force, faults), newApp);
      Distinct(SceneIds(CopyApp(db, oldApp, newApp, force, faults).0, newApp)) <==>
        Distinct(before) && (force ==> forall x | x in SceneIds(db, oldApp) :: x !in before)
  {
    var docs, exist := Start(db, newApp, force, faults).relations, Exist(SceneIds(db, newApp), force);
    Succeeded(db, oldApp, newApp, force, faults);
    RelationsCopied(db, oldApp, newApp, force, faults);
    IdsStayDistinct(docs, RelationCopier(oldApp, newApp, exist), SceneOf(newApp), SceneOf(oldApp), SameName(), exist);
  }

  // ---- Copying again ----

  lemma NoClassLeft(db: Db, oldApp: string, newApp: string, force: bool, faults: Faults)
    requires oldApp != newApp && CopyApp(db, oldApp, newApp, force, faults).1
    ensures var db' := CopyApp(db, oldApp, newApp, force, faults).0;
      Configs(db', oldApp, newApp, ClassIds(db', newApp)) == []
  {
    var docs, exist := Start(db, newApp, force, faults).configs, Exist(ClassIds(db, newApp), force);
    Succeeded(db, oldApp, newApp, force, faults);
    ClassesCopied(db, oldApp, newApp, force, faults);
    var db' := CopyApp(db, oldApp, newApp, force, faults).0;
    NothingLeft(docs, ConfigCopier(oldApp, newApp, exist), ClassOf(newApp), ClassOf(oldApp),
                Renamer(newApp), exist, ConfigCopier(oldApp, newApp, ClassIds(db', newApp)));
  }

  lemma NoTemplateLeft(db: Db, oldApp: string, newApp: string, force: bool, faults: Faults)
    requires oldApp != newApp && CopyApp(db, oldApp, newApp, force, faults).1
    ensures var db' := CopyApp(db, oldApp, newApp, force, faults).0;
      Templates(db', oldApp, newApp, TemplateIds(db', newApp)) == []
  {
    var docs, exist := Start(db, newApp, force, faults).templates, Exist(TemplateIds(db, newApp), force);
    Succeeded(db, oldApp, newApp, force, faults);
    TemplatesCopied(db, oldApp, newApp, force, faults);
    var db' := CopyApp(db, oldApp, newApp, force, faults).0;
    NothingLeft(docs, TemplateCopier(oldApp, newApp, exist), TemplateOf(newApp), TemplateOf(oldApp),
                Renamer(newApp), exist, TemplateCopier(oldApp, newApp, TemplateIds(db', newApp)));
  }

  lemma NoRelationLeft(db: Db, oldApp: string, newApp: string, force: bool, faults: Faults)
    requires oldApp != newApp && CopyApp(db, oldApp, newApp, force, faults).1
    ensures var db' := CopyApp(db, oldApp, newApp, force, faults).0;
      Relations(db', oldApp, newApp, SceneIds(db', newApp)) == []
  {
    var docs, exist := Start(db, newApp, force, faults).relations, Exist(SceneIds(db, newApp), force);
    Succeeded(db, oldApp, newApp, force, faults);
    RelationsCopied(db, oldApp, newApp, force, faults);
    var db' := CopyApp(db, oldApp, newApp, force, faults).0;
    NothingLeft(docs, RelationCopier(oldApp, newApp, exist), SceneOf(newApp), SceneOf(oldApp),
                SameName(), exist, RelationCopier(oldApp, newApp, SceneIds(db', newApp)));
  }

  /** Once a copy between distinct applications succeeded, an unforced copy adds nothing and cannot fail for an
      insert. */
  lemma SecondCopyAddsNothing(db: Db, oldApp: string, newApp: string, force: bool, faults: Faults, again: Faults)
    requires oldApp != newApp && CopyApp(db, oldApp, newApp, force, faults).1
    ensures var db' := CopyApp(db, oldApp, newApp, force, faults).0;
      CopyApp(db', oldApp, newApp, false, again) == (db', !FindFails(false, again))
  {
    var db' := CopyApp(db, oldApp, newApp, force, faults).0;
    NoClassLeft(db, oldApp, newApp, force, faults);
    NoTemplateLeft(db, oldApp, newApp, force, faults);
    NoRelationLeft(db, oldApp, newApp, force, faults);
    InsertNothing(db', newApp, again);
  }

  lemma InsertNothing(db: Db, newApp: string, faults: Faults)
    ensures InsertAll(db, Db([], [], []), newApp, faults) == (db, true)
  {
    assert Plus(db, [], [], []) == db;
  }

  function NoFaults(indexed: bool): Faults { Faults(0, None, None, None, indexed, ALL, ALL) }

  // ---- The unique index on scene relations ----

  lemma {:induction false} ClashWithin(coll: seq<Relation>, docs: seq<Relation>)
    ensures FirstClash(coll, docs) <= |docs|
    decreases |docs|
  {
    if docs != [] { ClashWithin(coll + [docs[0]], docs[1..]); }
  }

  lemma OnlyAClashFails(db: Db, docs: Db, newApp: string, indexed: bool)
    ensures InsertAll(db, docs, newApp, NoFaults(indexed)).1
       <==> indexed ==> FirstClash(db.relations, docs.relations) == |docs.relations|
  {
    ClashWithin(db.relations, docs.relations);
    assert docs.configs[..|docs.configs|] == docs.configs && docs.templates[..|docs.templates|] == docs.templates;
    assert docs.relations[..|docs.relations|] == docs.relations;
  }

  lemma CopyClashes(db: Db, oldApp: string, newApp: string, force: bool)
    requires oldApp != newApp
    ensures var start := Start(db, newApp, force, NoFaults(true));
      var copies := Copies(db, oldApp, newApp, force, NoFaults(true));
      && (copies.relations != [] ==> FirstClash(start.relations, copies.relations) == 0)
      && (copies.relations == [] <==>
            forall r | r in db.relations && r.appId == oldApp :: !force && r.sceneId in SceneIds(db, newApp))
  {
    var start, exist := Start(db, newApp, force, NoFaults(true)), Exist(SceneIds(db, newApp), force);
    var f := RelationCopier(oldApp, newApp, exist);
    var copies := Relations(start, oldApp, newApp, exist);
    WithoutHas(db, newApp, ALL);
    if copies == [] {
      forall r | r in db.relations && r.appId == oldApp ensures r.sceneId in exist {
        if r.sceneId !in exist { PickHas(start.relations, f, f(r).value); }
      }
    } else {
      PickHas(start.relations, f, copies[0]);
      var r :| r in start.relations && f(r) == Some(copies[0]);
      assert SameKey(r, copies[0]);
    }
  }

  /** Under the unique index over scene, tenant and instance, which does not include the application, a copy
      between distinct applications succeeds exactly if it has no relation to copy: each copied relation clashes
      with its own original.  Without the index it succeeds. */
  lemma IndexForbidsRelations(db: Db, oldApp: string, newApp: string, force: bool)
    requires oldApp != newApp
    ensures CopyApp(db, oldApp, newApp, force, NoFaults(false)).1
    ensures CopyApp(db, oldApp, newApp, force, NoFaults(true)).1
      <==> forall r | r in db.relations && r.appId == oldApp :: !force && r.sceneId in SceneIds(db, newApp)
  {
    CopyClashes(db, oldApp, newApp, force);
    var without, with := NoFaults(false), NoFaults(true);
    OnlyAClashFails(Start(db, newApp, force, with), Copies(db, oldApp, newApp, force, with), newApp, true);
    OnlyAClashFails(Start(db, newApp, force, without), Copies(db, oldApp, newApp, force, without), newApp, false);
  }

  /** Copying an application onto itself by force deletes it and reports success. */
  lemma ForcedSelfCopyErases(db: Db, app: string, faults: Faults)
    requires !FindFails(true, faults) && faults.cleared == ALL
    ensures CopyApp(db, app, app, true, faults) == (Without(db, app, ALL), true)
    ensures Of(Without(db, app, ALL), app) == Db([], [], [])
  {
    WithoutHas(db, app, ALL);
    WithoutKeepsOthers(db, app, ALL, app);
    var s := Without(db, app, ALL);
    PickNone(s.configs, ConfigCopier(app, app, []));
    PickNone(s.templates, TemplateCopier(app, app, []));
    PickNone(s.relations, RelationCopier(app, app, []));
    InsertNothing(s, app, faults);
  }
}
