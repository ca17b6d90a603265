/** The two-tier message store: messages of persistent classes live in the document database, the others in
    the cache under a lease of a day that every write renews.  A lookup asks the cache first. */
module MessageStore {
  import opened Options

  type Id = nat
  type Sync = map<string, string>

  const DAY: nat := 24 * 3600 * 1000

  /** `rest` stands for the fields no update writes. */
  datatype Doc = Doc(rest: string, status: string, sync: Option<Sync>, updatedAt: nat)

  datatype Leased = Leased(doc: Doc, expires: nat)

  datatype Tiers = Tiers(now: nat, cache: map<Id, Leased>, database: map<Id, Doc>)

  datatype Error = NotFound | Duplicate

  datatype Result = Ok | Err(error: Error)

  // ---- The code ----

  /** Encoding omits an empty map, so that it is nil when read back. */
  function Encoded(d: Doc): Doc
  {
    if d.sync == Some(map[]) then d.(sync := None) else d
  }

  predicate Live(t: Tiers, id: Id)
  {
    id in t.cache && t.now < t.cache[id].expires
  }

  class Store {
    var now: nat
    var cache: map<Id, Leased>
    var database: map<Id, Doc>

    constructor ()
      ensures State() == Tiers(0, map[], map[])
    {
      now, cache, database := 0, map[], map[];
    }

    function State(): Tiers
      reads this
    {
      Tiers(now, cache, database)
    }

    method CacheGet(id: Id) returns (d: Option<Doc>)
      ensures d == if Live(State(), id) then Some(cache[id].doc) else None
    {
      d := None;
      if id in cache && now < cache[id].expires { d := Some(cache[id].doc); }
    }

    method AddMessageToRedis(id: Id, d: Doc)
      modifies this`cache
      ensures cache == old(cache)[id := Leased(Encoded(d), now + DAY)]
    {
      cache := cache[id := Leased(Encoded(d), now + DAY)];
    }

    method FindMessageById(id: Id) returns (d: Option<Doc>)
      ensures d == Find(State(), id)
    {
      d := CacheGet(id);
      if d.None? && id in database { d := Some(database[id]); }
    }

    method InsertOneMessage(id: Id, d: Doc, persist: bool) returns (r: Result)
      modifies this
      ensures (State(), r) == Insert(old(State()), id, d, persist)
    {
      if persist {
        if id in database { return Err(Duplicate); }
        database := database[id := Encoded(d)];
      } else {
        AddMessageToRedis(id, d);
      }
      r := Ok;
    }

    method UpdateOneMessage(id: Id, d: Doc, persist: bool) returns (r: Result)
      modifies this
      ensures (State(), r) == Update(old(State()), id, d, persist)
    {
      if persist {
        if id in database {
          database := database[id := database[id].(status := d.status, sync := d.sync, updatedAt := d.updatedAt)];
        }
      } else {
        var m := CacheGet(id);
        if m.None? { return Err(NotFound); }
        var doc := m.value;
        doc := doc.(status := d.status);
        doc := doc.(sync := d.sync);
        doc := doc.(updatedAt := d.updatedAt);
        AddMessageToRedis(id, doc);
      }
      r := Ok;
    }
  }

  // ---- Its specification ----

  function Find(t: Tiers, id: Id): Option<Doc>
  {
    if Live(t, id) then Some(t.cache[id].doc)
    else if id in t.database then Some(t.database[id])
    else None
  }

  function Insert(t: Tiers, id: Id, d: Doc, persist: bool): (Tiers, Result)
  {
    if persist then
      if id in t.database then (t, Err(Duplicate)) else (t.(database := t.database[id := Encoded(d)]), Ok)
    else (t.(cache := t.cache[id := Leased(Encoded(d), t.now + DAY)]), Ok)
  }

  function Overwrite(kept: Doc, d: Doc): Doc
  {
    Doc(kept.rest, d.status, d.sync, d.updatedAt)
  }

  function Update(t: Tiers, id: Id, d: Doc, persist: bool): (Tiers, Result)
  {
    if persist then
      if id in t.database then (t.(database := t.database[id := Overwrite(t.database[id], d)]), Ok) else (t, Ok)
    else if Live(t, id)
    then (t.(cache := t.cache[id := Leased(Encoded(Overwrite(t.cache[id].doc, d)), t.now + DAY)]), Ok)
    else (t, Err(NotFound))
  }

  // ---- What one call does, whatever the class's Persist has been ----

  /** An insertion is refused exactly for a persistent class whose message is in the database.  Otherwise it is what a
      lookup finds from then on: for a day in the cache, where it is found first, or in the database, where a copy
      still in the cache hides it. */
  lemma InsertOutcome(t: Tiers, id: Id, d: Doc, persist: bool)
    ensures var (after, r) := Insert(t, id, d, persist);
      && (r == Err(Duplicate) <==> persist && id in t.database) && (r.Ok? || (after == t && r == Err(Duplicate)))
      && (r.Ok? && !persist ==>
            after.database == t.database && Find(after, id) == Some(Encoded(d))
            && after.cache[id].expires == t.now + 24 * 60 * 60 * 1000)
      && (r.Ok? && persist ==>
            after.cache == t.cache && after.database.Keys == t.database.Keys + {id}
            && Find(after, id) == if Find(t, id).Some? then Find(t, id) else Some(Encoded(d)))
      && (forall other | other != id :: Find(after, other) == Find(t, other))
  {
  }

  /** An update of a class that is not persistent is refused exactly if the message is no longer in the cache; else it
      replaces the status fields and keeps the rest, for a day from now.  For a persistent class it always succeeds:
      with the message in neither tier nothing is written, with a live copy in the cache what is written is hidden. */
  lemma UpdateOutcome(t: Tiers, id: Id, d: Doc, persist: bool)
    ensures var (after, r) := Update(t, id, d, persist);
      && (r == Err(NotFound) <==> !persist && !Live(t, id)) && (r.Ok? || (after == t && r == Err(NotFound)))
      && (r.Ok? && !persist ==>
            after.database == t.database && after.cache[id].expires == t.now + 24 * 60 * 60 * 1000
            && Find(after, id) == Some(Encoded(Doc(Find(t, id).value.rest, d.status, d.sync, d.updatedAt))))
      && (persist && id !in t.database ==> after == t)
      && (persist && Live(t, id) ==> Find(after, id) == Find(t, id))
      && (persist && id in t.database ==>
            after.cache == t.cache
            && after.database[id] == Doc(t.database[id].rest, d.status, d.sync, d.updatedAt))
      && (persist && id in t.database && !Live(t, id) ==> Find(after, id) == Some(after.database[id]))
      && (forall other | other != id :: Find(after, other) == Find(t, other))
  {
  }

  /** When the class of a message in the cache becomes persistent, every later update reports success and changes
      nothing: the lookup finds the old message until its day is over, and then nothing. */
  lemma {:induction false} LostAfterSwitch(t: Tiers, events: seq<Event>, id: Id)
    requires id !in t.database && forall e | e in events :: e.InsertEv? ==> e.id != id
    ensures var u := RunTiers(t, events, _ => true);
      && t.now <= u.now && id !in u.database
      && Find(u, id) == (if Live(t, id) && u.now < t.cache[id].expires then Some(t.cache[id].doc) else None)
      && forall d :: Update(u, id, d, true) == (u, Ok)
    decreases |events|
  {
    if events != [] {
      assert events[0] in events;
      LostAfterSwitch(StepTiers(t, events[0], _ => true), events[1..], id);
    }
  }

  // ---- The single map it refines ----

  /** One entry per message: what was last written, and when; `lasting` for a persistent class. */
  datatype Entry = Entry(doc: Doc, writtenAt: nat, lasting: bool)

  datatype Model = Model(now: nat, entries: map<Id, Entry>)

  datatype Event = InsertEv(id: Id, doc: Doc) | UpdateEv(id: Id, doc: Doc) | Tick(ms: nat)

  function StepTiers(t: Tiers, e: Event, persist: Id -> bool): Tiers
  {
    match e
    case InsertEv(id, d) => Insert(t, id, d, persist(id)).0
    case UpdateEv(id, d) => Update(t, id, d, persist(id)).0
    case Tick(ms) => t.(now := t.now + ms)
  }

  /** What an update leaves of a stored document: the database is sent an empty map, the cache the whole document. */
  function Updated(kept: Doc, d: Doc, persist: bool): Doc
  {
    if persist then Overwrite(kept, d) else Encoded(Overwrite(kept, d))
  }

  predicate Alive(m: Model, id: Id)
  {
    id in m.entries && (m.entries[id].lasting || m.now < m.entries[id].writtenAt + DAY)
  }

  function StepModel(m: Model, e: Event, persist: Id -> bool): Model
  {
    match e
    case InsertEv(id, d) =>
      if persist(id) && id in m.entries then m
      else m.(entries := m.entries[id := Entry(Encoded(d), m.now, persist(id))])
    case UpdateEv(id, d) =>
      if !Alive(m, id) then m
      else m.(entries := m.entries[id := Entry(Updated(m.entries[id].doc, d, persist(id)), m.now, persist(id))])
    case Tick(ms) => m.(now := m.now + ms)
  }

  function RunTiers(t: Tiers, events: seq<Event>, persist: Id -> bool): Tiers
    decreases |events|
  {
    if events == [] then t else RunTiers(StepTiers(t, events[0], persist), events[1..], persist)
  }

  function RunModel(m: Model, events: seq<Event>, persist: Id -> bool): Model
    decreases |events|
  {
    if events == [] then m else RunModel(StepModel(m, events[0], persist), events[1..], persist)
  }

  ghost predicate Refines(t: Tiers, m: Model, persist: Id -> bool)
  {
    && t.now == m.now
    && (forall id :: id in t.cache <==> id in m.entries && !persist(id))
    && (forall id :: id in t.database <==> id in m.entries && persist(id))
    && (forall id | id in m.entries :: m.entries[id].lasting == persist(id) && m.entries[id].writtenAt <= m.now)
    && (forall id | id in t.cache :: t.cache[id] == Leased(m.entries[id].doc, m.entries[id].writtenAt + DAY))
    && (forall id | id in t.database :: t.database[id] == m.entries[id].doc)
  }

  lemma InsertRefines(t: Tiers, m: Model, id: Id, d: Doc, persist: Id -> bool)
    requires Refines(t, m, persist)
    ensures Refines(StepTiers(t, InsertEv(id, d), persist), StepModel(m, InsertEv(id, d), persist), persist)
  {
  }

  lemma UpdateRefines(t: Tiers, m: Model, id: Id, d: Doc, persist: Id -> bool)
    requires Refines(t, m, persist)
    ensures Refines(StepTiers(t, UpdateEv(id, d), persist), StepModel(m, UpdateEv(id, d), persist), persist)
  {
    assert Live(t, id) <==> id in t.cache && Alive(m, id);
  }

  lemma StepRefines(t: Tiers, m: Model, e: Event, persist: Id -> bool)
    requires Refines(t, m, persist)
    ensures Refines(StepTiers(t, e, persist), StepModel(m, e, persist), persist)
  {
    match e
    case InsertEv(id, d) => InsertRefines(t, m, id, d, persist);
    case UpdateEv(id, d) => UpdateRefines(t, m, id, d, persist);
    case Tick(_) =>
  }

  lemma {:induction false} RunRefines(t: Tiers, m: Model, events: seq<Event>, persist: Id -> bool)
    requires Refines(t, m, persist)
    ensures Refines(RunTiers(t, events, persist), RunModel(m, events, persist), persist)
    decreases |events|
  {
    if events != [] {
      StepRefines(t, m, events[0], persist);
      RunRefines(StepTiers(t, events[0], persist), StepModel(m, events[0], persist), events[1..], persist);
    }
  }

  /** With each message's class fixed, a lookup after any run finds the message exactly if the single map holds it
      and, for a class that is not persistent, it was written within the last day; then it returns what was last
      written. */
  lemma FindIsTheMap(events: seq<Event>, persist: Id -> bool, id: Id)
    ensures var found := Find(RunTiers(START, events, persist), id);
      var m := RunModel(Model(0, map[]), events, persist);
      (found.Some? <==> Alive(m, id)) && (found.Some? ==> found.value == m.entries[id].doc)
  {
    RunRefines(START, Model(0, map[]), events, persist);
  }

  // ---- What a lookup finds ----

  const START := Tiers(0, map[], map[])

  /** An insertion takes effect if it is accepted, an update if there is a message to update. */
  predicate TakesEffect(t: Tiers, e: Event, persist: Id -> bool)
  {
    match e
    case InsertEv(id, d) => Insert(t, id, d, persist(id)).1.Ok?
    case UpdateEv(id, _) => Find(t, id).Some?
    case Tick(_) => false
  }

  /** The last event that wrote the message and took effect; -1 if there is none. */
  function LastWrite(events: seq<Event>, persist: Id -> bool, id: Id): (j: int)
    ensures -1 <= j < |events| && (j >= 0 ==> !events[j].Tick?)
    decreases |events|
  {
    if events == [] then -1
    else
      var before, e := events[..|events| - 1], events[|events| - 1];
      if !e.Tick? && e.id == id && TakesEffect(RunTiers(START, before, persist), e, persist) then |events| - 1
      else LastWrite(before, persist, id)
  }

  /** The last insertion among them. */
  function LastInsertion(events: seq<Event>, persist: Id -> bool, id: Id): (i: int)
    ensures -1 <= i < |events| && (i >= 0 ==> events[i].InsertEv?)
    decreases |events|
  {
    if events == [] then -1
    else
      var before, e := events[..|events| - 1], events[|events| - 1];
      if e.InsertEv? && e.id == id && TakesEffect(RunTiers(START, before, persist), e, persist) then |events| - 1
      else LastInsertion(before, persist, id)
  }

  /** The document after its last insertion and its last write. */
  function Written(insertion: Event, write: Event, persist: bool): Doc
    requires insertion.InsertEv? && !write.Tick?
  {
    var d := Overwrite(insertion.doc, write.doc);
    if persist && write.UpdateEv? then d else Encoded(d)
  }

  predicate EntryIs(m: Model, events: seq<Event>, persist: Id -> bool, id: Id)
  {
    var i, j := LastInsertion(events, persist, id), LastWrite(events, persist, id);
    if j < 0 then id !in m.entries
    else
      && 0 <= i <= j && id in m.entries
      && m.entries[id] ==
         Entry(Written(events[i], events[j], persist(id)), RunTiers(START, events[..j], persist).now, persist(id))
  }

  /** One more event: it takes effect on the tiers exactly if it changes the map's entry. */
  lemma OneMoreEvent(t: Tiers, m: Model, e: Event, persist: Id -> bool, id: Id)
    requires Refines(t, m, persist)
    ensures var next := StepModel(m, e, persist);
      if !e.Tick? && e.id == id && TakesEffect(t, e, persist) then
        id in next.entries &&
        (e.InsertEv? ==> next.entries[id] == Entry(Encoded(e.doc), t.now, persist(id))) &&
        (e.UpdateEv? ==>
           id in m.entries
           && next.entries[id] == Entry(Updated(m.entries[id].doc, e.doc, persist(id)), t.now, persist(id)))
      else (id in next.entries <==> id in m.entries) && (id in m.entries ==> next.entries[id] == m.entries[id])
  {
    FindIsAlive(t, m, persist, id);
  }

  lemma FindIsAlive(t: Tiers, m: Model, persist: Id -> bool, id: Id)
    requires Refines(t, m, persist)
    ensures Find(t, id).Some? <==> Alive(m, id)
    ensures Find(t, id).Some? ==> Find(t, id).value == m.entries[id].doc
  {
  }

  lemma {:induction false} EntryOfRun(events: seq<Event>, persist: Id -> bool, id: Id)
    ensures EntryIs(RunModel(Model(0, map[]), events, persist), events, persist, id)
    decreases |events|
  {
    if events != [] {
      var before, e := events[..|events| - 1], events[|events| - 1];
      assert events == before + [e];
      EntryOfRun(before, persist, id);
      RunModelSnoc(Model(0, map[]), before, e, persist);
      RunRefines(START, Model(0, map[]), before, persist);
      OneMoreEvent(RunTiers(START, before, persist), RunModel(Model(0, map[]), before, persist), e, persist, id);
      SameBefore(before, e, persist, id);
    }
  }

  lemma SameBefore(before: seq<Event>, e: Event, persist: Id -> bool, id: Id)
    ensures var j := LastWrite(before, persist, id); j >= 0 ==> (before + [e])[..j] == before[..j]
    ensures (before + [e])[..|before|] == before
  {
  }

  /** After any run a lookup finds a message exactly if some write of it took effect and, for a class that is not
      persistent, the last one did so less than a day ago.  What it finds has the Status, StatusSync and UpdatedAt of
      that last write, an empty StatusSync read as nil unless an update sent it to the database, and every other field
      of the last insertion that took effect, which came no later. */
  lemma LastWriteWins(events: seq<Event>, persist: Id -> bool, id: Id)
    ensures var t := RunTiers(START, events, persist);
      var i, j := LastInsertion(events, persist, id), LastWrite(events, persist, id);
      var found := Find(t, id);
      && (found.Some? <==> j >= 0 && (persist(id) || t.now < RunTiers(START, events[..j], persist).now + DAY))
      && (found.Some? ==>
            && 0 <= i <= j
            && var last := events[j].doc;
               var sent := persist(id) && events[j].UpdateEv?;
               found.value == Doc(events[i].doc.rest, last.status,
                                  if last.sync == Some(map[]) && !sent then None else last.sync, last.updatedAt))
  {
    EntryOfRun(events, persist, id);
    RunRefines(START, Model(0, map[]), events, persist);
    FindIsAlive(RunTiers(START, events, persist), RunModel(Model(0, map[]), events, persist), persist, id);
  }

  lemma {:induction false} RunModelSnoc(m: Model, events: seq<Event>, e: Event, persist: Id -> bool)
    ensures RunModel(m, events + [e], persist) == StepModel(RunModel(m, events, persist), e, persist)
    decreases |events|
  {
    if events == [] {
      assert RunModel(StepModel(m, e, persist), [], persist) == StepModel(m, e, persist);
    } else {
      assert (events + [e])[1..] == events[1..] + [e];
      RunModelSnoc(StepModel(m, events[0], persist), events[1..], e, persist);
    }
  }

  predicate NotWritten(events: seq<Event>, id: Id)
  {
    forall e | e in events :: e.Tick? || e.id != id
  }

  lemma {:induction false} Untouched(t: Tiers, events: seq<Event>, persist: Id -> bool, id: Id)
    requires NotWritten(events, id)
    ensures var u := RunTiers(t, events, persist);
      && t.now <= u.now
      && (id in u.cache <==> id in t.cache) && (id in t.cache ==> u.cache[id] == t.cache[id])
      && (id in u.database <==> id in t.database) && (id in t.database ==> u.database[id] == t.database[id])
    decreases |events|
  {
    if events != [] {
      assert events[0] in events;
      Untouched(StepTiers(t, events[0], persist), events[1..], persist, id);
    }
  }

  /** While nobody writes a message a lookup finds what it found before, for as long as the day of the last write lasts
      where the class is not persistent, and then nothing. */
  lemma StaysAsWritten(before: seq<Event>, events: seq<Event>, persist: Id -> bool, id: Id)
    requires NotWritten(events, id)
    ensures var t := RunTiers(START, before, persist);
      var u, j := RunTiers(t, events, persist), LastWrite(before, persist, id);
      Find(u, id) ==
        if j >= 0 && (persist(id) || u.now < RunTiers(START, before[..j], persist).now + DAY) then Find(t, id)
        else None
  {
    var t := RunTiers(START, before, persist);
    EntryOfRun(before, persist, id);
    RunRefines(START, Model(0, map[]), before, persist);
    Untouched(t, events, persist, id);
  }
}
