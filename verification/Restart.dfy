/** The write-through caches of the runtime: persisting approval state, pruning audit rows on both sides, and
    rebuilding the caches from the store after a restart. An entity is modelled by its serialized payload. */
module Restart {
  import opened StateStores
  import opened Text

  type Cache = map<string, Json>

  datatype Caches = Caches(items: Cache, deltas: Cache, events: Cache, edges: Cache)

  /** The tables of a store that belong to the caches. */
  datatype Disk = Disk(items: Table, deltas: Table, events: Table, edges: Table)

  /** The caches of a process and the tables it writes through to. */
  datatype World = World(memory: Caches, disk: Disk)

  const NO_CACHES := Caches(map[], map[], map[], map[])
  const EMPTY_DISK := Disk(map[], map[], map[], map[])

  const ITEMS := "approval_items"
  const DELTAS := "graph_deltas"
  const EVENTS := "audit_events"
  const EDGES := "graph_edges"

  function OnDisk(tables: Tables): Disk {
    Disk(TableOf(tables, ITEMS), TableOf(tables, DELTAS), TableOf(tables, EVENTS), TableOf(tables, EDGES))
  }

  /** Every entity is an object filed under its own id. */
  predicate Keyed(cache: Cache, idKey: string) {
    forall id :: id in cache ==> cache[id].JObject? && Field(cache[id], idKey) == JString(id)
  }

  predicate AllKeyed(c: Caches) {
    && Keyed(c.items, "approval_id") && Keyed(c.deltas, "delta_id")
    && Keyed(c.events, "audit_id") && Keyed(c.edges, "edge_id")
  }

  /** The payloads of a table, row by row. */
  ghost function Held(table: Table): (r: Cache)
    ensures r.Keys == table.Keys && forall id :: id in table ==> r[id] == table[id].payload
  {
    if table == map[] then map[]
    else
      var id :| id in table;
      Held(table - {id})[id := table[id].payload]
  }

  ghost function Contents(disk: Disk): Caches {
    Caches(Held(disk.items), Held(disk.deltas), Held(disk.events), Held(disk.edges))
  }

  /** What is stored is stored for something still cached: the caches never forget an id that the store keeps. */
  predicate Behind(disk: Disk, memory: Caches) {
    && disk.items.Keys <= memory.items.Keys && disk.deltas.Keys <= memory.deltas.Keys
    && disk.events.Keys <= memory.events.Keys && disk.edges.Keys <= memory.edges.Keys
  }

  ghost predicate Sound(w: World) {
    AllKeyed(w.memory) && AllKeyed(Contents(w.disk)) && Behind(w.disk, w.memory)
  }

  // ---- writing and reading back ----

  function IdOf(payload: Json, idKey: string): string {
    if Field(payload, idKey).JString? then Field(payload, idKey).text else ""
  }

  function SourceOf(edge: Json): string { IdOf(edge, "source_node_id") }

  /** Whose project a row is filed under: the entity's own, or that of an edge's source node. */
  datatype Owner = Own | BySource(nodes: map<string, string>)

  function RowFor(owner: Owner, payload: Json): Row {
    match owner
    case Own => Row(AsText(Field(payload, "project_key")), payload)
    case BySource(nodes) => Row(if SourceOf(payload) in nodes then Some(nodes[SourceOf(payload)]) else None, payload)
  }

  /** The rows of the entities of a cache. */
  ghost function RowsOf(cache: Cache, owner: Owner): (r: Table)
    ensures r.Keys == cache.Keys && forall id :: id in cache ==> r[id] == RowFor(owner, cache[id])
  {
    if cache == map[] then map[]
    else
      var id :| id in cache;
      RowsOf(cache - {id}, owner)[id := RowFor(owner, cache[id])]
  }

  /** A table after the entities of a cache were written over it. */
  ghost function Written(table: Table, cache: Cache, owner: Owner): Table {
    table + RowsOf(cache, owner)
  }

  predicate SourcesKnown(edges: Cache, nodes: map<string, string>) {
    forall id :: id in edges ==> SourceOf(edges[id]) in nodes
  }

  /** The cache that filing a list of payloads under their ids builds, later rows overwriting earlier ones. */
  function FromRows(payloads: seq<Json>, idKey: string): Cache {
    if payloads == [] then map[]
    else
      var last := payloads[|payloads| - 1];
      FromRows(payloads[..|payloads| - 1], idKey)[IdOf(last, idKey) := last]
  }

  lemma {:induction false} RowsRebuild(table: Table, ids: seq<string>, idKey: string)
    requires forall id :: id in ids ==> id in table && IdOf(table[id].payload, idKey) == id
    ensures var cache := FromRows(Payloads(table, ids), idKey);
            (forall id :: id in cache <==> id in ids) && forall id :: id in ids ==> cache[id] == table[id].payload
  {
    if ids != [] {
      var init, last := ids[..|ids| - 1], ids[|ids| - 1];
      assert last in ids && forall id :: id in ids <==> id in init || id == last;
      RowsRebuild(table, init, idKey);
      assert Payloads(table, ids)[..|ids| - 1] == Payloads(table, init);
    }
  }

  function ReadBack(table: Table, idKey: string): Cache {
    FromRows(Listing(table, None), idKey)
  }

  lemma KeyedRows(table: Table, ids: seq<string>, idKey: string)
    requires Keyed(Held(table), idKey) && forall id :: id in ids ==> id in table
    ensures forall id :: id in ids ==> IdOf(table[id].payload, idKey) == id
  {
    assert forall id :: id in table ==> Field(Held(table)[id], idKey) == JString(id);
  }

  /** The rows of a table, read in the order of their ids and filed again, give what the table holds. */
  lemma RowsRebuildTable(table: Table, idKey: string)
    requires Keyed(Held(table), idKey)
    ensures ReadBack(table, idKey) == Held(table)
  {
    var ids := SortedSet(Selected(table, None));
    KeyedRows(table, ids, idKey);
    RowsRebuild(table, ids, idKey);
    assert forall id :: id in ids <==> id in table;
  }

  /** Every row is an object filed under its own id. */
  predicate KeyedTable(table: Table, idKey: string) {
    forall id :: id in table ==> table[id].payload.JObject? && Field(table[id].payload, idKey) == JString(id)
  }

  predicate HoldsPayloads(cache: Cache, table: Table) {
    cache.Keys == table.Keys && forall id :: id in table ==> cache[id] == table[id].payload
  }

  lemma ReadBackHolds(table: Table, idKey: string)
    ensures KeyedTable(table, idKey) ==> HoldsPayloads(ReadBack(table, idKey), table)
  {
    if KeyedTable(table, idKey) {
      RowsRebuildTable(table, idKey);
    }
  }

  /** What a starting process reads from its store. */
  function Restored(disk: Disk): Caches {
    Caches(ReadBack(disk.items, "approval_id"), ReadBack(disk.deltas, "delta_id"),
           ReadBack(disk.events, "audit_id"), ReadBack(disk.edges, "edge_id"))
  }

  lemma RestoredIsHeld(disk: Disk)
    requires AllKeyed(Contents(disk))
    ensures Restored(disk) == Contents(disk)
  {
    RowsRebuildTable(disk.items, "approval_id");
    RowsRebuildTable(disk.deltas, "delta_id");
    RowsRebuildTable(disk.events, "audit_id");
    RowsRebuildTable(disk.edges, "edge_id");
  }

  function Without<T>(entries: map<string, T>, ids: seq<string>): map<string, T> {
    if ids == [] then entries else Without(entries, ids[..|ids| - 1]) - {ids[|ids| - 1]}
  }

  lemma {:induction false} WithoutKeeps<T>(entries: map<string, T>, ids: seq<string>)
    ensures forall id :: id in Without(entries, ids) <==> id in entries && id !in ids
    ensures forall id :: id in Without(entries, ids) ==> Without(entries, ids)[id] == entries[id]
    decreases |ids|
  {
    if ids != [] {
      WithoutKeeps(entries, ids[..|ids| - 1]);
      assert forall id :: id in ids <==> id in ids[..|ids| - 1] || id == ids[|ids| - 1];
    }
  }

  // ---- runs ----

  /** Caches change by adding or replacing entities; approvals, deltas and edges are never removed. A persist that meets
      an edge with an unknown source raises when only some edges were written. */
  datatype Step =
    | Change(more: Caches)
    | Persist(nodes: map<string, string>, written: set<string>)
    | PersistEvent(id: string)
    | Prune(pruned: seq<string>)
    | Restart

  function Over(below: Caches, above: Caches): Caches {
    Caches(below.items + above.items, below.deltas + above.deltas, below.events + above.events, below.edges + above.edges)
  }

  /** The entities with these ids. */
  function Only(cache: Cache, ids: set<string>): (r: Cache)
    ensures r.Keys == cache.Keys * ids && forall id :: id in r ==> r[id] == cache[id]
  {
    cache - (cache.Keys - ids)
  }

  ghost function Next(w: World, step: Step): World {
    match step
    case Change(more) => w.(memory := Over(w.memory, more))
    case Persist(nodes, written) =>
      w.(disk := Disk(Written(w.disk.items, w.memory.items, Own), Written(w.disk.deltas, w.memory.deltas, Own),
                      Written(w.disk.events, w.memory.events, Own),
                      Written(w.disk.edges, Only(w.memory.edges, written), BySource(nodes))))
    case PersistEvent(id) => w.(disk := w.disk.(events := Written(w.disk.events, Only(w.memory.events, {id}), Own)))
    case Prune(pruned) =>
      World(w.memory.(events := Without(w.memory.events, pruned)), w.disk.(events := Without(w.disk.events, pruned)))
    case Restart => w.(memory := Restored(w.disk))
  }

  /** Entities come with their own ids, and an edge is written only if its source is known. */
  predicate Possible(w: World, step: Step) {
    match step
    case Change(more) => AllKeyed(more)
    case Persist(nodes, written) => written <= w.memory.edges.Keys && SourcesKnown(Only(w.memory.edges, written), nodes)
    case _ => true
  }

  // ---- the runtime ----

  class RuntimeState {
    const store: SqliteStateStore
    var memory: Caches
    // node id to project key
    var nodes: map<string, string>

    ghost function Value(): World
      reads this, store
    {
      World(memory, OnDisk(store.entities))
    }

    ghost predicate Valid()
      reads this, store
    {
      Sound(Value())
    }

    /** A restarted process: empty caches, then hydration. */
    constructor (store: SqliteStateStore, nodes: map<string, string>)
      requires AllKeyed(Contents(OnDisk(store.entities)))
      ensures this.store == store && Valid()
      ensures forall before :: Value() == Next(World(before, OnDisk(store.entities)), Restart)
      ensures memory == Contents(OnDisk(store.entities))
    {
      this.store, this.nodes := store, nodes;
      memory := NO_CACHES;
      new;
      RestoreFromStateStore();
      RestoredIsHeld(OnDisk(store.entities));
    }

    /** `for payload in store.list(collection): cache[payload.id] = payload` */
    method Hydrate(collection: string, idKey: string) returns (r: Cache)
      ensures r == ReadBack(TableOf(store.entities, collection), idKey)
      ensures KeyedTable(TableOf(store.entities, collection), idKey) ==> HoldsPayloads(r, TableOf(store.entities, collection))
    {
      var payloads := store.List(collection, None);
      r := FileRows(payloads, idKey);
      ReadBackHolds(TableOf(store.entities, collection), idKey);
    }

    method FileRows(payloads: seq<Json>, idKey: string) returns (r: Cache)
      ensures r == FromRows(payloads, idKey)
    {
      r := map[];
      for i := 0 to |payloads|
        invariant r == FromRows(payloads[..i], idKey)
      {
        assert payloads[..i + 1][..i] == payloads[..i];
        r := r[IdOf(payloads[i], idKey) := payloads[i]];
      }
      assert payloads[..|payloads|] == payloads;
    }

    method RestoreFromStateStore()
      requires memory == NO_CACHES
      modifies this
      ensures nodes == old(nodes) && memory == Restored(OnDisk(store.entities))
    {
      var items := Hydrate(ITEMS, "approval_id");
      var deltas := Hydrate(DELTAS, "delta_id");
      var events := Hydrate(EVENTS, "audit_id");
      var edges := Hydrate(EDGES, "edge_id");
      memory := Caches(items, deltas, events, edges);
    }

    /** One loop of `persist_approval_state` over the values of a cache. */
    method PersistCollection(collection: string, cache: Cache)
      modifies store
      ensures TableOf(store.entities, collection) == Written(TableOf(old(store.entities), collection), cache, Own)
      ensures forall c :: c != collection ==> TableOf(store.entities, c) == TableOf(old(store.entities), c)
    {
      var rest := cache.Keys;
      ghost var written := {};
      while rest != {}
        invariant rest <= cache.Keys && written == cache.Keys - rest
        invariant TableOf(store.entities, collection) == Written(TableOf(old(store.entities), collection), Only(cache, written), Own)
        invariant forall c :: c != collection ==> TableOf(store.entities, c) == TableOf(old(store.entities), c)
      {
        var id :| id in rest;
        WrittenOne(TableOf(old(store.entities), collection), cache, written, id, Own);
        store.Upsert(collection, id, cache[id], AsText(Field(cache[id], "project_key")));
        rest := rest - {id};
        written := written + {id};
      }
      OnlyAll(cache, written);
    }

    /** The edge loop needs the project of each edge's source node; an unknown source raises. */
    method PersistEdges() returns (ok: bool, ghost written: set<string>)
      modifies store
      ensures ok == SourcesKnown(memory.edges, nodes) && (ok <==> written == memory.edges.Keys)
      ensures written <= memory.edges.Keys && SourcesKnown(Only(memory.edges, written), nodes)
      ensures TableOf(store.entities, EDGES) == Written(TableOf(old(store.entities), EDGES), Only(memory.edges, written), BySource(nodes))
      ensures forall c :: c != EDGES ==> TableOf(store.entities, c) == TableOf(old(store.entities), c)
    {
      var rest := memory.edges.Keys;
      written := {};
      while rest != {}
        invariant rest <= memory.edges.Keys && written == memory.edges.Keys - rest
        invariant SourcesKnown(Only(memory.edges, written), nodes)
        invariant TableOf(store.entities, EDGES) == Written(TableOf(old(store.entities), EDGES), Only(memory.edges, written), BySource(nodes))
        invariant forall c :: c != EDGES ==> TableOf(store.entities, c) == TableOf(old(store.entities), c)
      {
        var id :| id in rest;
        var edge := memory.edges[id];
        if SourceOf(edge) !in nodes {
          return false, written;
        }
        WrittenOne(TableOf(old(store.entities), EDGES), memory.edges, written, id, BySource(nodes));
        store.Upsert(EDGES, id, edge, Some(nodes[SourceOf(edge)]));
        rest := rest - {id};
        written := written + {id};
      }
      OnlyAll(memory.edges, written);
      ok := true;
    }

    /** When every edge's source node is known the store then holds exactly what the caches hold. */
    method PersistApprovalState() returns (ok: bool, ghost written: set<string>)
      requires Valid()
      modifies store
      ensures ok == SourcesKnown(memory.edges, nodes) && (ok <==> written == memory.edges.Keys)
      ensures Possible(old(Value()), Persist(nodes, written)) && Value() == Next(old(Value()), Persist(nodes, written))
      ensures Valid() && (ok ==> Contents(Value().disk) == memory)
    {
      PersistCollection(ITEMS, memory.items);
      PersistCollection(DELTAS, memory.deltas);
      PersistCollection(EVENTS, memory.events);
      ok, written := PersistEdges();
      StepKeepsSound(old(Value()), Persist(nodes, written));
      if ok {
        PersistSyncs(old(Value()), nodes);
      }
    }

    /** `_persist_audit_event` */
    method PersistAuditEvent(id: string)
      requires Valid() && id in memory.events
      modifies store
      ensures Valid() && Value() == Next(old(Value()), PersistEvent(id))
    {
      EventWritten(memory.events, store.entities, id);
      store.Upsert(EVENTS, id, memory.events[id], AsText(Field(memory.events[id], "project_key")));
      StepKeepsSound(old(Value()), PersistEvent(id));
    }

    method DeleteEvents(pruned: seq<string>)
      modifies store
      ensures TableOf(store.entities, EVENTS) == Without(TableOf(old(store.entities), EVENTS), pruned)
      ensures forall c :: c != EVENTS ==> TableOf(store.entities, c) == TableOf(old(store.entities), c)
    {
      for i := 0 to |pruned|
        invariant TableOf(store.entities, EVENTS) == Without(TableOf(old(store.entities), EVENTS), pruned[..i])
        invariant forall c :: c != EVENTS ==> TableOf(store.entities, c) == TableOf(old(store.entities), c)
      {
        assert pruned[..i + 1][..i] == pruned[..i];
        store.Delete(EVENTS, pruned[i]);
      }
      assert pruned[..|pruned|] == pruned;
    }

    /** Pruned audit events leave the cache and the store. */
    method ArchiveAndPruneAudit(pruned: seq<string>)
      requires Valid()
      modifies this, store
      ensures Valid() && nodes == old(nodes)
      ensures Value() == Next(old(Value()), Prune(pruned))
      ensures forall id :: id in pruned ==> id !in memory.events && id !in Value().disk.events
    {
      memory := memory.(events := Without(memory.events, pruned));
      DeleteEvents(pruned);
      StepKeepsSound(old(Value()), Prune(pruned));
      WithoutKeeps(old(memory.events), pruned);
      WithoutKeeps(TableOf(old(store.entities), EVENTS), pruned);
    }
  }

  lemma OnlyOneMore(cache: Cache, written: set<string>, id: string)
    requires id in cache
    ensures Only(cache, written + {id}) == Only(cache, written)[id := cache[id]]
  {
  }

  lemma RowsOneMore(cache: Cache, id: string, payload: Json, owner: Owner)
    ensures RowsOf(cache[id := payload], owner) == RowsOf(cache, owner)[id := RowFor(owner, payload)]
  {
  }

  lemma WrittenOne(table: Table, cache: Cache, written: set<string>, id: string, owner: Owner)
    requires id in cache
    ensures Written(table, Only(cache, written), owner)[id := RowFor(owner, cache[id])] == Written(table, Only(cache, written + {id}), owner)
  {
    OnlyOneMore(cache, written, id);
    RowsOneMore(Only(cache, written), id, cache[id], owner);
    MergeOneMore(table, RowsOf(Only(cache, written), owner), id, RowFor(owner, cache[id]));
  }

  lemma MergeOneMore(table: Table, rows: Table, id: string, row: Row)
    ensures table + rows[id := row] == (table + rows)[id := row]
  {
  }

  lemma EventWritten(events: Cache, tables: Tables, id: string)
    requires id in events
    ensures OnDisk(Put(tables, EVENTS, id, RowFor(Own, events[id]))) ==
            OnDisk(tables).(events := Written(TableOf(tables, EVENTS), Only(events, {id}), Own))
  {
    WrittenOne(TableOf(tables, EVENTS), events, {}, id, Own);
    assert Only(events, {}) == map[] && {} + {id} == {id};
    assert Written(TableOf(tables, EVENTS), map[], Own) == TableOf(tables, EVENTS);
  }

  lemma OnlyAll(cache: Cache, ids: set<string>)
    requires ids == cache.Keys
    ensures Only(cache, ids) == cache
  {
  }

  // ---- what every run keeps ----

  lemma WrittenHolds(table: Table, part: Cache, owner: Owner)
    ensures Held(Written(table, part, owner)) == Held(table) + part
    ensures Written(table, part, owner).Keys == table.Keys + part.Keys
  {
    var after := Written(table, part, owner);
    assert forall id :: id in part ==> RowFor(owner, part[id]).payload == part[id];
  }

  lemma KeyedTogether(held: Cache, part: Cache, cache: Cache, idKey: string)
    requires Keyed(held, idKey) && Keyed(cache, idKey) && part.Keys <= cache.Keys && forall id :: id in part ==> part[id] == cache[id]
    ensures Keyed(held + part, idKey)
  {
    assert forall id :: id in held + part ==> (held + part)[id] == if id in part then cache[id] else held[id];
  }

  lemma WrittenKeyed(table: Table, cache: Cache, part: Cache, owner: Owner, idKey: string)
    requires Keyed(Held(table), idKey) && Keyed(cache, idKey) && table.Keys <= cache.Keys
    requires part.Keys <= cache.Keys && forall id :: id in part ==> part[id] == cache[id]
    ensures Keyed(Held(Written(table, part, owner)), idKey) && Written(table, part, owner).Keys <= cache.Keys
    ensures part == cache ==> Held(Written(table, part, owner)) == cache
  {
    WrittenHolds(table, part, owner);
    KeyedTogether(Held(table), part, cache, idKey);
    CoveredBy(Held(table), cache);
  }

  lemma CoveredBy(held: Cache, cache: Cache)
    ensures held.Keys <= cache.Keys ==> held + cache == cache
  {
  }

  lemma PersistKeepsSound(w: World, nodes: map<string, string>, written: set<string>)
    requires Sound(w)
    ensures Sound(Next(w, Persist(nodes, written)))
  {
    WrittenKeyed(w.disk.items, w.memory.items, w.memory.items, Own, "approval_id");
    WrittenKeyed(w.disk.deltas, w.memory.deltas, w.memory.deltas, Own, "delta_id");
    WrittenKeyed(w.disk.events, w.memory.events, w.memory.events, Own, "audit_id");
    WrittenKeyed(w.disk.edges, w.memory.edges, Only(w.memory.edges, written), BySource(nodes), "edge_id");
  }

  /** A persist that wrote every edge leaves the store holding what the caches hold. */
  lemma PersistSyncs(w: World, nodes: map<string, string>)
    requires Sound(w)
    ensures var t := Next(w, Persist(nodes, w.memory.edges.Keys));
            Contents(t.disk) == t.memory == w.memory
  {
    OnlyAll(w.memory.edges, w.memory.edges.Keys);
    WrittenKeyed(w.disk.items, w.memory.items, w.memory.items, Own, "approval_id");
    WrittenKeyed(w.disk.deltas, w.memory.deltas, w.memory.deltas, Own, "delta_id");
    WrittenKeyed(w.disk.events, w.memory.events, w.memory.events, Own, "audit_id");
    WrittenKeyed(w.disk.edges, w.memory.edges, w.memory.edges, BySource(nodes), "edge_id");
  }

  lemma StepKeepsSound(w: World, step: Step)
    requires Sound(w) && Possible(w, step)
    ensures Sound(Next(w, step))
  {
    match step
    case Change(more) =>
    case Persist(nodes, written) => PersistKeepsSound(w, nodes, written);
    case PersistEvent(id) => WrittenKeyed(w.disk.events, w.memory.events, Only(w.memory.events, {id}), Own, "audit_id");
    case Prune(pruned) =>
      WithoutKeeps(w.memory.events, pruned);
      WithoutKeeps(w.disk.events, pruned);
    case Restart => RestoredIsHeld(w.disk);
  }

  ghost predicate PossibleRun(w: World, steps: seq<Step>)
    decreases |steps|
  {
    steps == [] || (Possible(w, steps[0]) && PossibleRun(Next(w, steps[0]), steps[1..]))
  }

  ghost function RunSteps(w: World, steps: seq<Step>): World
    decreases |steps|
  {
    if steps == [] then w else RunSteps(Next(w, steps[0]), steps[1..])
  }

  lemma {:induction false} RunKeepsSound(w: World, steps: seq<Step>)
    requires Sound(w) && PossibleRun(w, steps)
    ensures Sound(RunSteps(w, steps))
    decreases |steps|
  {
    if steps != [] {
      StepKeepsSound(w, steps[0]);
      RunKeepsSound(Next(w, steps[0]), steps[1..]);
    }
  }

  ghost predicate InStep(w: World) {
    Sound(w) && Contents(w.disk) == w.memory
  }

  lemma PruneKeepsInStep(w: World, pruned: seq<string>)
    requires InStep(w)
    ensures InStep(Next(w, Prune(pruned)))
  {
    StepKeepsSound(w, Prune(pruned));
    WithoutKeeps(w.memory.events, pruned);
    WithoutKeeps(w.disk.events, pruned);
    assert Held(w.disk.events) == w.memory.events;
    assert forall id :: id in w.disk.events ==> Held(w.disk.events)[id] == w.disk.events[id].payload;
  }

  /** Pruning after a persist point takes the same rows from both sides. */
  lemma {:induction false} PrunesKeepInStep(w: World, prunes: seq<Step>)
    requires InStep(w) && forall i :: 0 <= i < |prunes| ==> prunes[i].Prune?
    ensures InStep(RunSteps(w, prunes))
    decreases |prunes|
  {
    if prunes != [] {
      PruneKeepsInStep(w, prunes[0].pruned);
      PrunesKeepInStep(Next(w, prunes[0]), prunes[1..]);
    }
  }

  /** A restart changes nothing exactly when the store holds what the caches hold. */
  lemma RestartIsNoopIff(w: World)
    requires Sound(w)
    ensures Next(w, Restart) == w <==> Contents(w.disk) == w.memory
  {
    RestoredIsHeld(w.disk);
  }

  /** After any run, persist everything, prune as often as wanted and restart: the caches come back exactly as they were. */
  lemma RestartRestores(steps: seq<Step>, nodes: map<string, string>, prunes: seq<Step>)
    requires PossibleRun(World(NO_CACHES, EMPTY_DISK), steps)
    requires forall i :: 0 <= i < |prunes| ==> prunes[i].Prune?
    ensures var start := RunSteps(World(NO_CACHES, EMPTY_DISK), steps);
            var w := RunSteps(Next(start, Persist(nodes, start.memory.edges.Keys)), prunes);
            Next(w, Restart) == w
  {
    RunKeepsSound(World(NO_CACHES, EMPTY_DISK), steps);
    PersistPruneRestart(RunSteps(World(NO_CACHES, EMPTY_DISK), steps), nodes, prunes);
  }

  lemma PersistPruneRestart(start: World, nodes: map<string, string>, prunes: seq<Step>)
    requires Sound(start) && forall i :: 0 <= i < |prunes| ==> prunes[i].Prune?
    ensures var w := RunSteps(Next(start, Persist(nodes, start.memory.edges.Keys)), prunes);
            Next(w, Restart) == w
  {
    var persisted := Next(start, Persist(nodes, start.memory.edges.Keys));
    PersistKeepsSound(start, nodes, start.memory.edges.Keys);
    PersistSyncs(start, nodes);
    PrunesKeepInStep(persisted, prunes);
    RestartIsNoopIff(RunSteps(persisted, prunes));
  }

  // ---- the same over typed mirrors ----

  /** What a starting process reads from the mirrored store. */
  function Rows(specs: map<string, TypedSpec>, two: Mirrored, collection: string, idKey: string): Result<Cache> {
    match MirroredList(specs, two, collection, None)
    case Ok(payloads) => Ok(FromRows(payloads, idKey))
    case TypeError => TypeError
  }

  ghost predicate RestoresTo(specs: map<string, TypedSpec>, two: Mirrored, caches: Caches) {
    && Rows(specs, two, ITEMS, "approval_id") == Ok(caches.items) && Rows(specs, two, DELTAS, "delta_id") == Ok(caches.deltas)
    && Rows(specs, two, EVENTS, "audit_id") == Ok(caches.events) && Rows(specs, two, EDGES, "edge_id") == Ok(caches.edges)
  }

  lemma MirroredRestores(specs: map<string, TypedSpec>, one: Tables, two: Mirrored)
    requires Simulates(specs, one, two)
    ensures RestoresTo(specs, two, Restored(OnDisk(one)))
  {
    ListAgrees(specs, one, two, ITEMS, None);
    ListAgrees(specs, one, two, DELTAS, None);
    ListAgrees(specs, one, two, EVENTS, None);
    ListAgrees(specs, one, two, EDGES, None);
  }

  function CacheOf(c: Caches, collection: string): Cache {
    if collection == ITEMS then c.items
    else if collection == DELTAS then c.deltas
    else if collection == EVENTS then c.events
    else if collection == EDGES then c.edges
    else map[]
  }

  function OwnerOf(collection: string, nodes: map<string, string>): Owner {
    if collection == EDGES then BySource(nodes) else Own
  }

  /** The operation writes an entity of a cache as the persist loops do. */
  predicate WritesEntity(op: Op, memory: Caches, nodes: map<string, string>) {
    && op.Upsert? && op.id in CacheOf(memory, op.collection) && op.payload == CacheOf(memory, op.collection)[op.id]
    && op.project == RowFor(OwnerOf(op.collection, nodes), op.payload).project
  }

  function IdsWritten(ops: seq<Op>, collection: string): set<string> {
    set i | 0 <= i < |ops| && ops[i].collection == collection :: ops[i].id
  }

  predicate WritesEntities(ops: seq<Op>, memory: Caches, nodes: map<string, string>) {
    forall i :: 0 <= i < |ops| ==> WritesEntity(ops[i], memory, nodes)
  }

  /** Every entity is written, in some order, and nothing else. */
  predicate PersistsAll(ops: seq<Op>, memory: Caches, nodes: map<string, string>) {
    && WritesEntities(ops, memory, nodes)
    && IdsWritten(ops, ITEMS) == memory.items.Keys && IdsWritten(ops, DELTAS) == memory.deltas.Keys
    && IdsWritten(ops, EVENTS) == memory.events.Keys && IdsWritten(ops, EDGES) == memory.edges.Keys
  }

  lemma IdsWrittenCons(ops: seq<Op>, c: string)
    requires ops != []
    ensures IdsWritten(ops, c) == (if ops[0].collection == c then {ops[0].id} else {}) + IdsWritten(ops[1..], c)
  {
    assert forall i :: 1 <= i < |ops| ==> ops[i] == ops[1..][i - 1];
  }

  lemma WrittenFirst(table: Table, cache: Cache, id: string, later: set<string>, owner: Owner)
    requires id in cache
    ensures Written(table[id := RowFor(owner, cache[id])], Only(cache, later), owner) == Written(table, Only(cache, {id} + later), owner)
  {
    var first, both := Written(table[id := RowFor(owner, cache[id])], Only(cache, later), owner), Written(table, Only(cache, {id} + later), owner);
    forall x ensures (x in first <==> x in both) && (x in first ==> first[x] == both[x]) {
      WrittenFirstAt(table, cache, id, later, owner, x);
    }
  }

  lemma WrittenFirstAt(table: Table, cache: Cache, id: string, later: set<string>, owner: Owner, x: string)
    requires id in cache
    ensures var first, both := Written(table[id := RowFor(owner, cache[id])], Only(cache, later), owner), Written(table, Only(cache, {id} + later), owner);
            (x in first <==> x in both) && (x in first ==> first[x] == both[x])
  {
  }

  /** In whatever order entities are written, the tables are the old ones with these entities written over them. */
  lemma {:induction false} WritesFile(one: Tables, ops: seq<Op>, memory: Caches, nodes: map<string, string>, c: string)
    requires WritesEntities(ops, memory, nodes)
    ensures TableOf(RunOne(one, ops), c) ==
            Written(TableOf(one, c), Only(CacheOf(memory, c), IdsWritten(ops, c)), OwnerOf(c, nodes))
    decreases |ops|
  {
    if ops == [] {
      assert Only(CacheOf(memory, c), IdsWritten(ops, c)) == map[];
    } else {
      assert WritesEntity(ops[0], memory, nodes);
      WritesFile(ApplyOne(one, ops[0]), ops[1..], memory, nodes, c);
      IdsWrittenCons(ops, c);
      if ops[0].collection == c {
        WrittenFirst(TableOf(one, c), CacheOf(memory, c), ops[0].id, IdsWritten(ops[1..], c), OwnerOf(c, nodes));
      } else {
        assert {} + IdsWritten(ops[1..], c) == IdsWritten(ops[1..], c);
      }
    }
  }

  lemma PersistsAllFiles(one: Tables, ops: seq<Op>, memory: Caches, nodes: map<string, string>)
    requires PersistsAll(ops, memory, nodes)
    ensures OnDisk(RunOne(one, ops)) == Next(World(memory, OnDisk(one)), Persist(nodes, memory.edges.Keys)).disk
  {
    WritesFile(one, ops, memory, nodes, ITEMS);
    WritesFile(one, ops, memory, nodes, DELTAS);
    WritesFile(one, ops, memory, nodes, EVENTS);
    WritesFile(one, ops, memory, nodes, EDGES);
    OnlyAll(memory.items, memory.items.Keys);
    OnlyAll(memory.deltas, memory.deltas.Keys);
    OnlyAll(memory.events, memory.events.Keys);
  }

  /** The mirrors keep the ids the caches use, and none of them has columns that are unique together. */
  predicate SpecsFit(specs: map<string, TypedSpec>) {
    && ITEMS in specs && specs[ITEMS].idKey == "approval_id" && specs[ITEMS].unique == {}
    && DELTAS in specs && specs[DELTAS].idKey == "delta_id" && specs[DELTAS].unique == {}
    && EVENTS in specs && specs[EVENTS].idKey == "audit_id" && specs[EVENTS].unique == {}
    && EDGES in specs && specs[EDGES].idKey == "edge_id" && specs[EDGES].unique == {} && !specs[EDGES].hasProject
  }

  lemma TypedCollectionsFit()
    ensures SpecsFit(TYPED_COLLECTIONS)
  {
  }

  /** The entities fill the NOT NULL columns of their mirrors. */
  ghost predicate Complete(specs: map<string, TypedSpec>, memory: Caches) {
    forall c, id :: c in specs && id in CacheOf(memory, c) ==> ColumnsAccept(specs[c], CacheOf(memory, c)[id])
  }

  /** Whatever the tables hold, the upserts of the persist loops conform to the typed collections. */
  lemma PersistedUpsertsConform(specs: map<string, TypedSpec>, one: Tables, op: Op, memory: Caches, nodes: map<string, string>)
    requires SpecsFit(specs) && AllKeyed(memory) && Complete(specs, memory) && WritesEntity(op, memory, nodes)
    ensures OpConforms(specs, one, op)
  {
    var cache := CacheOf(memory, op.collection);
    assert op.collection in specs && ColumnsAccept(specs[op.collection], cache[op.id]);
    assert Field(cache[op.id], specs[op.collection].idKey) == JString(op.id);
  }

  lemma {:induction false} PersistRunConforms(specs: map<string, TypedSpec>, one: Tables, ops: seq<Op>, memory: Caches, nodes: map<string, string>)
    requires SpecsFit(specs) && AllKeyed(memory) && Complete(specs, memory) && WritesEntities(ops, memory, nodes)
    ensures RunConforms(specs, one, ops)
    decreases |ops|
  {
    if ops != [] {
      PersistedUpsertsConform(specs, one, ops[0], memory, nodes);
      PersistRunConforms(specs, ApplyOne(one, ops[0]), ops[1..], memory, nodes);
    }
  }

  /** The mirrored store restarts the same way: after the same persist loops, in any order, a starting process reads back
      exactly what the caches held. */
  lemma MirroredRestartRestores(specs: map<string, TypedSpec>, one: Tables, two: Mirrored, ops: seq<Op>, memory: Caches, nodes: map<string, string>)
    requires SpecsFit(specs) && Simulates(specs, one, two) && Sound(World(memory, OnDisk(one)))
    requires Complete(specs, memory) && PersistsAll(ops, memory, nodes)
    ensures RestoresTo(specs, RunTwo(specs, two, ops), memory)
  {
    PersistRunConforms(specs, one, ops, memory, nodes);
    RunKeepsSimulation(specs, one, two, ops);
    MirroredRestores(specs, RunOne(one, ops), RunTwo(specs, two, ops));
    PersistsAllFiles(one, ops, memory, nodes);
    PersistKeepsSound(World(memory, OnDisk(one)), nodes, memory.edges.Keys);
    PersistSyncs(World(memory, OnDisk(one)), nodes);
    RestoredIsHeld(OnDisk(RunOne(one, ops)));
  }
}
