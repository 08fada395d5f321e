/** The two state stores: one table of serialized entities, and the same table with a typed mirror table for each
    collection that has one. A table is a map; a query orders its rows by id. */
module StateStores {
  import opened Lists
  import opened Text

  datatype Json = JNull | JString(text: string) | JObject(fields: map<string, Json>) | JOther(token: string)

  /** What a read returns, or Python's `TypeError` for a payload that is not an object. */
  datatype Result<+T> = Ok(value: T) | TypeError

  datatype Row = Row(project: Option<string>, payload: Json)

  type Table = map<string, Row>
  type Tables = map<string, Table>

  /** How a collection is mirrored: the payload key of its id column, whether it has a project column, the payload keys of the
      other columns that are NOT NULL, and those of the columns that are unique together. */
  datatype TypedSpec = TypedSpec(idKey: string, hasProject: bool, required: set<string>, unique: set<string>)

  /** `TYPED_COLLECTIONS` with the constraints of the migrations. */
  const TYPED_COLLECTIONS: map<string, TypedSpec> := map[
    "agent_runs" :=
      TypedSpec("run_id", true,
                {"project_key", "run_type", "status", "triggered_by", "trigger_source", "started_at", "schema_version"},
                {}),
    "agent_step_traces" :=
      TypedSpec("step_id", false,
                {"run_id", "stage_name", "status", "started_at", "retry_count", "schema_version"},
                {}),
    "source_artifacts" :=
      TypedSpec("artifact_id", true,
                {"source_type", "external_id", "project_key", "title", "content_hash", "data_classification", "updated_at", "ingested_at", "schema_version"},
                {"source_type", "external_id", "content_hash"}),
    "artifact_chunks" := TypedSpec("chunk_id", true, {"artifact_id", "project_key", "index", "content_hash", "schema_version"}, {}),
    "graph_nodes" :=
      TypedSpec("node_id", true,
                {"node_type", "name", "project_key", "lifecycle_state", "created_by", "confidence_score", "schema_version"},
                {}),
    "candidate_edges" :=
      TypedSpec("edge_id", false,
                {"source_node_id", "target_node_id", "relation", "approval_status", "confidence_score", "schema_version"},
                {}),
    "graph_edges" :=
      TypedSpec("edge_id", false,
                {"source_node_id", "target_node_id", "relation", "approval_status", "schema_version"},
                {}),
    "graph_deltas" := TypedSpec("delta_id", true, {"project_key", "created_from_run_id", "created_from_step_id", "schema_version"}, {}),
    "approval_items" :=
      TypedSpec("approval_id", true,
                {"project_key", "proposal_type", "proposal_ref", "status", "risk_level", "owner_role", "created_from_run_id", "updated_at", "schema_version"},
                {}),
    "findings" :=
      TypedSpec("finding_id", false,
                {"finding_type", "severity", "detection_method", "approval_status", "schema_version"},
                {}),
    "feedback_events" :=
      TypedSpec("feedback_id", false,
                {"target_type", "target_id", "action", "user_id", "user_role", "created_at", "schema_version"},
                {}),
    "audit_events" :=
      TypedSpec("audit_id", true,
                {"action", "actor_id", "target_type", "target_id", "outcome", "created_at", "schema_version"},
                {}),
    "idempotency_results" := TypedSpec("record_id", true, {"idempotency_key", "command", "request_hash"}, {}),
    "registry_activations" := TypedSpec("activation_id", false, {"activation_type", "item_id", "status", "activated_by"}, {}),
    "dashboard_preferences" :=
      TypedSpec("preference_id", true,
                {"project_key", "user_id", "updated_at", "schema_version"},
                {"project_key", "user_id"}),
    "dashboard_assignments" :=
      TypedSpec("assignment_id", true,
                {"project_key", "queue_id", "assigned_by", "updated_at", "schema_version"},
                {"project_key", "queue_id"}),
    "schedule_configs" :=
      TypedSpec("config_id", true,
                {"project_key", "enabled", "interval_seconds", "scenario", "run_id_prefix", "lease_name", "lease_ttl_seconds", "schema_version"},
                {}),
    "source_sync_cursors" :=
      TypedSpec("cursor_id", true,
                {"source_type", "project_key", "scenario", "run_id", "stage_name", "artifact_count", "page_count", "content_hash", "partial_failure", "updated_at", "schema_version"},
                {}),
    "llm_call_traces" :=
      TypedSpec("llm_call_id", false,
                {"run_id", "step_id", "model_profile_id", "prompt_version_id", "request_hash", "validation_status", "retry_count", "latency_ms", "schema_version"},
                {}),
    "replay_results" := TypedSpec("replay_run_id", false, {"source_run_id", "replay_mode"}, {}),
    "improvement_decisions" :=
      TypedSpec("candidate_id", false,
                {"candidate_type", "status", "decision_type", "created_at", "schema_version"},
                {})
  ]

  function TableOf(tables: Tables, collection: string): Table {
    if collection in tables then tables[collection] else map[]
  }

  function Put(tables: Tables, collection: string, id: string, row: Row): (r: Tables)
    ensures forall c :: TableOf(r, c) == if c == collection then TableOf(tables, c)[id := row] else TableOf(tables, c)
  {
    tables[collection := TableOf(tables, collection)[id := row]]
  }

  function Drop(tables: Tables, collection: string, id: string): (r: Tables)
    ensures forall c :: TableOf(r, c) == if c == collection then TableOf(tables, c) - {id} else TableOf(tables, c)
  {
    tables[collection := TableOf(tables, collection) - {id}]
  }

  function Lookup(table: Table, id: string): Result<Option<Json>> {
    if id !in table then Ok(None)
    else if table[id].payload.JObject? then Ok(Some(table[id].payload))
    else TypeError
  }

  function Selected(table: Table, project: Option<string>): (ids: set<string>) {
    set id | id in table && (project.None? || table[id].project == project)
  }

  /** `... WHERE project_key = ? ORDER BY id` */
  function Listing(table: Table, project: Option<string>): (rows: seq<Json>)
    ensures |rows| == |Selected(table, project)|
  {
    Payloads(table, SortedSet(Selected(table, project)))
  }

  /** The payloads of the rows asked for, in the order of their ids, each once. */
  ghost predicate InIdOrder(table: Table, project: Option<string>, rows: seq<Json>) {
    exists ids :: Ascending(ids) && Enumerates(table, project, ids, rows)
  }

  ghost predicate Enumerates(table: Table, project: Option<string>, ids: seq<string>, rows: seq<Json>) {
    && (forall id :: id in ids <==> id in table && (project == None || table[id].project == project))
    && PayloadsOf(table, ids, rows)
  }

  predicate PayloadsOf(table: Table, ids: seq<string>, rows: seq<Json>) {
    |rows| == |ids| && forall i :: 0 <= i < |ids| ==> ids[i] in table && rows[i] == table[ids[i]].payload
  }

  lemma OnlyPayloads(table: Table, ids: seq<string>, rows: seq<Json>)
    requires forall id :: id in ids ==> id in table
    ensures PayloadsOf(table, ids, rows) <==> rows == Payloads(table, ids)
  {
    assert forall i :: 0 <= i < |ids| ==> ids[i] in ids;
  }

  lemma ListingEnumerates(table: Table, project: Option<string>, ids: seq<string>, rows: seq<Json>)
    requires ids == SortedSet(Selected(table, project))
    ensures Enumerates(table, project, ids, rows) <==> rows == Listing(table, project)
  {
    OnlyPayloads(table, ids, rows);
  }

  lemma ListingIff(table: Table, project: Option<string>, rows: seq<Json>)
    ensures rows == Listing(table, project) <==> InIdOrder(table, project, rows)
  {
    var sorted := SortedSet(Selected(table, project));
    SortedSetAscends(Selected(table, project));
    ListingEnumerates(table, project, sorted, rows);
    forall ids | Ascending(ids) && Enumerates(table, project, ids, rows) ensures ids == sorted {
      AscendingUnique(ids, sorted);
    }
  }

  function Payloads(table: Table, ids: seq<string>): (rows: seq<Json>)
    requires forall id :: id in ids ==> id in table
    ensures |rows| == |ids|
    ensures forall i :: 0 <= i < |ids| ==> rows[i] == table[ids[i]].payload
  {
    seq(|ids|, i requires 0 <= i < |ids| => assert ids[i] in ids; table[ids[i]].payload)
  }

  /** A listing that refuses payloads that are not objects. */
  function CheckedListing(table: Table, project: Option<string>): Result<seq<Json>> {
    var rows := Listing(table, project);
    if forall i :: 0 <= i < |rows| ==> rows[i].JObject? then Ok(rows) else TypeError
  }

  // ---- one table ----

  class SqliteStateStore {
    var entities: Tables

    constructor ()
      ensures entities == map[]
    {
      entities := map[];
    }

    /** A later `get` of this id finds the payload; every other `get` finds what it found before. */
    method Upsert(collection: string, id: string, payload: Json, project: Option<string>)
      modifies this
      ensures entities == Put(old(entities), collection, id, Row(project, payload))
      ensures payload.JObject? ==> Lookup(TableOf(entities, collection), id) == Ok(Some(payload))
      ensures forall c, i :: c != collection || i != id ==> Lookup(TableOf(entities, c), i) == Lookup(TableOf(old(entities), c), i)
    {
      entities := Put(entities, collection, id, Row(project, payload));
    }

    method Get(collection: string, id: string) returns (payload: Result<Option<Json>>)
      ensures payload == Lookup(TableOf(entities, collection), id)
    {
      payload := Lookup(TableOf(entities, collection), id);
    }

    method List(collection: string, project: Option<string>) returns (payloads: seq<Json>)
      ensures payloads == Listing(TableOf(entities, collection), project)
      ensures InIdOrder(TableOf(entities, collection), project, payloads)
    {
      ListingIff(TableOf(entities, collection), project, Listing(TableOf(entities, collection), project));
      payloads := Listing(TableOf(entities, collection), project);
    }

    /** A later `get` of this id finds nothing; every other `get` finds what it found before. */
    method Delete(collection: string, id: string)
      modifies this
      ensures entities == Drop(old(entities), collection, id)
      ensures Lookup(TableOf(entities, collection), id) == Ok(None)
      ensures forall c, i :: c != collection || i != id ==> Lookup(TableOf(entities, c), i) == Lookup(TableOf(old(entities), c), i)
    {
      entities := Drop(entities, collection, id);
    }
  }

  // ---- the same table and typed mirrors ----

  datatype Mirrored = Mirrored(entities: Tables, typed: Tables)

  /** A text column takes a string or NULL; any other JSON value is refused by the database. */
  predicate TextColumn(value: Json) { value.JNull? || value.JString? }

  function Field(payload: Json, key: string): Json {
    if payload.JObject? && key in payload.fields then payload.fields[key] else JNull
  }

  function AsText(value: Json): Option<string> {
    if value.JString? then Some(value.text) else None
  }

  function MirrorRow(spec: TypedSpec, payload: Json): Row {
    Row(if spec.hasProject then AsText(Field(payload, "project_key")) else None, payload)
  }

  /** The row alone is accepted: no NOT NULL column gets NULL. */
  predicate ColumnsAccept(spec: TypedSpec, payload: Json) {
    && Field(payload, spec.idKey).JString?
    && (spec.hasProject ==> TextColumn(Field(payload, "project_key")))
    && forall key :: key in spec.required ==> !Field(payload, key).JNull?
  }

  predicate SameUnique(spec: TypedSpec, a: Json, b: Json) {
    spec.unique != {} && forall key :: key in spec.unique ==> Field(a, key) == Field(b, key) && !Field(a, key).JNull?
  }

  /** Another row already has these values in the columns that are unique together. */
  predicate Clashes(spec: TypedSpec, table: Table, id: string, payload: Json) {
    exists other :: other in table && other != id && SameUnique(spec, table[other].payload, payload)
  }

  /** The field is missing or null. */
  predicate NoValue(fields: map<string, Json>, key: string) {
    key !in fields || fields[key] == JNull
  }

  /** The id is no text, the project neither text nor null, a NOT NULL column has no value, or another row has the same values in all
      the unique columns. */
  predicate BreaksConstraint(spec: TypedSpec, mirror: Table, fields: map<string, Json>) {
    || !(spec.idKey in fields && fields[spec.idKey].JString?)
    || (spec.hasProject && !NoValue(fields, "project_key") && !fields["project_key"].JString?)
    || (exists key :: key in spec.required && NoValue(fields, key))
    || (spec.unique != {}
        && exists other :: other in mirror && JString(other) != fields[spec.idKey]
             && forall key :: key in spec.unique ==> !NoValue(fields, key) && Field(mirror[other].payload, key) == fields[key])
  }

  lemma RefusedIff(spec: TypedSpec, mirror: Table, payload: Json)
    requires payload.JObject?
    ensures MirrorAccepts(spec, mirror, payload) <==> !BreaksConstraint(spec, mirror, payload.fields)
  {
    forall key ensures Field(payload, key).JNull? <==> NoValue(payload.fields, key) {}
    if ColumnsAccept(spec, payload) {
      forall other | other in mirror
        ensures SameUnique(spec, mirror[other].payload, payload) <==>
                spec.unique != {} && forall key :: key in spec.unique ==>
                  !NoValue(payload.fields, key) && Field(mirror[other].payload, key) == payload.fields[key]
      {
        assert forall key :: !NoValue(payload.fields, key) ==> Field(payload, key) == payload.fields[key];
      }
    }
  }

  /** The insert into the mirror is accepted. */
  predicate MirrorAccepts(spec: TypedSpec, mirror: Table, payload: Json) {
    ColumnsAccept(spec, payload) && !Clashes(spec, mirror, Field(payload, spec.idKey).text, payload)
  }

  /** Both inserts happen in one transaction: when the mirror refuses, nothing is written. */
  function MirroredUpsert(specs: map<string, TypedSpec>, s: Mirrored, collection: string, id: string, payload: Json,
                          project: Option<string>): Mirrored {
    var entities := Put(s.entities, collection, id, Row(project, payload));
    if collection !in specs || !payload.JObject? then s.(entities := entities)
    else
      var spec := specs[collection];
      if MirrorAccepts(spec, TableOf(s.typed, collection), payload)
      then Mirrored(entities, Put(s.typed, collection, Field(payload, spec.idKey).text, MirrorRow(spec, payload)))
      else s
  }

  function MirroredDelete(specs: map<string, TypedSpec>, s: Mirrored, collection: string, id: string): Mirrored {
    Mirrored(Drop(s.entities, collection, id), if collection in specs then Drop(s.typed, collection, id) else s.typed)
  }

  function MirroredGet(specs: map<string, TypedSpec>, s: Mirrored, collection: string, id: string): Result<Option<Json>> {
    Lookup(TableOf(if collection in specs then s.typed else s.entities, collection), id)
  }

  /** The mirror answers when no project is asked for or when it has the project column. */
  function MirroredList(specs: map<string, TypedSpec>, s: Mirrored, collection: string, project: Option<string>): Result<seq<Json>> {
    if collection in specs && (project.None? || specs[collection].hasProject)
    then CheckedListing(TableOf(s.typed, collection), project)
    else CheckedListing(TableOf(s.entities, collection), project)
  }

  class PostgresStateStore {
    const specs: map<string, TypedSpec>
    var entities: Tables
    var typed: Tables

    constructor (specs: map<string, TypedSpec>)
      ensures this.specs == specs && State() == Mirrored(map[], map[])
    {
      this.specs, entities, typed := specs, map[], map[];
    }

    ghost function State(): Mirrored
      reads this
    {
      Mirrored(entities, typed)
    }

    method Upsert(collection: string, id: string, payload: Json, project: Option<string>) returns (accepted: bool)
      modifies this
      ensures State() == MirroredUpsert(specs, old(State()), collection, id, payload, project)
      ensures !accepted ==> State() == old(State())
      ensures accepted <==> !(collection in specs && payload.JObject? && BreaksConstraint(specs[collection], TableOf(old(typed), collection), payload.fields))
      ensures forall one :: Simulates(specs, one, old(State())) && Conforms(specs, one, collection, id, payload, project) ==>
                accepted && Simulates(specs, Put(one, collection, id, Row(project, payload)), State())
    {
      UpsertInStep(specs, State(), collection, id, payload, project);
      if collection in specs && payload.JObject? {
        RefusedIff(specs[collection], TableOf(typed, collection), payload);
      }
      if collection in specs && payload.JObject? {
        var spec := specs[collection];
        if !MirrorAccepts(spec, TableOf(typed, collection), payload) {
          return false;
        }
        typed := Put(typed, collection, Field(payload, spec.idKey).text, MirrorRow(spec, payload));
      }
      entities := Put(entities, collection, id, Row(project, payload));
      accepted := true;
    }

    method Get(collection: string, id: string) returns (payload: Result<Option<Json>>)
      ensures payload == MirroredGet(specs, State(), collection, id)
      ensures forall one :: Simulates(specs, one, State()) ==> payload == Lookup(TableOf(one, collection), id)
    {
      forall one | Simulates(specs, one, State()) ensures MirroredGet(specs, State(), collection, id) == Lookup(TableOf(one, collection), id) {
        SimulationAgrees(specs, one, State());
      }
      if collection in specs {
        payload := Lookup(TableOf(typed, collection), id);
      } else {
        payload := Lookup(TableOf(entities, collection), id);
      }
    }

    method List(collection: string, project: Option<string>) returns (payloads: Result<seq<Json>>)
      ensures payloads == MirroredList(specs, State(), collection, project)
      ensures forall one :: Simulates(specs, one, State()) ==> payloads == Ok(Listing(TableOf(one, collection), project))
    {
      forall one | Simulates(specs, one, State())
        ensures MirroredList(specs, State(), collection, project) == Ok(Listing(TableOf(one, collection), project))
      {
        SimulationAgrees(specs, one, State());
      }
      if collection in specs && (project.None? || specs[collection].hasProject) {
        payloads := CheckedListing(TableOf(typed, collection), project);
      } else {
        payloads := CheckedListing(TableOf(entities, collection), project);
      }
    }

    method Delete(collection: string, id: string)
      modifies this
      ensures State() == MirroredDelete(specs, old(State()), collection, id)
      ensures forall one :: Simulates(specs, one, old(State())) ==> Simulates(specs, Drop(one, collection, id), State())
    {
      forall one | Simulates(specs, one, State()) ensures Simulates(specs, Drop(one, collection, id), MirroredDelete(specs, State(), collection, id)) {
        OpKeepsSimulation(specs, one, State(), Op.Delete(collection, id));
      }
      if collection in specs {
        typed := Drop(typed, collection, id);
      }
      entities := Drop(entities, collection, id);
    }
  }

  // ---- agreement ----

  /** Every query gets the same answer from both stores. */
  ghost predicate Agree(specs: map<string, TypedSpec>, one: Tables, two: Mirrored) {
    && (forall c, id :: MirroredGet(specs, two, c, id) == Lookup(TableOf(one, c), id))
    && (forall c, p :: MirroredList(specs, two, c, p) == Ok(Listing(TableOf(one, c), p)))
  }

  /** The payload is an object, carries its own id under the mirror's id key and, where the mirror has a project column,
      its own project, fills every NOT NULL column, and takes no other row's unique values. */
  predicate Conforms(specs: map<string, TypedSpec>, one: Tables, collection: string, id: string, payload: Json, project: Option<string>) {
    && payload.JObject?
    && (collection in specs ==>
          && ColumnsAccept(specs[collection], payload)
          && Field(payload, specs[collection].idKey).text == id
          && (specs[collection].hasProject ==> AsText(Field(payload, "project_key")) == project)
          && !Clashes(specs[collection], TableOf(one, collection), id, payload))
  }

  /** A stored payload fits its mirror: its columns are accepted, its id is its own, and no other row has its unique values. */
  ghost predicate Fits(spec: TypedSpec, table: Table, id: string)
    requires id in table
  {
    && ColumnsAccept(spec, table[id].payload) && Field(table[id].payload, spec.idKey).text == id
    && !Clashes(spec, table, id, table[id].payload)
  }

  /** The mirror of one collection holds the same ids and payloads as the entity table, and the same projects where it
      has the column. */
  ghost predicate Mirrors(spec: TypedSpec, plain: Table, mirror: Table) {
    && mirror.Keys == plain.Keys
    && forall id :: id in plain ==>
         && plain[id].payload == mirror[id].payload && Fits(spec, plain, id)
         && (spec.hasProject ==> mirror[id].project == plain[id].project == AsText(Field(plain[id].payload, "project_key")))
  }

  ghost predicate ObjectsOnly(table: Table) {
    forall id :: id in table ==> table[id].payload.JObject?
  }

  ghost predicate Simulates(specs: map<string, TypedSpec>, one: Tables, two: Mirrored) {
    && (forall c :: TableOf(two.entities, c) == TableOf(one, c))
    && (forall c :: ObjectsOnly(TableOf(one, c)))
    && (forall c :: c in specs ==> Mirrors(specs[c], TableOf(one, c), TableOf(two.typed, c)))
  }

  lemma SamePayloadsSameListing(a: Table, b: Table, project: Option<string>)
    requires Selected(a, project) == Selected(b, project)
    requires forall id :: id in a && id in b ==> a[id].payload == b[id].payload
    ensures Listing(a, project) == Listing(b, project)
  {
    var ids := SortedSet(Selected(a, project));
    assert forall i :: 0 <= i < |ids| ==> ids[i] in ids;
    assert forall i :: 0 <= i < |ids| ==> ids[i] in Selected(a, project) && ids[i] in Selected(b, project);
    assert Payloads(a, ids) == Payloads(b, ids);
  }

  lemma ObjectsListed(table: Table, project: Option<string>)
    requires ObjectsOnly(table)
    ensures CheckedListing(table, project) == Ok(Listing(table, project))
  {
    var ids := SortedSet(Selected(table, project));
    assert forall i :: 0 <= i < |ids| ==> ids[i] in ids;
    assert forall i :: 0 <= i < |ids| ==> ids[i] in table;
  }

  lemma SimulationAgrees(specs: map<string, TypedSpec>, one: Tables, two: Mirrored)
    requires Simulates(specs, one, two)
    ensures Agree(specs, one, two)
  {
    forall c, id ensures MirroredGet(specs, two, c, id) == Lookup(TableOf(one, c), id) {
      assert c in specs ==> Mirrors(specs[c], TableOf(one, c), TableOf(two.typed, c));
    }
    forall c, p ensures MirroredList(specs, two, c, p) == Ok(Listing(TableOf(one, c), p)) {
      ListAgrees(specs, one, two, c, p);
    }
  }

  lemma ListAgrees(specs: map<string, TypedSpec>, one: Tables, two: Mirrored, c: string, p: Option<string>)
    requires Simulates(specs, one, two)
    ensures MirroredList(specs, two, c, p) == Ok(Listing(TableOf(one, c), p))
  {
    var plain := TableOf(one, c);
    assert ObjectsOnly(plain);
    if c in specs && (p.None? || specs[c].hasProject) {
      var mirror := TableOf(two.typed, c);
      assert Mirrors(specs[c], plain, mirror);
      assert Selected(plain, p) == Selected(mirror, p);
      SamePayloadsSameListing(plain, mirror, p);
      ObjectsListed(mirror, p);
    } else {
      ObjectsListed(plain, p);
    }
  }

  // ---- runs ----

  datatype Op = Upsert(collection: string, id: string, payload: Json, project: Option<string>) | Delete(collection: string, id: string)

  predicate OpConforms(specs: map<string, TypedSpec>, one: Tables, op: Op) {
    op.Upsert? ==> Conforms(specs, one, op.collection, op.id, op.payload, op.project)
  }

  function ApplyOne(one: Tables, op: Op): Tables {
    match op
    case Upsert(c, id, payload, project) => Put(one, c, id, Row(project, payload))
    case Delete(c, id) => Drop(one, c, id)
  }

  function ApplyTwo(specs: map<string, TypedSpec>, two: Mirrored, op: Op): Mirrored {
    match op
    case Upsert(c, id, payload, project) => MirroredUpsert(specs, two, c, id, payload, project)
    case Delete(c, id) => MirroredDelete(specs, two, c, id)
  }

  function RunOne(one: Tables, ops: seq<Op>): Tables
    decreases |ops|
  {
    if ops == [] then one else RunOne(ApplyOne(one, ops[0]), ops[1..])
  }

  /** Every upsert conforms to the tables it meets. */
  predicate RunConforms(specs: map<string, TypedSpec>, one: Tables, ops: seq<Op>)
    decreases |ops|
  {
    ops == [] || (OpConforms(specs, one, ops[0]) && RunConforms(specs, ApplyOne(one, ops[0]), ops[1..]))
  }

  function RunTwo(specs: map<string, TypedSpec>, two: Mirrored, ops: seq<Op>): Mirrored
    decreases |ops|
  {
    if ops == [] then two else RunTwo(specs, ApplyTwo(specs, two, ops[0]), ops[1..])
  }

  /** Mirrors clash with the same payloads. */
  lemma SameClashes(spec: TypedSpec, plain: Table, mirror: Table, id: string, payload: Json)
    requires Mirrors(spec, plain, mirror)
    ensures Clashes(spec, mirror, id, payload) <==> Clashes(spec, plain, id, payload)
  {
    assert forall other :: other in plain <==> other in mirror;
    assert forall other :: other in plain ==> plain[other].payload == mirror[other].payload;
  }

  lemma NoNewClash(spec: TypedSpec, table: Table, id: string, row: Row, other: string)
    requires other in table && other != id && Fits(spec, table, other) && !Clashes(spec, table, id, row.payload)
    ensures Fits(spec, table[id := row], other)
  {
    assert forall third :: third in table && third != other ==> !SameUnique(spec, table[third].payload, table[other].payload);
    assert !SameUnique(spec, table[other].payload, row.payload);
    assert SameUnique(spec, row.payload, table[other].payload) ==> SameUnique(spec, table[other].payload, row.payload);
  }

  lemma OwnRowFits(spec: TypedSpec, table: Table, id: string, row: Row)
    requires ColumnsAccept(spec, row.payload) && Field(row.payload, spec.idKey).text == id && !Clashes(spec, table, id, row.payload)
    ensures Fits(spec, table[id := row], id)
  {
    assert forall other :: other in table[id := row] && other != id ==> other in table && table[id := row][other] == table[other];
  }

  /** Two rows of one entity, put into the plain table and into its mirror. */
  lemma RowKeepsMirror(spec: TypedSpec, plain: Table, mirror: Table, id: string, payload: Json, project: Option<string>)
    requires Mirrors(spec, plain, mirror) && ColumnsAccept(spec, payload) && Field(payload, spec.idKey).text == id
    requires !Clashes(spec, plain, id, payload)
    requires spec.hasProject ==> AsText(Field(payload, "project_key")) == project
    ensures Mirrors(spec, plain[id := Row(project, payload)], mirror[id := MirrorRow(spec, payload)])
  {
    var plain' := plain[id := Row(project, payload)];
    OwnRowFits(spec, plain, id, Row(project, payload));
    forall other | other in plain' ensures Fits(spec, plain', other) {
      if other != id { NoNewClash(spec, plain, id, Row(project, payload), other); }
    }
  }

  /** What a conforming upsert does to the tables. */
  lemma UpsertedTables(specs: map<string, TypedSpec>, one: Tables, two: Mirrored, op: Op, c: string)
    requires Simulates(specs, one, two) && OpConforms(specs, one, op) && op.Upsert?
    ensures TableOf(ApplyTwo(specs, two, op).entities, c) ==
            if c == op.collection then TableOf(two.entities, c)[op.id := Row(op.project, op.payload)] else TableOf(two.entities, c)
    ensures c in specs ==>
              TableOf(ApplyTwo(specs, two, op).typed, c) ==
              if c == op.collection then TableOf(two.typed, c)[op.id := MirrorRow(specs[c], op.payload)] else TableOf(two.typed, c)
  {
    if op.collection in specs {
      var spec := specs[op.collection];
      SameClashes(spec, TableOf(one, op.collection), TableOf(two.typed, op.collection), op.id, op.payload);
      assert MirrorAccepts(spec, TableOf(two.typed, op.collection), op.payload);
    }
  }

  lemma UpsertKeepsSimulation(specs: map<string, TypedSpec>, one: Tables, two: Mirrored, op: Op)
    requires Simulates(specs, one, two) && OpConforms(specs, one, op) && op.Upsert?
    ensures Simulates(specs, ApplyOne(one, op), ApplyTwo(specs, two, op))
  {
    var one', two' := ApplyOne(one, op), ApplyTwo(specs, two, op);
    forall c ensures ObjectsOnly(TableOf(one', c)) && TableOf(two'.entities, c) == TableOf(one', c) {
      UpsertedTables(specs, one, two, op, c);
      assert ObjectsOnly(TableOf(one, c));
    }
    forall c | c in specs ensures Mirrors(specs[c], TableOf(one', c), TableOf(two'.typed, c)) {
      UpsertedTables(specs, one, two, op, c);
      assert Mirrors(specs[c], TableOf(one, c), TableOf(two.typed, c));
      if c == op.collection {
        RowKeepsMirror(specs[c], TableOf(one, c), TableOf(two.typed, c), op.id, op.payload, op.project);
      }
    }
  }

  lemma UpsertInStep(specs: map<string, TypedSpec>, two: Mirrored, collection: string, id: string, payload: Json, project: Option<string>)
    ensures forall one :: Simulates(specs, one, two) && Conforms(specs, one, collection, id, payload, project) ==>
              && Simulates(specs, Put(one, collection, id, Row(project, payload)), MirroredUpsert(specs, two, collection, id, payload, project))
              && (collection in specs ==> MirrorAccepts(specs[collection], TableOf(two.typed, collection), payload))
  {
    forall one | Simulates(specs, one, two) && Conforms(specs, one, collection, id, payload, project)
      ensures Simulates(specs, Put(one, collection, id, Row(project, payload)), MirroredUpsert(specs, two, collection, id, payload, project))
      ensures collection in specs ==> MirrorAccepts(specs[collection], TableOf(two.typed, collection), payload)
    {
      OpKeepsSimulation(specs, one, two, Op.Upsert(collection, id, payload, project));
      if collection in specs {
        SameClashes(specs[collection], TableOf(one, collection), TableOf(two.typed, collection), id, payload);
      }
    }
  }

  lemma DroppedStillFits(spec: TypedSpec, table: Table, id: string, other: string)
    requires other in table && other != id && Fits(spec, table, other)
    ensures Fits(spec, table - {id}, other)
  {
    assert forall third :: third in table - {id} ==> third in table && (table - {id})[third] == table[third];
  }

  lemma DropKeepsMirror(spec: TypedSpec, plain: Table, mirror: Table, id: string)
    requires Mirrors(spec, plain, mirror)
    ensures Mirrors(spec, plain - {id}, mirror - {id})
  {
    forall other | other in plain - {id} ensures Fits(spec, plain - {id}, other) { DroppedStillFits(spec, plain, id, other); }
  }

  lemma DeleteKeepsSimulation(specs: map<string, TypedSpec>, one: Tables, two: Mirrored, op: Op)
    requires Simulates(specs, one, two) && op.Delete?
    ensures Simulates(specs, ApplyOne(one, op), ApplyTwo(specs, two, op))
  {
    var one', two' := ApplyOne(one, op), ApplyTwo(specs, two, op);
    forall c ensures ObjectsOnly(TableOf(one', c)) { assert ObjectsOnly(TableOf(one, c)); }
    forall c | c in specs ensures Mirrors(specs[c], TableOf(one', c), TableOf(two'.typed, c)) {
      assert Mirrors(specs[c], TableOf(one, c), TableOf(two.typed, c));
      DropKeepsMirror(specs[c], TableOf(one, c), TableOf(two.typed, c), op.id);
    }
  }

  lemma OpKeepsSimulation(specs: map<string, TypedSpec>, one: Tables, two: Mirrored, op: Op)
    requires Simulates(specs, one, two) && OpConforms(specs, one, op)
    ensures Simulates(specs, ApplyOne(one, op), ApplyTwo(specs, two, op))
  {
    if op.Upsert? {
      UpsertKeepsSimulation(specs, one, two, op);
    } else {
      DeleteKeepsSimulation(specs, one, two, op);
    }
  }

  lemma {:induction false} RunKeepsSimulation(specs: map<string, TypedSpec>, one: Tables, two: Mirrored, ops: seq<Op>)
    requires Simulates(specs, one, two) && RunConforms(specs, one, ops)
    ensures Simulates(specs, RunOne(one, ops), RunTwo(specs, two, ops))
    decreases |ops|
  {
    if ops != [] {
      OpKeepsSimulation(specs, one, two, ops[0]);
      RunKeepsSimulation(specs, ApplyOne(one, ops[0]), ApplyTwo(specs, two, ops[0]), ops[1..]);
    }
  }

  /** After any run of conforming upserts and of deletes from empty stores, the mirrored store answers every `get` and
      every `list`, order included, as the one-table store does. */
  lemma StoresAgree(specs: map<string, TypedSpec>, ops: seq<Op>)
    requires RunConforms(specs, map[], ops)
    ensures Agree(specs, RunOne(map[], ops), RunTwo(specs, Mirrored(map[], map[]), ops))
  {
    RunKeepsSimulation(specs, map[], Mirrored(map[], map[]), ops);
    SimulationAgrees(specs, RunOne(map[], ops), RunTwo(specs, Mirrored(map[], map[]), ops));
  }

  /** The condition is exact: one upsert that does not conform, on stores in step, is answered differently. */
  lemma ConformingIsExact(specs: map<string, TypedSpec>, one: Tables, two: Mirrored, collection: string, id: string,
                          payload: Json, project: Option<string>)
    requires Simulates(specs, one, two)
    ensures var op := Upsert(collection, id, payload, project);
            Agree(specs, ApplyOne(one, op), ApplyTwo(specs, two, op)) <==> Conforms(specs, one, collection, id, payload, project)
  {
    var op := Upsert(collection, id, payload, project);
    var one', two' := ApplyOne(one, op), ApplyTwo(specs, two, op);
    if Conforms(specs, one, collection, id, payload, project) {
      OpKeepsSimulation(specs, one, two, op);
      SimulationAgrees(specs, one', two');
    } else if Agree(specs, one', two') {
      assert MirroredGet(specs, two', collection, id) == Lookup(TableOf(one', collection), id);
      NotAnObjectDiffers(specs, one, two, op);
      assert payload.JObject? && collection in specs;
      RefusedDiffers(specs, one, two, op);
      OtherProjectDiffers(specs, one, two, op);
    }
  }

  lemma NotAnObjectDiffers(specs: map<string, TypedSpec>, one: Tables, two: Mirrored, op: Op)
    requires Simulates(specs, one, two) && op.Upsert?
    requires Agree(specs, ApplyOne(one, op), ApplyTwo(specs, two, op))
    ensures op.payload.JObject?
  {
    var one', two' := ApplyOne(one, op), ApplyTwo(specs, two, op);
    var table := TableOf(one', op.collection);
    if op.collection in specs {
      assert MirroredGet(specs, two', op.collection, op.id) == Lookup(table, op.id);
      assert Mirrors(specs[op.collection], TableOf(one, op.collection), TableOf(two.typed, op.collection));
    } else {
      assert MirroredList(specs, two', op.collection, None) == Ok(Listing(table, None));
      var ids := SortedSet(Selected(table, None));
      assert op.id in ids;
      var i :| 0 <= i < |ids| && ids[i] == op.id;
      assert Listing(table, None)[i] == op.payload;
    }
  }

  /** An agreeing mirror took the row, under its own id: otherwise it holds what it held, and that fitted. */
  lemma RefusedDiffers(specs: map<string, TypedSpec>, one: Tables, two: Mirrored, op: Op)
    requires Simulates(specs, one, two) && op.Upsert? && op.collection in specs && op.payload.JObject?
    requires Agree(specs, ApplyOne(one, op), ApplyTwo(specs, two, op))
    ensures ColumnsAccept(specs[op.collection], op.payload) && Field(op.payload, specs[op.collection].idKey).text == op.id
    ensures !Clashes(specs[op.collection], TableOf(one, op.collection), op.id, op.payload)
    ensures MirrorAccepts(specs[op.collection], TableOf(two.typed, op.collection), op.payload)
  {
    var spec, plain, mirror := specs[op.collection], TableOf(one, op.collection), TableOf(two.typed, op.collection);
    assert Mirrors(spec, plain, mirror);
    var one', two' := ApplyOne(one, op), ApplyTwo(specs, two, op);
    assert MirroredGet(specs, two', op.collection, op.id) == Lookup(TableOf(one', op.collection), op.id) == Ok(Some(op.payload));
    var mirror' := TableOf(two'.typed, op.collection);
    assert op.id in mirror' && mirror'[op.id].payload == op.payload;
    if !MirrorAccepts(spec, mirror, op.payload) || Field(op.payload, spec.idKey).text != op.id {
      assert op.id in mirror && mirror[op.id].payload == op.payload;
      assert op.id in plain && plain[op.id].payload == op.payload && Fits(spec, plain, op.id);
    }
    SameClashes(spec, plain, mirror, op.id, op.payload);
  }

  lemma OneMore(p: set<string>, m: set<string>, id: string)
    requires (id in p) != (id in m) && forall x :: x != id ==> (x in p <==> x in m)
    ensures |p| != |m|
  {
    if id in p {
      assert p == m + {id};
    } else {
      assert m == p + {id};
    }
  }

  /** One row filed under different projects makes one project's listing longer in one of the tables. */
  lemma MisfiledRowCounts(spec: TypedSpec, plain: Table, mirror: Table, id: string, row: Row, filed: Row)
    requires spec.hasProject && Mirrors(spec, plain, mirror) && row.project != filed.project
    ensures var asked := if row.project.Some? then row.project else filed.project;
            asked.Some? && |Selected(plain[id := row], asked)| != |Selected(mirror[id := filed], asked)|
  {
    var asked := if row.project.Some? then row.project else filed.project;
    var plain', mirror' := plain[id := row], mirror[id := filed];
    forall x | x != id ensures x in Selected(plain', asked) <==> x in Selected(mirror', asked) {
      assert x in plain <==> x in mirror;
    }
    OneMore(Selected(plain', asked), Selected(mirror', asked), id);
  }

  lemma OtherProjectDiffers(specs: map<string, TypedSpec>, one: Tables, two: Mirrored, op: Op)
    requires Simulates(specs, one, two) && op.Upsert? && op.collection in specs
    requires op.payload.JObject? && MirrorAccepts(specs[op.collection], TableOf(two.typed, op.collection), op.payload)
    requires Field(op.payload, specs[op.collection].idKey).text == op.id
    ensures Agree(specs, ApplyOne(one, op), ApplyTwo(specs, two, op)) && specs[op.collection].hasProject ==>
              AsText(Field(op.payload, "project_key")) == op.project
  {
    var c, spec := op.collection, specs[op.collection];
    var row, filed := Row(op.project, op.payload), MirrorRow(spec, op.payload);
    var asked := if row.project.Some? then row.project else filed.project;
    if spec.hasProject && row.project != filed.project && Agree(specs, ApplyOne(one, op), ApplyTwo(specs, two, op)) {
      assert Mirrors(spec, TableOf(one, c), TableOf(two.typed, c));
      MisfiledRowCounts(spec, TableOf(one, c), TableOf(two.typed, c), op.id, row, filed);
      AgreeingListings(specs, ApplyOne(one, op), ApplyTwo(specs, two, op), c, asked);
    }
  }

  lemma AgreeingListings(specs: map<string, TypedSpec>, one: Tables, two: Mirrored, c: string, asked: Option<string>)
    requires c in specs && specs[c].hasProject && Agree(specs, one, two)
    ensures |Selected(TableOf(one, c), asked)| == |Selected(TableOf(two.typed, c), asked)|
  {
    assert MirroredList(specs, two, c, asked) == Ok(Listing(TableOf(one, c), asked));
  }
}
