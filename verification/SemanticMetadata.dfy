/** The optimistic lock between re-import and slow semantic enrichment: server/data/ingester.go. */
module SemanticMetadata {
  import opened Text

  type Table = string

  /** One row of the metadata table. */
  datatype Row = Row(schema: string, semantic: Option<string>, relations: Option<string>, ready: bool)

  /** An enrichment that has read its schema and waits for the model. */
  datatype Pending = Pending(table: Table, schema: string)

  datatype Store = Store(rows: map<Table, Row>, pending: map<nat, Pending>)

  const EMPTY := Store(map[], map[])

  /** What the model may answer for a schema: semantic text and verified relations. Any relation is allowed. */
  type Analysis = (string, string, string) -> bool

  datatype Step = Import(table: Table, schema: string) | DropTable(table: Table)
    | Begin(job: nat, table: Table)
    | Finish(job: nat, semantic: string, relations: string)
    | Fail(job: nat)

  predicate Enabled(computed: Analysis, s: Store, x: Step) {
    match x
    case Begin(j, _) => j !in s.pending
    case Finish(j, sem, rel) => j in s.pending && computed(s.pending[j].schema, sem, rel)
    case Fail(j) => j in s.pending
    case _ => true
  }

  /** The conditional update: the row is written only while it still holds the schema that was analysed. */
  predicate Writes(s: Store, j: nat) {
    j in s.pending && s.pending[j].table in s.rows && s.rows[s.pending[j].table].schema == s.pending[j].schema
  }

  function Take(s: Store, x: Step): Store {
    match x
    case Import(t, schema) => s.(rows := s.rows[t := Row(schema, None, None, false)])
    case DropTable(t) => s.(rows := s.rows - {t})
    case Begin(j, t) => if t in s.rows then s.(pending := s.pending[j := Pending(t, s.rows[t].schema)]) else s
    case Finish(j, sem, rel) =>
      if Writes(s, j) then
        var p := s.pending[j];
        Store(s.rows[p.table := Row(p.schema, Some(sem), Some(rel), true)], s.pending - {j})
      else s.(pending := s.pending - {j})
    case Fail(j) => s.(pending := s.pending - {j})
  }

  ghost predicate Reachable(computed: Analysis, s: Store, steps: seq<Step>, t: Store)
    decreases |steps|
  {
    if steps == [] then s == t
    else Enabled(computed, s, steps[0]) && Reachable(computed, Take(s, steps[0]), steps[1..], t)
  }

  // ---------- the atomic protocol it stands for ----------

  /** Re-imports, drops, and enrichments that read, analyse and write in one go. */
  datatype Atomic = AtomicImport(table: Table, schema: string) | AtomicDrop(table: Table)
    | Enrich(table: Table, semantic: string, relations: string) | Skip

  predicate Possible(computed: Analysis, rows: map<Table, Row>, x: Atomic) {
    x.Enrich? ==> x.table in rows && computed(rows[x.table].schema, x.semantic, x.relations)
  }

  function Apply(computed: Analysis, rows: map<Table, Row>, x: Atomic): map<Table, Row>
    requires Possible(computed, rows, x)
  {
    match x
    case AtomicImport(t, schema) => rows[t := Row(schema, None, None, false)]
    case AtomicDrop(t) => rows - {t}
    case Enrich(t, sem, rel) => rows[t := Row(rows[t].schema, Some(sem), Some(rel), true)]
    case Skip => rows
  }

  ghost predicate AtomicRun(computed: Analysis, rows: map<Table, Row>, steps: seq<Atomic>, end: map<Table, Row>)
    decreases |steps|
  {
    if steps == [] then rows == end
    else Possible(computed, rows, steps[0]) && AtomicRun(computed, Apply(computed, rows, steps[0]), steps[1..], end)
  }

  function Abstract(s: Store, x: Step): Atomic {
    match x
    case Import(t, schema) => AtomicImport(t, schema)
    case DropTable(t) => AtomicDrop(t)
    case Finish(j, sem, rel) => if Writes(s, j) then Enrich(s.pending[j].table, sem, rel) else Skip
    case _ => Skip
  }

  function AbstractAll(s: Store, steps: seq<Step>): seq<Atomic>
    decreases |steps|
  {
    if steps == [] then [] else [Abstract(s, steps[0])] + AbstractAll(Take(s, steps[0]), steps[1..])
  }

  /** Main result: every interleaving has the effect of a run in which enrichments are atomic. */
  lemma {:induction false} InterleavingIsAtomic(computed: Analysis, s: Store, steps: seq<Step>, t: Store)
    requires Reachable(computed, s, steps, t)
    ensures AtomicRun(computed, s.rows, AbstractAll(s, steps), t.rows)
    decreases |steps|
  {
    if steps != [] {
      InterleavingIsAtomic(computed, Take(s, steps[0]), steps[1..], t);
      assert AbstractAll(s, steps)[1..] == AbstractAll(Take(s, steps[0]), steps[1..]);
    }
  }

  /** semantic_ready means that the stored analysis was computed from exactly the stored schema. */
  predicate Trustworthy(computed: Analysis, rows: map<Table, Row>) {
    forall t :: t in rows && rows[t].ready ==>
      rows[t].semantic.Some? && rows[t].relations.Some?
        && computed(rows[t].schema, rows[t].semantic.value, rows[t].relations.value)
  }

  lemma {:induction false} AtomicIsTrustworthy(computed: Analysis, rows: map<Table, Row>, steps: seq<Atomic>,
      end: map<Table, Row>)
    requires Trustworthy(computed, rows) && AtomicRun(computed, rows, steps, end)
    ensures Trustworthy(computed, end)
    decreases |steps|
  {
    if steps != [] {
      AtomicIsTrustworthy(computed, Apply(computed, rows, steps[0]), steps[1..], end);
    }
  }

  /** Main result: so it holds under every interleaving of imports, drops and enrichments. */
  lemma ReadyMeansCurrent(computed: Analysis, steps: seq<Step>, t: Store)
    requires Reachable(computed, EMPTY, steps, t)
    ensures Trustworthy(computed, t.rows)
  {
    InterleavingIsAtomic(computed, EMPTY, steps, t);
    AtomicIsTrustworthy(computed, map[], AbstractAll(EMPTY, steps), t.rows);
  }

  // ---------- which analyses are stored ----------

  /** The schema of a table after the steps, as the imports and drops among them say. */
  function SchemaAfter(table: Table, schema: Option<string>, steps: seq<Step>): Option<string>
    decreases |steps|
  {
    if steps == [] then schema else
      SchemaAfter(table, SchemaNow(table, schema, steps[0]), steps[1..])
  }

  function SchemaNow(table: Table, schema: Option<string>, x: Step): Option<string> {
    match x
    case Import(t, imported) => if t == table then Some(imported) else schema
    case DropTable(t) => if t == table then None else schema
    case _ => schema
  }

  function SchemaOf(s: Store, table: Table): Option<string> {
    if table in s.rows then Some(s.rows[table].schema) else None
  }

  /** Enrichments never change a schema, and a pending one keeps the schema it read. */
  lemma {:induction false} EnrichmentsKeepSchemas(computed: Analysis, s: Store, steps: seq<Step>, t: Store, j: nat,
      table: Table)
    requires Reachable(computed, s, steps, t) && j in s.pending
    requires forall x :: x in steps ==> !((x.Finish? || x.Fail?) && x.job == j)
    ensures SchemaOf(t, table) == SchemaAfter(table, SchemaOf(s, table), steps)
    ensures j in t.pending && t.pending[j] == s.pending[j]
    decreases |steps|
  {
    if steps != [] {
      assert steps[0] in steps;
      EnrichmentsKeepSchemas(computed, Take(s, steps[0]), steps[1..], t, j, table);
    }
  }

  /**
   * Main result: whatever happens between reading a schema and the model's answer, the answer is stored exactly when
   * the imports and drops in between leave that schema in place; otherwise nothing changes.
   */
  lemma StoredIffSchemaStands(computed: Analysis, s: Store, j: nat, table: Table, steps: seq<Step>, u: Store,
      sem: string, rel: string)
    requires table in s.rows && Reachable(computed, Take(s, Begin(j, table)), steps, u)
    requires forall x :: x in steps ==> !((x.Finish? || x.Fail?) && x.job == j)
    ensures var schema, t := s.rows[table].schema, Take(u, Finish(j, sem, rel));
            && (SchemaAfter(table, Some(schema), steps) == Some(schema)
                ==> t.rows == u.rows[table := Row(schema, Some(sem), Some(rel), true)])
            && (SchemaAfter(table, Some(schema), steps) != Some(schema) ==> t.rows == u.rows)
  {
    EnrichmentsKeepSchemas(computed, Take(s, Begin(j, table)), steps, u, j, table);
  }
}
