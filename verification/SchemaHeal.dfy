/**
 The schema side of the migration bridge: the heal statements over an abstract
 PostgreSQL schema, run one after the other in a single transaction.
 */
module SchemaHeal {
  import opened Options

  datatype TableName =
    | AgentTemplates | Organizations | Projects | AgentExecutions | Products | ProductAgentAssignments
    | DiscoveryConfig | GitConfigs | OptimizationRules | OptimizationMetrics
    | OtherTable(name: string)

  datatype IndexName =
    | UqProductTemplateAssignment
    | IdxAssignmentTenant | IdxAssignmentProduct | IdxAssignmentTemplate | IdxAssignmentActive
    | IdxTemplateProduct
    | OtherIndex(name: string)

  datatype ConstraintName = UqTemplateProductNameVersion | UqTemplateTenantNameVersion | OtherConstraint(name: string)

  /** Constraint names are unique per table. */
  datatype ConstraintKey = ConstraintKey(table: TableName, name: ConstraintName)

  /** A uniqueness rule that rows already stored may violate. */
  datatype UniqueRule = AssignmentPairs | TemplateNames

  /**
   Tables with their columns, indexes with their table, constraints with the tables they reference, and the
   rules the data breaks.
   */
  datatype Schema = Schema(
    tables: map<TableName, set<string>>,
    indexes: map<IndexName, TableName>,
    constraints: map<ConstraintKey, set<TableName>>,
    violated: set<UniqueRule>)

  type Tables = map<TableName, set<string>>
  type Indexes = map<IndexName, TableName>
  type Constraints = map<ConstraintKey, set<TableName>>

  datatype Ddl =
    | AddColumn(table: TableName, column: string)
    | CreateTable(table: TableName, columns: set<string>, refs: set<TableName>)
    | CreateIndex(index: IndexName, table: TableName, columns: set<string>, unique: Option<UniqueRule>)
    | DropTable(table: TableName)
    | DropConstraint(table: TableName, name: ConstraintName)
    | DropIndex(index: IndexName)
    | AddUnique(table: TableName, name: ConstraintName, columns: set<string>, rule: UniqueRule)

  /** The lookup in pg_constraint is by name alone, on whatever table. */
  predicate HasNamed(constraints: Constraints, name: ConstraintName) {
    exists key :: key in constraints && key.name == name
  }

  /** The statement succeeds: `IF [NOT] EXISTS` covers the object itself, not the table it is on. */
  predicate Runs(s: Schema, d: Ddl) {
    match d
    case AddColumn(t, _) => t in s.tables
    case CreateTable(t, _, refs) => t in s.tables || refs <= s.tables.Keys
    case CreateIndex(i, t, columns, unique) =>
      t in s.tables && (i in s.indexes || (columns <= s.tables[t] && (unique.Some? ==> unique.value !in s.violated)))
    case DropTable(_) => true
    case DropConstraint(t, _) => t in s.tables
    case DropIndex(_) => true
    case AddUnique(t, name, columns, rule) =>
      HasNamed(s.constraints, name) || (t in s.tables && columns <= s.tables[t] && rule !in s.violated)
  }

  /** A dropped table takes its indexes with it. */
  function IndexesWithout(indexes: Indexes, ts: set<TableName>): Indexes {
    map i | i in indexes && indexes[i] !in ts :: indexes[i]
  }

  /** `CASCADE` drops every constraint on the table or referring to it. */
  function ConstraintsWithout(constraints: Constraints, ts: set<TableName>): Constraints {
    map key | key in constraints && key.table !in ts && constraints[key] !! ts :: constraints[key]
  }

  function Without(s: Schema, ts: set<TableName>): Schema {
    Schema(s.tables - ts, IndexesWithout(s.indexes, ts), ConstraintsWithout(s.constraints, ts), s.violated)
  }

  /** The effect of a statement that succeeds. */
  function Apply(s: Schema, d: Ddl): Schema {
    match d
    case AddColumn(t, c) => if t in s.tables then s.(tables := s.tables[t := s.tables[t] + {c}]) else s
    case CreateTable(t, columns, _) => if t in s.tables then s else s.(tables := s.tables[t := columns])
    case CreateIndex(i, t, _, _) => if i in s.indexes then s else s.(indexes := s.indexes[i := t])
    case DropTable(t) => if t in s.tables then Without(s, {t}) else s
    case DropConstraint(t, name) => s.(constraints := s.constraints - {ConstraintKey(t, name)})
    case DropIndex(i) => s.(indexes := s.indexes - {i})
    case AddUnique(t, name, _, _) =>
      if HasNamed(s.constraints, name) then s else s.(constraints := s.constraints[ConstraintKey(t, name) := {}])
  }

  // ------------------------------------------------------ statement lists

  ghost predicate RunsAll(s: Schema, list: seq<Ddl>)
    decreases |list|
  {
    list == [] || (Runs(s, list[0]) && RunsAll(Apply(s, list[0]), list[1..]))
  }

  ghost function ApplyAll(s: Schema, list: seq<Ddl>): Schema
    decreases |list|
  {
    if list == [] then s else ApplyAll(Apply(s, list[0]), list[1..])
  }

  lemma {:induction false} RunsAppended(s: Schema, front: seq<Ddl>, back: seq<Ddl>)
    ensures RunsAll(s, front + back) <==> RunsAll(s, front) && RunsAll(ApplyAll(s, front), back)
    ensures ApplyAll(s, front + back) == ApplyAll(ApplyAll(s, front), back)
    decreases |front|
  {
    if front == [] {
      assert front + back == back;
    } else {
      assert (front + back)[0] == front[0] && (front + back)[1..] == front[1..] + back;
      RunsAppended(Apply(s, front[0]), front[1..], back);
    }
  }

  lemma RunsFirst(s: Schema, d: Ddl, rest: seq<Ddl>)
    ensures RunsAll(s, [d] + rest) <==> Runs(s, d) && RunsAll(Apply(s, d), rest)
    ensures ApplyAll(s, [d] + rest) == ApplyAll(Apply(s, d), rest)
  {
  }

  // ----------------------------------------------------- the v37 list

  /** The column a base table gains. */
  function NewColumn(t: TableName): string {
    match t
    case AgentTemplates => "user_managed_export"
    case Organizations => "org_setup_complete"
    case Projects => "hidden"
    case AgentExecutions => "last_activity_at"
    case _ => ""
  }

  function AddColumns(ts: seq<TableName>): seq<Ddl> {
    if ts == [] then [] else [AddColumn(ts[0], NewColumn(ts[0]))] + AddColumns(ts[1..])
  }

  const ASSIGNMENT_COLUMNS := {"id", "product_id", "template_id", "is_active", "tenant_key", "created_at", "updated_at"}

  const NEW_TABLE := CreateTable(ProductAgentAssignments, ASSIGNMENT_COLUMNS, {Products, AgentTemplates})

  /** The columns an assignment index is on. */
  function IndexedBy(i: IndexName): set<string> {
    match i
    case UqProductTemplateAssignment => {"product_id", "template_id"}
    case IdxAssignmentTenant => {"tenant_key"}
    case IdxAssignmentProduct => {"product_id"}
    case IdxAssignmentTemplate => {"template_id"}
    case IdxAssignmentActive => {"is_active"}
    case _ => {}
  }

  function NewIndex(i: IndexName): Ddl {
    CreateIndex(i, ProductAgentAssignments, IndexedBy(i),
                if i.UqProductTemplateAssignment? then Some(AssignmentPairs) else None)
  }

  function CreateIndexes(names: seq<IndexName>): seq<Ddl> {
    if names == [] then [] else [NewIndex(names[0])] + CreateIndexes(names[1..])
  }

  function DropTables(ts: seq<TableName>): seq<Ddl> {
    if ts == [] then [] else [DropTable(ts[0])] + DropTables(ts[1..])
  }

  const BASE_TABLES := [AgentTemplates, Organizations, Projects, AgentExecutions]

  const ASSIGNMENT_INDEXES :=
    [UqProductTemplateAssignment, IdxAssignmentTenant, IdxAssignmentProduct, IdxAssignmentTemplate, IdxAssignmentActive]

  const ORPHANS := [DiscoveryConfig, GitConfigs, OptimizationRules, OptimizationMetrics]

  const CONSTRAINT_SWAP := [
    DropConstraint(AgentTemplates, UqTemplateProductNameVersion),
    DropIndex(IdxTemplateProduct),
    AddUnique(AgentTemplates, UqTemplateTenantNameVersion, {"tenant_key", "name", "version"}, TemplateNames)]

  /** The statements in order, from the new columns to the constraint swap. */
  const HEAL_STATEMENTS: seq<Ddl> :=
    AddColumns(BASE_TABLES)
    + ([NEW_TABLE] + (CreateIndexes(ASSIGNMENT_INDEXES) + (DropTables(ORPHANS) + CONSTRAINT_SWAP)))

  predicate IsBase(t: TableName) {
    t.AgentTemplates? || t.Organizations? || t.Projects? || t.AgentExecutions?
  }

  predicate IsAssignmentIndex(i: IndexName) {
    || i.UqProductTemplateAssignment? || i.IdxAssignmentTenant? || i.IdxAssignmentProduct? || i.IdxAssignmentTemplate?
    || i.IdxAssignmentActive?
  }

  predicate IsOrphan(t: TableName) {
    t.DiscoveryConfig? || t.GitConfigs? || t.OptimizationRules? || t.OptimizationMetrics?
  }

  const NEW_UNIQUE := ConstraintKey(AgentTemplates, UqTemplateTenantNameVersion)

  const OLD_UNIQUE := ConstraintKey(AgentTemplates, UqTemplateProductNameVersion)

  predicate HasColumn(s: Schema, t: TableName, column: string) {
    t in s.tables && column in s.tables[t]
  }

  predicate IsOn(s: Schema, i: IndexName, t: TableName) {
    i in s.indexes && s.indexes[i] == t
  }

  /** What baseline_v37 requires of the objects the heal is about. */
  predicate MeetsV37(s: Schema) {
    && HasColumn(s, AgentTemplates, "user_managed_export") && HasColumn(s, Organizations, "org_setup_complete")
    && HasColumn(s, Projects, "hidden") && HasColumn(s, AgentExecutions, "last_activity_at")
    && ProductAgentAssignments in s.tables
    && IsOn(s, UqProductTemplateAssignment, ProductAgentAssignments)
    && IsOn(s, IdxAssignmentTenant, ProductAgentAssignments)
    && IsOn(s, IdxAssignmentProduct, ProductAgentAssignments)
    && IsOn(s, IdxAssignmentTemplate, ProductAgentAssignments)
    && IsOn(s, IdxAssignmentActive, ProductAgentAssignments)
    && DiscoveryConfig !in s.tables && GitConfigs !in s.tables
    && OptimizationRules !in s.tables && OptimizationMetrics !in s.tables
    && ConstraintKey(AgentTemplates, UqTemplateProductNameVersion) !in s.constraints
    && IdxTemplateProduct !in s.indexes
    && ConstraintKey(AgentTemplates, UqTemplateTenantNameVersion) in s.constraints
  }

  /** The same, table by table and index by index. */
  lemma MeetsV37Iff(s: Schema)
    ensures MeetsV37(s) <==>
            && (forall t :: IsBase(t) ==> t in s.tables && NewColumn(t) in s.tables[t])
            && ProductAgentAssignments in s.tables
            && (forall i :: IsAssignmentIndex(i) ==> i in s.indexes && s.indexes[i] == ProductAgentAssignments)
            && (forall t :: t in s.tables ==> !IsOrphan(t))
            && OLD_UNIQUE !in s.constraints && IdxTemplateProduct !in s.indexes && NEW_UNIQUE in s.constraints
  {
    if forall t :: IsBase(t) ==> t in s.tables && NewColumn(t) in s.tables[t] {
      assert IsBase(AgentTemplates) && IsBase(Organizations) && IsBase(Projects) && IsBase(AgentExecutions);
    }
    if forall i :: IsAssignmentIndex(i) ==> i in s.indexes && s.indexes[i] == ProductAgentAssignments {
      assert IsAssignmentIndex(UqProductTemplateAssignment) && IsAssignmentIndex(IdxAssignmentTenant);
      assert IsAssignmentIndex(IdxAssignmentProduct) && IsAssignmentIndex(IdxAssignmentTemplate);
      assert IsAssignmentIndex(IdxAssignmentActive);
    }
    if forall t :: t in s.tables ==> !IsOrphan(t) {
      assert IsOrphan(DiscoveryConfig) && IsOrphan(GitConfigs);
      assert IsOrphan(OptimizationRules) && IsOrphan(OptimizationMetrics);
    }
  }

  // --------------------------------------------- what each part of it does

  function WithColumns(tables: Tables, ts: seq<TableName>): Tables {
    map t | t in tables :: if t in ts then tables[t] + {NewColumn(t)} else tables[t]
  }

  lemma {:induction false} AddsColumns(s: Schema, done: seq<TableName>, ts: seq<TableName>)
    ensures var m := s.(tables := WithColumns(s.tables, done));
            && (RunsAll(m, AddColumns(ts)) <==> forall t :: t in ts ==> t in s.tables)
            && ApplyAll(m, AddColumns(ts)) == s.(tables := WithColumns(s.tables, done + ts))
    decreases |ts|
  {
    var m := s.(tables := WithColumns(s.tables, done));
    if ts == [] {
      assert done + ts == done;
    } else {
      var d := AddColumn(ts[0], NewColumn(ts[0]));
      RunsFirst(m, d, AddColumns(ts[1..]));
      assert Apply(m, d).tables == WithColumns(s.tables, done + [ts[0]]);
      AddsColumns(s, done + [ts[0]], ts[1..]);
      assert done + [ts[0]] + ts[1..] == done + ts;
      assert ts == [ts[0]] + ts[1..];
    }
  }

  function WithIndexes(indexes: Indexes, names: seq<IndexName>): Indexes {
    map i | i in indexes.Keys + (set i | i in names) :: if i in indexes then indexes[i] else ProductAgentAssignments
  }

  /** The index is there, or the table's columns and rows allow it. */
  predicate IndexReady(i: IndexName, there: bool, columns: set<string>, violated: set<UniqueRule>) {
    there || (IndexedBy(i) <= columns && (i.UqProductTemplateAssignment? ==> AssignmentPairs !in violated))
  }

  lemma CreatesIndex(s: Schema, done: seq<IndexName>, i: IndexName)
    requires ProductAgentAssignments in s.tables && i !in done
    ensures var m := s.(indexes := WithIndexes(s.indexes, done));
            && (Runs(m, NewIndex(i)) <==> IndexReady(i, i in s.indexes, s.tables[ProductAgentAssignments], s.violated))
            && Apply(m, NewIndex(i)) == s.(indexes := WithIndexes(s.indexes, done + [i]))
  {
    var m := s.(indexes := WithIndexes(s.indexes, done));
    assert Apply(m, NewIndex(i)).indexes == WithIndexes(s.indexes, done + [i]);
  }

  predicate Distinct<T(==)>(xs: seq<T>) {
    forall j, k :: 0 <= j < k < |xs| ==> xs[j] != xs[k]
  }

  lemma NextIsNew<T>(done: seq<T>, rest: seq<T>)
    requires rest != [] && Distinct(done + rest)
    ensures rest[0] !in done && done + [rest[0]] + rest[1..] == done + rest
  {
    var all := done + rest;
    assert all[|done|] == rest[0] && forall j :: 0 <= j < |done| ==> done[j] == all[j];
  }

  lemma {:induction false} CreatesIndexes(s: Schema, done: seq<IndexName>, names: seq<IndexName>)
    requires ProductAgentAssignments in s.tables && Distinct(done + names)
    ensures var m, columns := s.(indexes := WithIndexes(s.indexes, done)), s.tables[ProductAgentAssignments];
            && (RunsAll(m, CreateIndexes(names)) <==>
              forall i :: i in names ==> IndexReady(i, i in s.indexes, columns, s.violated))
            && ApplyAll(m, CreateIndexes(names)) == s.(indexes := WithIndexes(s.indexes, done + names))
    decreases |names|
  {
    if names == [] {
      assert done + names == done;
    } else {
      var i := names[0];
      NextIsNew(done, names);
      CreatesIndex(s, done, i);
      RunsFirst(s.(indexes := WithIndexes(s.indexes, done)), NewIndex(i), CreateIndexes(names[1..]));
      CreatesIndexes(s, done + [i], names[1..]);
      assert names == [i] + names[1..];
    }
  }

  /** The tables of a list that are there to be dropped. */
  function Present(tables: Tables, ts: seq<TableName>): set<TableName> {
    set t | t in ts && t in tables
  }

  lemma DropsOneMore(s: Schema, gone: set<TableName>, t: TableName)
    requires t in s.tables && t !in gone
    ensures Without(Without(s, gone), {t}) == Without(s, gone + {t})
  {
  }

  lemma WithoutNone(s: Schema)
    ensures Without(s, {}) == s
  {
  }

  lemma {:induction false} DropsTables(s: Schema, done: seq<TableName>, ts: seq<TableName>)
    requires Distinct(done + ts)
    ensures var m := Without(s, Present(s.tables, done));
            && RunsAll(m, DropTables(ts)) && ApplyAll(m, DropTables(ts)) == Without(s, Present(s.tables, done + ts))
    decreases |ts|
  {
    var m := Without(s, Present(s.tables, done));
    if ts == [] {
      assert done + ts == done;
    } else {
      var t := ts[0];
      RunsFirst(m, DropTable(t), DropTables(ts[1..]));
      NextIsNew(done, ts);
      if t in s.tables {
        DropsOneMore(s, Present(s.tables, done), t);
        assert Present(s.tables, done + [t]) == Present(s.tables, done) + {t};
      } else {
        assert Present(s.tables, done + [t]) == Present(s.tables, done);
      }
      DropsTables(s, done + [t], ts[1..]);
    }
  }

  function SwapConstraint(constraints: Constraints): Constraints {
    var kept := constraints - {OLD_UNIQUE};
    if HasNamed(constraints, NEW_UNIQUE.name) then kept else kept[NEW_UNIQUE := {}]
  }

  /** The tenant-scoped constraint is there, or the template columns and rows allow it. */
  predicate TemplatesReady(constraints: Constraints, columns: set<string>, violated: set<UniqueRule>) {
    || HasNamed(constraints, NEW_UNIQUE.name)
    || ({"tenant_key", "name", "version"} <= columns && TemplateNames !in violated)
  }

  lemma SwapsConstraint(s: Schema)
    requires AgentTemplates in s.tables
    ensures RunsAll(s, CONSTRAINT_SWAP) <==> TemplatesReady(s.constraints, s.tables[AgentTemplates], s.violated)
    ensures ApplyAll(s, CONSTRAINT_SWAP)
            == s.(indexes := s.indexes - {IdxTemplateProduct}, constraints := SwapConstraint(s.constraints))
  {
    var d0, d1, d2 := CONSTRAINT_SWAP[0], CONSTRAINT_SWAP[1], CONSTRAINT_SWAP[2];
    var s1 := Apply(s, d0);
    var s2 := Apply(s1, d1);
    forall key | key in s.constraints && key.name == NEW_UNIQUE.name ensures key in s2.constraints {
    }
    RunsFirst(s2, d2, []);
    RunsFirst(s1, d1, [d2]);
    RunsFirst(s, d0, [d1, d2]);
    assert CONSTRAINT_SWAP == [d0] + [d1, d2] && [d1] + [d2] == [d1, d2] && [d2] + [] == [d2];
  }

  // ------------------------------------------------------- the whole list

  /** The columns the assignment table has once it exists. */
  function AssignmentColumns(tables: Tables): set<string> {
    if ProductAgentAssignments in tables then tables[ProductAgentAssignments] else ASSIGNMENT_COLUMNS
  }

  function WithTable(tables: Tables): Tables {
    tables[ProductAgentAssignments := AssignmentColumns(tables)]
  }

  predicate IndexesReady(indexes: set<IndexName>, columns: set<string>, violated: set<UniqueRule>) {
    forall i :: i in ASSIGNMENT_INDEXES ==> IndexReady(i, i in indexes, columns, violated)
  }

  /** The constraints that outlive the orphan tables. */
  function Survivors(s: Schema): Constraints {
    ConstraintsWithout(s.constraints, Present(s.tables, ORPHANS))
  }

  /**
   When the whole list runs: the base tables are present, the assignment table can be made or
   already has the columns its missing indexes need, and no row breaks a rule still to be added.
   */
  predicate Healable(s: Schema) {
    && (forall t :: t in BASE_TABLES ==> t in s.tables)
    && (ProductAgentAssignments in s.tables || Products in s.tables)
    && IndexesReady(s.indexes.Keys, AssignmentColumns(s.tables), s.violated)
    && AgentTemplates in s.tables && TemplatesReady(Survivors(s), s.tables[AgentTemplates], s.violated)
  }

  /** What healable comes to, on the named objects, their columns and the rules the rows break. */
  lemma HealableIff(s: Schema)
    ensures Healable(s) <==>
            && AgentTemplates in s.tables && Organizations in s.tables
            && Projects in s.tables && AgentExecutions in s.tables
            && (ProductAgentAssignments in s.tables || Products in s.tables)
            && (var columns := if ProductAgentAssignments in s.tables then s.tables[ProductAgentAssignments]
                  else {"id", "product_id", "template_id", "is_active", "tenant_key", "created_at", "updated_at"};
                && (UqProductTemplateAssignment in s.indexes
                    || ("product_id" in columns && "template_id" in columns && AssignmentPairs !in s.violated))
                && (IdxAssignmentTenant in s.indexes || "tenant_key" in columns)
                && (IdxAssignmentProduct in s.indexes || "product_id" in columns)
                && (IdxAssignmentTemplate in s.indexes || "template_id" in columns)
                && (IdxAssignmentActive in s.indexes || "is_active" in columns))
            && (var columns := s.tables[AgentTemplates];
                || HasNamed(Survivors(s), UqTemplateTenantNameVersion)
                || ("tenant_key" in columns && "name" in columns && "version" in columns
                    && TemplateNames !in s.violated))
  {
    assert AgentTemplates in BASE_TABLES && Organizations in BASE_TABLES;
    assert Projects in BASE_TABLES && AgentExecutions in BASE_TABLES;
    assert UqProductTemplateAssignment in ASSIGNMENT_INDEXES && IdxAssignmentTenant in ASSIGNMENT_INDEXES;
    assert IdxAssignmentProduct in ASSIGNMENT_INDEXES && IdxAssignmentTemplate in ASSIGNMENT_INDEXES;
    assert IdxAssignmentActive in ASSIGNMENT_INDEXES;
  }

  /** The schema the list leaves, in closed form. */
  function Healed(s: Schema): Schema {
    var gone := Present(s.tables, ORPHANS);
    Schema(
      WithTable(WithColumns(s.tables, BASE_TABLES)) - gone,
      IndexesWithout(WithIndexes(s.indexes, ASSIGNMENT_INDEXES), gone) - {IdxTemplateProduct},
      SwapConstraint(Survivors(s)),
      s.violated)
  }

  lemma NamesAreDistinct()
    ensures Distinct(ASSIGNMENT_INDEXES) && Distinct(ORPHANS)
  {
  }

  lemma SwapOnward(s: Schema)
    requires AgentTemplates in s.tables
    ensures RunsAll(s, DropTables(ORPHANS) + CONSTRAINT_SWAP)
            <==> TemplatesReady(Survivors(s), s.tables[AgentTemplates], s.violated)
    ensures var m := Without(s, Present(s.tables, ORPHANS));
            ApplyAll(s, DropTables(ORPHANS) + CONSTRAINT_SWAP)
            == m.(indexes := m.indexes - {IdxTemplateProduct}, constraints := SwapConstraint(m.constraints))
  {
    WithoutNone(s);
    assert Present(s.tables, []) == {} && [] + ORPHANS == ORPHANS;
    NamesAreDistinct();
    DropsTables(s, [], ORPHANS);
    RunsAppended(s, DropTables(ORPHANS), CONSTRAINT_SWAP);
    assert AgentTemplates !in ORPHANS;
    SwapsConstraint(Without(s, Present(s.tables, ORPHANS)));
  }

  lemma IndexesOnward(s: Schema)
    requires AgentTemplates in s.tables && ProductAgentAssignments in s.tables
    ensures var rest := DropTables(ORPHANS) + CONSTRAINT_SWAP;
            var m := s.(indexes := WithIndexes(s.indexes, ASSIGNMENT_INDEXES));
            && (RunsAll(s, CreateIndexes(ASSIGNMENT_INDEXES) + rest)
                <==> IndexesReady(s.indexes.Keys, s.tables[ProductAgentAssignments], s.violated) && RunsAll(m, rest))
            && ApplyAll(s, CreateIndexes(ASSIGNMENT_INDEXES) + rest) == ApplyAll(m, rest)
  {
    assert WithIndexes(s.indexes, []) == s.indexes && [] + ASSIGNMENT_INDEXES == ASSIGNMENT_INDEXES;
    NamesAreDistinct();
    CreatesIndexes(s, [], ASSIGNMENT_INDEXES);
    RunsAppended(s, CreateIndexes(ASSIGNMENT_INDEXES), DropTables(ORPHANS) + CONSTRAINT_SWAP);
  }

  lemma TableOnward(s: Schema, rest: seq<Ddl>)
    requires AgentTemplates in s.tables
    ensures var m := s.(tables := WithTable(s.tables));
            && (RunsAll(s, [NEW_TABLE] + rest)
                <==> (ProductAgentAssignments in s.tables || Products in s.tables) && RunsAll(m, rest))
            && ApplyAll(s, [NEW_TABLE] + rest) == ApplyAll(m, rest)
  {
    RunsFirst(s, NEW_TABLE, rest);
    assert Apply(s, NEW_TABLE).tables == WithTable(s.tables);
  }

  lemma ColumnsOnward(s: Schema, rest: seq<Ddl>)
    ensures var m := s.(tables := WithColumns(s.tables, BASE_TABLES));
            && (RunsAll(s, AddColumns(BASE_TABLES) + rest) <==>
              (forall t :: t in BASE_TABLES ==> t in s.tables) && RunsAll(m, rest))
            && ApplyAll(s, AddColumns(BASE_TABLES) + rest) == ApplyAll(m, rest)
  {
    assert WithColumns(s.tables, []) == s.tables && [] + BASE_TABLES == BASE_TABLES;
    AddsColumns(s, [], BASE_TABLES);
    RunsAppended(s, AddColumns(BASE_TABLES), rest);
  }

  lemma AddedColumnIsNotNeeded(columns: set<string>)
    ensures {"tenant_key", "name", "version"} <= columns + {NewColumn(AgentTemplates)} <==>
      {"tenant_key", "name", "version"} <= columns
  {
  }

  lemma NewTablesAreNoOrphans(tables: Tables)
    ensures Present(WithTable(WithColumns(tables, BASE_TABLES)), ORPHANS) == Present(tables, ORPHANS)
  {
  }

  /** The schema once everything new but the constraint is there. */
  function Built(s: Schema): Schema {
    Schema(WithTable(WithColumns(s.tables, BASE_TABLES)), WithIndexes(s.indexes, ASSIGNMENT_INDEXES), s.constraints,
      s.violated)
  }

  lemma HealRunsUpTo(s: Schema)
    requires AgentTemplates in s.tables
    ensures var m, rest := Built(s), DropTables(ORPHANS) + CONSTRAINT_SWAP;
            && (RunsAll(s, HEAL_STATEMENTS)
                <==> (forall t :: t in BASE_TABLES ==> t in s.tables)
                     && (ProductAgentAssignments in s.tables || Products in s.tables)
                     && IndexesReady(s.indexes.Keys, m.tables[ProductAgentAssignments], s.violated) && RunsAll(m, rest))
            && ApplyAll(s, HEAL_STATEMENTS) == ApplyAll(m, rest)
  {
    var rest := DropTables(ORPHANS) + CONSTRAINT_SWAP;
    ColumnsOnward(s, [NEW_TABLE] + (CreateIndexes(ASSIGNMENT_INDEXES) + rest));
    var s1 := s.(tables := WithColumns(s.tables, BASE_TABLES));
    TableOnward(s1, CreateIndexes(ASSIGNMENT_INDEXES) + rest);
    IndexesOnward(s1.(tables := WithTable(s1.tables)));
  }

  lemma BuiltColumns(s: Schema)
    requires AgentTemplates in s.tables
    ensures var m := Built(s);
            && m.tables[ProductAgentAssignments] == AssignmentColumns(s.tables)
            && m.tables[AgentTemplates] == s.tables[AgentTemplates] + {NewColumn(AgentTemplates)}
  {
  }

  /** The heal list runs to its end exactly on the healable schemas, and then leaves the closed form. */
  lemma HealRunsIff(s: Schema)
    ensures RunsAll(s, HEAL_STATEMENTS) <==> Healable(s)
    ensures Healable(s) ==> ApplyAll(s, HEAL_STATEMENTS) == Healed(s)
  {
    var rest := DropTables(ORPHANS) + CONSTRAINT_SWAP;
    if AgentTemplates in s.tables {
      HealRunsUpTo(s);
      BuiltColumns(s);
      SwapOnward(Built(s));
      NewTablesAreNoOrphans(s.tables);
      AddedColumnIsNotNeeded(s.tables[AgentTemplates]);
    } else {
      ColumnsOnward(s, [NEW_TABLE] + (CreateIndexes(ASSIGNMENT_INDEXES) + rest));
      assert AgentTemplates in BASE_TABLES;
    }
  }

  // ------------------------------------------------------ the transaction

  /**
   The heal as one PostgreSQL transaction: after a statement fails every later one fails
   too and the commit rolls back, so either the whole list takes effect or nothing does.
   */
  ghost function Heal(s: Schema): Schema {
    if RunsAll(s, HEAL_STATEMENTS) then ApplyAll(s, HEAL_STATEMENTS) else s
  }

  lemma NamesListed(t: TableName, i: IndexName)
    ensures t in BASE_TABLES <==> IsBase(t)
    ensures t in ORPHANS <==> IsOrphan(t)
    ensures i in ASSIGNMENT_INDEXES <==> IsAssignmentIndex(i)
  {
  }

  lemma HealedTables(s: Schema)
    ensures var n := Healed(s).tables;
            && (forall t :: t in n <==> (t in s.tables || t == ProductAgentAssignments) && !IsOrphan(t))
            && (forall t :: t in n && t != ProductAgentAssignments ==>
              n[t] == if IsBase(t) then s.tables[t] + {NewColumn(t)} else s.tables[t])
            && (ProductAgentAssignments in n && n[ProductAgentAssignments] == AssignmentColumns(s.tables))
  {
    forall t ensures (t in BASE_TABLES <==> IsBase(t)) && (t in ORPHANS <==> IsOrphan(t)) {
      NamesListed(t, IdxTemplateProduct);
    }
  }

  /** An index whose table the heal drops. */
  predicate Falls(s: Schema, i: IndexName) {
    i in s.indexes && IsOrphan(s.indexes[i]) && s.indexes[i] in s.tables
  }

  lemma IndexAfter(indexes: Indexes, names: seq<IndexName>, gone: set<TableName>, i: IndexName)
    requires ProductAgentAssignments !in gone
    ensures var n := IndexesWithout(WithIndexes(indexes, names), gone) - {IdxTemplateProduct};
            && (i in n <==> i != IdxTemplateProduct && (if i in indexes then indexes[i] !in gone else i in names))
            && (i in n ==> n[i] == if i in indexes then indexes[i] else ProductAgentAssignments)
  {
  }

  lemma HealedIndex(s: Schema, i: IndexName)
    ensures var n := Healed(s).indexes;
            && (i in n <==> i != IdxTemplateProduct && (i in s.indexes || IsAssignmentIndex(i)) && !Falls(s, i))
            && (i in n ==> n[i] == if i in s.indexes then s.indexes[i] else ProductAgentAssignments)
  {
    NamesListed(ProductAgentAssignments, i);
    if i in s.indexes {
      NamesListed(s.indexes[i], i);
    }
    IndexAfter(s.indexes, ASSIGNMENT_INDEXES, Present(s.tables, ORPHANS), i);
  }

  /** The constraint is on an orphan table, or refers to one. */
  predicate Hangs(s: Schema, key: ConstraintKey)
    requires key in s.constraints
  {
    exists t :: t in s.tables && IsOrphan(t) && (key.table == t || t in s.constraints[key])
  }

  lemma SurvivorsHang(s: Schema)
    ensures forall key :: key in Survivors(s) <==> key in s.constraints && !Hangs(s, key)
  {
  }

  /** The names the heal gives are borne, if at all, by the objects meant. */
  predicate Placed(s: Schema) {
    && (forall i :: IsAssignmentIndex(i) && i in s.indexes ==> s.indexes[i] == ProductAgentAssignments)
    && (HasNamed(Survivors(s), NEW_UNIQUE.name) ==> NEW_UNIQUE in Survivors(s))
  }

  lemma HealedIndexMeetsIff(s: Schema, i: IndexName)
    requires IsAssignmentIndex(i)
    ensures var n := Healed(s).indexes;
            i in n && n[i] == ProductAgentAssignments <==> (i in s.indexes ==> s.indexes[i] == ProductAgentAssignments)
  {
    HealedIndex(s, i);
  }

  lemma HealedMeetsIff(s: Schema)
    requires forall t :: IsBase(t) ==> t in s.tables
    ensures MeetsV37(Healed(s)) <==> Placed(s)
  {
    MeetsV37Iff(Healed(s));
    HealedTables(s);
    HealedIndex(s, IdxTemplateProduct);
    forall i | IsAssignmentIndex(i)
      ensures i in Healed(s).indexes && Healed(s).indexes[i] == ProductAgentAssignments
              <==> (i in s.indexes ==> s.indexes[i] == ProductAgentAssignments)
    {
      HealedIndexMeetsIff(s, i);
    }
  }

  lemma MetIsHealable(s: Schema)
    requires MeetsV37(s)
    ensures Healable(s)
  {
    MeetsV37Iff(s);
  }

  /**
   Whatever the schema, the heal reaches the v37 requirements if and only if the list runs and
   no name it gives is borne by another object; and when the list does not run nothing changes.
   */
  lemma HealReachesV37Iff(s: Schema)
    ensures MeetsV37(Heal(s)) <==> Healable(s) && Placed(s)
    ensures !Healable(s) ==> Heal(s) == s
  {
    HealRunsIff(s);
    if Healable(s) {
      forall t | IsBase(t) ensures t in s.tables {
        NamesListed(t, IdxTemplateProduct);
      }
      HealedMeetsIff(s);
    } else if MeetsV37(s) {
      MetIsHealable(s);
    }
  }

  /** The tables the list leaves, and the columns of each, old and gained. */
  lemma HealedGains(s: Schema, t: TableName)
    ensures var n := Healed(s).tables;
            && (t in n <==> (t in s.tables || t == ProductAgentAssignments)
                            && t !in {DiscoveryConfig, GitConfigs, OptimizationRules, OptimizationMetrics})
            && (t in n ==> n[t] == match t
                  case AgentTemplates => s.tables[t] + {"user_managed_export"}
                  case Organizations => s.tables[t] + {"org_setup_complete"}
                  case Projects => s.tables[t] + {"hidden"}
                  case AgentExecutions => s.tables[t] + {"last_activity_at"}
                  case ProductAgentAssignments =>
                    if t in s.tables then s.tables[t]
                    else {"id", "product_id", "template_id", "is_active", "tenant_key", "created_at", "updated_at"}
                  case _ => s.tables[t])
  {
    HealedTables(s);
  }

  /** The assignment indexes that are found present and then dropped with the orphan table they are on. */
  function Lost(s: Schema): set<IndexName> {
    set i | i in s.indexes && IsAssignmentIndex(i) && Falls(s, i)
  }

  /** The heal drops some assignment index that the next heal can make. */
  predicate LeavesWork(s: Schema) {
    Healable(s) && Lost(s) != {} && IndexesReady(s.indexes.Keys - Lost(s), AssignmentColumns(s.tables), s.violated)
  }

  lemma HealedConstraintsStay(s: Schema)
    ensures var n := Healed(s); HasNamed(n.constraints, NEW_UNIQUE.name) && Survivors(n) == n.constraints
    ensures Healed(Healed(s)).constraints == Healed(s).constraints
  {
    var n := Healed(s);
    HealedTables(s);
    SurvivorsHang(n);
    assert Survivors(n) == n.constraints;
    if HasNamed(Survivors(s), NEW_UNIQUE.name) {
      var key :| key in Survivors(s) && key.name == NEW_UNIQUE.name;
      assert key in n.constraints;
    } else {
      assert NEW_UNIQUE in n.constraints;
    }
    assert OLD_UNIQUE !in n.constraints;
    assert n.constraints - {OLD_UNIQUE} == n.constraints;
  }

  lemma HealedTablesStay(s: Schema)
    ensures Healed(Healed(s)).tables == Healed(s).tables
  {
    HealedTables(s);
    HealedTables(Healed(s));
  }

  lemma NothingFalls(s: Schema, i: IndexName)
    ensures !Falls(Healed(s), i)
  {
  }

  lemma HealedIndexAgain(s: Schema, i: IndexName)
    ensures var n, again := Healed(s).indexes, Healed(Healed(s)).indexes;
            (i in again <==> i in n || i in Lost(s)) && (i in n ==> again[i] == n[i])
  {
    HealedIndex(s, i);
    HealedIndex(Healed(s), i);
    NothingFalls(s, i);
  }

  lemma GrowsBy(n: Indexes, again: Indexes, lost: set<IndexName>)
    requires forall i ::
      (i in again <==> i in n || i in lost) && (i in n ==> again[i] == n[i]) && (i in lost ==> i !in n)
    ensures again == n <==> lost == {}
  {
  }

  lemma HealedIndexesStayIff(s: Schema)
    ensures Healed(Healed(s)).indexes == Healed(s).indexes <==> Lost(s) == {}
  {
    var n, again := Healed(s).indexes, Healed(Healed(s)).indexes;
    forall i
      ensures (i in again <==> i in n || i in Lost(s)) && (i in n ==> again[i] == n[i]) && (i in Lost(s) ==> i !in n)
    {
      HealedIndexAgain(s, i);
      HealedIndex(s, i);
    }
    GrowsBy(n, again, Lost(s));
  }

  lemma IndexesReadyAgainIff(s: Schema)
    requires IndexesReady(s.indexes.Keys, AssignmentColumns(s.tables), s.violated)
    ensures IndexesReady(Healed(s).indexes.Keys, AssignmentColumns(s.tables), s.violated)
            <==> IndexesReady(s.indexes.Keys - Lost(s), AssignmentColumns(s.tables), s.violated)
  {
    var n, columns := Healed(s), AssignmentColumns(s.tables);
    forall i | i in ASSIGNMENT_INDEXES
      ensures IndexReady(i, i in n.indexes.Keys, columns, s.violated)
              <==> IndexReady(i, i in s.indexes.Keys - Lost(s), columns, s.violated)
    {
      NamesListed(AgentTemplates, i);
      HealedIndex(s, i);
      assert IndexReady(i, i in s.indexes.Keys, columns, s.violated);
    }
  }

  lemma HealableAgainIff(s: Schema)
    requires Healable(s)
    ensures Healable(Healed(s)) <==> IndexesReady(s.indexes.Keys - Lost(s), AssignmentColumns(s.tables), s.violated)
  {
    var n := Healed(s);
    IndexesReadyAgainIff(s);
    HealedTables(s);
    HealedConstraintsStay(s);
    forall t | t in BASE_TABLES ensures t in n.tables {
      NamesListed(t, IdxTemplateProduct);
    }
    assert AgentTemplates in BASE_TABLES;
  }

  /**
   Healing twice is healing once, except where an orphan table bears the name of an assignment index that
   can be made.
   */
  lemma HealIsIdempotentIff(s: Schema)
    ensures Heal(Heal(s)) == Heal(s) <==> !LeavesWork(s)
  {
    HealRunsIff(s);
    if Healable(s) {
      HealRunsIff(Healed(s));
      HealableAgainIff(s);
      HealedTablesStay(s);
      HealedIndexesStayIff(s);
      HealedConstraintsStay(s);
    }
  }

  /** The exception is real: an orphan table whose own index has the name of one of the assignment indexes. */
  lemma OrphanBearsTheName()
    ensures var s := Schema(
              map[AgentTemplates := {"tenant_key", "name", "version"}, Organizations := {}, Projects := {},
                AgentExecutions := {},
                  Products := {}, DiscoveryConfig := {}],
              map[IdxAssignmentTenant := DiscoveryConfig], map[], {});
            && Healable(s) && Heal(Heal(s)) != Heal(s)
            && IdxAssignmentTenant !in Heal(s).indexes && !MeetsV37(Heal(s))
  {
    var tables: Tables := map[AgentTemplates := {"tenant_key", "name", "version"}, Organizations := {}, Projects := {},
                              AgentExecutions := {}, Products := {}, DiscoveryConfig := {}];
    var s := Schema(tables, map[IdxAssignmentTenant := DiscoveryConfig], map[], {});
    assert AssignmentColumns(s.tables) == ASSIGNMENT_COLUMNS;
    forall i | i in ASSIGNMENT_INDEXES ensures IndexedBy(i) <= ASSIGNMENT_COLUMNS {
    }
    assert Falls(s, IdxAssignmentTenant) && IdxAssignmentTenant in Lost(s);
    assert LeavesWork(s);
    HealIsIdempotentIff(s);
    HealRunsIff(s);
    HealReachesV37Iff(s);
    HealedIndex(s, IdxAssignmentTenant);
  }

  // ------------------------------------------------------------- the frame

  /** The base tables have gained their column, the orphan ones are gone, and no other table has changed. */
  ghost predicate TablesOnlyNamed(s: Schema, n: Schema) {
    && (forall t :: t != ProductAgentAssignments ==> (t in n.tables <==> t in s.tables && !IsOrphan(t)))
    && (forall t :: t in s.tables && t in n.tables ==>
      n.tables[t] == if IsBase(t) then s.tables[t] + {NewColumn(t)} else s.tables[t])
  }

  /** No other index is made, and none goes but with its orphan table. */
  ghost predicate IndexesOnlyNamed(s: Schema, n: Schema) {
    && (forall i :: !IsAssignmentIndex(i) && i != IdxTemplateProduct ==>
      (i in n.indexes <==> i in s.indexes && !Falls(s, i)))
    && (forall i :: i in s.indexes && i in n.indexes ==> n.indexes[i] == s.indexes[i])
  }

  /** No other constraint is made, and none goes but with an orphan table it hangs on. */
  ghost predicate ConstraintsOnlyNamed(s: Schema, n: Schema) {
    && (forall key :: key != OLD_UNIQUE && key != NEW_UNIQUE ==>
      (key in n.constraints <==> key in s.constraints && !Hangs(s, key)))
    && (forall key :: key in s.constraints && key in n.constraints && key != NEW_UNIQUE ==>
      n.constraints[key] == s.constraints[key])
  }

  lemma HealedConstraintsOnlyNamed(s: Schema)
    ensures ConstraintsOnlyNamed(s, Healed(s))
  {
    SurvivorsHang(s);
    assert forall key :: key in Survivors(s) ==> Survivors(s)[key] == s.constraints[key];
  }

  lemma HealedTablesOnlyNamed(s: Schema)
    ensures TablesOnlyNamed(s, Healed(s))
  {
    HealedTables(s);
  }

  lemma HealedIndexesOnlyNamed(s: Schema)
    ensures IndexesOnlyNamed(s, Healed(s))
  {
    forall i ensures var n := Healed(s).indexes;
                     && (i in n <==>
                       i != IdxTemplateProduct && (i in s.indexes || IsAssignmentIndex(i)) && !Falls(s, i))
                     && (i in n && i in s.indexes ==> n[i] == s.indexes[i]) {
      HealedIndex(s, i);
    }
  }

  /** Whatever the schema, the heal touches nothing outside the objects it names. */
  lemma HealOnlyTouchesNamed(s: Schema)
    ensures Heal(s) == s
      || (TablesOnlyNamed(s, Heal(s)) && IndexesOnlyNamed(s, Heal(s)) && ConstraintsOnlyNamed(s, Heal(s)))
    ensures Heal(s).violated == s.violated
  {
    HealRunsIff(s);
    if Healable(s) {
      HealedTablesOnlyNamed(s);
      HealedIndexesOnlyNamed(s);
      HealedConstraintsOnlyNamed(s);
    }
  }
}
