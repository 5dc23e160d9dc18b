/**
 * `IgniteAutoConfig`: the oldest revision. Its state is static: the last
 * `JdbcType` and `QueryEntity` built, and the two flags, which are shared by
 * every call for the life of the class. It builds no `TableDTO` and uses the
 * table name as declared, without upper-casing it.
 */
module IgniteAutoConfig {
  import opened JavaLang
  import opened Collections
  import opened Ignite
  import opened Annotations
  import opened Mapping
  import ProcessAnnotations

  /** The static fields: what the two getters return (null as `None`) and the flags. */
  datatype AutoConfig = AutoConfig(jdbcType: Option<JdbcType>, entity: Option<QueryEntity>, flags: Flags)

  /** The static fields when the class is loaded. */
  const Initial := AutoConfig(None, None, Unset)

  /** `fillTableSchema`: the field loop under the Ignite markers, feeding the projections only. */
  function FillTableSchema(flags: Flags, fs: seq<FieldDecl>): Scan<Projection>
  {
    FieldLoop(flags, EmptyProjection, fs, IgniteVocabulary, Project)
  }

  lemma {:induction false} EmittedProject(p: Projection, cols: seq<Dto.ColumnDTO>)
    ensures Emitted(Project, p, cols) == ProjectAll(p, cols)
    decreases |cols|
  {
    if |cols| > 0 {
      EmittedProject(Project(p, cols[0]), cols[1..]);
    }
  }

  /**
   * The loop throws exactly on a key field met before any column marker,
   * having projected nothing; otherwise it projects the marked fields'
   * columns in declaration order.
   */
  lemma FillTableSchemaSpec(flags: Flags, fs: seq<FieldDecl>)
    ensures var r := FillTableSchema(flags, fs);
            && (r.threw <==> ThrowsMidLoop(flags, fs, IgniteVocabulary))
            && (r.threw ==> r.acc == EmptyProjection && r.flags == Flags(true, false))
            && (!r.threw ==>
                  r.flags == ScannedFlags(flags, fs, IgniteVocabulary)
                  && r.acc == ProjectAll(EmptyProjection, MarkedColumns(fs, IgniteVocabulary)))
  {
    FieldLoopSpec(flags, EmptyProjection, fs, IgniteVocabulary, Project);
    EmittedProject(EmptyProjection, MarkedColumns(fs, IgniteVocabulary));
  }

  /** The database table: the annotation's name, or the simple class name when it is "", as written. */
  function DatabaseTable(c: ClassDecl, ann: TableAnnotation): (n: string)
    ensures ann.name != "" ==> n == ann.name
    ensures ann.name == "" ==> n == c.tag.simpleName
  {
    if ann.name == "" then c.tag.simpleName else ann.name
  }

  /**
   * `loadConfiguration`. Without `@IgniteTable` the static state is left
   * alone. With it, fresh `JdbcType` and `QueryEntity` objects replace the
   * old ones before the field loop runs, so they are visible through the
   * getters even when the call throws.
   */
  function LoadConfiguration(s: AutoConfig, c: ClassDecl): (r: (AutoConfig, Outcome<SchemaError>))
    ensures c.table.None? ==> r == (s, Pass)
    ensures c.table.Some? ==>
              && r.0.jdbcType.Some? && r.0.entity.Some?
              && r.0.jdbcType.value.cacheName == c.table.value.cacheName
              && r.0.jdbcType.value.databaseTable == DatabaseTable(c, c.table.value)
              && r.0.jdbcType.value.valueType == c.tag
              && r.0.entity.value.valueType == c.tag.canonicalName
  {
    match c.table
    case None => (s, Pass)
    case Some(ann) =>
      var scan := FillTableSchema(s.flags, c.fields);
      var proj := scan.acc;
      var done := !scan.threw;
      var jdbc := JdbcType(
        ann.cacheName, c.tag, DatabaseTable(c, ann), proj.jdbcKeyType,
        if done then Some(ToArray(proj.jdbcKeys, |proj.jdbcKeys|)) else None,
        if done then Some(ToArray(proj.jdbcValues, |proj.jdbcKeys|)) else None);
      var entity := QueryEntity(
        c.tag.canonicalName, proj.entityKeyType, proj.entityKeyFieldName,
        if done then Some(proj.entityKeys) else None,
        if done then Some(proj.entityFields) else None);
      var next := AutoConfig(Some(jdbc), Some(entity), scan.flags);
      if scan.threw then (next, Fail(IdWithoutColumn))
      else if !scan.flags.idDeclared || !scan.flags.columnDeclared then (next, Fail(MissingIdOrColumn))
      else (next, Pass)
  }

  /**
   * This revision computes what `ProcessAnnotations.loadData` computes from
   * the same flags: the same outcome, the same flags afterwards, the same
   * `QueryEntity`, and the same `JdbcType` except for the table name, which
   * is not upper-cased here. So the key/value partition, the value array
   * sized by the key count, the sorted key set and the field map proved
   * there hold here too.
   */
  lemma AgreesWithProcessAnnotations(s: AutoConfig, p: ProcessAnnotations.Processor, c: ClassDecl)
    requires s.flags == p.flags && c.table.Some?
    ensures var r := LoadConfiguration(s, c);
            var q := ProcessAnnotations.LoadData(p, c);
            && r.1 == q.1
            && r.0.flags == q.0.flags
            && r.0.entity == q.0.entity
            && r.0.jdbcType.value == q.0.jdbcType.value.(databaseTable := DatabaseTable(c, c.table.value))
  {
    FillTableSchemaSpec(s.flags, c.fields);
    ProcessAnnotations.CreateTableSchemaSpec(p.flags, c.fields);
  }

  /**
   * With `@IgniteTable` the getters show only the class just processed: the
   * result depends on the earlier state through its flags alone.
   */
  lemma GettersShowLastClass(s1: AutoConfig, s2: AutoConfig, c: ClassDecl)
    requires s1.flags == s2.flags && c.table.Some?
    ensures LoadConfiguration(s1, c) == LoadConfiguration(s2, c)
  {
  }

  /** The static flags are only ever set. */
  lemma LoadConfigurationKeepsFlags(s: AutoConfig, c: ClassDecl)
    ensures var after := LoadConfiguration(s, c).0.flags;
            && (s.flags.idDeclared ==> after.idDeclared)
            && (s.flags.columnDeclared ==> after.columnDeclared)
  {
    if c.table.Some? {
      FillTableSchemaSpec(s.flags, c.fields);
    }
  }

  /** Once any column marker has been seen, the id-without-column check never fires again. */
  lemma NoIdWithoutColumnAfterColumn(s: AutoConfig, c: ClassDecl)
    requires s.flags.columnDeclared
    ensures LoadConfiguration(s, c).1 != Fail(IdWithoutColumn)
    ensures LoadConfiguration(s, c).0.flags.columnDeclared
  {
    if c.table.Some? {
      NoThrowAfterColumn(s.flags, c.fields, IgniteVocabulary);
      FillTableSchemaSpec(s.flags, c.fields);
    }
  }

  /** Once any class with `@IgniteTable` has passed, no later class fails either check. */
  lemma PassIsPermanent(s: AutoConfig, c1: ClassDecl, c2: ClassDecl)
    requires c1.table.Some? && LoadConfiguration(s, c1).1 == Pass
    ensures LoadConfiguration(s, c1).0.flags == Flags(true, true)
    ensures LoadConfiguration(LoadConfiguration(s, c1).0, c2).1 == Pass
  {
    var t := LoadConfiguration(s, c1).0;
    FillTableSchemaSpec(s.flags, c1.fields);
    if c2.table.Some? {
      NoThrowAfterColumn(t.flags, c2.fields, IgniteVocabulary);
      FillTableSchemaSpec(t.flags, c2.fields);
    }
  }

  /** `getSQLType` is total: every class gets one of the five codes, VARCHAR by default. */
  lemma SqlTypeTotal(t: ClassTag)
    ensures SqlType(t) in {BIGINT, INTEGER, DOUBLE, VARCHAR, TIMESTAMP}
    ensures t.name == "java.lang.String" ==> SqlType(t) == VARCHAR
  {
  }
}
