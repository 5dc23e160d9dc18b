/**
 * `ProcessAnnotations`: the instance revision of the extractor. For a class
 * carrying `@IgniteTable` it builds a `TableDTO` and, from the same field
 * loop, a `JdbcType` (key/value binding) and a `QueryEntity` (query schema).
 * Only the Ignite markers count. The validation flags are instance fields:
 * a second `loadData` on the same object starts from the flags the first
 * one left.
 */
module ProcessAnnotations {
  import opened JavaLang
  import opened Collections
  import opened Dto
  import opened Ignite
  import opened Annotations
  import opened Mapping

  /**
   * An extractor object: what its four getters return (null as `None`)
   * and its two flags.
   */
  datatype Processor = Processor(
    cacheName: Option<string>,
    tableData: Option<TableDTO>,
    jdbcType: Option<JdbcType>,
    entity: Option<QueryEntity>,
    flags: Flags)

  /** `new ProcessAnnotations()`. */
  const NewProcessor := Processor(None, None, None, None, Unset)

  /** What the field loop builds: the column list and the two projections. */
  datatype Built = Built(columns: seq<ColumnDTO>, proj: Projection)

  /** One column's bookkeeping: `columns.add`, plus the key/value and entity updates. */
  function Record(b: Built, c: ColumnDTO): Built
  {
    Built(b.columns + [c], Project(b.proj, c))
  }

  /** `createTableSchema`: the field loop under the Ignite markers, from empty lists. */
  function CreateTableSchema(flags: Flags, fs: seq<FieldDecl>): Scan<Built>
  {
    FieldLoop(flags, Built([], EmptyProjection), fs, IgniteVocabulary, Record)
  }

  /** Recording columns one by one collects them in order and projects them in order. */
  lemma {:induction false} EmittedRecord(b: Built, cols: seq<ColumnDTO>)
    ensures Emitted(Record, b, cols) == Built(b.columns + cols, ProjectAll(b.proj, cols))
    decreases |cols|
  {
    if |cols| > 0 {
      EmittedRecord(Record(b, cols[0]), cols[1..]);
      ConcatAssoc(b.columns, [cols[0]], cols[1..]);
      assert [cols[0]] + cols[1..] == cols;
    }
  }

  /**
   * The loop throws exactly on a key field met before any column marker,
   * having then built nothing; otherwise the columns are the marked fields'
   * columns in declaration order and the projections are theirs.
   */
  lemma CreateTableSchemaSpec(flags: Flags, fs: seq<FieldDecl>)
    ensures var r := CreateTableSchema(flags, fs);
            && (r.threw <==> ThrowsMidLoop(flags, fs, IgniteVocabulary))
            && (r.threw ==> r.acc == Built([], EmptyProjection) && r.flags == Flags(true, false))
            && (!r.threw ==>
                  && r.flags == ScannedFlags(flags, fs, IgniteVocabulary)
                  && r.acc.columns == MarkedColumns(fs, IgniteVocabulary)
                  && r.acc.proj == ProjectAll(EmptyProjection, MarkedColumns(fs, IgniteVocabulary)))
  {
    FieldLoopSpec(flags, Built([], EmptyProjection), fs, IgniteVocabulary, Record);
    EmittedRecord(Built([], EmptyProjection), MarkedColumns(fs, IgniteVocabulary));
  }

  /**
   * `loadData`. Without `@IgniteTable` nothing happens. With it, the three
   * objects are built and installed even when the call then throws: a
   * mid-loop throw leaves the columns and the key/value and entity
   * collections unset; the final check throws after everything is set.
   */
  function LoadData(p: Processor, c: ClassDecl): (r: (Processor, Outcome<SchemaError>))
    ensures c.table.None? ==> r == (p, Pass)
    ensures c.table.Some? ==>
              var ann := c.table.value;
              && r.0.cacheName == Some(ann.cacheName)
              && r.0.tableData.Some? && r.0.jdbcType.Some? && r.0.entity.Some?
              && r.0.tableData.value.cacheName == ann.cacheName == r.0.jdbcType.value.cacheName
              && r.0.tableData.value.tableName == TableName(c, ann) == r.0.jdbcType.value.databaseTable
              && r.0.tableData.value.tableType == c.tag == r.0.jdbcType.value.valueType
              && r.0.entity.value.valueType == c.tag.canonicalName
  {
    match c.table
    case None => (p, Pass)
    case Some(ann) =>
      var tableName := TableName(c, ann);
      var scan := CreateTableSchema(p.flags, c.fields);
      var proj := scan.acc.proj;
      var done := !scan.threw;
      var table := TableDTO(tableName, ann.cacheName, c.tag, if done then Some(scan.acc.columns) else None);
      var jdbc := JdbcType(
        ann.cacheName, c.tag, tableName, proj.jdbcKeyType,
        if done then Some(ToArray(proj.jdbcKeys, |proj.jdbcKeys|)) else None,
        if done then Some(ToArray(proj.jdbcValues, |proj.jdbcKeys|)) else None);
      var entity := QueryEntity(
        c.tag.canonicalName, proj.entityKeyType, proj.entityKeyFieldName,
        if done then Some(proj.entityKeys) else None,
        if done then Some(proj.entityFields) else None);
      var next := Processor(Some(ann.cacheName), Some(table), Some(jdbc), Some(entity), scan.flags);
      if scan.threw then (next, Fail(IdWithoutColumn))
      else if !scan.flags.idDeclared || !scan.flags.columnDeclared then (next, Fail(MissingIdOrColumn))
      else (next, Pass)
  }

  /**
   * How a call with `@IgniteTable` ends: the mid-loop throw exactly when a
   * key field comes before every column marker (this call's and earlier
   * calls'); otherwise the final check throws exactly when no key marker
   * or no column marker has been seen, on this call or an earlier one.
   */
  lemma LoadDataOutcome(p: Processor, c: ClassDecl)
    requires c.table.Some?
    ensures var r := LoadData(p, c);
            var seen := ScannedFlags(p.flags, c.fields, IgniteVocabulary);
            && (r.1 == Fail(IdWithoutColumn) <==> ThrowsMidLoop(p.flags, c.fields, IgniteVocabulary))
            && (r.1 == Fail(MissingIdOrColumn) <==>
                  !ThrowsMidLoop(p.flags, c.fields, IgniteVocabulary) && !(seen.idDeclared && seen.columnDeclared))
            && (r.1 == Pass <==>
                  !ThrowsMidLoop(p.flags, c.fields, IgniteVocabulary) && seen.idDeclared && seen.columnDeclared)
  {
    CreateTableSchemaSpec(p.flags, c.fields);
  }

  /** After a mid-loop throw the objects exist but hold no columns, keys, values or fields. */
  lemma LoadDataThrowLeavesSchemaUnset(p: Processor, c: ClassDecl)
    requires c.table.Some? && ThrowsMidLoop(p.flags, c.fields, IgniteVocabulary)
    ensures var r := LoadData(p, c);
            && r.1 == Fail(IdWithoutColumn)
            && r.0.flags == Flags(true, false)
            && r.0.tableData.value.columns == None
            && r.0.jdbcType.value.keyType == None
            && r.0.jdbcType.value.keyFields == None && r.0.jdbcType.value.valueFields == None
            && r.0.entity.value.keyType == None && r.0.entity.value.keyFieldName == None
            && r.0.entity.value.keyFields == None && r.0.entity.value.fields == None
  {
    CreateTableSchemaSpec(p.flags, c.fields);
  }

  /**
   * Without a mid-loop throw (whether or not the final check then throws)
   * the table's columns are the `@IgniteColumn` fields' columns, in
   * declaration order.
   */
  lemma LoadDataColumns(p: Processor, c: ClassDecl)
    requires c.table.Some? && !ThrowsMidLoop(p.flags, c.fields, IgniteVocabulary)
    ensures LoadData(p, c).0.tableData.value.columns == Some(MarkedColumns(c.fields, IgniteVocabulary))
  {
    CreateTableSchemaSpec(p.flags, c.fields);
  }

  /**
   * The `JdbcType` without a mid-loop throw: the key array holds exactly the
   * key columns' fields; the value array, allocated with the key count,
   * holds the other columns' fields followed by null padding up to
   * max(#keys, #values); the key type is the last key column's type.
   */
  lemma LoadDataJdbcType(p: Processor, c: ClassDecl)
    requires c.table.Some? && !ThrowsMidLoop(p.flags, c.fields, IgniteVocabulary)
    ensures var cols := MarkedColumns(c.fields, IgniteVocabulary);
            var keys := KeyFields(cols);
            var values := ValueFields(cols);
            var jdbc := LoadData(p, c).0.jdbcType.value;
            && jdbc.keyFields.Some? && jdbc.valueFields.Some?
            && |jdbc.keyFields.value| == |keys|
            && (forall i :: 0 <= i < |keys| ==> jdbc.keyFields.value[i] == Some(keys[i]))
            && |jdbc.valueFields.value| == Max(|keys|, |values|)
            && (forall i :: 0 <= i < |values| ==> jdbc.valueFields.value[i] == Some(values[i]))
            && (forall i :: |values| <= i < |jdbc.valueFields.value| ==> jdbc.valueFields.value[i] == None)
            && jdbc.keyType == (if LastKey(cols).Some? then Some(LastKey(cols).value.fieldType) else None)
  {
    var cols := MarkedColumns(c.fields, IgniteVocabulary);
    var keys := KeyFields(cols);
    var values := ValueFields(cols);
    var scan := CreateTableSchema(p.flags, c.fields);
    CreateTableSchemaSpec(p.flags, c.fields);
    var proj := scan.acc.proj;
    assert !scan.threw && proj == ProjectAll(EmptyProjection, cols);
    ProjectAllPartition(EmptyProjection, cols);
    ProjectAllLastKey(EmptyProjection, cols);
    assert proj.jdbcKeys == keys && proj.jdbcValues == values;
    var jdbc := LoadData(p, c).0.jdbcType.value;
    assert jdbc.keyFields == Some(ToArray(keys, |keys|));
    assert jdbc.valueFields == Some(ToArray(values, |keys|));
    assert jdbc.keyType == proj.jdbcKeyType;
  }

  /**
   * The `QueryEntity` without a mid-loop throw: the key fields are the key
   * columns' field names in ascending order and are among the field map's
   * keys; the field map maps each column's field name to its type name in
   * column order; key type and key field name are the last key column's.
   */
  lemma LoadDataEntity(p: Processor, c: ClassDecl)
    requires c.table.Some? && !ThrowsMidLoop(p.flags, c.fields, IgniteVocabulary)
    requires Distinct(DeclaredNames(c.fields))
    ensures var cols := MarkedColumns(c.fields, IgniteVocabulary);
            var entity := LoadData(p, c).0.entity.value;
            && entity.keyFields.Some? && entity.fields.Some?
            && Sorted(entity.keyFields.value)
            && Elems(entity.keyFields.value) == KeyNames(cols)
            && Elems(entity.keyFields.value) <= Elems(Keys(entity.fields.value))
            && entity.fields.value == EntityFieldsOf(cols)
            && entity.keyType == (if LastKey(cols).Some? then Some(LastKey(cols).value.fieldType.name) else None)
            && entity.keyFieldName == (if LastKey(cols).Some? then Some(LastKey(cols).value.fieldName) else None)
  {
    var cols := MarkedColumns(c.fields, IgniteVocabulary);
    CreateTableSchemaSpec(p.flags, c.fields);
    ProjectAllKeySet(EmptyProjection, cols);
    ProjectAllFieldKeys(EmptyProjection, cols);
    MarkedColumnsDistinct(c.fields, IgniteVocabulary);
    ProjectAllFieldMap(EmptyProjection, cols);
    ProjectAllLastKey(EmptyProjection, cols);
    KeyNamesInFieldNames(cols);
  }

  /** The flags are only ever set: a later call never clears what an earlier one set. */
  lemma LoadDataKeepsFlags(p: Processor, c: ClassDecl)
    ensures var after := LoadData(p, c).0.flags;
            && (p.flags.idDeclared ==> after.idDeclared)
            && (p.flags.columnDeclared ==> after.columnDeclared)
  {
    if c.table.Some? {
      CreateTableSchemaSpec(p.flags, c.fields);
    }
  }

  /**
   * Once a call with `@IgniteTable` has passed, the object never throws
   * again, whatever class it is given next.
   */
  lemma PassIsPermanent(p: Processor, c1: ClassDecl, c2: ClassDecl)
    requires c1.table.Some? && LoadData(p, c1).1 == Pass
    ensures LoadData(p, c1).0.flags == Flags(true, true)
    ensures LoadData(LoadData(p, c1).0, c2).1 == Pass
  {
    var q := LoadData(p, c1).0;
    CreateTableSchemaSpec(p.flags, c1.fields);
    if c2.table.Some? {
      NoThrowAfterColumn(q.flags, c2.fields, IgniteVocabulary);
      CreateTableSchemaSpec(q.flags, c2.fields);
    }
  }

  // ---------------------------------------------------------------------------
  // Two worked classes.
  // ---------------------------------------------------------------------------

  const StringClass := ClassTag("java.lang.String", "String", "java.lang.String", "class java.lang.String")
  const LongClass := ClassTag("java.lang.Long", "Long", "java.lang.Long", "class java.lang.Long")

  /** `name` is a column; `id` carries `@IgniteId` but no `@IgniteColumn`. */
  const KeylessFields := [FieldDecl("name", StringClass, false, false, Some(""), None), FieldDecl("id", LongClass, true, false, None, None)]

  /** Two key columns declared in reverse string order. */
  const TwoKeyFields := [FieldDecl("zId", LongClass, true, false, Some(""), None), FieldDecl("aId", LongClass, true, false, Some("A_ID"), None)]

  /** The one column of `KeylessFields`, and no mid-loop throw. */
  lemma KeylessColumns()
    ensures MarkedColumns(KeylessFields, IgniteVocabulary) == [ColumnDTO(false, "name", "name", StringClass)]
    ensures !ThrowsMidLoop(Unset, KeylessFields, IgniteVocabulary)
    ensures IgniteVocabulary(KeylessFields[1]).isKey && IgniteVocabulary(KeylessFields[0]).columnName.Some?
  {
    var fs := KeylessFields;
    assert fs == [fs[0]] + [fs[1]];
    MarkedColumnsConcat([fs[0]], [fs[1]], IgniteVocabulary);
    MarkedColumnsSingle(fs[0], IgniteVocabulary);
    MarkedColumnsSingle(fs[1], IgniteVocabulary);
    forall k | 0 <= k < |fs| && IgniteVocabulary(fs[k]).isKey
      ensures !NoColumnThrough(fs, IgniteVocabulary, k)
    {
      assert IgniteVocabulary(fs[0]).columnName.Some?;
    }
  }

  /** The key and value fields of that column, by `LoadDataJdbcType`. */
  lemma KeylessJdbcType(tag: ClassTag, ann: TableAnnotation)
    ensures var jdbc := LoadData(NewProcessor, ClassDecl(tag, Some(ann), KeylessFields)).0.jdbcType.value;
            && jdbc.keyFields == Some([])
            && jdbc.valueFields == Some([Some(JdbcTypeField(VARCHAR, "name", StringClass, "name"))])
  {
    var c := ClassDecl(tag, Some(ann), KeylessFields);
    var col := ColumnDTO(false, "name", "name", StringClass);
    KeylessColumns();
    LoadDataJdbcType(NewProcessor, c);
    assert KeyFields([col]) == [];
    assert ValueFields([col]) == [JdbcField(col)];
    assert SqlType(StringClass) == VARCHAR;
    var jdbc := LoadData(NewProcessor, c).0.jdbcType.value;
    assert |jdbc.keyFields.value| == 0;
    var vf := jdbc.valueFields.value;
    assert |vf| == 1 && vf[0] == Some(JdbcField(col));
    assert vf == [Some(JdbcField(col))];
  }

  /**
   * A class can pass with no key column: the `@IgniteId` field has no
   * `@IgniteColumn`, but a column marker was seen on an earlier field, so the
   * key is silently dropped and the value array gets one slot although the
   * key count is zero.
   */
  lemma PassWithoutKeyColumn(tag: ClassTag, ann: TableAnnotation)
    ensures var r := LoadData(NewProcessor, ClassDecl(tag, Some(ann), KeylessFields));
            && r.1 == Pass
            && r.0.tableData.value.columns == Some([ColumnDTO(false, "name", "name", StringClass)])
            && r.0.jdbcType.value.keyFields == Some([])
            && r.0.jdbcType.value.valueFields == Some([Some(JdbcTypeField(VARCHAR, "name", StringClass, "name"))])
  {
    var c := ClassDecl(tag, Some(ann), KeylessFields);
    KeylessColumns();
    LoadDataOutcome(NewProcessor, c);
    LoadDataColumns(NewProcessor, c);
    KeylessJdbcType(tag, ann);
  }

  /** The two key columns of `TwoKeyFields`, in declaration order, and no mid-loop throw. */
  lemma TwoKeyColumns()
    ensures MarkedColumns(TwoKeyFields, IgniteVocabulary)
         == [ColumnDTO(true, "zId", "zId", LongClass), ColumnDTO(true, "A_ID", "aId", LongClass)]
    ensures !ThrowsMidLoop(Unset, TwoKeyFields, IgniteVocabulary)
    ensures Distinct(DeclaredNames(TwoKeyFields))
  {
    var fs := TwoKeyFields;
    assert fs == [fs[0]] + [fs[1]];
    MarkedColumnsConcat([fs[0]], [fs[1]], IgniteVocabulary);
    MarkedColumnsSingle(fs[0], IgniteVocabulary);
    MarkedColumnsSingle(fs[1], IgniteVocabulary);
    forall k | 0 <= k < |fs| && IgniteVocabulary(fs[k]).isKey
      ensures !NoColumnThrough(fs, IgniteVocabulary, k)
    {
      assert IgniteVocabulary(fs[0]).columnName.Some?;
    }
  }

  /** The key names and the last key of those two columns. */
  lemma TwoKeyFacts(z: ColumnDTO, a: ColumnDTO)
    requires z == ColumnDTO(true, "zId", "zId", LongClass) && a == ColumnDTO(true, "A_ID", "aId", LongClass)
    ensures KeyNames([z, a]) == {"aId", "zId"}
    ensures LastKey([z, a]) == Some(a)
  {
    assert [z, a][1..] == [a] && [a][1..] == [];
    assert KeyNames([a]) == {"aId"} && LastKey([a]) == Some(a);
  }

  /** A class with the two key columns passes. */
  lemma TwoKeysPass(tag: ClassTag, ann: TableAnnotation)
    ensures LoadData(NewProcessor, ClassDecl(tag, Some(ann), TwoKeyFields)).1 == Pass
  {
    TwoKeyColumns();
    assert IgniteVocabulary(TwoKeyFields[0]).isKey && IgniteVocabulary(TwoKeyFields[0]).columnName.Some?;
    LoadDataOutcome(NewProcessor, ClassDecl(tag, Some(ann), TwoKeyFields));
  }

  /** The entity of that class, by `LoadDataEntity`: sorted key names and the last key's field name. */
  lemma TwoKeysEntity(tag: ClassTag, ann: TableAnnotation)
    ensures var entity := LoadData(NewProcessor, ClassDecl(tag, Some(ann), TwoKeyFields)).0.entity.value;
            && entity.keyFields.Some?
            && Sorted(entity.keyFields.value) && Elems(entity.keyFields.value) == {"aId", "zId"}
            && entity.keyFieldName == Some("aId")
  {
    TwoKeyColumns();
    TwoKeyFacts(ColumnDTO(true, "zId", "zId", LongClass), ColumnDTO(true, "A_ID", "aId", LongClass));
    LoadDataEntity(NewProcessor, ClassDecl(tag, Some(ann), TwoKeyFields));
  }

  /** Key field names come out in string order, not declaration order; the key field name is the last key declared. */
  lemma KeysInStringOrder(tag: ClassTag, ann: TableAnnotation)
    ensures var r := LoadData(NewProcessor, ClassDecl(tag, Some(ann), TwoKeyFields));
            && r.1 == Pass
            && r.0.entity.value.keyFields == Some(["aId", "zId"])
            && r.0.entity.value.keyFieldName == Some("aId")
  {
    TwoKeysPass(tag, ann);
    TwoKeysEntity(tag, ann);
    var keys := LoadData(NewProcessor, ClassDecl(tag, Some(ann), TwoKeyFields)).0.entity.value.keyFields.value;
    assert Sorted(["aId", "zId"]) by {
      assert Less("aId", "zId");
    }
    assert Elems(["aId", "zId"]) == {"aId", "zId"};
    SortedUnique(keys, ["aId", "zId"]);
  }
}
