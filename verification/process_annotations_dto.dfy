/**
 * `ProcessAnnotationsDTO`: the revision that accepts both vocabularies, the
 * Ignite markers and the JPA `@Id`/`@Column`, and builds only a `TableDTO`,
 * which it returns (null without `@IgniteTable`). Its flags are instance
 * fields too, so a reused object starts from what earlier calls left.
 */
module ProcessAnnotationsDto {
  import opened JavaLang
  import opened Dto
  import opened Annotations
  import ProcessAnnotations

  /**
   * A field is a key when it has `@IgniteId` or `@Id`, and a column when it
   * has `@IgniteColumn` or `@Column`; the `@IgniteColumn` name wins whenever
   * that marker is present.
   */
  function DualVocabulary(f: FieldDecl): (m: Marks)
    ensures m.isKey <==> f.igniteId || f.jpaId
    ensures m.columnName.Some? <==> f.igniteColumn.Some? || f.jpaColumn.Some?
    ensures f.igniteColumn.Some? ==> m.columnName == Some(ResolveName(f.name, f.igniteColumn.value))
    ensures f.igniteColumn.None? && f.jpaColumn.Some? ==> m.columnName == Some(ResolveName(f.name, f.jpaColumn.value))
  {
    var columnName :=
      match f.igniteColumn
      case Some(n) => Some(ResolveName(f.name, n))
      case None => match f.jpaColumn case Some(n) => Some(ResolveName(f.name, n)) case None => None;
    Marks(f.igniteId || f.jpaId, columnName)
  }

  /** `columns.add(columnData)`: the only bookkeeping this revision does per column. */
  function Append(cols: seq<ColumnDTO>, c: ColumnDTO): seq<ColumnDTO>
  {
    cols + [c]
  }

  /** `createTableSchema`: the field loop under both vocabularies, from an empty column list. */
  function CreateTableSchema(flags: Flags, fs: seq<FieldDecl>): Scan<seq<ColumnDTO>>
  {
    FieldLoop(flags, [], fs, DualVocabulary, Append)
  }

  lemma {:induction false} EmittedAppend(acc: seq<ColumnDTO>, cols: seq<ColumnDTO>)
    ensures Emitted(Append, acc, cols) == acc + cols
    decreases |cols|
  {
    if |cols| > 0 {
      EmittedAppend(acc + [cols[0]], cols[1..]);
      assert (acc + [cols[0]]) + cols[1..] == acc + cols;
    }
  }

  /**
   * The loop throws exactly on a key field met before any column marker;
   * otherwise it collects the marked fields' columns in declaration order.
   */
  lemma CreateTableSchemaSpec(flags: Flags, fs: seq<FieldDecl>)
    ensures var r := CreateTableSchema(flags, fs);
            && (r.threw <==> ThrowsMidLoop(flags, fs, DualVocabulary))
            && (r.threw ==> r.flags == Flags(true, false))
            && (!r.threw ==>
                  r.flags == ScannedFlags(flags, fs, DualVocabulary) && r.acc == MarkedColumns(fs, DualVocabulary))
  {
    FieldLoopSpec(flags, [], fs, DualVocabulary, Append);
    EmittedAppend([], MarkedColumns(fs, DualVocabulary));
  }

  /**
   * `loadClassData`, from the object's flags: the flags afterwards, and the
   * returned table (null without `@IgniteTable`) or the exception. A
   * `TableDTO` is only returned when both checks pass.
   */
  function LoadClassData(flags: Flags, c: ClassDecl): (r: (Flags, Result<Option<TableDTO>, SchemaError>))
    ensures c.table.None? ==> r == (flags, Success(None))
    ensures r.1.Success? && c.table.Some? ==>
              var t := r.1.value;
              && t.Some?
              && t.value.cacheName == c.table.value.cacheName
              && t.value.tableName == TableName(c, c.table.value)
              && t.value.tableType == c.tag
  {
    match c.table
    case None => (flags, Success(None))
    case Some(ann) =>
      var scan := CreateTableSchema(flags, c.fields);
      if scan.threw then (scan.flags, Failure(IdWithoutColumn))
      else if !scan.flags.idDeclared || !scan.flags.columnDeclared then (scan.flags, Failure(MissingIdOrColumn))
      else (scan.flags, Success(Some(TableDTO(TableName(c, ann), ann.cacheName, c.tag, Some(scan.acc)))))
  }

  /**
   * With `@IgniteTable`: the mid-loop throw exactly when a key field comes
   * before every column marker; the final check throws exactly when no key
   * marker or no column marker has been seen on this call or an earlier one;
   * otherwise the table holds one column per marked field, in declaration
   * order.
   */
  lemma LoadClassDataSpec(flags: Flags, c: ClassDecl)
    requires c.table.Some?
    ensures var r := LoadClassData(flags, c);
            var seen := ScannedFlags(flags, c.fields, DualVocabulary);
            var throws := ThrowsMidLoop(flags, c.fields, DualVocabulary);
            && (r.1 == Failure(IdWithoutColumn) <==> throws)
            && (r.1 == Failure(MissingIdOrColumn) <==> !throws && !(seen.idDeclared && seen.columnDeclared))
            && (r.1.Success? <==> !throws && seen.idDeclared && seen.columnDeclared)
            && (r.1.Success? ==> r.1.value.value.columns == Some(MarkedColumns(c.fields, DualVocabulary)))
            && (r.1.Success? ==> r.0 == seen)
  {
    CreateTableSchemaSpec(flags, c.fields);
  }

  /** The flags are only ever set. */
  lemma LoadClassDataKeepsFlags(flags: Flags, c: ClassDecl)
    ensures var after := LoadClassData(flags, c).0;
            && (flags.idDeclared ==> after.idDeclared)
            && (flags.columnDeclared ==> after.columnDeclared)
  {
    if c.table.Some? {
      CreateTableSchemaSpec(flags, c.fields);
    }
  }

  /**
   * On an object that has already seen both markers, a later class with
   * `@IgniteTable` and no markers at all passes, and its table has no columns.
   */
  lemma ReusedAcceptsUnmarkedClass(flags: Flags, c: ClassDecl)
    requires flags == Flags(true, true) && c.table.Some?
    requires forall i :: 0 <= i < |c.fields| ==> DualVocabulary(c.fields[i]) == Marks(false, None)
    ensures var r := LoadClassData(flags, c);
            r.1.Success? && r.1.value.Some? && r.1.value.value.columns == Some([])
  {
    CreateTableSchemaSpec(flags, c.fields);
    MarkedColumnsAgree(c.fields, DualVocabulary, _ => Marks(false, None));
    UnmarkedHasNoColumns(c.fields);
  }

  lemma {:induction false} UnmarkedHasNoColumns(fs: seq<FieldDecl>)
    ensures MarkedColumns(fs, _ => Marks(false, None)) == []
    decreases |fs|
  {
    if |fs| > 0 {
      UnmarkedHasNoColumns(fs[1..]);
    }
  }

  /** No JPA marker on any field. */
  predicate IgniteOnly(fs: seq<FieldDecl>)
  {
    forall i :: 0 <= i < |fs| ==> !fs[i].jpaId && fs[i].jpaColumn.None?
  }

  /**
   * On a class with no JPA markers this revision agrees with the
   * `ProcessAnnotations` one: same flags afterwards, a table returned exactly
   * when that one passes, and then the very table it stores.
   */
  lemma AgreesWithProcessAnnotations(p: ProcessAnnotations.Processor, c: ClassDecl)
    requires IgniteOnly(c.fields)
    ensures var r := LoadClassData(p.flags, c);
            var q := ProcessAnnotations.LoadData(p, c);
            && r.0 == q.0.flags
            && (r.1.Success? <==> q.1 == Pass)
            && (r.1.Success? && c.table.Some? ==> r.1.value == q.0.tableData)
  {
    if c.table.Some? {
      var fs := c.fields;
      assert forall i :: 0 <= i < |fs| ==> DualVocabulary(fs[i]) == IgniteVocabulary(fs[i]);
      MarkedColumnsAgree(fs, DualVocabulary, IgniteVocabulary);
      assert ThrowsMidLoop(p.flags, fs, DualVocabulary) == ThrowsMidLoop(p.flags, fs, IgniteVocabulary);
      assert ScannedFlags(p.flags, fs, DualVocabulary) == ScannedFlags(p.flags, fs, IgniteVocabulary);
      CreateTableSchemaSpec(p.flags, fs);
      ProcessAnnotations.CreateTableSchemaSpec(p.flags, fs);
    }
  }
}
