/**
 * What the extractors read from a class, given explicitly instead of by
 * reflection, and the validation logic all three extractor revisions share:
 * two sticky flags ("a key marker was seen", "a column marker was seen")
 * updated field by field, a throw when a key-marked field is reached before
 * any column marker, and a final check that both flags are set.
 */
module Annotations {
  import opened JavaLang
  import opened Dto
  import opened Collections

  /** `@IgniteTable(cacheName = …, name = …)`; `name` is "" when not given. */
  datatype TableAnnotation = TableAnnotation(cacheName: string, name: string)

  /**
   * One declared field with the markers on it, in declaration order:
   * `@IgniteId`, `javax.persistence.Id`, and the `name()` of `@IgniteColumn`
   * and of `javax.persistence.Column` when present ("" when not given).
   */
  datatype FieldDecl = FieldDecl(
    name: string,
    fieldType: ClassTag,
    igniteId: bool,
    jpaId: bool,
    igniteColumn: Option<string>,
    jpaColumn: Option<string>)

  /** A class: its `Class` object, its `@IgniteTable` if any, and `getDeclaredFields()`. */
  datatype ClassDecl = ClassDecl(tag: ClassTag, table: Option<TableAnnotation>, fields: seq<FieldDecl>)

  /** The two validation flags (`isIdDeclared`, `isColumnDeclared`); they are only ever set, never cleared. */
  datatype Flags = Flags(idDeclared: bool, columnDeclared: bool)

  /** The flags of a freshly created extractor. */
  const Unset := Flags(false, false)

  /** Why an extraction threw. */
  datatype SchemaError =
    | IdWithoutColumn     // a key-marked field was reached before any column marker
    | MissingIdOrColumn   // the final check: no key marker or no column marker was seen

  /** What one field's markers say under a revision's vocabulary: key or not, and its resolved column name. */
  datatype Marks = Marks(isKey: bool, columnName: Option<string>)

  /** A column marker's `name()`, or the field name when it is "". */
  function ResolveName(fieldName: string, declared: string): (n: string)
    ensures declared != "" ==> n == declared
    ensures declared == "" ==> n == fieldName
  {
    if declared == "" then fieldName else declared
  }

  /** The Ignite markers only: `@IgniteId` and `@IgniteColumn`. */
  function IgniteVocabulary(f: FieldDecl): (m: Marks)
    ensures m.isKey <==> f.igniteId
    ensures m.columnName.Some? <==> f.igniteColumn.Some?
    ensures f.igniteColumn.Some? ==> m.columnName.value == ResolveName(f.name, f.igniteColumn.value)
  {
    Marks(f.igniteId, match f.igniteColumn case None => None case Some(n) => Some(ResolveName(f.name, n)))
  }

  /** The flags after one field has been looked at. */
  function Mark(flags: Flags, m: Marks): (after: Flags)
    ensures after.idDeclared <==> flags.idDeclared || m.isKey
    ensures after.columnDeclared <==> flags.columnDeclared || m.columnName.Some?
  {
    Flags(flags.idDeclared || m.isKey, flags.columnDeclared || m.columnName.Some?)
  }

  /**
   * The table name of the two newer revisions: the annotation's name, or the
   * simple class name when that is "", upper-cased.
   */
  function TableName(c: ClassDecl, ann: TableAnnotation): (n: string)
    ensures ann.name != "" ==> n == ToUpper(ann.name)
    ensures ann.name == "" ==> n == ToUpper(c.tag.simpleName)
  {
    ToUpper(if ann.name == "" then c.tag.simpleName else ann.name)
  }

  /** The in-loop check: this field is a key and no column marker has been seen yet. */
  predicate KeyBeforeColumn(after: Flags, m: Marks)
  {
    m.isKey && !after.columnDeclared
  }

  /** The column a column-marked field contributes. */
  function ColumnFor(f: FieldDecl, m: Marks): ColumnDTO
    requires m.columnName.Some?
  {
    ColumnDTO(m.isKey, m.columnName.value, f.name, f.fieldType)
  }

  // ---------------------------------------------------------------------------
  // Reference definitions the field loops are proved against.
  // ---------------------------------------------------------------------------

  /** No field up to and including position `k` carries a column marker. */
  ghost predicate NoColumnThrough(fs: seq<FieldDecl>, vocab: FieldDecl -> Marks, k: int)
    requires k < |fs|
  {
    forall j :: 0 <= j <= k ==> vocab(fs[j]).columnName.None?
  }

  /**
   * The loop throws: no column marker was seen on an earlier call, and some
   * key-marked field comes before every column-marked field.
   */
  ghost predicate ThrowsMidLoop(flags: Flags, fs: seq<FieldDecl>, vocab: FieldDecl -> Marks)
  {
    && !flags.columnDeclared
    && exists k :: 0 <= k < |fs| && vocab(fs[k]).isKey && NoColumnThrough(fs, vocab, k)
  }

  /** The flags after the whole field list has been scanned. */
  ghost function ScannedFlags(flags: Flags, fs: seq<FieldDecl>, vocab: FieldDecl -> Marks): Flags
  {
    Flags(
      flags.idDeclared || (exists i :: 0 <= i < |fs| && vocab(fs[i]).isKey),
      flags.columnDeclared || (exists i :: 0 <= i < |fs| && vocab(fs[i]).columnName.Some?))
  }

  /** One column per column-marked field, in declaration order. */
  function MarkedColumns(fs: seq<FieldDecl>, vocab: FieldDecl -> Marks): seq<ColumnDTO>
  {
    if |fs| == 0 then []
    else
      var m := vocab(fs[0]);
      (if m.columnName.Some? then [ColumnFor(fs[0], m)] else []) + MarkedColumns(fs[1..], vocab)
  }

  /** How `ThrowsMidLoop` unfolds over the first field: it throws there, or the rest throws. */
  lemma ThrowsMidLoopStep(flags: Flags, fs: seq<FieldDecl>, vocab: FieldDecl -> Marks)
    requires |fs| > 0
    ensures var m := vocab(fs[0]);
            var after := Mark(flags, m);
            ThrowsMidLoop(flags, fs, vocab) <==> KeyBeforeColumn(after, m) || ThrowsMidLoop(after, fs[1..], vocab)
  {
    var m := vocab(fs[0]);
    var after := Mark(flags, m);
    if ThrowsMidLoop(flags, fs, vocab) && !KeyBeforeColumn(after, m) {
      var k :| 0 <= k < |fs| && vocab(fs[k]).isKey && NoColumnThrough(fs, vocab, k);
      assert vocab(fs[0]).columnName.None?;
      assert k > 0;
      assert fs[1..][k - 1] == fs[k];
      assert NoColumnThrough(fs[1..], vocab, k - 1) by {
        forall j | 0 <= j <= k - 1
          ensures vocab(fs[1..][j]).columnName.None?
        {
          assert fs[1..][j] == fs[j + 1];
        }
      }
    }
    if ThrowsMidLoop(after, fs[1..], vocab) {
      var k :| 0 <= k < |fs[1..]| && vocab(fs[1..][k]).isKey && NoColumnThrough(fs[1..], vocab, k);
      assert fs[1..][k] == fs[k + 1];
      assert NoColumnThrough(fs, vocab, k + 1) by {
        forall j | 0 <= j <= k + 1
          ensures vocab(fs[j]).columnName.None?
        {
          if j > 0 {
            assert fs[j] == fs[1..][j - 1];
          }
        }
      }
    }
    if KeyBeforeColumn(after, m) {
      assert NoColumnThrough(fs, vocab, 0);
    }
  }

  /** How `ScannedFlags` unfolds over the first field. */
  lemma ScannedFlagsStep(flags: Flags, fs: seq<FieldDecl>, vocab: FieldDecl -> Marks)
    requires |fs| > 0
    ensures ScannedFlags(flags, fs, vocab) == ScannedFlags(Mark(flags, vocab(fs[0])), fs[1..], vocab)
  {
    var a := ScannedFlags(flags, fs, vocab);
    var b := ScannedFlags(Mark(flags, vocab(fs[0])), fs[1..], vocab);
    if (exists i :: 0 <= i < |fs| && vocab(fs[i]).isKey) {
      var i :| 0 <= i < |fs| && vocab(fs[i]).isKey;
      if i > 0 {
        assert fs[1..][i - 1] == fs[i];
      }
    }
    if (exists i :: 0 <= i < |fs| && vocab(fs[i]).columnName.Some?) {
      var i :| 0 <= i < |fs| && vocab(fs[i]).columnName.Some?;
      if i > 0 {
        assert fs[1..][i - 1] == fs[i];
      }
    }
    if (exists i :: 0 <= i < |fs[1..]| && vocab(fs[1..][i]).isKey) {
      var i :| 0 <= i < |fs[1..]| && vocab(fs[1..][i]).isKey;
      assert fs[1..][i] == fs[i + 1];
    }
    if (exists i :: 0 <= i < |fs[1..]| && vocab(fs[1..][i]).columnName.Some?) {
      var i :| 0 <= i < |fs[1..]| && vocab(fs[1..][i]).columnName.Some?;
      assert fs[1..][i] == fs[i + 1];
    }
  }

  /** Once a column marker has been seen the loop can no longer throw. */
  lemma NoThrowAfterColumn(flags: Flags, fs: seq<FieldDecl>, vocab: FieldDecl -> Marks)
    requires flags.columnDeclared
    ensures !ThrowsMidLoop(flags, fs, vocab)
  {
  }

  /**
   * The columns of two runs of fields are those of the first run followed
   * by those of the second: with the one-field case this fixes the column
   * order to declaration order.
   */
  lemma {:induction false} MarkedColumnsConcat(a: seq<FieldDecl>, b: seq<FieldDecl>, vocab: FieldDecl -> Marks)
    ensures MarkedColumns(a + b, vocab) == MarkedColumns(a, vocab) + MarkedColumns(b, vocab)
    decreases |a|
  {
    if |a| == 0 {
      assert a + b == b;
    } else {
      assert (a + b)[0] == a[0];
      assert (a + b)[1..] == a[1..] + b;
      MarkedColumnsConcat(a[1..], b, vocab);
      var m := vocab(a[0]);
      var head: seq<ColumnDTO> := if m.columnName.Some? then [ColumnFor(a[0], m)] else [];
      assert head + (MarkedColumns(a[1..], vocab) + MarkedColumns(b, vocab))
          == (head + MarkedColumns(a[1..], vocab)) + MarkedColumns(b, vocab);
    }
  }

  /** One field contributes its column exactly when it carries a column marker. */
  lemma MarkedColumnsSingle(f: FieldDecl, vocab: FieldDecl -> Marks)
    ensures MarkedColumns([f], vocab) == if vocab(f).columnName.Some? then [ColumnFor(f, vocab(f))] else []
  {
    assert [f][1..] == [];
  }

  /** The declared fields' names, in declaration order; no name occurs twice in one class. */
  function DeclaredNames(fs: seq<FieldDecl>): (ns: seq<string>)
    ensures |ns| == |fs|
    ensures forall i :: 0 <= i < |fs| ==> ns[i] == fs[i].name
  {
    seq(|fs|, i requires 0 <= i < |fs| => fs[i].name)
  }

  /** Every marked column comes from some declared field of the same name. */
  lemma {:induction false} MarkedColumnsFromFields(fs: seq<FieldDecl>, vocab: FieldDecl -> Marks)
    ensures forall i :: 0 <= i < |MarkedColumns(fs, vocab)| ==>
              exists j :: 0 <= j < |fs| && MarkedColumns(fs, vocab)[i].fieldName == fs[j].name
    decreases |fs|
  {
    if |fs| > 0 {
      MarkedColumnsFromFields(fs[1..], vocab);
      var m := vocab(fs[0]);
      var head: seq<ColumnDTO> := if m.columnName.Some? then [ColumnFor(fs[0], m)] else [];
      var rest := MarkedColumns(fs[1..], vocab);
      assert MarkedColumns(fs, vocab) == head + rest;
      forall i | 0 <= i < |head + rest|
        ensures exists j :: 0 <= j < |fs| && (head + rest)[i].fieldName == fs[j].name
      {
        if i < |head| {
          assert (head + rest)[i].fieldName == fs[0].name;
        } else {
          assert (head + rest)[i] == rest[i - |head|];
          var j :| 0 <= j < |fs[1..]| && rest[i - |head|].fieldName == fs[1..][j].name;
          assert fs[1..][j] == fs[j + 1];
          assert (head + rest)[i].fieldName == fs[j + 1].name;
        }
      }
      assert forall i :: 0 <= i < |MarkedColumns(fs, vocab)| ==>
               exists j :: 0 <= j < |fs| && MarkedColumns(fs, vocab)[i].fieldName == fs[j].name;
    } else {
      assert MarkedColumns(fs, vocab) == [];
    }
  }

  /** Fields with distinct names give columns with distinct field names. */
  lemma {:induction false} MarkedColumnsDistinct(fs: seq<FieldDecl>, vocab: FieldDecl -> Marks)
    requires Distinct(DeclaredNames(fs))
    ensures Distinct(ColumnFieldNames(MarkedColumns(fs, vocab)))
    decreases |fs|
  {
    if |fs| > 0 {
      assert Distinct(DeclaredNames(fs[1..])) by {
        forall i, j | 0 <= i < j < |fs[1..]|
          ensures fs[1..][i].name != fs[1..][j].name
        {
          assert fs[1..][i] == fs[i + 1] && fs[1..][j] == fs[j + 1];
        }
      }
      MarkedColumnsDistinct(fs[1..], vocab);
      MarkedColumnsFromFields(fs[1..], vocab);
      var m := vocab(fs[0]);
      var head: seq<ColumnDTO> := if m.columnName.Some? then [ColumnFor(fs[0], m)] else [];
      var rest := MarkedColumns(fs[1..], vocab);
      assert MarkedColumns(fs, vocab) == head + rest;
      forall i, j | 0 <= i < j < |head + rest|
        ensures (head + rest)[i].fieldName != (head + rest)[j].fieldName
      {
        assert (head + rest)[j] == rest[j - |head|];
        if i < |head| {
          var k :| 0 <= k < |fs[1..]| && rest[j - |head|].fieldName == fs[1..][k].name;
          assert fs[1..][k] == fs[k + 1];
          assert (head + rest)[i].fieldName == fs[0].name;
        } else {
          assert (head + rest)[i] == rest[i - |head|];
        }
      }
    }
  }

  // ---------------------------------------------------------------------------
  // The field loop itself.
  // ---------------------------------------------------------------------------

  /** How a field loop ends: the flags, what it emitted, and whether it threw mid-loop. */
  datatype Scan<A> = Scan(flags: Flags, acc: A, threw: bool)

  /**
   * The `for (Field field : fields)` loop every revision runs: look at the
   * field's markers, set the flags, hand a column-marked field's column to
   * `emit` (the revision's own bookkeeping), then throw if the field is a key
   * and no column marker has been seen.
   */
  function FieldLoop<A>(flags: Flags, acc: A, fs: seq<FieldDecl>, vocab: FieldDecl -> Marks, emit: (A, ColumnDTO) -> A): Scan<A>
    decreases |fs|
  {
    if |fs| == 0 then Scan(flags, acc, false)
    else
      var m := vocab(fs[0]);
      var after := Mark(flags, m);
      var next := if m.columnName.Some? then emit(acc, ColumnFor(fs[0], m)) else acc;
      if KeyBeforeColumn(after, m) then Scan(after, next, true)
      else FieldLoop(after, next, fs[1..], vocab, emit)
  }

  /** Reference: `emit` applied to the columns one after the other. */
  function Emitted<A>(emit: (A, ColumnDTO) -> A, acc: A, cols: seq<ColumnDTO>): A
    decreases |cols|
  {
    if |cols| == 0 then acc else Emitted(emit, emit(acc, cols[0]), cols[1..])
  }

  /**
   * The loop throws exactly when `ThrowsMidLoop` says so, and then it has
   * emitted nothing and leaves the flags at "key seen, no column seen".
   * Otherwise the flags are the scanned ones and the marked columns were
   * emitted in declaration order.
   */
  lemma {:induction false} FieldLoopSpec<A>(flags: Flags, acc: A, fs: seq<FieldDecl>, vocab: FieldDecl -> Marks, emit: (A, ColumnDTO) -> A)
    ensures var r := FieldLoop(flags, acc, fs, vocab, emit);
            && (r.threw <==> ThrowsMidLoop(flags, fs, vocab))
            && (r.threw ==> r.acc == acc && r.flags == Flags(true, false))
            && (!r.threw ==> r.flags == ScannedFlags(flags, fs, vocab) && r.acc == Emitted(emit, acc, MarkedColumns(fs, vocab)))
    decreases |fs|
  {
    if |fs| == 0 {
      assert MarkedColumns(fs, vocab) == [];
    } else {
      var m := vocab(fs[0]);
      var after := Mark(flags, m);
      var next := if m.columnName.Some? then emit(acc, ColumnFor(fs[0], m)) else acc;
      ThrowsMidLoopStep(flags, fs, vocab);
      ScannedFlagsStep(flags, fs, vocab);
      if !KeyBeforeColumn(after, m) {
        FieldLoopSpec(after, next, fs[1..], vocab, emit);
        var head: seq<ColumnDTO> := if m.columnName.Some? then [ColumnFor(fs[0], m)] else [];
        var rest := MarkedColumns(fs[1..], vocab);
        assert MarkedColumns(fs, vocab) == head + rest;
        if m.columnName.Some? {
          assert (head + rest)[0] == ColumnFor(fs[0], m);
          assert (head + rest)[1..] == rest;
        } else {
          assert head + rest == rest;
        }
      }
    }
  }

  /** Two vocabularies that read every field alike yield the same columns. */
  lemma {:induction false} MarkedColumnsAgree(fs: seq<FieldDecl>, v1: FieldDecl -> Marks, v2: FieldDecl -> Marks)
    requires forall i :: 0 <= i < |fs| ==> v1(fs[i]) == v2(fs[i])
    ensures MarkedColumns(fs, v1) == MarkedColumns(fs, v2)
    decreases |fs|
  {
    if |fs| > 0 {
      assert v1(fs[0]) == v2(fs[0]);
      forall i | 0 <= i < |fs[1..]|
        ensures v1(fs[1..][i]) == v2(fs[1..][i])
      {
        assert fs[1..][i] == fs[i + 1];
      }
      MarkedColumnsAgree(fs[1..], v1, v2);
    }
  }
}
