/**
 * The per-column projection step shared by `ProcessAnnotations` and
 * `IgniteAutoConfig`: each column becomes a `JdbcTypeField` in the key list
 * or the value list, key columns also set the key type, key field name and
 * the sorted key set of the query entity, and every column is put into the
 * entity's field map.
 */
module Mapping {
  import opened JavaLang
  import opened Collections
  import opened Dto
  import opened Ignite

  /** `java.sql.Types` constants. */
  const BIGINT: int := -5
  const INTEGER: int := 4
  const DOUBLE: int := 8
  const VARCHAR: int := 12
  const TIMESTAMP: int := 93

  const TemporalClasses: set<string> := {"java.time.LocalDate", "java.time.LocalDateTime", "java.time.LocalTime"}

  /** The classes with a dedicated SQL type; every other class is stored as VARCHAR. */
  const RecognisedClasses: set<string> := {"java.lang.Long", "java.lang.Integer", "java.lang.Double"} + TemporalClasses

  /** `getSQLType`: compares the class itself, so the primitives `long` and `int` are not recognised. */
  function SqlType(t: ClassTag): (r: int)
    ensures r == BIGINT <==> t.name == "java.lang.Long"
    ensures r == INTEGER <==> t.name == "java.lang.Integer"
    ensures r == DOUBLE <==> t.name == "java.lang.Double"
    ensures r == TIMESTAMP <==> t.name in TemporalClasses
    ensures r == VARCHAR <==> t.name !in RecognisedClasses
  {
    if t.name == "java.lang.Long" then BIGINT
    else if t.name == "java.lang.Integer" then INTEGER
    else if t.name == "java.lang.Double" then DOUBLE
    else if t.name == "java.lang.String" then VARCHAR
    else if t.name in TemporalClasses then TIMESTAMP
    else VARCHAR
  }

  /** Primitive fields get no numeric SQL type. */
  lemma PrimitivesAreVarchar(t: ClassTag)
    requires t.name == "long" || t.name == "int" || t.name == "double"
    ensures SqlType(t) == VARCHAR
  {
  }

  /** What the field loop accumulates for the two projections. */
  datatype Projection = Projection(
    jdbcKeyType: Option<ClassTag>,
    jdbcKeys: seq<JdbcTypeField>,
    jdbcValues: seq<JdbcTypeField>,
    entityKeyType: Option<string>,
    entityKeyFieldName: Option<string>,
    entityKeys: seq<string>,
    entityFields: LinkedMap)

  /** Fresh `JdbcType`/`QueryEntity`, empty lists, empty `TreeSet` and `LinkedHashMap`. */
  const EmptyProjection := Projection(None, [], [], None, None, [], [])

  /** The `JdbcTypeField` built for a column. */
  function JdbcField(c: ColumnDTO): JdbcTypeField
  {
    JdbcTypeField(SqlType(c.fieldType), c.columnName, c.fieldType, c.fieldName)
  }

  /** One column's effect on the projections. */
  function Project(p: Projection, c: ColumnDTO): Projection
  {
    var q :=
      if c.isKey then
        p.(jdbcKeyType := Some(c.fieldType),
           jdbcKeys := p.jdbcKeys + [JdbcField(c)],
           entityKeyType := Some(c.fieldType.name),
           entityKeyFieldName := Some(c.fieldName),
           entityKeys := Insert(p.entityKeys, c.fieldName))
      else
        p.(jdbcValues := p.jdbcValues + [JdbcField(c)]);
    q.(entityFields := Put(q.entityFields, c.fieldName, c.fieldType.name))
  }

  /** What one column adds to each list. */
  lemma ProjectStep(p: Projection, c: ColumnDTO)
    ensures Project(p, c).jdbcKeys == p.jdbcKeys + (if c.isKey then [JdbcField(c)] else [])
    ensures Project(p, c).jdbcValues == p.jdbcValues + (if c.isKey then [] else [JdbcField(c)])
    ensures Project(p, c).entityKeys == if c.isKey then Insert(p.entityKeys, c.fieldName) else p.entityKeys
    ensures Project(p, c).entityFields == Put(p.entityFields, c.fieldName, c.fieldType.name)
  {
  }

  /** The columns' effect, in column order. */
  function ProjectAll(p: Projection, cols: seq<ColumnDTO>): Projection
    decreases |cols|
  {
    if |cols| == 0 then p else ProjectAll(Project(p, cols[0]), cols[1..])
  }

  // ---------------------------------------------------------------------------
  // Reference definitions.
  // ---------------------------------------------------------------------------

  /** The key columns' fields, in column order. */
  function KeyFields(cols: seq<ColumnDTO>): seq<JdbcTypeField>
  {
    if |cols| == 0 then []
    else (if cols[0].isKey then [JdbcField(cols[0])] else []) + KeyFields(cols[1..])
  }

  /** The non-key columns' fields, in column order. */
  function ValueFields(cols: seq<ColumnDTO>): seq<JdbcTypeField>
  {
    if |cols| == 0 then []
    else (if cols[0].isKey then [] else [JdbcField(cols[0])]) + ValueFields(cols[1..])
  }

  /** All columns' fields, in column order. */
  function AllFields(cols: seq<ColumnDTO>): seq<JdbcTypeField>
  {
    if |cols| == 0 then [] else [JdbcField(cols[0])] + AllFields(cols[1..])
  }

  /** The field names of the key columns. */
  function KeyNames(cols: seq<ColumnDTO>): set<string>
  {
    if |cols| == 0 then {}
    else (if cols[0].isKey then {cols[0].fieldName} else {}) + KeyNames(cols[1..])
  }

  /** The field names of all columns. */
  function FieldNames(cols: seq<ColumnDTO>): set<string>
  {
    if |cols| == 0 then {} else {cols[0].fieldName} + FieldNames(cols[1..])
  }

  /** The last key column, if any. */
  function LastKey(cols: seq<ColumnDTO>): Option<ColumnDTO>
  {
    if |cols| == 0 then None
    else
      var later := LastKey(cols[1..]);
      if later.Some? then later else if cols[0].isKey then Some(cols[0]) else None
  }

  /** Field name to type name, one entry per column, in column order. */
  function EntityFieldsOf(cols: seq<ColumnDTO>): LinkedMap
  {
    if |cols| == 0 then [] else [(cols[0].fieldName, cols[0].fieldType.name)] + EntityFieldsOf(cols[1..])
  }

  // ---------------------------------------------------------------------------
  // What the projection step computes.
  // ---------------------------------------------------------------------------

  /** The columns are partitioned: keys to the key list, the rest to the value list, order kept. */
  lemma {:induction false} ProjectAllPartition(p: Projection, cols: seq<ColumnDTO>)
    ensures ProjectAll(p, cols).jdbcKeys == p.jdbcKeys + KeyFields(cols)
    ensures ProjectAll(p, cols).jdbcValues == p.jdbcValues + ValueFields(cols)
    decreases |cols|
  {
    if |cols| > 0 {
      var q := Project(p, cols[0]);
      ProjectStep(p, cols[0]);
      ProjectAllPartition(q, cols[1..]);
      var k: seq<JdbcTypeField> := if cols[0].isKey then [JdbcField(cols[0])] else [];
      var v: seq<JdbcTypeField> := if cols[0].isKey then [] else [JdbcField(cols[0])];
      assert KeyFields(cols) == k + KeyFields(cols[1..]);
      assert ValueFields(cols) == v + ValueFields(cols[1..]);
      assert ProjectAll(p, cols) == ProjectAll(q, cols[1..]);
      ConcatAssoc(p.jdbcKeys, k, KeyFields(cols[1..]));
      ConcatAssoc(p.jdbcValues, v, ValueFields(cols[1..]));
    }
  }

  /** Every column lands in exactly one of the two lists. */
  lemma {:induction false} PartitionIsExact(cols: seq<ColumnDTO>)
    ensures multiset(KeyFields(cols)) + multiset(ValueFields(cols)) == multiset(AllFields(cols))
    ensures |KeyFields(cols)| + |ValueFields(cols)| == |cols|
    decreases |cols|
  {
    if |cols| > 0 {
      PartitionIsExact(cols[1..]);
    }
  }

  /** The key set stays sorted and gains exactly the key columns' field names. */
  lemma {:induction false} ProjectAllKeySet(p: Projection, cols: seq<ColumnDTO>)
    requires Sorted(p.entityKeys)
    ensures Sorted(ProjectAll(p, cols).entityKeys)
    ensures Elems(ProjectAll(p, cols).entityKeys) == Elems(p.entityKeys) + KeyNames(cols)
    decreases |cols|
  {
    if |cols| > 0 {
      var q := Project(p, cols[0]);
      if cols[0].isKey {
        InsertKeepsSorted(p.entityKeys, cols[0].fieldName);
      }
      ProjectAllKeySet(q, cols[1..]);
    }
  }

  /** The field map gains every column's field name, and its keys stay distinct. */
  lemma {:induction false} ProjectAllFieldKeys(p: Projection, cols: seq<ColumnDTO>)
    requires Distinct(Keys(p.entityFields))
    ensures Distinct(Keys(ProjectAll(p, cols).entityFields))
    ensures Elems(Keys(ProjectAll(p, cols).entityFields)) == Elems(Keys(p.entityFields)) + FieldNames(cols)
    decreases |cols|
  {
    if |cols| > 0 {
      var q := Project(p, cols[0]);
      var m := p.entityFields;
      var k := cols[0].fieldName;
      PutKeepsDistinct(m, k, cols[0].fieldType.name);
      if k !in Keys(m) {
        ElemsConcat(Keys(m), [k]);
      }
      ProjectAllFieldKeys(q, cols[1..]);
    }
  }

  /** With distinct field names the field map is exactly one entry per column, in column order. */
  lemma {:induction false} ProjectAllFieldMap(p: Projection, cols: seq<ColumnDTO>)
    requires Distinct(ColumnFieldNames(cols))
    requires Elems(Keys(p.entityFields)) !! FieldNames(cols)
    ensures ProjectAll(p, cols).entityFields == p.entityFields + EntityFieldsOf(cols)
    decreases |cols|
  {
    if |cols| > 0 {
      var q := Project(p, cols[0]);
      ProjectStep(p, cols[0]);
      var k := cols[0].fieldName;
      assert k in FieldNames(cols);
      assert k !in Elems(Keys(p.entityFields));
      assert q.entityFields == p.entityFields + [(k, cols[0].fieldType.name)];
      assert k !in FieldNames(cols[1..]) by {
        FieldNamesMember(cols[1..], k);
        forall j | 0 <= j < |cols[1..]|
          ensures cols[1..][j].fieldName != k
        {
          assert cols[1..][j] == cols[j + 1];
        }
      }
      ElemsConcat(Keys(p.entityFields), [k]);
      KeysConcat(p.entityFields, [(k, cols[0].fieldType.name)]);
      assert Distinct(ColumnFieldNames(cols[1..])) by {
        forall i, j | 0 <= i < j < |cols[1..]|
          ensures cols[1..][i].fieldName != cols[1..][j].fieldName
        {
          assert cols[1..][i] == cols[i + 1] && cols[1..][j] == cols[j + 1];
        }
      }
      ProjectAllFieldMap(q, cols[1..]);
      assert ProjectAll(p, cols) == ProjectAll(q, cols[1..]);
      assert EntityFieldsOf(cols) == [(k, cols[0].fieldType.name)] + EntityFieldsOf(cols[1..]);
      ConcatAssoc(p.entityFields, [(k, cols[0].fieldType.name)], EntityFieldsOf(cols[1..]));
    }
  }

  lemma {:induction false} KeysConcat(a: LinkedMap, b: LinkedMap)
    ensures Keys(a + b) == Keys(a) + Keys(b)
    decreases |a|
  {
    if |a| == 0 {
      assert a + b == b;
    } else {
      assert (a + b)[1..] == a[1..] + b;
      KeysConcat(a[1..], b);
    }
  }

  lemma {:induction false} FieldNamesMember(cols: seq<ColumnDTO>, k: string)
    ensures k in FieldNames(cols) <==> exists j :: 0 <= j < |cols| && cols[j].fieldName == k
    decreases |cols|
  {
    if |cols| > 0 {
      FieldNamesMember(cols[1..], k);
      if exists j :: 0 <= j < |cols[1..]| && cols[1..][j].fieldName == k {
        var j :| 0 <= j < |cols[1..]| && cols[1..][j].fieldName == k;
        assert cols[j + 1].fieldName == k;
      }
      if exists j :: 0 <= j < |cols| && cols[j].fieldName == k {
        var j :| 0 <= j < |cols| && cols[j].fieldName == k;
        if j > 0 {
          assert cols[1..][j - 1].fieldName == k;
        }
      }
    }
  }

  /** The key type, key field name and JDBC key type are those of the last key column. */
  lemma {:induction false} ProjectAllLastKey(p: Projection, cols: seq<ColumnDTO>)
    ensures var r := ProjectAll(p, cols);
            match LastKey(cols)
            case Some(k) =>
              r.jdbcKeyType == Some(k.fieldType) && r.entityKeyType == Some(k.fieldType.name) && r.entityKeyFieldName == Some(k.fieldName)
            case None =>
              r.jdbcKeyType == p.jdbcKeyType && r.entityKeyType == p.entityKeyType && r.entityKeyFieldName == p.entityKeyFieldName
    decreases |cols|
  {
    if |cols| > 0 {
      ProjectAllLastKey(Project(p, cols[0]), cols[1..]);
    }
  }

  /** Key field names are a subset of the field map's keys. */
  lemma KeyNamesInFieldNames(cols: seq<ColumnDTO>)
    ensures KeyNames(cols) <= FieldNames(cols)
  {
  }

  /**
   * The entity's key list depends only on which names are keys, not on the
   * order the key fields are declared in.
   */
  lemma KeyOrderIndependent(cols1: seq<ColumnDTO>, cols2: seq<ColumnDTO>)
    requires KeyNames(cols1) == KeyNames(cols2)
    ensures ProjectAll(EmptyProjection, cols1).entityKeys == ProjectAll(EmptyProjection, cols2).entityKeys
  {
    ProjectAllKeySet(EmptyProjection, cols1);
    ProjectAllKeySet(EmptyProjection, cols2);
    SortedUnique(ProjectAll(EmptyProjection, cols1).entityKeys, ProjectAll(EmptyProjection, cols2).entityKeys);
  }
}
