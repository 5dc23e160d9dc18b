# IgniteAutoConfig in Dafny

A functional model of the IgniteAutoConfig library, with proofs about it. The library reads `@IgniteTable`, `@IgniteId` and `@IgniteColumn` markers (and, in one revision, `javax.persistence` `@Id`/`@Column`) from data classes. From them it builds three things:

- a table descriptor (`TableDTO` holding its `ColumnDTO`s);
- the Apache Ignite `JdbcType` (a storage projection);
- the Ignite `QueryEntity` (a query projection).

From those descriptors it assembles one `CacheConfiguration` per cache name. At runtime, `GenerateCacheStore` writes a cache entry through a JDBC connection: it tries an INSERT first and falls back to an UPDATE.

The model covers these classes:

- **The three extractor revisions**: `ProcessAnnotations`, `ProcessAnnotationsDTO` and `IgniteAutoConfig`. They run the same field loop, so it is defined once, in `Annotations.FieldLoop`. The loop is generic in the bookkeeping each revision does per column. It is proved once, in `Annotations.FieldLoopSpec`, against reference definitions:
  - `ThrowsMidLoop`: when the loop throws;
  - `ScannedFlags`: the flags afterwards;
  - `MarkedColumns`: the columns, in declaration order.

  Each revision then proves its own bookkeeping against a reference:
  - `Mapping.ProjectAll` partitions the columns into key and value `JdbcTypeField`s. It keeps a `TreeSet` of key field names and a `LinkedHashMap` from field name to type name.
  - `getSQLType` is `Mapping.SqlType`.
- **`GenerateCacheStore`**:
  - The INSERT and UPDATE texts, built with `StringBuilder.replace` as the JDK defines it.
  - The binds of `tryPS`.
  - The `write` protocol: a connection that prepares statements whose binds or `close` may fail, and the `finally` block that closes the last prepared statement.
- **`GenerateCacheConfiguration`**:
  - the static registry `init` sets;
  - the defaults;
  - the cache-store and JDBC-store paths;
  - the loop that stops at the first exception and returns what it has built.
- **`CacheConfigurationFactory`**: its two constructors and `generateCacheConfig`.

The model does not model the Ignite and JDK objects themselves. Each is replaced by a datatype holding the values the code sets on it (`Ignite.JdbcType`, `Ignite.QueryEntity`, `Ignite.CacheConfig`, and so on). Reflection is replaced by an explicit `ClassDecl`, which lists a class's declared fields in declaration order with the markers on each. Nulls are `Option`. Exceptions are `Result`/`Outcome` values.

## Behaviour worth knowing

The code behaves as follows, and the model follows it.

- **The flags are sticky.** The validation flags are object fields in `ProcessAnnotations` and `ProcessAnnotationsDTO`, and static fields in `IgniteAutoConfig`. They are never reset. So once one class has passed, a later class with no markers at all also passes (`ProcessAnnotations.PassIsPermanent`, `ProcessAnnotationsDto.ReusedAcceptsUnmarkedClass`).
- **A table with no key column can pass**, as long as a key marker was seen somewhere: the key marker can sit on a field without a column marker, after a column (`ProcessAnnotations.PassWithoutKeyColumn`). Its `JdbcType` then has an empty key array.
- **`getSQLType` does not map `Date` or `Timestamp` to TIMESTAMP.** It recognises only `LocalDate`, `LocalDateTime` and `LocalTime`, and it compares classes exactly, so primitive `long` and `int` are VARCHAR.
- **The INSERT ends with a `WHERE key = ?` clause.** Its placeholder buffer is trimmed at positions computed from the column buffer, so the builder throws `StringIndexOutOfBoundsException` unless the column names are very short (`CacheStore.InsertQueryOutcome`). Every table whose column names have at least two characters throws (`CacheStore.InsertFailsForTwoCharacterNames`).
- **The UPDATE sets every column, the key included**, with no space after `SET`.
- **`tryPS` only binds; it never executes the statement.** The write "succeeds" when every bind succeeds.
- **Only the statement prepared last is closed** in `write`'s `finally` block. Before `setTable` both query texts are ""; both binds fail on the null table, and the INSERT statement is left open (`CacheStore.WriteWithoutTable`).
- **Configuration assembly is not all-or-nothing.** An exception ends the loop; it is printed and swallowed, and the caches built so far are returned.

## Model

| member | source | states |
|---|---|---|
| JavaLang.ToUpper | src/main/java/com/ignite/utilities/ProcessAnnotations.java:55 | the upper-cased table name has the same length and upper-cases each letter in place |
| JavaLang.ToUpperIdempotent | src/main/java/com/ignite/utilities/ProcessAnnotationsDTO.java:42 | upper-casing an already upper-cased name changes nothing |
| Collections.Insert | src/main/java/com/ignite/utilities/ProcessAnnotations.java:149 | `TreeSet.add`: the set's elements afterwards are the old ones plus the new name |
| Collections.InsertKeepsSorted | src/main/java/com/ignite/utilities/ProcessAnnotations.java:77 | the `TreeSet` stays strictly sorted under `String.compareTo` order after every add |
| Collections.SortedUnique | src/main/java/com/ignite/utilities/ProcessAnnotations.java:77 | two sorted sequences with the same elements are equal, so a `TreeSet` is determined by its contents |
| Collections.LessTransitive | src/main/java/com/ignite/utilities/ProcessAnnotations.java:77 | the `TreeSet` comparison is transitive |
| Collections.LessTotal | src/main/java/com/ignite/utilities/ProcessAnnotations.java:77 | any two distinct names are ordered one way or the other |
| Collections.Put | src/main/java/com/ignite/utilities/ProcessAnnotations.java:157 | `LinkedHashMap.put` keeps the key order, appends only a new key, maps the key to the new value and leaves every other key alone |
| Collections.PutKeepsDistinct | src/main/java/com/ignite/utilities/ProcessAnnotations.java:78 | the linked map never holds a key twice |
| Collections.ToArray | src/main/java/com/ignite/utilities/ProcessAnnotations.java:84-85 | `List.toArray(new T[n])` has length max(n, list size), starts with the list, and pads with nulls |
| Annotations.ResolveName | src/main/java/com/ignite/utilities/ProcessAnnotations.java:133 | the column name is the marker's name, or the field name when the marker's name is "" |
| Annotations.IgniteVocabulary | src/main/java/com/ignite/utilities/ProcessAnnotations.java:116-133 | a field is a key exactly when it has `@IgniteId` and a column exactly when it has `@IgniteColumn` |
| Annotations.Mark | src/main/java/com/ignite/utilities/ProcessAnnotations.java:116-128 | each flag ends up set exactly when it was already set or this field carries the marker |
| Annotations.TableName | src/main/java/com/ignite/utilities/ProcessAnnotations.java:55 | the table name is the upper-cased annotation name, or the upper-cased simple class name when the annotation name is "" |
| Annotations.ThrowsMidLoopStep | src/main/java/com/ignite/utilities/ProcessAnnotations.java:162-164 | the loop throws at the first field exactly when that field is a key and no column has been seen, else the rest of the loop decides |
| Annotations.ScannedFlagsStep | src/main/java/com/ignite/utilities/ProcessAnnotations.java:112-128 | the flags after the loop are those after the first field, carried through the rest |
| Annotations.NoThrowAfterColumn | src/main/java/com/ignite/utilities/ProcessAnnotations.java:162-164 | once a column marker has been seen, on this call or an earlier one, the in-loop check cannot fire |
| Annotations.MarkedColumnsConcat | src/main/java/com/ignite/utilities/ProcessAnnotations.java:112-160 | the columns of two runs of fields are the first run's followed by the second's: declaration order |
| Annotations.MarkedColumnsSingle | src/main/java/com/ignite/utilities/ProcessAnnotations.java:122-159 | one field contributes one column exactly when it has a column marker |
| Annotations.MarkedColumnsFromFields | src/main/java/com/ignite/utilities/ProcessAnnotations.java:131-136 | every column's field name is the name of some declared field |
| Annotations.MarkedColumnsDistinct | src/main/java/com/ignite/utilities/ProcessAnnotations.java:131-136 | distinct declared field names give columns with distinct field names |
| Annotations.FieldLoopSpec | src/main/java/com/ignite/utilities/ProcessAnnotations.java:112-165 | the shared loop throws exactly when a key comes before every column marker, and then it has emitted nothing and the flags read "key, no column"; otherwise the flags are the scanned ones and every marked column was emitted in declaration order |
| Annotations.MarkedColumnsAgree | src/main/java/com/ignite/utilities/ProcessAnnotationsDTO.java:81-105 | two marker vocabularies that read every field alike yield the same columns |
| Mapping.SqlType | src/main/java/com/ignite/utilities/ProcessAnnotations.java:177-190 | each SQL type code is returned exactly for its classes (`Long`, `Integer`, `Double`, the three `java.time` classes), and VARCHAR exactly for `String` and every unrecognised class |
| Mapping.PrimitivesAreVarchar | src/main/java/com/ignite/utilities/ProcessAnnotations.java:178-182 | primitive `long`, `int` and `double` fields get VARCHAR, because classes are compared exactly |
| Mapping.ProjectStep | src/main/java/com/ignite/utilities/ProcessAnnotations.java:140-157 | one column goes to the key list or the value list, a key adds its field name to the key set, and every column is put into the field map |
| Mapping.ProjectAllPartition | src/main/java/com/ignite/utilities/ProcessAnnotations.java:140-154 | the key list is exactly the key columns' fields and the value list exactly the others', both in column order |
| Mapping.PartitionIsExact | src/main/java/com/ignite/utilities/ProcessAnnotations.java:140-154 | every column lands in exactly one of the two lists: as multisets they add up to all columns |
| Mapping.ProjectAllKeySet | src/main/java/com/ignite/utilities/ProcessAnnotations.java:149 | the entity key set stays sorted and gains exactly the key columns' field names |
| Mapping.ProjectAllFieldKeys | src/main/java/com/ignite/utilities/ProcessAnnotations.java:157 | the field map gains every column's field name, and its keys stay distinct |
| Mapping.ProjectAllFieldMap | src/main/java/com/ignite/utilities/ProcessAnnotations.java:156-157 | with distinct field names the field map is one entry per column, field name to type name, in column order |
| Mapping.KeysConcat | src/main/java/com/ignite/utilities/ProcessAnnotations.java:78 | the key order of appended linked maps is the first map's keys followed by the second's |
| Mapping.FieldNamesMember | src/main/java/com/ignite/utilities/ProcessAnnotations.java:157 | a name is in the field map's key set exactly when some column has that field name |
| Mapping.ProjectAllLastKey | src/main/java/com/ignite/utilities/ProcessAnnotations.java:143-147 | the JDBC key type, the entity key type and the key field name are those of the last key column, and unset without one |
| Mapping.KeyNamesInFieldNames | src/main/java/com/ignite/utilities/ProcessAnnotations.java:149-157 | every entity key is also a key of the field map |
| Mapping.KeyOrderIndependent | src/main/java/com/ignite/utilities/ProcessAnnotations.java:77 | the entity key set depends only on which names are keys, not on their declaration order |
| ProcessAnnotations.EmittedRecord | src/main/java/com/ignite/utilities/ProcessAnnotations.java:140-159 | recording column after column gives the column list extended by the columns and the projections applied to them in order |
| ProcessAnnotations.CreateTableSchemaSpec | src/main/java/com/ignite/utilities/ProcessAnnotations.java:106-169 | `createTableSchema` throws exactly on a key before every column marker, with nothing recorded; otherwise the column list is the marked columns and the projections are those of the marked columns |
| ProcessAnnotations.LoadData | src/main/java/com/ignite/utilities/ProcessAnnotations.java:47-94 | without `@IgniteTable` nothing changes; with it the table, `JdbcType` and `QueryEntity` carry the annotation's cache name, the upper-cased table name and the class |
| ProcessAnnotations.LoadDataOutcome | src/main/java/com/ignite/utilities/ProcessAnnotations.java:82-92 | the call throws "id without column" exactly on the mid-loop condition, throws "missing id or column" exactly when the loop ends without both flags set, and passes otherwise |
| ProcessAnnotations.LoadDataThrowLeavesSchemaUnset | src/main/java/com/ignite/utilities/ProcessAnnotations.java:162-168 | after a mid-loop throw the table has no columns and the key and value arrays, the entity key set and the field map are never set |
| ProcessAnnotations.LoadDataColumns | src/main/java/com/ignite/utilities/ProcessAnnotations.java:159-168 | without a mid-loop throw, the table's columns are the marked fields' columns in declaration order |
| ProcessAnnotations.LoadDataJdbcType | src/main/java/com/ignite/utilities/ProcessAnnotations.java:84-85 | the key array holds exactly the key columns' fields; the value array is sized max(key count, value count), holds the non-key fields and pads with nulls; the key type is the last key column's type |
| ProcessAnnotations.LoadDataEntity | src/main/java/com/ignite/utilities/ProcessAnnotations.java:87-88 | the entity key set is sorted and holds exactly the key field names, all of them keys of the field map, which has one entry per column in column order |
| ProcessAnnotations.LoadDataKeepsFlags | src/main/java/com/ignite/utilities/ProcessAnnotations.java:117-128 | a set flag is never cleared |
| ProcessAnnotations.PassIsPermanent | src/main/java/com/ignite/utilities/ProcessAnnotations.java:90-92 | after one class has passed, both flags are set and every later class passes |
| ProcessAnnotations.PassWithoutKeyColumn | src/main/java/com/ignite/utilities/ProcessAnnotations.java:162-164 | a key marker without a column marker, after a column, passes with an empty key array and the lone value field |
| ProcessAnnotations.KeysInStringOrder | src/main/java/com/ignite/utilities/ProcessAnnotations.java:77 | keys declared as "zId" then "aId" give the entity key set ["aId", "zId"], while the key field name is the last declared key |
| ProcessAnnotationsDto.DualVocabulary | src/main/java/com/ignite/utilities/ProcessAnnotationsDTO.java:81-105 | a field is a key with `@IgniteId` or `@Id`, a column with `@IgniteColumn` or `@Column`, and the `@IgniteColumn` name wins when both are present |
| ProcessAnnotationsDto.EmittedAppend | src/main/java/com/ignite/utilities/ProcessAnnotationsDTO.java:116 | appending column after column gives the list extended by the columns |
| ProcessAnnotationsDto.CreateTableSchemaSpec | src/main/java/com/ignite/utilities/ProcessAnnotationsDTO.java:72-126 | the loop throws exactly on a key before every column marker; otherwise it collects the marked columns in declaration order |
| ProcessAnnotationsDto.LoadClassData | src/main/java/com/ignite/utilities/ProcessAnnotationsDTO.java:32-60 | null without `@IgniteTable`; a returned table carries the cache name, the upper-cased table name and the class |
| ProcessAnnotationsDto.LoadClassDataSpec | src/main/java/com/ignite/utilities/ProcessAnnotationsDTO.java:52-56 | each of the two exceptions is thrown exactly under its condition, and a table is returned exactly otherwise, holding the marked columns |
| ProcessAnnotationsDto.LoadClassDataKeepsFlags | src/main/java/com/ignite/utilities/ProcessAnnotationsDTO.java:81-107 | a set flag is never cleared |
| ProcessAnnotationsDto.ReusedAcceptsUnmarkedClass | src/main/java/com/ignite/utilities/ProcessAnnotationsDTO.java:19-20 | an object that has seen both markers accepts a later class with no markers and returns a table with no columns |
| ProcessAnnotationsDto.UnmarkedHasNoColumns | src/main/java/com/ignite/utilities/ProcessAnnotationsDTO.java:87 | fields without a column marker contribute no column |
| ProcessAnnotationsDto.AgreesWithProcessAnnotations | src/main/java/com/ignite/utilities/ProcessAnnotationsDTO.java:32-126 | on classes without JPA markers this revision returns a table exactly when `ProcessAnnotations.loadData` passes, the very table that one stores, and leaves the same flags |
| IgniteAutoConfig.EmittedProject | src/main/java/com/ignite/utilities/IgniteAutoConfig.java:132-147 | projecting column after column is the projection of the whole column list |
| IgniteAutoConfig.FillTableSchemaSpec | src/main/java/com/ignite/utilities/IgniteAutoConfig.java:107-154 | `fillTableSchema` throws exactly on a key before every column marker, having projected nothing; otherwise it projects the marked columns in declaration order |
| IgniteAutoConfig.DatabaseTable | src/main/java/com/ignite/utilities/IgniteAutoConfig.java:63 | the table name is the annotation's name, or the simple class name when it is "", not upper-cased |
| IgniteAutoConfig.LoadConfiguration | src/main/java/com/ignite/utilities/IgniteAutoConfig.java:55-96 | without `@IgniteTable` the static state is untouched; with it, new `JdbcType` and `QueryEntity` objects carry the cache name, the table name and the class, even when the call throws |
| IgniteAutoConfig.AgreesWithProcessAnnotations | src/main/java/com/ignite/utilities/IgniteAutoConfig.java:84-94 | from the same flags this revision gives the same outcome, flags and `QueryEntity` as `ProcessAnnotations.loadData`, and the same `JdbcType` up to the table name |
| IgniteAutoConfig.GettersShowLastClass | src/main/java/com/ignite/utilities/IgniteAutoConfig.java:35-45 | after a class with `@IgniteTable`, the getters show that class alone: the result depends on the earlier state only through the flags |
| IgniteAutoConfig.LoadConfigurationKeepsFlags | src/main/java/com/ignite/utilities/IgniteAutoConfig.java:114-124 | a set static flag is never cleared |
| IgniteAutoConfig.NoIdWithoutColumnAfterColumn | src/main/java/com/ignite/utilities/IgniteAutoConfig.java:150-152 | once a column marker has been seen, no later class fails the in-loop check |
| IgniteAutoConfig.PassIsPermanent | src/main/java/com/ignite/utilities/IgniteAutoConfig.java:92-94 | after one class passes, every later class passes |
| IgniteAutoConfig.SqlTypeTotal | src/main/java/com/ignite/utilities/IgniteAutoConfig.java:161-174 | every class gets one of the five SQL type codes, and `String` gets VARCHAR |
| CacheStore.Replace | src/main/java/com/ignite/utilities/GenerateCacheStore.java:114-115 | `StringBuilder.replace` throws exactly when start is negative, past the length or after end; otherwise the text before start is kept, the replacement follows, and the text from the clamped end follows it |
| CacheStore.TerminatedIsJoinThenSep | src/main/java/com/ignite/utilities/GenerateCacheStore.java:110-113 | appending each name followed by ", " gives the names joined by ", " plus one trailing ", " |
| CacheStore.TerminatedLength | src/main/java/com/ignite/utilities/GenerateCacheStore.java:110-113 | the buffer's length is the names' total length plus one separator per name |
| CacheStore.Names | src/main/java/com/ignite/utilities/GenerateCacheStore.java:109-111 | the column names, one per column, in column order |
| CacheStore.UpdateItems | src/main/java/com/ignite/utilities/GenerateCacheStore.java:137-139 | one `name = ?` item per column, in column order |
| CacheStore.Marks | src/main/java/com/ignite/utilities/GenerateCacheStore.java:112 | one " ?" placeholder per column |
| CacheStore.FirstKey | src/main/java/com/ignite/utilities/GenerateCacheStore.java:117-118 | the first key column's name, or `IndexOutOfBoundsException` exactly when no column is a key |
| CacheStore.BuildInsertQuery | src/main/java/com/ignite/utilities/GenerateCacheStore.java:101-110 | "" without a table, and a null dereference without a column list |
| CacheStore.BuildUpdateQuery | src/main/java/com/ignite/utilities/GenerateCacheStore.java:130-137 | "" without a table, and a null dereference without a column list |
| CacheStore.InsertQueryOutcome | src/main/java/com/ignite/utilities/GenerateCacheStore.java:105-119 | the INSERT builder throws `StringIndexOutOfBoundsException` exactly when 12 + the type name's length + the names' total length exceeds twice the column count; past that it throws `IndexOutOfBoundsException` exactly when no column is a key, and succeeds exactly when one is |
| CacheStore.MarksLength | src/main/java/com/ignite/utilities/GenerateCacheStore.java:112 | the placeholders take two characters per column |
| CacheStore.InsertFailsForTwoCharacterNames | src/main/java/com/ignite/utilities/GenerateCacheStore.java:114 | if every column name has at least two characters, the INSERT builder always throws |
| CacheStore.NamesAtLeast | src/main/java/com/ignite/utilities/GenerateCacheStore.java:111 | names of at least two characters total at least twice the column count |
| CacheStore.InsertQueryText | src/main/java/com/ignite/utilities/GenerateCacheStore.java:105-119 | a built INSERT is exactly: the table type, the column names joined by ", " in column order, the `" ?, "` buffer with the one character at the column part's length dropped, and `WHERE` on the first key column |
| CacheStore.UpdateQueryText | src/main/java/com/ignite/utilities/GenerateCacheStore.java:134-144 | with a key column, the UPDATE is `SET` followed with no space by every column, key included, as `name = ?` joined by ", ", then ` WHERE` on the first key column |
| CacheStore.UpdateQueryWithoutKey | src/main/java/com/ignite/utilities/GenerateCacheStore.java:142-143 | without a key column the UPDATE builder throws `IndexOutOfBoundsException` |
| CacheStore.FirstBindFailure | src/main/java/com/ignite/utilities/GenerateCacheStore.java:82-87 | the binds at the given positions succeed exactly when none of them fails; otherwise the result is the exception of the first failing position |
| CacheStore.TryPS | src/main/java/com/ignite/utilities/GenerateCacheStore.java:80-94 | no table or no column list fails with a null dereference; otherwise `n + 1` binds at positions 0 to n, the key last, and `true` exactly when none of them throws, else the exception of the first failing bind |
| CacheStore.CloseConnection | src/main/java/com/ignite/utilities/GenerateCacheStore.java:155-163 | the statement, if any, is closed, and a `close` exception is only printed, never raised |
| CacheStore.Write | src/main/java/com/ignite/utilities/GenerateCacheStore.java:35-66 | at most two statements are prepared, and the last is the one closed; the write passes exactly when the last prepared statement binds, and a second statement is prepared only after the first failed to bind; every failure carries the "Failed to put object" message; a failure with nothing prepared leaves the store as it was; a failure after two statements has the UPDATE's bind failure as its cause, and the store records it |
| CacheStore.WriteInsertSucceeds | src/main/java/com/ignite/utilities/GenerateCacheStore.java:46-47 | a new key: one statement prepared, bound and closed, the store unchanged, no UPDATE |
| CacheStore.WriteFallsBackToUpdate | src/main/java/com/ignite/utilities/GenerateCacheStore.java:47-53 | a failed INSERT bind is recorded and followed by one UPDATE, which passes and is the one statement closed |
| CacheStore.WriteBothFail | src/main/java/com/ignite/utilities/GenerateCacheStore.java:56-61 | when both binds fail, the raised exception's cause is the UPDATE's failure, which the store also records |
| CacheStore.WriteInsertBuildFails | src/main/java/com/ignite/utilities/GenerateCacheStore.java:46 | an INSERT text that cannot be built fails the write with that cause, before anything is prepared |
| CacheStore.WriteInsertPrepareFails | src/main/java/com/ignite/utilities/GenerateCacheStore.java:46 | a failing INSERT `prepareStatement` is the raised exception's cause; nothing is prepared or closed, and the store is unchanged |
| CacheStore.WriteUpdatePrepareFails | src/main/java/com/ignite/utilities/GenerateCacheStore.java:50-51 | a failing UPDATE `prepareStatement` after failed INSERT binds is the cause; the INSERT statement is the one closed, and the store keeps its bind failure |
| CacheStore.UpdateBuildsWhenInsertDoes | src/main/java/com/ignite/utilities/GenerateCacheStore.java:101-143 | whenever the INSERT text is built, the UPDATE text is built too, so `write` never raises an UPDATE build exception |
| CacheStore.WriteWithoutTable | src/main/java/com/ignite/utilities/GenerateCacheStore.java:46-64 | before `setTable`, both prepares of "" happen, both binds fail on the null table, only the second statement is closed, and the null dereference is the cause and is recorded |
| CacheStore.WriteWithoutConnection | src/main/java/com/ignite/utilities/GenerateCacheStore.java:44-46 | without a connection the write fails on a null dereference once the INSERT text is built |
| CacheStore.BindIgnoresClose | src/main/java/com/ignite/utilities/GenerateCacheStore.java:80-94 | whether `close` fails has no bearing on the binds |
| CacheStore.CloseFailuresSwallowed | src/main/java/com/ignite/utilities/GenerateCacheStore.java:155-163 | a write whose statements fail to close ends exactly as one whose statements close cleanly |
| CacheStore.PrepareIgnoresClose | src/main/java/com/ignite/utilities/GenerateCacheStore.java:46-52 | preparing through statements that close cleanly gives the same outcome and the same binds |
| CacheStore.Load | src/main/java/com/ignite/utilities/GenerateCacheStore.java:30-32 | `load` never returns a value |
| CacheStore.Delete | src/main/java/com/ignite/utilities/GenerateCacheStore.java:69-70 | `delete` has no effect |
| CacheConfiguration.Init | src/main/java/com/ignite/utilities/GenerateCacheConfiguration.java:31-35 | `init` replaces all three static fields with its arguments |
| CacheConfiguration.DefaultConfig | src/main/java/com/ignite/utilities/GenerateCacheConfiguration.java:45-53 | every cache starts with read-through, write-through and write-behind on, flush every 250 ms, atomic, no backups, the cache name, and no store or entities |
| CacheConfiguration.MapTables | src/main/java/com/ignite/utilities/GenerateCacheConfiguration.java:94-102 | the tables are mapped in list order: success exactly when every table maps, with one result per table; otherwise the exception of the first table that fails |
| CacheConfiguration.GenerateCacheStore | src/main/java/com/ignite/utilities/GenerateCacheConfiguration.java:76-77 | the cache-store path leaves the configuration as it was |
| CacheConfiguration.GenerateJdbcStore | src/main/java/com/ignite/utilities/GenerateCacheConfiguration.java:86-106 | a null table list throws; success exactly when every table maps; then one store factory with the data source and dialect, one `setTypes` call and one query entity per table in list order, and nothing else changed |
| CacheConfiguration.CacheFor | src/main/java/com/ignite/utilities/GenerateCacheConfiguration.java:42-59 | the cache-store path gives the defaults; a cache name without tables on the JDBC path throws a null dereference; a built configuration differs from the defaults only in store and entities |
| CacheConfiguration.CompletedFrom | src/main/java/com/ignite/utilities/GenerateCacheConfiguration.java:41-63 | the loop gets through exactly the names before the first one whose configuration throws |
| CacheConfiguration.GenerateCacheConfiguration | src/main/java/com/ignite/utilities/GenerateCacheConfiguration.java:37-70 | nothing escapes; the result holds exactly the names before the first failure, each mapped to its own configuration, which carries that name |
| CacheConfiguration.TwoTablesOneCache | src/main/java/com/ignite/utilities/GenerateCacheConfiguration.java:94-105 | two tables under one cache name give one store factory with two `setTypes` calls and both query entities, in order |
| CacheConfigurationFactory.WithFlushFrequency | src/main/java/com/ignite/utilities/CacheConfigurationFactory.java:17-20 | the frequency constructor keeps the given frequency and leaves the data source null |
| CacheConfigurationFactory.WithDataSource | src/main/java/com/ignite/utilities/CacheConfigurationFactory.java:22-25 | the data-source constructor keeps the data source and the field default of 250 |
| CacheConfigurationFactory.GenerateCacheConfig | src/main/java/com/ignite/utilities/CacheConfigurationFactory.java:27-47 | the caller's three flags and name, the factory's frequency, atomic with no backups, one store factory with the factory's data source, an H2 dialect and one `setTypes` call, and the given entities |
| CacheConfigurationFactory.IndependentOfClass | src/main/java/com/ignite/utilities/CacheConfigurationFactory.java:27 | the class argument has no effect on the result |
| CacheConfigurationFactory.MatchesAssemblerDefaults | src/main/java/com/ignite/utilities/CacheConfigurationFactory.java:27-36 | a data-source factory asked for all three flags gives the assembler's defaults, apart from store and entities |

## Left out

- Reflection and annotation lookup are not modelled. A class is given as its `Class` name data, its `@IgniteTable` if any, and its declared fields in declaration order. The JVM does not promise that order; the model takes it as given.
- `JavaLang.ToUpper`: upper-cases ASCII letters only. `String.toUpperCase()` depends on the default locale and covers all of Unicode.
- `Collections.Less`: compares `char` by `char` as `String.compareTo` does. Dafny's `char` is a Unicode scalar value rather than a UTF-16 code unit, so strings with characters outside the Basic Multilingual Plane may order differently.
- `CacheStore.TryPS`: does not model the values bound. Each column's bind passes a reflected `Field` of `TableDTO`, and real drivers reject position 0. The model leaves both to the abstract statement, which says which positions throw. `executeUpdate` is never called by the source, so it has no model. In the source, `getDeclaredFields()[i + 1]` indexes `TableDTO`'s five declared fields, so the array access throws `ArrayIndexOutOfBoundsException` from the fifth column on. Together with `CacheStore.InsertQueryOutcome`, this means the source's `write` never passes.
- `CacheStore.Write`: the cache entry's key and value are given as the strings `"" + key` renders, and the session's connection is a parameter (`None` for a null attachment). Its `prepare` takes the call's position in the write (0 for the INSERT, 1 for the UPDATE) as well as the text, so two prepares of one text may differ. A null session and the per-thread session lifecycle are not modelled.
- The stack traces printed by `closeConnection` and `generateCacheConfiguration` are console output only; they are recorded (`Closing.printed`) or dropped.
- Exception messages are modelled only for `write`'s `CacheLoaderException`. The extractors' messages are replaced by the `SchemaError` kinds.
- `GenerateMapping` is not part of this model: the class does not compile against the `TableDTO` it is called with. `generateJDBCStore` therefore takes the per-table mapping step as a parameter that may throw.
- `IgniteAutoConfig.getJDBCTypes()` and `getQueryEntities()`, which `CacheConfigurationFactory` calls, are not declared by `IgniteAutoConfig`. Their results are parameters of `CacheConfigurationFactory.GenerateCacheConfig`.
- `CacheJdbcPojoStoreFactory.setTypes` is recorded as the sequence of its calls (`StoreFactory.typeCalls`), without deciding whether a later call replaces or extends the earlier types.
- Null arguments to `init` (a null cache-name list or table map) are not modelled: the registry always holds a list and a map.
- The getters of `ProcessAnnotations` (`getTableData`, `getJDBCType`, `getQueryEntity`, `getCacheName`) are the fields of `ProcessAnnotations.Processor`.
- The Java `int` width of the write-behind flush frequency is not modelled; the model never does arithmetic on it.
- Concurrency: the cache engine's flush threads calling `write` concurrently, and the static state shared between threads by `IgniteAutoConfig` and `GenerateCacheConfiguration`.
