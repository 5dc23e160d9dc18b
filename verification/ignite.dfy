/**
 * The Ignite library objects the core builds, as plain records of the values
 * handed to their setters. A setter that was never called leaves `None`
 * (whatever the library's own default is). An array argument may hold null
 * slots, hence `seq<Option<_>>`.
 */
module Ignite {
  import opened JavaLang

  /** `JdbcTypeField(databaseFieldType, databaseFieldName, javaFieldType, javaFieldName)`. */
  datatype JdbcTypeField = JdbcTypeField(databaseFieldType: int, databaseFieldName: string, javaFieldType: ClassTag, javaFieldName: string)

  /** The key/value binding of one class to one database table. */
  datatype JdbcType = JdbcType(
    cacheName: string,
    valueType: ClassTag,
    databaseTable: string,
    keyType: Option<ClassTag>,
    keyFields: Option<seq<Option<JdbcTypeField>>>,
    valueFields: Option<seq<Option<JdbcTypeField>>>)

  /**
   * The query schema of one class. `keyFields` is the iteration order of the
   * `TreeSet` handed to `setKeyFields`; `fields` the entries of the
   * `LinkedHashMap` handed to `setFields`.
   */
  datatype QueryEntity = QueryEntity(
    valueType: string,
    keyType: Option<string>,
    keyFieldName: Option<string>,
    keyFields: Option<seq<string>>,
    fields: Option<seq<(string, string)>>)

  /** A `Factory<DataSource>` the core only passes along. */
  datatype DataSourceRef = DataSourceRef(id: nat)

  /** A `JdbcDialect`: the H2 one the factory creates, or one supplied by the caller. */
  datatype Dialect = H2Dialect | SuppliedDialect(id: nat)

  datatype AtomicityMode = Atomic | Transactional

  /**
   * `CacheJdbcPojoStoreFactory`. Each element of `typeCalls` is the argument
   * array of one `setTypes` call, in call order; whether the library appends
   * or replaces on a repeated call is not modelled.
   */
  datatype StoreFactory = StoreFactory(dataSource: Option<DataSourceRef>, dialect: Option<Dialect>, typeCalls: seq<seq<JdbcType>>)

  /** `CacheConfiguration`. */
  datatype CacheConfig = CacheConfig(
    name: string,
    readThrough: bool,
    writeThrough: bool,
    writeBehindEnabled: bool,
    writeBehindFlushFrequency: int,
    atomicityMode: AtomicityMode,
    backups: int,
    storeFactory: Option<StoreFactory>,
    queryEntities: Option<seq<QueryEntity>>)
}
