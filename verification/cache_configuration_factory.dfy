/**
 * `CacheConfigurationFactory`: builds one cache configuration from caller
 * flags, always with an H2 dialect. The JDBC types and query entities come
 * from `IgniteAutoConfig.getJDBCTypes()` and `getQueryEntities()`, which
 * the `IgniteAutoConfig` class does not declare; their results are
 * parameters here.
 */
module CacheConfigurationFactory {
  import opened JavaLang
  import opened Ignite
  import CacheConfiguration

  /** The factory's two fields: the write-behind flush frequency and the data-source factory (null as `None`). */
  datatype ConfigFactory = ConfigFactory(writeBehindFlushFreq: int, dataSource: Option<DataSourceRef>)

  /** The field initialiser of `writeBehindFlushFreq`. */
  const DefaultFlushFrequency: int := 250

  /** `new CacheConfigurationFactory(int)`: the given frequency, no data source. */
  function WithFlushFrequency(writeBehindFlushFreq: int): (f: ConfigFactory)
    ensures f.writeBehindFlushFreq == writeBehindFlushFreq && f.dataSource == None
  {
    ConfigFactory(writeBehindFlushFreq, None)
  }

  /** `new CacheConfigurationFactory(Factory<DataSource>)`: the given data source, the default frequency. */
  function WithDataSource(dataSource: Option<DataSourceRef>): (f: ConfigFactory)
    ensures f.writeBehindFlushFreq == 250 && f.dataSource == dataSource
  {
    ConfigFactory(DefaultFlushFrequency, dataSource)
  }

  /**
   * `generateCacheConfig`. `classToConfig` is accepted and never read; the
   * types and entities are what the two `IgniteAutoConfig` calls return.
   */
  function GenerateCacheConfig(f: ConfigFactory, classToConfig: ClassTag, cacheName: string,
                               readThrough: bool, writeThrough: bool, writeBehind: bool,
                               jdbcTypes: seq<JdbcType>, queryEntities: Option<seq<QueryEntity>>): (c: CacheConfig)
    ensures c.readThrough == readThrough && c.writeThrough == writeThrough && c.writeBehindEnabled == writeBehind
    ensures c.writeBehindFlushFrequency == f.writeBehindFlushFreq
    ensures c.name == cacheName && c.atomicityMode == Atomic && c.backups == 0
    ensures c.storeFactory == Some(StoreFactory(f.dataSource, Some(H2Dialect), [jdbcTypes]))
    ensures c.queryEntities == queryEntities
  {
    var storeFactory := StoreFactory(f.dataSource, Some(H2Dialect), [jdbcTypes]);
    CacheConfig(cacheName, readThrough, writeThrough, writeBehind, f.writeBehindFlushFreq, Atomic, 0, Some(storeFactory), queryEntities)
  }

  /** The result does not depend on the class argument. */
  lemma IndependentOfClass(f: ConfigFactory, c1: ClassTag, c2: ClassTag, cacheName: string,
                           readThrough: bool, writeThrough: bool, writeBehind: bool,
                           jdbcTypes: seq<JdbcType>, queryEntities: Option<seq<QueryEntity>>)
    ensures GenerateCacheConfig(f, c1, cacheName, readThrough, writeThrough, writeBehind, jdbcTypes, queryEntities)
         == GenerateCacheConfig(f, c2, cacheName, readThrough, writeThrough, writeBehind, jdbcTypes, queryEntities)
  {
  }

  /**
   * A factory built from a data source, asked for all three flags, gives the
   * assembler's defaults for that name, differing only in the store and
   * entities it attaches.
   */
  lemma MatchesAssemblerDefaults(dataSource: Option<DataSourceRef>, classToConfig: ClassTag, cacheName: string,
                                 jdbcTypes: seq<JdbcType>, queryEntities: Option<seq<QueryEntity>>)
    ensures var c := GenerateCacheConfig(WithDataSource(dataSource), classToConfig, cacheName, true, true, true, jdbcTypes, queryEntities);
            c.(storeFactory := None, queryEntities := None) == CacheConfiguration.DefaultConfig(cacheName)
  {
  }
}
