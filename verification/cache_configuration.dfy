/**
 * `GenerateCacheConfiguration`: one `CacheConfiguration` per registered
 * cache name, with fixed defaults and, unless the cache-store mode is set,
 * a JDBC store factory and one query entity per table of that cache. The
 * per-table mapping step is a parameter that may fail. An exception stops
 * the loop; it is printed and swallowed, and the caches completed so far
 * are returned.
 */
module CacheConfiguration {
  import opened JavaLang
  import opened Dto
  import opened Ignite

  /** The three static fields `init` sets. */
  datatype Registry = Registry(isCacheStore: bool, cacheTables: map<string, seq<TableDTO>>, cacheNames: seq<string>)

  /** The static fields before any `init`: an empty map, an empty list, and `false`. */
  const Unregistered := Registry(false, map[], [])

  /** `init`: all three fields are replaced, nothing of the previous registry survives. */
  function Init(previous: Registry, isCacheStore: bool, cacheTables: map<string, seq<TableDTO>>, cacheNames: seq<string>): (r: Registry)
    ensures r.isCacheStore == isCacheStore && r.cacheTables == cacheTables && r.cacheNames == cacheNames
  {
    Registry(isCacheStore, cacheTables, cacheNames)
  }

  /** What the mapping step yields for one table: its `JdbcType` and its `QueryEntity`. */
  datatype MappedTable = MappedTable(jdbcType: JdbcType, entity: QueryEntity)

  /** The per-table mapping step, which may throw. */
  type Mapper = TableDTO -> Result<MappedTable, Exc>

  /** The settings every generated configuration starts from. */
  function DefaultConfig(name: string): (c: CacheConfig)
    ensures c.name == name
    ensures c.readThrough && c.writeThrough && c.writeBehindEnabled
    ensures c.writeBehindFlushFrequency == 250 && c.atomicityMode == Atomic && c.backups == 0
    ensures c.storeFactory.None? && c.queryEntities.None?
  {
    CacheConfig(name, true, true, true, 250, Atomic, 0, None, None)
  }

  /** The mapping step over a cache's tables, in list order, stopping at the first exception. */
  function MapTables(tables: seq<TableDTO>, mapper: Mapper): (r: Result<seq<MappedTable>, Exc>)
    ensures r.Success? <==> forall i :: 0 <= i < |tables| ==> mapper(tables[i]).Success?
    ensures r.Success? ==> |r.value| == |tables| && forall i :: 0 <= i < |tables| ==> r.value[i] == mapper(tables[i]).value
    ensures r.Failure? ==>
              exists i :: 0 <= i < |tables| && mapper(tables[i]) == Failure(r.error)
                          && forall j :: 0 <= j < i ==> mapper(tables[j]).Success?
  {
    if |tables| == 0 then Success([])
    else
      match mapper(tables[0])
      case Failure(x) => Failure(x)
      case Success(m) =>
        var rest := MapTables(tables[1..], mapper);
        assert forall i :: 0 < i < |tables| ==> tables[i] == tables[1..][i - 1];
        match rest
        case Failure(x) =>
          var i :| 0 <= i < |tables[1..]| && mapper(tables[1..][i]) == Failure(x)
                   && forall j :: 0 <= j < i ==> mapper(tables[1..][j]).Success?;
          assert mapper(tables[i + 1]) == Failure(x);
          Failure(x)
        case Success(ms) => Success([m] + ms)
  }

  /** `generateCacheStore`: its body is empty, so the configuration is left as it was. */
  function GenerateCacheStore(config: CacheConfig, tables: Option<seq<TableDTO>>): (r: CacheConfig)
    ensures r == config
  {
    config
  }

  /**
   * `generateJDBCStore`: a null table list throws; otherwise one `setTypes`
   * call and one query entity per table, in list order, under one store
   * factory carrying the data source and the dialect.
   */
  function GenerateJdbcStore(config: CacheConfig, dataSource: Option<DataSourceRef>, dialect: Option<Dialect>,
                             tables: Option<seq<TableDTO>>, mapper: Mapper): (r: Result<CacheConfig, Exc>)
    ensures tables.None? ==> r == Failure(NullPointer)
    ensures tables.Some? ==> (r.Success? <==> forall i :: 0 <= i < |tables.value| ==> mapper(tables.value[i]).Success?)
    ensures r.Success? ==>
              var ts := tables.value;
              && r.value == config.(storeFactory := r.value.storeFactory, queryEntities := r.value.queryEntities)
              && r.value.storeFactory.Some? && r.value.queryEntities.Some?
              && r.value.storeFactory.value.dataSource == dataSource
              && r.value.storeFactory.value.dialect == dialect
              && |r.value.storeFactory.value.typeCalls| == |ts| == |r.value.queryEntities.value|
              && forall i :: 0 <= i < |ts| ==>
                   && r.value.storeFactory.value.typeCalls[i] == [mapper(ts[i]).value.jdbcType]
                   && r.value.queryEntities.value[i] == mapper(ts[i]).value.entity
  {
    match tables
    case None => Failure(NullPointer)
    case Some(ts) =>
      match MapTables(ts, mapper)
      case Failure(x) => Failure(x)
      case Success(ms) =>
        var calls := seq(|ms|, i requires 0 <= i < |ms| => [ms[i].jdbcType]);
        var entities := seq(|ms|, i requires 0 <= i < |ms| => ms[i].entity);
        Success(config.(storeFactory := Some(StoreFactory(dataSource, dialect, calls)), queryEntities := Some(entities)))
  }

  /** The configuration of one cache name: the loop body. */
  function CacheFor(reg: Registry, name: string, dataSource: Option<DataSourceRef>, dialect: Option<Dialect>, mapper: Mapper): (r: Result<CacheConfig, Exc>)
    ensures reg.isCacheStore ==> r == Success(DefaultConfig(name))
    ensures !reg.isCacheStore && name !in reg.cacheTables ==> r == Failure(NullPointer)
    ensures r.Success? ==> r.value.(storeFactory := None, queryEntities := None) == DefaultConfig(name)
  {
    var config := DefaultConfig(name);
    var tables := if name in reg.cacheTables then Some(reg.cacheTables[name]) else None;
    if reg.isCacheStore then Success(GenerateCacheStore(config, tables))
    else GenerateJdbcStore(config, dataSource, dialect, tables, mapper)
  }

  /** Reference: how many names, from position `i` on, the loop gets through before the first failure. */
  function CompletedFrom(reg: Registry, dataSource: Option<DataSourceRef>, dialect: Option<Dialect>, mapper: Mapper, i: nat): (k: nat)
    requires i <= |reg.cacheNames|
    ensures i <= k <= |reg.cacheNames|
    ensures forall j :: i <= j < k ==> CacheFor(reg, reg.cacheNames[j], dataSource, dialect, mapper).Success?
    ensures k < |reg.cacheNames| ==> CacheFor(reg, reg.cacheNames[k], dataSource, dialect, mapper).Failure?
    decreases |reg.cacheNames| - i
  {
    if i == |reg.cacheNames| then i
    else if CacheFor(reg, reg.cacheNames[i], dataSource, dialect, mapper).Failure? then i
    else CompletedFrom(reg, dataSource, dialect, mapper, i + 1)
  }

  /**
   * `generateCacheConfiguration`. Nothing escapes: the result holds exactly
   * the names before the first failing one, each mapped to its own
   * configuration, which carries that name.
   */
  method GenerateCacheConfiguration(reg: Registry, dataSource: Option<DataSourceRef>, dialect: Option<Dialect>, mapper: Mapper)
    returns (configs: map<string, CacheConfig>)
    ensures var k := CompletedFrom(reg, dataSource, dialect, mapper, 0);
            configs.Keys == set j | 0 <= j < k :: reg.cacheNames[j]
    ensures forall n :: n in configs ==> CacheFor(reg, n, dataSource, dialect, mapper) == Success(configs[n])
    ensures forall n :: n in configs ==> configs[n].name == n
  {
    configs := map[];
    var i := 0;
    while i < |reg.cacheNames|
      invariant 0 <= i <= |reg.cacheNames|
      invariant forall j :: 0 <= j < i ==> CacheFor(reg, reg.cacheNames[j], dataSource, dialect, mapper).Success?
      invariant configs.Keys == set j | 0 <= j < i :: reg.cacheNames[j]
      invariant forall n :: n in configs ==> CacheFor(reg, n, dataSource, dialect, mapper) == Success(configs[n])
    {
      var r := CacheFor(reg, reg.cacheNames[i], dataSource, dialect, mapper);
      if r.Failure? {
        break;
      }
      configs := configs[reg.cacheNames[i] := r.value];
      i := i + 1;
    }
    assert i == CompletedFrom(reg, dataSource, dialect, mapper, 0);
  }

  /**
   * Two tables registered under one cache name give that cache one store
   * factory with two `setTypes` calls and two query entities.
   */
  lemma TwoTablesOneCache(name: string, t1: TableDTO, t2: TableDTO, dataSource: Option<DataSourceRef>, dialect: Option<Dialect>, mapper: Mapper)
    requires mapper(t1).Success? && mapper(t2).Success?
    ensures var reg := Registry(false, map[name := [t1, t2]], [name]);
            var r := CacheFor(reg, name, dataSource, dialect, mapper);
            && r.Success?
            && |r.value.storeFactory.value.typeCalls| == 2
            && r.value.queryEntities.value == [mapper(t1).value.entity, mapper(t2).value.entity]
  {
    var reg := Registry(false, map[name := [t1, t2]], [name]);
    var r := CacheFor(reg, name, dataSource, dialect, mapper);
    assert [t1, t2][0] == t1 && [t1, t2][1] == t2;
    assert r.Success?;
  }
}
