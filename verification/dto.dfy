/**
 * The two record classes the extractors fill and the cache store reads
 * (`dto/ColumnDTO.java`, `dto/TableDTO.java`). They carry no behaviour.
 */
module Dto {
  import opened JavaLang
  import opened Collections

  /** One mapped field: its column name, its Java name and type, and whether it is part of the key. */
  datatype ColumnDTO = ColumnDTO(isKey: bool, columnName: string, fieldName: string, fieldType: ClassTag)

  /**
   * One mapped class. `columns` is null until the extractor's field loop has
   * completed; it stays null when that loop throws.
   */
  datatype TableDTO = TableDTO(tableName: string, cacheName: string, tableType: ClassTag, columns: Option<seq<ColumnDTO>>)

  /** The columns' field names, in column order. */
  function ColumnFieldNames(cols: seq<ColumnDTO>): (ns: seq<string>)
    ensures |ns| == |cols|
    ensures forall i :: 0 <= i < |cols| ==> ns[i] == cols[i].fieldName
  {
    seq(|cols|, i requires 0 <= i < |cols| => cols[i].fieldName)
  }
}
