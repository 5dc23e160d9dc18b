/**
 * `GenerateCacheStore`: the write-through store. `write` builds an INSERT,
 * tries to bind it, and on failure builds and tries an UPDATE; the JDBC
 * connection and statements are abstract: preparing a statement may fail,
 * and each statement says which bind positions fail and whether `close`
 * fails. The SQL text is built with `StringBuilder` operations, modelled
 * exactly, including `replace`.
 */
module CacheStore {
  import opened JavaLang
  import opened Dto

  const SET_QM := " = ?"

  // ---------------------------------------------------------------------------
  // Text building.
  // ---------------------------------------------------------------------------

  /**
   * `StringBuilder.replace(start, end, str)`: throws when `start` is negative,
   * past the end, or after `end`; otherwise an `end` past the length is
   * clamped to the length and `sb[start..end]` is replaced by `str`.
   */
  function Replace(sb: string, start: int, end: int, str: string): (r: Result<string, Exc>)
    ensures r.Failure? <==> start < 0 || start > |sb| || start > end
    ensures r.Failure? ==> r.error == StringIndexOutOfBounds
    ensures r.Success? ==>
              && |r.value| == |sb| - (Min(end, |sb|) - start) + |str|
              && r.value[..start] == sb[..start]
              && r.value[start..start + |str|] == str
              && r.value[start + |str|..] == sb[Min(end, |sb|)..]
  {
    if start < 0 || start > |sb| || start > end then Failure(StringIndexOutOfBounds)
    else
      var r := sb[..start] + str + sb[Min(end, |sb|)..];
      assert r[..start] == sb[..start];
      assert r[start..start + |str|] == str;
      Success(r)
  }

  /** Each string followed by `sep`: what a loop appending `x + sep` leaves in the buffer. */
  function Terminated(xs: seq<string>, sep: string): string
  {
    if |xs| == 0 then "" else xs[0] + sep + Terminated(xs[1..], sep)
  }

  /** The strings separated by `sep`. */
  function Join(xs: seq<string>, sep: string): string
  {
    if |xs| == 0 then "" else if |xs| == 1 then xs[0] else xs[0] + sep + Join(xs[1..], sep)
  }

  function SumLengths(xs: seq<string>): nat
  {
    if |xs| == 0 then 0 else |xs[0]| + SumLengths(xs[1..])
  }

  /** The buffer after the loop is the join followed by one trailing separator. */
  lemma {:induction false} TerminatedIsJoinThenSep(xs: seq<string>, sep: string)
    requires |xs| > 0
    ensures Terminated(xs, sep) == Join(xs, sep) + sep
    decreases |xs|
  {
    if |xs| == 1 {
      assert xs[1..] == [];
    } else {
      TerminatedIsJoinThenSep(xs[1..], sep);
    }
  }

  lemma {:induction false} TerminatedLength(xs: seq<string>, sep: string)
    ensures |Terminated(xs, sep)| == SumLengths(xs) + |xs| * |sep|
    decreases |xs|
  {
    if |xs| > 0 {
      TerminatedLength(xs[1..], sep);
    }
  }

  /** The column names, in column order. */
  function Names(cols: seq<ColumnDTO>): (ns: seq<string>)
    ensures |ns| == |cols|
    ensures forall i :: 0 <= i < |cols| ==> ns[i] == cols[i].columnName
  {
    if |cols| == 0 then [] else [cols[0].columnName] + Names(cols[1..])
  }

  /** `name = ?` for every column, in column order. */
  function UpdateItems(cols: seq<ColumnDTO>): (items: seq<string>)
    ensures |items| == |cols|
    ensures forall i :: 0 <= i < |cols| ==> items[i] == cols[i].columnName + SET_QM
  {
    if |cols| == 0 then [] else [cols[0].columnName + SET_QM] + UpdateItems(cols[1..])
  }

  /** `n` copies of the placeholder `" ?"`. */
  function Marks(n: nat): (ms: seq<string>)
    ensures |ms| == n
    ensures forall i :: 0 <= i < n ==> ms[i] == " ?"
  {
    seq(n, _ => " ?")
  }

  /**
   * `columns.stream().filter(isKey).collect(toList()).get(0).getColumnName()`:
   * the first key column's name, or `IndexOutOfBoundsException` when there
   * is no key column.
   */
  function FirstKey(cols: seq<ColumnDTO>): (r: Result<string, Exc>)
    ensures r.Failure? <==> forall i :: 0 <= i < |cols| ==> !cols[i].isKey
    ensures r.Failure? ==> r.error == IndexOutOfBounds
    ensures r.Success? ==>
              exists i :: 0 <= i < |cols| && cols[i].isKey && cols[i].columnName == r.value
                          && forall j :: 0 <= j < i ==> !cols[j].isKey
  {
    if |cols| == 0 then Failure(IndexOutOfBounds)
    else if cols[0].isKey then Success(cols[0].columnName)
    else
      var r := FirstKey(cols[1..]);
      if r.Success? then
        var i :| 0 <= i < |cols[1..]| && cols[1..][i].isKey && cols[1..][i].columnName == r.value
                 && forall j :: 0 <= j < i ==> !cols[1..][j].isKey;
        assert cols[i + 1] == cols[1..][i];
        assert forall j :: 0 < j < i + 1 ==> cols[j] == cols[1..][j - 1];
        r
      else
        assert forall i :: 0 < i < |cols| ==> cols[i] == cols[1..][i - 1];
        r
  }

  /** The INSERT buffer before trimming: `"INSERT INTO " + tableType + " ("` and every `name + ", "`. */
  function InsertHead(t: TableDTO, cols: seq<ColumnDTO>): string
  {
    "INSERT INTO " + t.tableType.display + " (" + Terminated(Names(cols), ", ")
  }

  /**
   * `buildInsertQuery`: "" without a table. The placeholder buffer is
   * trimmed with positions taken from the column buffer's length, so the
   * trim throws unless the placeholders are at least as long as the column
   * part.
   */
  function BuildInsertQuery(table: Option<TableDTO>): (r: Result<string, Exc>)
    ensures table.None? ==> r == Success("")
    ensures table.Some? && table.value.columns.None? ==> r == Failure(NullPointer)
  {
    match table
    case None => Success("")
    case Some(t) =>
      match t.columns
      case None => Failure(NullPointer)
      case Some(cols) =>
        var sb := InsertHead(t, cols);
        var qm := Terminated(Marks(|cols|), ", ");
        match Replace(qm, |sb| - 2, |sb| - 1, "")
        case Failure(x) => Failure(x)
        case Success(qmTrimmed) =>
          match Replace(sb, |sb| - 2, |sb|, "")
          case Failure(x) => Failure(x)
          case Success(sbTrimmed) =>
            match FirstKey(cols)
            case Failure(x) => Failure(x)
            case Success(k) => Success(sbTrimmed + ") VALUES (" + qmTrimmed + ") WHERE " + k + SET_QM)
  }

  /**
   * `buildUpdateQuery`: "" without a table; otherwise `"UPDATE " + tableType
   * + " SET"`, every `name + " = ?, "`, the last comma removed, then the
   * WHERE clause on the first key column.
   */
  function BuildUpdateQuery(table: Option<TableDTO>): (r: Result<string, Exc>)
    ensures table.None? ==> r == Success("")
    ensures table.Some? && table.value.columns.None? ==> r == Failure(NullPointer)
  {
    match table
    case None => Success("")
    case Some(t) =>
      match t.columns
      case None => Failure(NullPointer)
      case Some(cols) =>
        var sb := "UPDATE " + t.tableType.display + " SET" + Terminated(UpdateItems(cols), ", ");
        match Replace(sb, |sb| - 2, |sb| - 1, "")
        case Failure(x) => Failure(x)
        case Success(trimmed) =>
          match FirstKey(cols)
          case Failure(x) => Failure(x)
          case Success(k) => Success(trimmed + "WHERE " + k + SET_QM)
  }

  /**
   * With a column list, the INSERT builder throws `StringIndexOutOfBounds`
   * exactly when 12 + |tableType| + the column names' total length exceeds
   * twice the column count; past that it throws `IndexOutOfBounds` exactly
   * when no column is a key.
   */
  lemma InsertQueryOutcome(t: TableDTO)
    requires t.columns.Some?
    ensures var cols := t.columns.value;
            var tooShort := 12 + |t.tableType.display| + SumLengths(Names(cols)) > 2 * |cols|;
            var r := BuildInsertQuery(Some(t));
            && (r == Failure(StringIndexOutOfBounds) <==> tooShort)
            && (r == Failure(IndexOutOfBounds) <==> !tooShort && forall i :: 0 <= i < |cols| ==> !cols[i].isKey)
            && (r.Success? <==> !tooShort && exists i :: 0 <= i < |cols| && cols[i].isKey)
  {
    var cols := t.columns.value;
    TerminatedLength(Names(cols), ", ");
    TerminatedLength(Marks(|cols|), ", ");
    MarksLength(|cols|);
  }

  lemma {:induction false} MarksLength(n: nat)
    ensures SumLengths(Marks(n)) == 2 * n
    decreases n
  {
    if n > 0 {
      MarksLength(n - 1);
      assert Marks(n)[1..] == Marks(n - 1);
    }
  }

  /**
   * In particular a table whose column names all have at least two
   * characters can never be inserted: the builder always throws.
   */
  lemma InsertFailsForTwoCharacterNames(t: TableDTO)
    requires t.columns.Some?
    requires forall i :: 0 <= i < |t.columns.value| ==> |t.columns.value[i].columnName| >= 2
    ensures BuildInsertQuery(Some(t)) == Failure(StringIndexOutOfBounds)
  {
    NamesAtLeast(t.columns.value);
    InsertQueryOutcome(t);
  }

  lemma {:induction false} NamesAtLeast(cols: seq<ColumnDTO>)
    requires forall i :: 0 <= i < |cols| ==> |cols[i].columnName| >= 2
    ensures SumLengths(Names(cols)) >= 2 * |cols|
    decreases |cols|
  {
    if |cols| > 0 {
      assert forall i :: 0 <= i < |cols[1..]| ==> cols[1..][i] == cols[i + 1];
      NamesAtLeast(cols[1..]);
      assert Names(cols)[1..] == Names(cols[1..]);
    }
  }

  /** `s` without its character at position `p`, or `s` itself when `p` is past the end. */
  function DropAt(s: string, p: nat): string
  {
    if p < |s| then s[..p] + s[p + 1..] else s
  }

  /**
   * When the INSERT text is built, its column list is the column names
   * joined by ", " in column order, and it ends with a WHERE clause on the
   * first key column. Its placeholder part is the untrimmed `" ?, "` buffer
   * with one character dropped, at the position given by the length of the
   * text before the column list's trailing ", ".
   */
  lemma InsertQueryText(t: TableDTO)
    requires t.columns.Some? && BuildInsertQuery(Some(t)).Success?
    ensures var cols := t.columns.value;
            var head := "INSERT INTO " + t.tableType.display + " (" + Join(Names(cols), ", ");
            var placeholders := DropAt(Terminated(Marks(|cols|), ", "), |head|);
            BuildInsertQuery(Some(t))
              == Success(head + ") VALUES (" + placeholders + ") WHERE " + FirstKey(cols).value + " = ?")
  {
    var cols := t.columns.value;
    assert |cols| > 0;
    TerminatedIsJoinThenSep(Names(cols), ", ");
    var sb := InsertHead(t, cols);
    var head := "INSERT INTO " + t.tableType.display + " (" + Join(Names(cols), ", ");
    assert sb == head + ", ";
    assert sb[..|sb| - 2] == head;
    var qm := Terminated(Marks(|cols|), ", ");
    var qmTrimmed := Replace(qm, |sb| - 2, |sb| - 1, "").value;
    assert qmTrimmed == DropAt(qm, |head|) by {
      if |head| < |qm| {
        assert qmTrimmed == qm[..|head|] + qm[|head| + 1..];
      } else {
        assert qmTrimmed == qm[..|head|] + qm[|qm|..];
        assert qm[..|head|] == qm;
      }
    }
    assert Replace(sb, |sb| - 2, |sb|, "").value == head;
  }

  /**
   * The UPDATE text, whenever some column is a key: every column (the key
   * included) as `name = ?`, joined by ", ", right after "SET" with no space,
   * then " WHERE " and the first key column.
   */
  lemma UpdateQueryText(t: TableDTO)
    requires t.columns.Some? && exists i :: 0 <= i < |t.columns.value| && t.columns.value[i].isKey
    ensures var cols := t.columns.value;
            BuildUpdateQuery(Some(t)) ==
              Success("UPDATE " + t.tableType.display + " SET" + Join(UpdateItems(cols), ", ") + " WHERE " + FirstKey(cols).value + " = ?")
  {
    var cols := t.columns.value;
    assert |cols| > 0;
    TerminatedIsJoinThenSep(UpdateItems(cols), ", ");
    var head := "UPDATE " + t.tableType.display + " SET" + Join(UpdateItems(cols), ", ");
    var sb := "UPDATE " + t.tableType.display + " SET" + Terminated(UpdateItems(cols), ", ");
    assert sb == head + ", ";
    var trimmed := Replace(sb, |sb| - 2, |sb| - 1, "").value;
    assert sb[..|sb| - 2] == head;
    assert sb[|sb| - 1..] == " ";
    assert trimmed == trimmed[..|sb| - 2] + trimmed[|sb| - 2..];
    assert trimmed == head + " ";
    assert FirstKey(cols).Success?;
    var k := FirstKey(cols).value;
    assert BuildUpdateQuery(Some(t)) == Success(trimmed + "WHERE " + k + SET_QM);
    assert " " + "WHERE " == " WHERE ";
    assert (head + " ") + "WHERE " + k + SET_QM == head + " WHERE " + k + " = ?";
  }

  /** Without a key column the UPDATE builder throws `IndexOutOfBounds`, whatever the names. */
  lemma UpdateQueryWithoutKey(t: TableDTO)
    requires t.columns.Some? && forall i :: 0 <= i < |t.columns.value| ==> !t.columns.value[i].isKey
    ensures BuildUpdateQuery(Some(t)) == Failure(IndexOutOfBounds)
  {
  }

  // ---------------------------------------------------------------------------
  // Statements and the write protocol.
  // ---------------------------------------------------------------------------

  /**
   * A prepared statement as the store sees it: an identity, the exception
   * `setObject` throws at each failing position, and the exception `close`
   * throws, if any.
   */
  datatype Stmt = Stmt(handle: nat, bindFailures: map<nat, Exc>, closeFailure: Option<Exc>)

  /**
   * The session's connection: what the `call`-th `prepareStatement` of one
   * write gives for an SQL text. Two calls with the same text may give two
   * different statements, or one may throw where the other does not.
   */
  datatype Conn = Conn(prepare: (nat, string) -> Result<Stmt, Exc>)

  /** The position of the INSERT's and the UPDATE's `prepareStatement` calls within one write. */
  const InsertCall: nat := 0
  const UpdateCall: nat := 1

  /** The cache entry being written, as `String.valueOf` renders its key and value. */
  datatype Entry = Entry(key: string, value: string)

  datatype CacheLoaderException = CacheLoaderException(message: string, cause: Exc)

  /** The store object: the table it writes to and the last exception `tryPS` recorded (null as `None`). */
  datatype Store = Store(table: Option<TableDTO>, e: Option<Exc>)

  /** The message of the exception `write` raises. */
  function FailureMessage(entry: Entry): string
  {
    "Failed to put object [key=" + entry.key + ", val=" + entry.value + "]"
  }

  /**
   * The binds at positions `i..n`, in order (the columns, then the key at
   * `n`): the first failing one's exception, or `None` when all succeed.
   */
  function FirstBindFailure(ps: Stmt, i: nat, n: nat): (r: Option<Exc>)
    requires i <= n + 1
    ensures r.None? <==> forall j :: i <= j <= n ==> j !in ps.bindFailures
    ensures r.Some? ==>
              exists j :: && i <= j <= n && j in ps.bindFailures && r.value == ps.bindFailures[j]
                          && forall k :: i <= k < j ==> k !in ps.bindFailures
    decreases n + 1 - i
  {
    if i > n then None
    else if i in ps.bindFailures then Some(ps.bindFailures[i])
    else
      var rest := FirstBindFailure(ps, i + 1, n);
      if rest.Some? then
        var j :| && i + 1 <= j <= n && j in ps.bindFailures && rest.value == ps.bindFailures[j]
                 && forall k :: i + 1 <= k < j ==> k !in ps.bindFailures;
        assert forall k :: i <= k < j ==> k !in ps.bindFailures;
        rest
      else rest
  }

  /**
   * `tryPS`: one bind per column and then the key, stopping at the first
   * exception, which it returns to be recorded (`None` means it returned
   * true). A missing table or column list fails with a null dereference.
   */
  function TryPS(table: Option<TableDTO>, ps: Stmt): (r: Option<Exc>)
    ensures table.None? || table.value.columns.None? ==> r == Some(NullPointer)
    ensures table.Some? && table.value.columns.Some? ==>
              (r.None? <==> forall j :: 0 <= j <= |table.value.columns.value| ==> j !in ps.bindFailures)
    ensures table.Some? && table.value.columns.Some? && r.Some? ==>
              exists j :: && 0 <= j <= |table.value.columns.value| && j in ps.bindFailures && r.value == ps.bindFailures[j]
                          && forall k :: 0 <= k < j ==> k !in ps.bindFailures
  {
    match table
    case None => Some(NullPointer)
    case Some(t) =>
      match t.columns
      case None => Some(NullPointer)
      case Some(cols) => FirstBindFailure(ps, 0, |cols|)
  }

  /** `closeConnection`: `close` is called on the statement if there is one; its exception is only printed. */
  datatype Closing = Closing(closed: Option<Stmt>, printed: Option<Exc>)

  function CloseConnection(ps: Option<Stmt>): (r: Closing)
    ensures r.closed == ps
    ensures r.printed.Some? ==> ps.Some? && ps.value.closeFailure == r.printed
  {
    match ps
    case None => Closing(None, None)
    case Some(st) => Closing(Some(st), st.closeFailure)
  }

  /**
   * What one `write` did: the store afterwards, how it ended, the statements
   * prepared in order, and the `finally` block's close.
   */
  datatype WriteReport = WriteReport(store: Store, result: Outcome<CacheLoaderException>, prepared: seq<Stmt>, closing: Closing)

  function Last<T>(s: seq<T>): Option<T>
  {
    if |s| == 0 then None else Some(s[|s| - 1])
  }

  /** The `catch`/`finally` epilogue: wrap the exception if any, close the last statement. */
  function Finish(s: Store, entry: Entry, failure: Option<Exc>, prepared: seq<Stmt>): WriteReport
  {
    var result := if failure.None? then Pass else Fail(CacheLoaderException(FailureMessage(entry), failure.value));
    WriteReport(s, result, prepared, CloseConnection(Last(prepared)))
  }

  /**
   * `write`. The INSERT is built before the null connection is noticed (the
   * argument of `prepareStatement` is evaluated first); the UPDATE is built
   * and prepared only after the INSERT's binds failed; every exception ends
   * in the same `CacheLoaderException`; `finally` closes only the statement
   * prepared last.
   */
  function Write(s: Store, entry: Entry, conn: Option<Conn>): (r: WriteReport)
    ensures |r.prepared| <= 2
    ensures r.closing.closed == Last(r.prepared)
    ensures r.result.Pass? <==> |r.prepared| > 0 && TryPS(s.table, r.prepared[|r.prepared| - 1]).None?
    ensures |r.prepared| == 2 ==> TryPS(s.table, r.prepared[0]).Some?
    ensures r.result.Fail? ==> r.result.error.message == FailureMessage(entry)
    ensures r.store.table == s.table
    ensures |r.prepared| == 0 ==> r.result.Fail? && r.store == s
    ensures |r.prepared| == 2 && r.result.Fail? ==>
              && r.result.error.cause == TryPS(s.table, r.prepared[1]).value
              && r.store.e == TryPS(s.table, r.prepared[1])
  {
    match BuildInsertQuery(s.table)
    case Failure(x) => Finish(s, entry, Some(x), [])
    case Success(insertSql) =>
      if conn.None? then Finish(s, entry, Some(NullPointer), [])
      else
        match conn.value.prepare(InsertCall, insertSql)
        case Failure(x) => Finish(s, entry, Some(x), [])
        case Success(ps1) =>
          match TryPS(s.table, ps1)
          case None => Finish(s, entry, None, [ps1])
          case Some(e1) =>
            var s1 := s.(e := Some(e1));
            match BuildUpdateQuery(s.table)
            case Failure(x) => Finish(s1, entry, Some(x), [ps1])
            case Success(updateSql) =>
              match conn.value.prepare(UpdateCall, updateSql)
              case Failure(x) => Finish(s1, entry, Some(x), [ps1])
              case Success(ps2) =>
                match TryPS(s.table, ps2)
                case None => Finish(s1, entry, None, [ps1, ps2])
                case Some(e2) => Finish(s.(e := Some(e2)), entry, Some(e2), [ps1, ps2])
  }

  /** A new key: the INSERT binds, the UPDATE is never built, and the one statement is closed. */
  lemma WriteInsertSucceeds(s: Store, entry: Entry, conn: Conn, ps: Stmt)
    requires BuildInsertQuery(s.table).Success?
    requires conn.prepare(InsertCall, BuildInsertQuery(s.table).value) == Success(ps)
    requires TryPS(s.table, ps).None?
    ensures var r := Write(s, entry, Some(conn));
            r.result == Pass && r.prepared == [ps] && r.closing.closed == Some(ps) && r.store == s
  {
  }

  /**
   * An existing key: the INSERT's binds fail, the UPDATE binds, the write
   * passes, and only the UPDATE statement is closed.
   */
  lemma WriteFallsBackToUpdate(s: Store, entry: Entry, conn: Conn, ps1: Stmt, ps2: Stmt)
    requires BuildInsertQuery(s.table).Success? && BuildUpdateQuery(s.table).Success?
    requires conn.prepare(InsertCall, BuildInsertQuery(s.table).value) == Success(ps1)
    requires conn.prepare(UpdateCall, BuildUpdateQuery(s.table).value) == Success(ps2)
    requires TryPS(s.table, ps1).Some? && TryPS(s.table, ps2).None?
    ensures var r := Write(s, entry, Some(conn));
            && r.result == Pass && r.prepared == [ps1, ps2] && r.closing.closed == Some(ps2)
            && r.store.e == TryPS(s.table, ps1)
  {
  }

  /**
   * Both attempts fail: the raised exception carries the UPDATE's bind
   * failure as its cause, which is also what the store records.
   */
  lemma WriteBothFail(s: Store, entry: Entry, conn: Conn, ps1: Stmt, ps2: Stmt)
    requires BuildInsertQuery(s.table).Success? && BuildUpdateQuery(s.table).Success?
    requires conn.prepare(InsertCall, BuildInsertQuery(s.table).value) == Success(ps1)
    requires conn.prepare(UpdateCall, BuildUpdateQuery(s.table).value) == Success(ps2)
    requires TryPS(s.table, ps1).Some? && TryPS(s.table, ps2).Some?
    ensures var r := Write(s, entry, Some(conn));
            && r.result == Fail(CacheLoaderException(FailureMessage(entry), TryPS(s.table, ps2).value))
            && r.store.e == TryPS(s.table, ps2)
            && r.closing.closed == Some(ps2)
  {
  }

  /**
   * An INSERT text that cannot be built ends the write with that exception
   * as the cause, before anything is prepared.
   */
  lemma WriteInsertBuildFails(s: Store, entry: Entry, conn: Option<Conn>)
    requires BuildInsertQuery(s.table).Failure?
    ensures var r := Write(s, entry, conn);
            && r.result == Fail(CacheLoaderException(FailureMessage(entry), BuildInsertQuery(s.table).error))
            && r.prepared == [] && r.closing == Closing(None, None) && r.store == s
  {
  }

  /** A failing INSERT `prepareStatement` is the cause; nothing was prepared, so nothing is closed. */
  lemma WriteInsertPrepareFails(s: Store, entry: Entry, conn: Conn, x: Exc)
    requires BuildInsertQuery(s.table).Success?
    requires conn.prepare(InsertCall, BuildInsertQuery(s.table).value) == Failure(x)
    ensures var r := Write(s, entry, Some(conn));
            && r.result == Fail(CacheLoaderException(FailureMessage(entry), x))
            && r.prepared == [] && r.closing == Closing(None, None) && r.store == s
  {
  }

  /**
   * A failing UPDATE `prepareStatement` after the INSERT's binds failed is
   * the cause; the store keeps the INSERT's bind failure, and the `finally`
   * block closes the INSERT statement, still the last one prepared.
   */
  lemma WriteUpdatePrepareFails(s: Store, entry: Entry, conn: Conn, ps1: Stmt, x: Exc)
    requires BuildInsertQuery(s.table).Success? && BuildUpdateQuery(s.table).Success?
    requires conn.prepare(InsertCall, BuildInsertQuery(s.table).value) == Success(ps1)
    requires TryPS(s.table, ps1).Some?
    requires conn.prepare(UpdateCall, BuildUpdateQuery(s.table).value) == Failure(x)
    ensures var r := Write(s, entry, Some(conn));
            && r.result == Fail(CacheLoaderException(FailureMessage(entry), x))
            && r.prepared == [ps1] && r.closing.closed == Some(ps1)
            && r.store.e == TryPS(s.table, ps1)
  {
  }

  /**
   * Whenever the INSERT text is built, so is the UPDATE text: the INSERT
   * builder fails on every table the UPDATE builder fails on, so `write`
   * never raises an UPDATE build exception.
   */
  lemma UpdateBuildsWhenInsertDoes(table: Option<TableDTO>)
    ensures BuildInsertQuery(table).Success? ==> BuildUpdateQuery(table).Success?
  {
    if table.Some? && table.value.columns.Some? {
      InsertQueryOutcome(table.value);
      var cols := table.value.columns.value;
      if forall i :: 0 <= i < |cols| ==> !cols[i].isKey {
        UpdateQueryWithoutKey(table.value);
      }
    }
  }

  /** Without a connection the write fails on a null dereference once the INSERT text is built. */
  lemma WriteWithoutConnection(s: Store, entry: Entry)
    requires BuildInsertQuery(s.table).Success?
    ensures Write(s, entry, None).result == Fail(CacheLoaderException(FailureMessage(entry), NullPointer))
  {
  }

  /**
   * Before `setTable` the table is null: both texts are "", `tryPS` fails
   * on the null table each time, and the two prepared statements may
   * differ. Only the second is closed; the store records the null
   * dereference, which is also the cause.
   */
  lemma WriteWithoutTable(e: Option<Exc>, entry: Entry, conn: Conn, ps1: Stmt, ps2: Stmt)
    requires conn.prepare(InsertCall, "") == Success(ps1) && conn.prepare(UpdateCall, "") == Success(ps2)
    ensures var r := Write(Store(None, e), entry, Some(conn));
            && r.result == Fail(CacheLoaderException(FailureMessage(entry), NullPointer))
            && r.prepared == [ps1, ps2] && r.closing.closed == Some(ps2)
            && r.store == Store(None, Some(NullPointer))
  {
  }

  /** The statements with their `close` failures removed. */
  function NoCloseFailure(conn: Conn): Conn
  {
    Conn((call: nat, sql: string) => match conn.prepare(call, sql) case Success(st) => Success(st.(closeFailure := None)) case Failure(x) => Failure(x))
  }

  lemma {:induction false} BindIgnoresClose(ps: Stmt, i: nat, n: nat)
    requires i <= n + 1
    ensures FirstBindFailure(ps, i, n) == FirstBindFailure(ps.(closeFailure := None), i, n)
    decreases n + 1 - i
  {
    var ps' := ps.(closeFailure := None);
    assert ps'.bindFailures == ps.bindFailures;
    if i <= n && i !in ps.bindFailures {
      BindIgnoresClose(ps, i + 1, n);
    }
  }

  /**
   * Exceptions from `close` are swallowed: a write over statements whose
   * `close` fails ends exactly as one over statements whose `close` succeeds.
   */
  lemma CloseFailuresSwallowed(s: Store, entry: Entry, conn: Conn)
    ensures var r := Write(s, entry, Some(conn));
            var r' := Write(s, entry, Some(NoCloseFailure(conn)));
            r.result == r'.result && r.store == r'.store && |r.prepared| == |r'.prepared|
  {
    var conn' := NoCloseFailure(conn);
    match BuildInsertQuery(s.table)
    case Failure(_) =>
    case Success(insertSql) =>
      PrepareIgnoresClose(s.table, conn, InsertCall, insertSql);
      match conn.prepare(InsertCall, insertSql)
      case Failure(_) =>
      case Success(ps1) =>
        var ps1' := conn'.prepare(InsertCall, insertSql).value;
        assert TryPS(s.table, ps1) == TryPS(s.table, ps1');
        if TryPS(s.table, ps1).Some? {
          match BuildUpdateQuery(s.table)
          case Failure(_) =>
          case Success(updateSql) =>
            PrepareIgnoresClose(s.table, conn, UpdateCall, updateSql);
            if conn.prepare(UpdateCall, updateSql).Success? {
              var ps2 := conn.prepare(UpdateCall, updateSql).value;
              var ps2' := conn'.prepare(UpdateCall, updateSql).value;
              assert TryPS(s.table, ps2) == TryPS(s.table, ps2');
            }
        }
  }

  /** Preparing through `NoCloseFailure` gives the same outcome and the same binds. */
  lemma PrepareIgnoresClose(table: Option<TableDTO>, conn: Conn, call: nat, sql: string)
    ensures conn.prepare(call, sql).Success? <==> NoCloseFailure(conn).prepare(call, sql).Success?
    ensures conn.prepare(call, sql).Failure? ==> NoCloseFailure(conn).prepare(call, sql) == conn.prepare(call, sql)
    ensures conn.prepare(call, sql).Success? ==>
              TryPS(table, conn.prepare(call, sql).value) == TryPS(table, NoCloseFailure(conn).prepare(call, sql).value)
  {
    if conn.prepare(call, sql).Success? && table.Some? && table.value.columns.Some? {
      BindIgnoresClose(conn.prepare(call, sql).value, 0, |table.value.columns.value|);
    }
  }

  /** `load`: nothing is ever read back. */
  function Load(s: Store, key: string): (r: Option<string>)
    ensures r == None
  {
    None
  }

  /** `delete`: no effect. */
  function Delete(s: Store, key: string): (r: Store)
    ensures r == s
  {
    s
  }
}
