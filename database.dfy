/** database.py, the query-building half of the `Database` base class: column
    validation and the SQL text and parameter list that `add`, `add_bulk`, `get`,
    `count_where`, `set` and `delete` hand to `execute_query`, plus the `CursorError`
    sentinel and the result shaping of `get`. The tables themselves, and what a
    statement does to them, are in module Tables. */
module Database {
  import opened Wrappers
  import opened Text

  /** A value bound to a `?` placeholder or read back from a column. */
  datatype SqlValue = SqlNull | SqlInt(i: int) | SqlText(t: string)

  /** A dict handed to the table layer, as its items in insertion order. */
  type Dict = seq<(string, SqlValue)>

  function Keys(d: Dict): (ks: seq<string>)
    ensures |ks| == |d|
    ensures forall i :: 0 <= i < |d| ==> ks[i] == d[i].0
  {
    seq(|d|, i requires 0 <= i < |d| => d[i].0)
  }

  function Values(d: Dict): (vs: seq<SqlValue>)
    ensures |vs| == |d|
    ensures forall i :: 0 <= i < |d| ==> vs[i] == d[i].1
  {
    seq(|d|, i requires 0 <= i < |d| => d[i].1)
  }

  /** A `Database` subclass: `table_name` and `columns`. */
  datatype Table = Table(name: string, columns: seq<string>)

  const UsersTable := Table("users", ["user_id", "username", "language", "timezone", "current_vocabulary_id", "hide_meaning"])
  const VocabulariesTable := Table("vocabularies", ["vocabulary_id", "user_id", "vocabulary_name"])
  const WordsTable := Table("words", ["word_id", "user_id", "vocabulary_id", "word", "meaning", "timestamp"])
  const RemindersTable := Table("reminders", ["reminder_id", "user_id", "vocabulary_id", "time", "number_of_words"])
  const TempTable := Table("temp", ["user_id", "key", "value"])

  /** No `?` in the table name or in a declared column, so every `?` in a statement is a placeholder. */
  predicate WellFormed(t: Table)
  {
    '?' !in t.name && forall i :: 0 <= i < |t.columns| ==> '?' !in t.columns[i]
  }

  lemma UsersWellFormed() ensures WellFormed(UsersTable)
  {
    assert '?' !in "users" && '?' !in "user_id" && '?' !in "username" && '?' !in "language";
    assert '?' !in "timezone" && '?' !in "current_vocabulary_id" && '?' !in "hide_meaning";
  }

  /** `[col for col in conditions if col not in cls.columns]`. */
  function InvalidColumns(t: Table, keys: seq<string>): (bad: seq<string>)
    ensures forall k :: k in bad <==> k in keys && k !in t.columns
    ensures |bad| <= |keys|
  {
    if keys == [] then []
    else (if keys[0] in t.columns then [] else [keys[0]]) + InvalidColumns(t, keys[1..])
  }

  /** `validate_columns`: a ValueError naming the unknown columns, exactly when there are some. */
  function ValidateColumns(t: Table, keys: seq<string>): (r: Result<()>)
    ensures r.Failure? <==> exists k :: k in keys && k !in t.columns
    ensures r.Failure? ==> r.error == ValueError("Invalid column(s): " + Join(", ", InvalidColumns(t, keys)))
  {
    var bad := InvalidColumns(t, keys);
    if bad != [] then
      assert bad[0] in bad;
      Failure(ValueError("Invalid column(s): " + Join(", ", bad)))
    else Success(())
  }

  /** A statement and its parameters, as passed to `execute_query`. */
  datatype Query = Query(sql: string, params: seq<SqlValue>)

  function Repeat(s: string, n: nat): (r: seq<string>)
    ensures |r| == n && forall i :: 0 <= i < n ==> r[i] == s
  {
    seq(n, _ => s)
  }

  /** `', '.join('?' * n)`. */
  function Placeholders(n: nat): string
  {
    Join(", ", Repeat("?", n))
  }

  /** `f"{key} = ?"` for each key, in order. */
  function Equalities(keys: seq<string>): (r: seq<string>)
    ensures |r| == |keys| && forall i :: 0 <= i < |keys| ==> r[i] == keys[i] + " = ?"
  {
    seq(|keys|, i requires 0 <= i < |keys| => keys[i] + " = ?")
  }

  function InsertSql(t: Table, keys: seq<string>, replace: bool): string
  {
    (if replace then "INSERT OR REPLACE INTO " else "INSERT INTO ")
    + t.name + " (" + Join(", ", keys) + ") VALUES (" + Placeholders(|keys|) + ")"
  }

  /** The statement built by `add(data, replace)`: empty data or an unknown column is a
      ValueError; otherwise the values are the parameters, in the order of the keys. */
  function InsertQuery(t: Table, data: Dict, replace: bool): (r: Result<Query>)
    ensures |data| == 0 ==> r == Failure(ValueError("No data provided for insertion."))
    ensures |data| > 0 ==> (r.Failure? <==> exists k :: k in Keys(data) && k !in t.columns)
    ensures r.Failure? ==> r.error.ValueError?
    ensures r.Success? ==> r.value.params == Values(data)
    ensures r.Success? ==> r.value.sql == InsertSql(t, Keys(data), replace)
  {
    if |data| == 0 then Failure(ValueError("No data provided for insertion."))
    else
      var _ :- ValidateColumns(t, Keys(data));
      Success(Query(InsertSql(t, Keys(data), replace), Values(data)))
  }

  /** `INSERT OR REPLACE` is chosen exactly when `replace` is set. */
  lemma InsertReplaceOnlyWhenAsked(t: Table, keys: seq<string>, replace: bool)
    ensures replace <==> |InsertSql(t, keys, replace)| >= 23 && InsertSql(t, keys, replace)[..23] == "INSERT OR REPLACE INTO "
  {
    var s := InsertSql(t, keys, replace);
    if !replace {
      assert s[7] == 'I';
    } else {
      assert s[..23] == "INSERT OR REPLACE INTO ";
    }
  }

  /** `c` is not in `Join(sep, parts)` when it is in neither `sep` nor any part. */
  lemma {:induction false} JoinExcludes(sep: string, parts: seq<string>, c: char)
    requires c !in sep && forall i :: 0 <= i < |parts| ==> c !in parts[i]
    ensures c !in Join(sep, parts)
    decreases |parts|
  {
    if |parts| > 1 {
      JoinExcludes(sep, parts[1..], c);
    }
  }

  /** `Join(", ", Repeat("?", n))` holds exactly n `?`. */
  lemma {:induction false} PlaceholdersCount(n: nat)
    ensures Count(Placeholders(n), '?') == n
    decreases n
  {
    if n == 1 {
      assert Placeholders(1) == "?";
    } else if n > 1 {
      PlaceholdersCount(n - 1);
      assert Repeat("?", n)[1..] == Repeat("?", n - 1);
      assert Placeholders(n) == "?" + ", " + Placeholders(n - 1);
      assert '?' !in ", ";
      CountAppend("?", ", ", '?');
      CountAppend("?" + ", ", Placeholders(n - 1), '?');
    }
  }

  /** `key = ?` holds one `?` more than `key`. */
  lemma EqualityCount(key: string)
    ensures Count(key + " = ?", '?') == Count(key, '?') + 1
  {
    assert key + " = ?" == (key + " = ") + "?";
    assert '?' !in " = ";
    CountAppend(key, " = ", '?');
    CountAppend(key + " = ", "?", '?');
  }

  /** Each `key = ?` contributes one `?`, the separators none. */
  lemma {:induction false} EqualitiesCount(sep: string, keys: seq<string>)
    requires '?' !in sep && forall i :: 0 <= i < |keys| ==> '?' !in keys[i]
    ensures Count(Join(sep, Equalities(keys)), '?') == |keys|
    decreases |keys|
  {
    if |keys| > 0 {
      EqualityCount(keys[0]);
    }
    if |keys| > 1 {
      EqualitiesCount(sep, keys[1..]);
      assert Equalities(keys)[1..] == Equalities(keys[1..]);
      var e := Equalities(keys);
      CountAppend(e[0], sep, '?');
      CountAppend(e[0] + sep, Join(sep, e[1..]), '?');
    }
  }

  lemma KnownColumnsHaveNoMark(t: Table, keys: seq<string>)
    requires WellFormed(t) && forall k :: k in keys ==> k in t.columns
    ensures forall i :: 0 <= i < |keys| ==> '?' !in keys[i]
  {
    forall i | 0 <= i < |keys|
      ensures '?' !in keys[i]
    {
      assert keys[i] in keys;
      var j :| 0 <= j < |t.columns| && t.columns[j] == keys[i];
    }
  }

  /** One `?` per parameter in what `add` builds. */
  lemma InsertPlaceholdersMatch(t: Table, data: Dict, replace: bool)
    requires WellFormed(t) && InsertQuery(t, data, replace).Success?
    ensures var q := InsertQuery(t, data, replace).value;
            Count(q.sql, '?') == |q.params|
  {
    var keys := Keys(data);
    KnownColumnsHaveNoMark(t, keys);
    JoinExcludes(", ", keys, '?');
    PlaceholdersCount(|keys|);
    var head := if replace then "INSERT OR REPLACE INTO " else "INSERT INTO ";
    assert '?' !in "INSERT OR REPLACE INTO " && '?' !in "INSERT INTO " && '?' !in " (" && '?' !in ") VALUES (";
    var prefix := head + t.name + " (" + Join(", ", keys) + ") VALUES (";
    assert '?' !in prefix;
    assert '?' !in ")";
    CountAppend(prefix, Placeholders(|keys|), '?');
    CountAppend(prefix + Placeholders(|keys|), ")", '?');
    assert InsertSql(t, keys, replace) == prefix + Placeholders(|keys|) + ")";
  }

  /** The WHERE text `k1 = ? AND k2 = ? ...`. */
  function WhereClause(keys: seq<string>): string
  {
    Join(" AND ", Equalities(keys))
  }

  /** Python truthiness of an optional int and an optional string. */
  predicate TruthyInt(x: Option<int>) { x.Some? && x.value != 0 }
  predicate TruthyText(x: Option<string>) { x.Some? && x.value != "" }

  function LimitSql(limit: Option<int>, offset: Option<int>): string
  {
    (if TruthyInt(limit) then " LIMIT ?" else "") + (if TruthyInt(offset) then " OFFSET ?" else "")
  }

  function LimitParams(limit: Option<int>, offset: Option<int>): seq<SqlValue>
  {
    (if TruthyInt(limit) then [SqlInt(limit.value)] else []) + (if TruthyInt(offset) then [SqlInt(offset.value)] else [])
  }

  /** The statement `get` starts from: the custom select when truthy, else `SELECT * FROM t`. */
  function SelectBase(t: Table, customSelect: Option<string>): string
  {
    if TruthyText(customSelect) then customSelect.value else "SELECT * FROM " + t.name
  }

  function WherePart(keys: seq<string>): string
  {
    if |keys| > 0 then " WHERE " + WhereClause(keys) else ""
  }

  function OrderPart(orderBy: Option<string>, sortDirection: string): string
  {
    if TruthyText(orderBy) then " ORDER BY " + orderBy.value + " " + Upper(sortDirection) else ""
  }

  /** The statement built by `get`: the custom select (when truthy) or `SELECT * FROM t`,
      then WHERE over the conditions in order, then ORDER BY (checked), then LIMIT and then
      OFFSET, each only when truthy. */
  function SelectQuery(t: Table, conditions: Dict, limit: Option<int>, offset: Option<int>,
                       orderBy: Option<string>, sortDirection: string, customSelect: Option<string>): (r: Result<Query>)
    ensures r.Failure? <==>
              (|conditions| > 0 && exists k :: k in Keys(conditions) && k !in t.columns)
              || (TruthyText(orderBy) && (orderBy.value !in t.columns || Upper(sortDirection) !in ["ASC", "DESC"]))
    ensures r.Failure? ==> r.error.ValueError?
    ensures r.Success? ==> r.value.params == Values(conditions) + LimitParams(limit, offset)
    ensures r.Success? ==> r.value.sql == SelectBase(t, customSelect) + WherePart(Keys(conditions))
                                          + OrderPart(orderBy, sortDirection) + LimitSql(limit, offset)
  {
    var _ :- if |conditions| > 0 then ValidateColumns(t, Keys(conditions)) else Success(());
    if TruthyText(orderBy) && orderBy.value !in t.columns then
      Failure(ValueError("Invalid column for ordering: " + orderBy.value))
    else if TruthyText(orderBy) && Upper(sortDirection) !in ["ASC", "DESC"] then
      Failure(ValueError("Sort direction must be either 'ASC' or 'DESC'"))
    else
      var sql := SelectBase(t, customSelect) + WherePart(Keys(conditions)) + OrderPart(orderBy, sortDirection)
                 + LimitSql(limit, offset);
      Success(Query(sql, Values(conditions) + LimitParams(limit, offset)))
  }

  /** LIMIT comes before OFFSET, and both come last. */
  lemma SelectEndsWithLimits(t: Table, conditions: Dict, limit: Option<int>, offset: Option<int>,
                             orderBy: Option<string>, sortDirection: string, customSelect: Option<string>)
    requires SelectQuery(t, conditions, limit, offset, orderBy, sortDirection, customSelect).Success?
    ensures var sql := SelectQuery(t, conditions, limit, offset, orderBy, sortDirection, customSelect).value.sql;
            var tail := LimitSql(limit, offset);
            |sql| >= |tail| && sql[|sql| - |tail|..] == tail
            && (TruthyInt(limit) && TruthyInt(offset) ==> tail == " LIMIT ? OFFSET ?")
  {
    var sql := SelectQuery(t, conditions, limit, offset, orderBy, sortDirection, customSelect).value.sql;
    var head := SelectBase(t, customSelect) + WherePart(Keys(conditions)) + OrderPart(orderBy, sortDirection);
    assert sql == head + LimitSql(limit, offset);
    assert sql[|head|..] == LimitSql(limit, offset);
  }

  lemma WherePartCount(t: Table, keys: seq<string>)
    requires WellFormed(t) && forall k :: k in keys ==> k in t.columns
    ensures Count(WherePart(keys), '?') == |keys|
  {
    if |keys| > 0 {
      KnownColumnsHaveNoMark(t, keys);
      assert '?' !in " AND " && '?' !in " WHERE ";
      EqualitiesCount(" AND ", keys);
      CountAppend(" WHERE ", WhereClause(keys), '?');
    }
  }

  lemma OrderPartCount(t: Table, orderBy: Option<string>, sortDirection: string)
    requires WellFormed(t)
    requires TruthyText(orderBy) ==> orderBy.value in t.columns && Upper(sortDirection) in ["ASC", "DESC"]
    ensures Count(OrderPart(orderBy, sortDirection), '?') == 0
  {
    if TruthyText(orderBy) {
      var j :| 0 <= j < |t.columns| && t.columns[j] == orderBy.value;
      assert '?' !in " ORDER BY " && '?' !in " " && '?' !in "ASC" && '?' !in "DESC";
      assert '?' !in Upper(sortDirection);
    }
  }

  /** One `?` per parameter in what `get` builds, when the custom select holds none. */
  lemma SelectPlaceholdersMatch(t: Table, conditions: Dict, limit: Option<int>, offset: Option<int>,
                                orderBy: Option<string>, sortDirection: string, customSelect: Option<string>)
    requires WellFormed(t) && (customSelect.Some? ==> '?' !in customSelect.value)
    requires SelectQuery(t, conditions, limit, offset, orderBy, sortDirection, customSelect).Success?
    ensures var q := SelectQuery(t, conditions, limit, offset, orderBy, sortDirection, customSelect).value;
            Count(q.sql, '?') == |q.params|
  {
    var base := SelectBase(t, customSelect);
    assert '?' !in "SELECT * FROM ";
    assert '?' !in base;
    var w := WherePart(Keys(conditions));
    var o := OrderPart(orderBy, sortDirection);
    var l := LimitSql(limit, offset);
    WherePartCount(t, Keys(conditions));
    OrderPartCount(t, orderBy, sortDirection);
    LimitCount(limit, offset);
    CountAppend(base, w, '?');
    CountAppend(base + w, o, '?');
    CountAppend(base + w + o, l, '?');
  }

  /** A keyword followed by one placeholder holds one `?`. */
  lemma OnePlaceholder(keyword: string)
    requires '?' !in keyword
    ensures Count(keyword + "?", '?') == 1
  {
    CountAppend(keyword, "?", '?');
    assert "?"[1..] == [];
  }

  lemma LimitCount(limit: Option<int>, offset: Option<int>)
    ensures Count(LimitSql(limit, offset), '?') == |LimitParams(limit, offset)|
  {
    var lim := if TruthyInt(limit) then " LIMIT ?" else "";
    var off := if TruthyInt(offset) then " OFFSET ?" else "";
    if TruthyInt(limit) {
      OnePlaceholder(" LIMIT ");
      assert " LIMIT " + "?" == lim;
    }
    if TruthyInt(offset) {
      OnePlaceholder(" OFFSET ");
      assert " OFFSET " + "?" == off;
    }
    CountAppend(lim, off, '?');
  }

  /** What `get` returns for the fetched rows: a lone row unwrapped unless `force_2d`. */
  datatype Fetched<R> = Rows(rows: seq<R>) | Single(row: R)

  function ShapeRows<R>(rows: seq<R>, force2d: bool): (r: Fetched<R>)
    ensures r.Single? <==> |rows| == 1 && !force2d
    ensures force2d ==> r == Rows(rows)
  {
    if |rows| == 1 && !force2d then Single(rows[0]) else Rows(rows)
  }

  /** The rows a result stands for. */
  function AsRows<R>(f: Fetched<R>): seq<R>
  {
    match f
    case Rows(rows) => rows
    case Single(row) => [row]
  }

  /** Unwrapping loses nothing: the fetched rows can be read back from either shape,
      and no rows (with or without column names) is the empty list. */
  lemma ShapeRowsLossless<R>(rows: seq<R>, force2d: bool)
    ensures AsRows(ShapeRows(rows, force2d)) == rows
    ensures rows == [] ==> ShapeRows(rows, force2d) == Rows([])
  {
  }

  /** The statement `count_where` and `delete` share: non-empty conditions on known
      columns, `head` followed by the table and the WHERE clause, and the condition values
      as parameters. Empty conditions fail with `message`. */
  function ConditionQuery(t: Table, conditions: Dict, head: string, message: string): (r: Result<Query>)
    ensures |conditions| == 0 ==> r == Failure(ValueError(message))
    ensures |conditions| > 0 ==> (r.Failure? <==> exists k :: k in Keys(conditions) && k !in t.columns)
    ensures r.Failure? ==> r.error.ValueError?
    ensures r.Success? ==> r.value.params == Values(conditions)
    ensures r.Success? ==> r.value.sql == head + t.name + " WHERE " + WhereClause(Keys(conditions))
  {
    if |conditions| == 0 then Failure(ValueError(message))
    else
      var _ :- ValidateColumns(t, Keys(conditions));
      Success(Query(head + t.name + " WHERE " + WhereClause(Keys(conditions)), Values(conditions)))
  }

  /** The statement built by `count_where`. */
  function CountQuery(t: Table, conditions: Dict): (r: Result<Query>)
    ensures |conditions| == 0 ==> r == Failure(ValueError("No conditions provided for count."))
    ensures |conditions| > 0 ==> (r.Failure? <==> exists k :: k in Keys(conditions) && k !in t.columns)
    ensures r.Success? ==> r.value.params == Values(conditions)
    ensures r.Success? ==> r.value.sql == "SELECT COUNT(*) FROM " + t.name + " WHERE " + WhereClause(Keys(conditions))
  {
    ConditionQuery(t, conditions, "SELECT COUNT(*) FROM ", "No conditions provided for count.")
  }

  /** `result[0][0] if result else 0` on the fetched rows. */
  function CountFromRows(result: seq<seq<SqlValue>>): (r: Result<SqlValue>)
    ensures result == [] ==> r == Success(SqlInt(0))
    ensures result != [] && result[0] != [] ==> r == Success(result[0][0])
    ensures result != [] && result[0] == [] ==> r == Failure(IndexError)
  {
    if result == [] then Success(SqlInt(0))
    else if result[0] == [] then Failure(IndexError)
    else Success(result[0][0])
  }

  /** The statement built by `set(conditions, new_values)`: both must be non-empty (the
      conditions are checked first) and name known columns; the new values come first in
      the parameters, then the conditions. */
  function UpdateQuery(t: Table, conditions: Dict, newValues: Dict): (r: Result<Query>)
    ensures |conditions| == 0 ==> r == Failure(ValueError("No conditions provided for identifying the row(s)."))
    ensures |conditions| > 0 && |newValues| == 0 ==> r == Failure(ValueError("No new values provided for update."))
    ensures |conditions| > 0 && |newValues| > 0 ==>
              (r.Failure? <==> exists k :: (k in Keys(conditions) || k in Keys(newValues)) && k !in t.columns)
    ensures r.Failure? ==> r.error.ValueError?
    ensures r.Success? ==> r.value.params == Values(newValues) + Values(conditions)
    ensures r.Success? ==> r.value.sql == "UPDATE " + t.name + " SET " + Join(", ", Equalities(Keys(newValues)))
                                          + " WHERE " + WhereClause(Keys(conditions))
  {
    if |conditions| == 0 then Failure(ValueError("No conditions provided for identifying the row(s)."))
    else if |newValues| == 0 then Failure(ValueError("No new values provided for update."))
    else
      var _ :- ValidateColumns(t, Keys(conditions));
      var _ :- ValidateColumns(t, Keys(newValues));
      var sql := "UPDATE " + t.name + " SET " + Join(", ", Equalities(Keys(newValues))) + " WHERE " + WhereClause(Keys(conditions));
      Success(Query(sql, Values(newValues) + Values(conditions)))
  }

  /** One `?` per parameter in what `set` builds, the SET ones before the WHERE ones. */
  lemma UpdatePlaceholdersMatch(t: Table, conditions: Dict, newValues: Dict)
    requires WellFormed(t) && UpdateQuery(t, conditions, newValues).Success?
    ensures var q := UpdateQuery(t, conditions, newValues).value;
            Count(q.sql, '?') == |q.params|
  {
    var ck, nk := Keys(conditions), Keys(newValues);
    KnownColumnsHaveNoMark(t, ck);
    KnownColumnsHaveNoMark(t, nk);
    assert '?' !in " AND " && '?' !in ", " && '?' !in "UPDATE " && '?' !in " SET " && '?' !in " WHERE ";
    EqualitiesCount(" AND ", ck);
    EqualitiesCount(", ", nk);
    var setPart := Join(", ", Equalities(nk));
    var head := "UPDATE " + t.name + " SET ";
    assert '?' !in head;
    CountAppend(head, setPart, '?');
    CountAppend(head + setPart, " WHERE ", '?');
    CountAppend(head + setPart + " WHERE ", WhereClause(ck), '?');
  }

  /** The statement built by `delete(conditions)`. */
  function DeleteQuery(t: Table, conditions: Dict): (r: Result<Query>)
    ensures |conditions| == 0 ==> r == Failure(ValueError("No conditions provided for identifying the row(s) to delete."))
    ensures |conditions| > 0 ==> (r.Failure? <==> exists k :: k in Keys(conditions) && k !in t.columns)
    ensures r.Success? ==> r.value.params == Values(conditions)
    ensures r.Success? ==> r.value.sql == "DELETE FROM " + t.name + " WHERE " + WhereClause(Keys(conditions))
  {
    ConditionQuery(t, conditions, "DELETE FROM ", "No conditions provided for identifying the row(s) to delete.")
  }

  /** One `?` per condition in what `count_where` and `delete` build. */
  lemma ConditionPlaceholdersMatch(t: Table, conditions: Dict)
    requires WellFormed(t) && DeleteQuery(t, conditions).Success?
    ensures CountQuery(t, conditions).Success?
    ensures Count(DeleteQuery(t, conditions).value.sql, '?') == |conditions|
    ensures Count(CountQuery(t, conditions).value.sql, '?') == |conditions|
  {
    var ck := Keys(conditions);
    KnownColumnsHaveNoMark(t, ck);
    assert '?' !in " AND " && '?' !in "DELETE FROM " && '?' !in "SELECT COUNT(*) FROM " && '?' !in " WHERE ";
    EqualitiesCount(" AND ", ck);
    var d := "DELETE FROM " + t.name + " WHERE ";
    var c := "SELECT COUNT(*) FROM " + t.name + " WHERE ";
    assert '?' !in d && '?' !in c;
    CountAppend(d, WhereClause(ck), '?');
    CountAppend(c, WhereClause(ck), '?');
  }

  /** The argument of `add_bulk`: one dict, or a list of dicts. */
  datatype BulkData = OneRow(row: Dict) | ManyRows(rows: seq<Dict>)

  /** `not data`. */
  predicate EmptyBulk(data: BulkData)
  {
    match data
    case OneRow(row) => |row| == 0
    case ManyRows(rows) => |rows| == 0
  }

  /** `[data]` for a single dict, the list itself otherwise. */
  function BulkRows(data: BulkData): seq<Dict>
  {
    match data
    case OneRow(row) => [row]
    case ManyRows(rows) => rows
  }

  /** One statement with one parameter tuple per row, for `executemany`. */
  datatype BulkQuery = BulkQuery(sql: string, paramRows: seq<seq<SqlValue>>)

  /** Every key is a declared column: what `validate_columns` accepts. */
  predicate ColumnsKnown(t: Table, keys: seq<string>)
  {
    forall k :: k in keys ==> k in t.columns
  }

  /** `add_bulk`'s building: rows are validated in order and the first bad one raises;
      each row's values become one parameter tuple; the statement is the one `add`
      would build for the first row. */
  method BuildBulkInsert(t: Table, data: BulkData, replace: bool) returns (r: Result<BulkQuery>)
    ensures EmptyBulk(data) ==> r == Failure(ValueError("No data provided for insertion."))
    ensures !EmptyBulk(data) && r.Failure? ==>
              exists i :: 0 <= i < |BulkRows(data)| && !ColumnsKnown(t, Keys(BulkRows(data)[i]))
                          && r.error == ValidateColumns(t, Keys(BulkRows(data)[i])).error
                          && forall j :: 0 <= j < i ==> ColumnsKnown(t, Keys(BulkRows(data)[j]))
    ensures !EmptyBulk(data) ==>
              (r.Success? <==> forall i :: 0 <= i < |BulkRows(data)| ==> ColumnsKnown(t, Keys(BulkRows(data)[i])))
    ensures r.Success? ==> |r.value.paramRows| == |BulkRows(data)|
                           && forall i :: 0 <= i < |BulkRows(data)| ==> r.value.paramRows[i] == Values(BulkRows(data)[i])
    ensures r.Success? ==> r.value.sql == InsertSql(t, Keys(BulkRows(data)[0]), replace)
  {
    if EmptyBulk(data) {
      return Failure(ValueError("No data provided for insertion."));
    }
    var rows := BulkRows(data);
    var values: seq<seq<SqlValue>> := [];
    var i := 0;
    while i < |rows| && ColumnsKnown(t, Keys(rows[i]))
      invariant 0 <= i <= |rows|
      invariant |values| == i
      invariant forall j :: 0 <= j < i ==> values[j] == Values(rows[j])
      invariant forall j :: 0 <= j < i ==> ColumnsKnown(t, Keys(rows[j]))
    {
      values := values + [Values(rows[i])];
      i := i + 1;
    }
    if i < |rows| {
      r := Failure(ValidateColumns(t, Keys(rows[i])).error);
    } else {
      r := Success(BulkQuery(InsertSql(t, Keys(rows[0]), replace), values));
    }
  }

  /** What `execute_query` returns for a statement that is not a SELECT: the driver's
      cursor, or the `CursorError` sentinel after an IntegrityError. */
  datatype Cursor = Cursor(rowcount: int, lastrowid: int)

  const CursorError := Cursor(-1, 0)

  /** `(cursor.rowcount > 0, cursor.lastrowid)`, the value of `add`: an integrity failure
      is reported as `(False, 0)`, not raised, and a written row as `(True, its rowid)`. */
  function AddOutcome(c: Cursor): (r: (bool, int))
    ensures c == CursorError ==> r == (false, 0)
    ensures c.rowcount > 0 ==> r == (true, c.lastrowid)
  {
    (c.rowcount > 0, c.lastrowid)
  }
}
