/**
 * SQL query builders: each keeps the pieces of one statement in lists that its methods
 * append to, and renders the statement as text.
 */
module Query {
  import opened Wrappers
  import opened PhpArrays
  import opened Strings

  /** `"t AS a"` when an alias is given, the bare table otherwise. */
  function TableName(table: string, alias: Option<string>): string
  {
    match alias
    case None => table
    case Some(a) => table + " AS " + a
  }

  /** `' WHERE ' . implode(' AND ', $conditions)`, or nothing without conditions. */
  function WhereClause(conditions: seq<string>): string
  {
    if conditions == [] then "" else " WHERE " + Join(conditions, " AND ")
  }

  /** Each element with a prefix. */
  function Prefixed(p: string, xs: seq<string>): (r: seq<string>)
    ensures |r| == |xs| && forall i :: 0 <= i < |xs| ==> r[i] == p + xs[i]
  {
    if xs == [] then [] else [p + xs[0]] + Prefixed(p, xs[1..])
  }

  // ---------------------------------------------------------------- SELECT

  /**
   * The SELECT statement as intended, before trimming: a space separates the FROM list
   * from the joins.
   */
  function SelectText(distinct: bool, fields: seq<string>, from: seq<string>, join: seq<string>,
                      conditions: seq<string>, order: seq<string>, limit: int): string
  {
    "SELECT " + (if distinct then "DISTINCT " else "") + Join(fields, ", ")
      + " FROM " + Join(from, ", ")
      + (if join == [] then "" else " " + Join(join, " "))
      + WhereClause(conditions)
      + (if order == [] then "" else " ORDER BY " + Join(order, ", "))
      + " LIMIT " + IntToString(limit)
  }

  /** The statement as the source assembles it: the joins follow the FROM list directly. */
  function SelectTextAsWritten(distinct: bool, fields: seq<string>, from: seq<string>, join: seq<string>,
                               conditions: seq<string>, order: seq<string>, limit: int): string
  {
    "SELECT " + (if distinct then "DISTINCT " else "") + Join(fields, ", ")
      + " FROM " + Join(from, ", ")
      + (if join == [] then "" else Join(join, " "))
      + WhereClause(conditions)
      + (if order == [] then "" else " ORDER BY " + Join(order, ", "))
      + " LIMIT " + IntToString(limit)
  }

  /** __toString as written: reading the limit before limit() was called is an error. */
  function SelectSql(distinct: bool, fields: seq<string>, from: seq<string>, join: seq<string>,
                     conditions: seq<string>, order: seq<string>, limit: Option<int>): (r: Result<string>)
    ensures r.Err? <==> limit.None?
    ensures r.Err? ==> r.error == UninitializedProperty("limit")
  {
    match limit
    case None => Err(UninitializedProperty("limit"))
    case Some(n) => Ok(Trim(SelectTextAsWritten(distinct, fields, from, join, conditions, order, n)))
  }

  /** __toString with the joins separated from the FROM list. */
  function SelectSqlIntended(distinct: bool, fields: seq<string>, from: seq<string>, join: seq<string>,
                             conditions: seq<string>, order: seq<string>, limit: Option<int>): (r: Result<string>)
    ensures r.Err? <==> limit.None?
    ensures r.Err? ==> r.error == UninitializedProperty("limit")
  {
    match limit
    case None => Err(UninitializedProperty("limit"))
    case Some(n) => Ok(Trim(SelectText(distinct, fields, from, join, conditions, order, n)))
  }

  class Select {
    var fields: seq<string>
    var conditions: seq<string>
    var order: seq<string>
    var from: seq<string>
    /** None while the property is uninitialised. */
    var limit: Option<int>
    var distinct: bool
    var join: seq<string>

    constructor(select: seq<string>)
      ensures fields == select && conditions == [] && order == [] && from == [] && join == []
      ensures limit == None && !distinct
    {
      fields := select;
      conditions := [];
      order := [];
      from := [];
      limit := None;
      distinct := false;
      join := [];
    }

    /** The statement as the source renders it, joins glued to the FROM list. */
    function ToString(): (r: Result<string>)
      reads this
      ensures r.Err? <==> limit.None?
      ensures r.Ok? ==> r.value == SelectTextAsWritten(distinct, fields, from, join, conditions, order, limit.value)
    {
      if limit.Some? then
        SelectUntrimmed(distinct, fields, from, join, conditions, order, limit.value);
        SelectSql(distinct, fields, from, join, conditions, order, limit)
      else SelectSql(distinct, fields, from, join, conditions, order, limit)
    }

    method Select(args: seq<string>) returns (self: Select)
      modifies this
      ensures self == this && fields == old(fields) + args
      ensures conditions == old(conditions) && order == old(order) && from == old(from)
      ensures limit == old(limit) && distinct == old(distinct) && join == old(join)
    {
      var i := 0;
      while i < |args|
        invariant 0 <= i <= |args| && fields == old(fields) + args[..i]
        invariant conditions == old(conditions) && order == old(order) && from == old(from)
        invariant limit == old(limit) && distinct == old(distinct) && join == old(join)
      {
        assert args[..i + 1] == args[..i] + [args[i]];
        fields := fields + [args[i]];
        i := i + 1;
      }
      assert args[..|args|] == args;
      self := this;
    }

    method Where(args: seq<string>) returns (self: Select)
      modifies this
      ensures self == this && conditions == old(conditions) + args
      ensures fields == old(fields) && order == old(order) && from == old(from)
      ensures limit == old(limit) && distinct == old(distinct) && join == old(join)
    {
      var i := 0;
      while i < |args|
        invariant 0 <= i <= |args| && conditions == old(conditions) + args[..i]
        invariant fields == old(fields) && order == old(order) && from == old(from)
        invariant limit == old(limit) && distinct == old(distinct) && join == old(join)
      {
        assert args[..i + 1] == args[..i] + [args[i]];
        conditions := conditions + [args[i]];
        i := i + 1;
      }
      assert args[..|args|] == args;
      self := this;
    }

    method From(table: string, alias: Option<string>) returns (self: Select)
      modifies this
      ensures self == this && from == old(from) + [TableName(table, alias)]
      ensures fields == old(fields) && conditions == old(conditions) && order == old(order)
      ensures limit == old(limit) && distinct == old(distinct) && join == old(join)
    {
      from := from + [if alias.None? then table else table + " AS " + alias.value];
      self := this;
    }

    /** Any earlier limit is overwritten. */
    method Limit(limit: int) returns (self: Select)
      modifies this
      ensures self == this && this.limit == Some(limit)
      ensures fields == old(fields) && conditions == old(conditions) && order == old(order)
      ensures from == old(from) && distinct == old(distinct) && join == old(join)
    {
      this.limit := Some(limit);
      self := this;
    }

    method OrderBy(sort: string, order: string := "ASC") returns (self: Select)
      modifies this
      ensures self == this && this.order == old(this.order) + [sort + " " + order]
      ensures fields == old(fields) && conditions == old(conditions) && from == old(from)
      ensures limit == old(limit) && distinct == old(distinct) && join == old(join)
    {
      this.order := this.order + [sort + " " + order];
      self := this;
    }

    method InnerJoin(args: seq<string>) returns (self: Select)
      modifies this
      ensures self == this && join == old(join) + Prefixed("INNER JOIN ", args)
      ensures fields == old(fields) && conditions == old(conditions) && order == old(order)
      ensures from == old(from) && limit == old(limit) && distinct == old(distinct)
    {
      self := AppendJoins("INNER JOIN ", args);
    }

    method LeftJoin(args: seq<string>) returns (self: Select)
      modifies this
      ensures self == this && join == old(join) + Prefixed("LEFT JOIN ", args)
      ensures fields == old(fields) && conditions == old(conditions) && order == old(order)
      ensures from == old(from) && limit == old(limit) && distinct == old(distinct)
    {
      self := AppendJoins("LEFT JOIN ", args);
    }

    /** The loop innerJoin and leftJoin share. */
    method AppendJoins(kind: string, args: seq<string>) returns (self: Select)
      modifies this
      ensures self == this && join == old(join) + Prefixed(kind, args)
      ensures fields == old(fields) && conditions == old(conditions) && order == old(order)
      ensures from == old(from) && limit == old(limit) && distinct == old(distinct)
    {
      var i := 0;
      while i < |args|
        invariant 0 <= i <= |args| && join == old(join) + Prefixed(kind, args[..i])
        invariant fields == old(fields) && conditions == old(conditions) && order == old(order)
        invariant from == old(from) && limit == old(limit) && distinct == old(distinct)
      {
        assert Prefixed(kind, args[..i + 1]) == Prefixed(kind, args[..i]) + [kind + args[i]];
        join := join + [kind + args[i]];
        i := i + 1;
      }
      assert args[..|args|] == args;
      self := this;
    }

    /** Calling distinct() again changes nothing. */
    method Distinct() returns (self: Select)
      modifies this
      ensures self == this && distinct
      ensures fields == old(fields) && conditions == old(conditions) && order == old(order)
      ensures from == old(from) && limit == old(limit) && join == old(join)
    {
      distinct := true;
      self := this;
    }
  }

  // ---------------------------------------------------------------- UPDATE

  /** __toString: the assignments, then the conditions; the statement ends after SET exactly when there are none. */
  function UpdateSql(table: string, values: seq<string>, conditions: seq<string>): (r: string)
    ensures "UPDATE " + table + " SET " + Join(values, ", ") <= r
    ensures r == "UPDATE " + table + " SET " + Join(values, ", ") <==> conditions == []
  {
    "UPDATE " + table + " SET " + Join(values, ", ") + WhereClause(conditions)
  }

  class Update {
    const table: string
    var conditions: seq<string>
    var values: seq<string>

    constructor(table: string, alias: Option<string>)
      ensures this.table == TableName(table, alias) && conditions == [] && values == []
    {
      this.table := if alias.None? then table else table + " AS " + alias.value;
      conditions := [];
      values := [];
    }

    function ToString(): (r: string)
      reads this
      ensures r == UpdateSql(table, values, conditions)
    {
      UpdateSql(table, values, conditions)
    }

    method Where(args: seq<string>) returns (self: Update)
      modifies this
      ensures self == this && conditions == old(conditions) + args && values == old(values)
    {
      var i := 0;
      while i < |args|
        invariant 0 <= i <= |args| && conditions == old(conditions) + args[..i] && values == old(values)
      {
        assert args[..i + 1] == args[..i] + [args[i]];
        conditions := conditions + [args[i]];
        i := i + 1;
      }
      assert args[..|args|] == args;
      self := this;
    }

    /** A repeated column is assigned twice. */
    method Set(column: string, value: string) returns (self: Update)
      modifies this
      ensures self == this && values == old(values) + [column + " = " + value]
      ensures conditions == old(conditions)
    {
      values := values + [column + " = " + value];
      self := this;
    }
  }

  // ---------------------------------------------------------------- DELETE

  /** __toString: the table, then the conditions; the statement is the table alone exactly when there are none. */
  function DeleteSql(table: string, conditions: seq<string>): (r: string)
    ensures "DELETE FROM " + table <= r
    ensures r == "DELETE FROM " + table <==> conditions == []
  {
    "DELETE FROM " + table + WhereClause(conditions)
  }

  class Delete {
    const table: string
    var conditions: seq<string>

    constructor(table: string, alias: Option<string>)
      ensures this.table == TableName(table, alias) && conditions == []
    {
      this.table := if alias.None? then table else table + " AS " + alias.value;
      conditions := [];
    }

    function ToString(): (r: string)
      reads this
      ensures r == DeleteSql(table, conditions)
    {
      DeleteSql(table, conditions)
    }

    method Where(args: seq<string>) returns (self: Delete)
      modifies this
      ensures self == this && conditions == old(conditions) + args
    {
      var i := 0;
      while i < |args|
        invariant 0 <= i <= |args| && conditions == old(conditions) + args[..i]
      {
        assert args[..i + 1] == args[..i] + [args[i]];
        conditions := conditions + [args[i]];
        i := i + 1;
      }
      assert args[..|args|] == args;
      self := this;
    }
  }

  // ---------------------------------------------------------------- INSERT

  /** __toString: the columns in one list, their values in a second list of the same order. */
  function InsertSql(table: string, values: seq<(string, string)>): (r: string)
    ensures "INSERT INTO " + table + " (" <= r && r[|r| - 1] == ')'
    ensures |r| >= |"INSERT INTO " + table + " () VALUES ()"|
  {
    "INSERT INTO " + table + " (" + Join(Keys(values), ", ") + ") VALUES (" + Join(PhpArrays.Values(values), ", ") + ")"
  }

  class Insert {
    const table: string
    /** Column to value, in the order columns were first set. */
    var values: seq<(string, string)>

    constructor(table: string)
      ensures this.table == table && values == []
    {
      this.table := table;
      values := [];
    }

    function ToString(): (r: string)
      reads this
      ensures r == InsertSql(table, values)
    {
      InsertSql(table, values)
    }

    method Set(column: string, value: string) returns (self: Insert)
      modifies this
      ensures self == this && values == Put(old(values), column, value)
    {
      values := Put(values, column, value);
      self := this;
    }
  }

  // ---------------------------------------------------------------- lemmas

  /** Each further condition extends the clause: ' WHERE ' before the first, ' AND ' before the others. */
  lemma WhereAppends(conditions: seq<string>, c: string)
    ensures WhereClause(conditions + [c]) ==
      WhereClause(conditions) + (if conditions == [] then " WHERE " else " AND ") + c
  {
    JoinAppend(conditions, c, " AND ");
  }

  /** A further where() on an UPDATE only appends to the statement. */
  lemma UpdateWhereAppends(table: string, values: seq<string>, conditions: seq<string>, c: string)
    ensures UpdateSql(table, values, conditions + [c]) ==
      UpdateSql(table, values, conditions) + (if conditions == [] then " WHERE " else " AND ") + c
  {
    WhereAppends(conditions, c);
  }

  /** Without conditions a DELETE is the table alone; each condition only appends. */
  lemma DeleteShape(table: string, conditions: seq<string>, c: string)
    ensures DeleteSql(table, []) == "DELETE FROM " + table
    ensures DeleteSql(table, conditions + [c]) ==
      DeleteSql(table, conditions) + (if conditions == [] then " WHERE " else " AND ") + c
  {
    WhereAppends(conditions, c);
  }

  /** With no set() calls the column and value lists are empty. */
  lemma InsertEmpty(table: string)
    ensures InsertSql(table, []) == "INSERT INTO " + table + " () VALUES ()"
  {
  }

  /** Setting a new column appends it, and its value, at the end of both lists. */
  lemma InsertNewColumn(table: string, values: seq<(string, string)>, column: string, value: string)
    requires !HasKey(values, column)
    ensures Keys(Put(values, column, value)) == Keys(values) + [column]
    ensures PhpArrays.Values(Put(values, column, value)) == PhpArrays.Values(values) + [value]
  {
    var r := Put(values, column, value);
    assert r == values + [(column, value)];
    assert PhpArrays.Values(r) == PhpArrays.Values(values) + [value];
  }

  /** Setting a known column keeps its position and replaces its value. */
  lemma InsertRepeatedColumn(values: seq<(string, string)>, column: string, value: string)
    requires HasKey(values, column)
    ensures Keys(Put(values, column, value)) == Keys(values)
    ensures Get(Put(values, column, value), column) == Some(value)
  {
    PutKeys(values, column, value);
    PutGet(values, column, value, column);
  }

  /** The i-th column is rendered with the i-th value: both lists come from the same entries. */
  lemma InsertAligned(values: seq<(string, string)>, column: string, value: string)
    requires Get(values, column) == Some(value)
    ensures exists i :: 0 <= i < |values| && Keys(values)[i] == column && PhpArrays.Values(values)[i] == value
  {
    var i :| 0 <= i < |values| && values[i] == (column, value);
    assert Keys(values)[i] == column && PhpArrays.Values(values)[i] == value;
  }

  /** A statement that starts with 'S' and ends with the limit's last digit has nothing to trim. */
  lemma LimitTailUntrimmed(head: string, limit: int)
    requires head != [] && head[0] == 'S'
    ensures Trim(head + " LIMIT " + IntToString(limit)) == head + " LIMIT " + IntToString(limit)
  {
    var t := head + " LIMIT " + IntToString(limit);
    var digits := NatToString(if limit < 0 then -limit else limit);
    assert IntToString(limit)[|IntToString(limit)| - 1] == digits[|digits| - 1];
    assert t[0] == 'S';
    assert t[|t| - 1] == digits[|digits| - 1];
    TrimLeftNoop(t, WHITESPACE);
    TrimRightNoop(t, WHITESPACE);
  }

  /** With a limit, trim removes nothing from the statement the source assembles. */
  lemma SelectUntrimmed(distinct: bool, fields: seq<string>, from: seq<string>, join: seq<string>,
                        conditions: seq<string>, order: seq<string>, limit: int)
    ensures SelectSql(distinct, fields, from, join, conditions, order, Some(limit)) ==
      Ok(SelectTextAsWritten(distinct, fields, from, join, conditions, order, limit))
  {
    var head := "SELECT " + (if distinct then "DISTINCT " else "") + Join(fields, ", ")
      + " FROM " + Join(from, ", ")
      + (if join == [] then "" else Join(join, " "))
      + WhereClause(conditions)
      + (if order == [] then "" else " ORDER BY " + Join(order, ", "));
    LimitTailUntrimmed(head, limit);
  }

  /** With a limit, trim removes nothing from the intended statement either. */
  lemma IntendedUntrimmed(distinct: bool, fields: seq<string>, from: seq<string>, join: seq<string>,
                          conditions: seq<string>, order: seq<string>, limit: int)
    ensures SelectSqlIntended(distinct, fields, from, join, conditions, order, Some(limit)) ==
      Ok(SelectText(distinct, fields, from, join, conditions, order, limit))
  {
    var head := "SELECT " + (if distinct then "DISTINCT " else "") + Join(fields, ", ")
      + " FROM " + Join(from, ", ")
      + (if join == [] then "" else " " + Join(join, " "))
      + WhereClause(conditions)
      + (if order == [] then "" else " ORDER BY " + Join(order, ", "));
    LimitTailUntrimmed(head, limit);
  }

  /** The two renderings agree without joins; with joins the source's is one space short. */
  lemma JoinSpacing(distinct: bool, fields: seq<string>, from: seq<string>, join: seq<string>,
                    conditions: seq<string>, order: seq<string>, limit: int)
    ensures join == [] ==>
      SelectTextAsWritten(distinct, fields, from, join, conditions, order, limit) ==
      SelectText(distinct, fields, from, join, conditions, order, limit)
    ensures join != [] ==>
      |SelectText(distinct, fields, from, join, conditions, order, limit)| ==
      |SelectTextAsWritten(distinct, fields, from, join, conditions, order, limit)| + 1
  {
  }

  /** The source glues the first join to the last table: "FROM usersINNER JOIN posts". */
  lemma JoinGluedAsWritten(table: string, joined: string)
    ensures SelectSql(false, ["*"], [table], ["INNER JOIN " + joined], [], [], Some(1)) ==
      Ok("SELECT * FROM " + table + "INNER JOIN " + joined + " LIMIT 1")
  {
    SelectUntrimmed(false, ["*"], [table], ["INNER JOIN " + joined], [], [], 1);
    GluedText(table, joined);
  }

  lemma GluedText(table: string, joined: string)
    ensures SelectTextAsWritten(false, ["*"], [table], ["INNER JOIN " + joined], [], [], 1) ==
      "SELECT * FROM " + table + "INNER JOIN " + joined + " LIMIT 1"
  {
    assert IntToString(1) == "1";
    assert Join(["*"], ", ") == "*";
    assert Join([table], ", ") == table;
    assert Join(["INNER JOIN " + joined], " ") == "INNER JOIN " + joined;
  }

  /** The rendering of `from('users')->innerJoin('posts')->limit(1)` on `new Select(['*'])`. */
  lemma UsersPostsText()
    ensures SelectSql(false, ["*"], ["users"], ["INNER JOIN posts"], [], [], Some(1)) ==
      Ok("SELECT * FROM usersINNER JOIN posts LIMIT 1")
  {
    assert "INNER JOIN " + "posts" == "INNER JOIN posts";
    JoinGluedAsWritten("users", "posts");
    assert "SELECT * FROM " + "users" == "SELECT * FROM users";
    assert "SELECT * FROM users" + "INNER JOIN " == "SELECT * FROM usersINNER JOIN ";
    assert "SELECT * FROM usersINNER JOIN " + "posts" == "SELECT * FROM usersINNER JOIN posts";
    assert "SELECT * FROM usersINNER JOIN posts" + " LIMIT 1" == "SELECT * FROM usersINNER JOIN posts LIMIT 1";
  }

  /** The builder itself, driven as in the source, renders the glued statement. */
  method UsersPostsAsWritten() returns (r: Result<string>)
    ensures r == Ok("SELECT * FROM usersINNER JOIN posts LIMIT 1")
  {
    var q := new Select(["*"]);
    q := q.From("users", None);
    q := q.InnerJoin(["posts"]);
    q := q.Limit(1);
    assert "INNER JOIN " + "posts" == "INNER JOIN posts";
    assert Prefixed("INNER JOIN ", ["posts"]) == ["INNER JOIN posts"];
    assert q.join == ["INNER JOIN posts"] && q.from == ["users"] && q.fields == ["*"];
    assert !q.distinct && q.conditions == [] && q.order == [] && q.limit == Some(1);
    UsersPostsText();
    r := q.ToString();
  }

  /** With the separating space the join reads as intended: "FROM users INNER JOIN posts". */
  lemma JoinSeparated(table: string, joined: string)
    ensures SelectSqlIntended(false, ["*"], [table], ["INNER JOIN " + joined], [], [], Some(1)) ==
      Ok("SELECT * FROM " + table + " INNER JOIN " + joined + " LIMIT 1")
  {
    IntendedUntrimmed(false, ["*"], [table], ["INNER JOIN " + joined], [], [], 1);
    SeparatedText(table, joined);
  }

  lemma SeparatedText(table: string, joined: string)
    ensures SelectText(false, ["*"], [table], ["INNER JOIN " + joined], [], [], 1) ==
      "SELECT * FROM " + table + " INNER JOIN " + joined + " LIMIT 1"
  {
    assert IntToString(1) == "1";
    assert Join(["*"], ", ") == "*";
    assert Join([table], ", ") == table;
    assert Join(["INNER JOIN " + joined], " ") == "INNER JOIN " + joined;
    assert " " + ("INNER JOIN " + joined) == " INNER JOIN " + joined;
  }
}
