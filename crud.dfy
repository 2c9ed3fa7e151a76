/** The generic table helper `CRUD`: an allow-list of table names, SQL text
    assembled from the keys of a client's dict, and the not-found handling of
    each operation. The helper sends a statement and its parameters to the
    database; the model records that statement and gives its effect on an
    untyped table of records. */
module Crud {
  import opened Common
  import opened Query

  /** `CRUD.allowable_tables`. */
  const AllowableTables: seq<string> := ["quizzes"]

  /** A `CRUD` object; its table name is fixed once constructed. */
  datatype Crud = Crud(tableName: string)

  /** `CRUD(connect_database, table_name)`: a name outside the allow-list
      raises 404, which no handler in the helper catches. */
  function NewCrud(tableName: string): (r: Result<Crud>)
    ensures r.Ok? <==> tableName in AllowableTables
    ensures r.Ok? ==> r.value.tableName == tableName
    ensures r.Err? ==> r.error == HttpError(404, Text("Invalid Table"))
  {
    if tableName in AllowableTables then Ok(Crud(tableName)) else Err(HttpError(404, Text("Invalid Table")))
  }

  // ---------------------------------------------------------------- SQL text

  /** Python's `sep.join(parts)`. */
  function Join(sep: string, parts: seq<string>): string {
    if parts == [] then ""
    else if |parts| == 1 then parts[0]
    else parts[0] + sep + Join(sep, parts[1..])
  }

  /** `["%s"] * n`. */
  function Repeat(s: string, n: nat): (r: seq<string>)
    ensures |r| == n && forall i :: 0 <= i < n ==> r[i] == s
  {
    seq(n, _ => s)
  }

  /** The driver's placeholder. */
  const Placeholder := "%s"

  /** `[f"{key}=%s" for key in keys]`. */
  function Assignments(keys: seq<string>): (r: seq<string>)
    ensures |r| == |keys| && forall i :: 0 <= i < |keys| ==> r[i] == keys[i] + "=" + Placeholder
  {
    seq(|keys|, i requires 0 <= i < |keys| => keys[i] + "=" + Placeholder)
  }

  /** The query of `create_method`: an INSERT into the table that returns
      the new id; `InsertPlaceholdersMatch` counts its directives. */
  function InsertSql(table: string, keys: seq<string>): (q: string)
    ensures |q| >= |"INSERT INTO " + table| && q[..|"INSERT INTO " + table|] == "INSERT INTO " + table
    ensures |q| >= |") RETURNING id"| && q[|q| - |") RETURNING id"|..] == ") RETURNING id"
  {
    "INSERT INTO " + table + " (" + Join(",", keys) + ") VALUES (" + Join(",", Repeat(Placeholder, |keys|)) + ") RETURNING id"
  }

  /** The query of `update_method`: an UPDATE of the table that sets the
      keys, filters on the condition column and returns the ids;
      `UpdatePlaceholdersMatch` counts its directives. */
  function UpdateSql(table: string, keys: seq<string>, conditionName: string): (q: string)
    ensures |q| >= |"UPDATE " + table + " SET "| && q[..|"UPDATE " + table + " SET "|] == "UPDATE " + table + " SET "
    ensures var tail := " WHERE " + conditionName + "=" + Placeholder + " RETURNING id";
            |q| >= |tail| && q[|q| - |tail|..] == tail
  {
    "UPDATE " + table + " SET " + (Join(",", Assignments(keys)) + (" WHERE " + conditionName + "=" + Placeholder)) + " RETURNING id"
  }

  /** The query of `delete_method`: a DELETE from the table filtered on the
      condition column, with one directive (`DeletePlaceholdersMatch`). */
  function DeleteSql(table: string, conditionName: string): (q: string)
    ensures |q| >= |"DELETE FROM " + table| && q[..|"DELETE FROM " + table|] == "DELETE FROM " + table
    ensures var tail := " WHERE " + conditionName + "=" + Placeholder; |q| >= |tail| && q[|q| - |tail|..] == tail
  {
    "DELETE FROM " + table + " WHERE " + conditionName + "=" + Placeholder
  }

  /** A statement and the parameters sent with it. */
  datatype Statement = Statement(sql: string, params: seq<Value>)

  /** The number of `%` characters: the format directives the driver finds. */
  function Percents(s: string): nat {
    multiset(s)['%']
  }

  /** Every `%` starts a `%s` directive. */
  ghost predicate OnlyPlaceholders(s: string) {
    forall i :: 0 <= i < |s| && s[i] == '%' ==> i + 1 < |s| && s[i + 1] == 's'
  }

  /** Text with no `%` in it. */
  predicate Plain(s: string) {
    '%' !in s
  }

  lemma PlainAppend(a: string, b: string)
    requires Plain(a) && Plain(b)
    ensures Plain(a + b)
  {
  }

  /** The fixed words of the three queries hold no `%`. */
  lemma KeywordsPlain()
    ensures Plain("INSERT INTO ") && Plain(" (") && Plain(") VALUES (") && Plain(") RETURNING id")
    ensures Plain("UPDATE ") && Plain(" SET ") && Plain(" WHERE ") && Plain("=") && Plain(" RETURNING id")
    ensures Plain("DELETE FROM ")
  {
  }

  lemma PlainHasNoPercent(s: string)
    requires Plain(s)
    ensures Percents(s) == 0 && OnlyPlaceholders(s)
  {
  }

  lemma OnlyPlaceholdersAppend(a: string, b: string)
    requires OnlyPlaceholders(a) && OnlyPlaceholders(b)
    ensures OnlyPlaceholders(a + b)
  {
    forall i | 0 <= i < |a + b| && (a + b)[i] == '%' ensures i + 1 < |a + b| && (a + b)[i + 1] == 's' {
      if i < |a| {
        assert a[i] == '%';
      } else {
        assert b[i - |a|] == '%';
      }
    }
  }

  /** Joining parts that each hold one `%s` directive and no other `%` with
      a plain separator gives one directive per part. */
  lemma {:induction false} JoinCountsDirectives(sep: string, parts: seq<string>)
    requires Plain(sep)
    requires forall p :: p in parts ==> Percents(p) == 1 && OnlyPlaceholders(p)
    ensures Percents(Join(sep, parts)) == |parts|
    ensures OnlyPlaceholders(Join(sep, parts))
  {
    if |parts| > 1 {
      assert parts[0] in parts;
      JoinCountsDirectives(sep, parts[1..]);
      PlainHasNoPercent(sep);
      OnlyPlaceholdersAppend(parts[0], sep);
      OnlyPlaceholdersAppend(parts[0] + sep, Join(sep, parts[1..]));
    } else if |parts| == 1 {
      assert parts[0] in parts;
    }
  }

  /** Joining plain parts with a plain separator gives plain text. */
  lemma {:induction false} JoinKeepsPlain(sep: string, parts: seq<string>)
    requires Plain(sep) && forall p :: p in parts ==> Plain(p)
    ensures Plain(Join(sep, parts))
  {
    if |parts| > 1 {
      assert parts[0] in parts;
      JoinKeepsPlain(sep, parts[1..]);
    } else if |parts| == 1 {
      assert parts[0] in parts;
    }
  }

  lemma PlaceholderDirective()
    ensures Percents(Placeholder) == 1 && OnlyPlaceholders(Placeholder)
  {
    assert Placeholder == ['%'] + ['s'];
  }

  /** Plain text before a placeholder. */
  lemma PlainThenPlaceholder(head: string)
    requires Plain(head)
    ensures Percents(head + Placeholder) == 1 && OnlyPlaceholders(head + Placeholder)
  {
    PlaceholderDirective();
    PlainHasNoPercent(head);
    OnlyPlaceholdersAppend(head, Placeholder);
  }

  /** Plain text around a part keeps the part's directives and adds none. */
  lemma Sandwich(head: string, middle: string, tail: string)
    requires Plain(head) && Plain(tail) && OnlyPlaceholders(middle)
    ensures Percents(head + middle + tail) == Percents(middle)
    ensures OnlyPlaceholders(head + middle + tail)
  {
    PlainHasNoPercent(head);
    PlainHasNoPercent(tail);
    OnlyPlaceholdersAppend(head, middle);
    OnlyPlaceholdersAppend(head + middle, tail);
  }

  /** The insert query carries one `%s` per key and no other directive, as
      many as the values it is sent with, when the table name and the keys
      hold no `%`. */
  lemma InsertPlaceholdersMatch(table: string, keys: seq<string>)
    requires Plain(table) && forall k :: k in keys ==> Plain(k)
    ensures Percents(InsertSql(table, keys)) == |keys|
    ensures OnlyPlaceholders(InsertSql(table, keys))
  {
    var ps := Repeat(Placeholder, |keys|);
    PlaceholderDirective();
    JoinCountsDirectives(",", ps);
    JoinKeepsPlain(",", keys);
    KeywordsPlain();
    PlainAppend("INSERT INTO ", table);
    PlainAppend("INSERT INTO " + table, " (");
    PlainAppend("INSERT INTO " + table + " (", Join(",", keys));
    PlainAppend("INSERT INTO " + table + " (" + Join(",", keys), ") VALUES (");
    var head := "INSERT INTO " + table + " (" + Join(",", keys) + ") VALUES (";
    Sandwich(head, Join(",", ps), ") RETURNING id");
  }

  /** The `SET` list carries one `%s` per key and no other directive. */
  lemma AssignmentsDirectives(keys: seq<string>)
    requires forall k :: k in keys ==> Plain(k)
    ensures Percents(Join(",", Assignments(keys))) == |keys|
    ensures OnlyPlaceholders(Join(",", Assignments(keys)))
  {
    var asg := Assignments(keys);
    forall p | p in asg ensures Percents(p) == 1 && OnlyPlaceholders(p) {
      var i :| 0 <= i < |asg| && asg[i] == p;
      assert keys[i] in keys;
      PlainThenPlaceholder(keys[i] + "=");
    }
    JoinCountsDirectives(",", asg);
  }

  /** The update query carries one `%s` per key plus the one of its
      condition: as many as the values followed by the condition value. */
  lemma UpdatePlaceholdersMatch(table: string, keys: seq<string>, conditionName: string)
    requires Plain(table) && Plain(conditionName) && forall k :: k in keys ==> Plain(k)
    ensures Percents(UpdateSql(table, keys, conditionName)) == |keys| + 1
    ensures OnlyPlaceholders(UpdateSql(table, keys, conditionName))
  {
    var assignments := Join(",", Assignments(keys));
    var condition := " WHERE " + conditionName + "=" + Placeholder;
    AssignmentsDirectives(keys);
    KeywordsPlain();
    PlainAppend(" WHERE ", conditionName);
    PlainAppend(" WHERE " + conditionName, "=");
    PlainThenPlaceholder(" WHERE " + conditionName + "=");
    OnlyPlaceholdersAppend(assignments, condition);
    assert Percents(assignments + condition) == |keys| + 1;
    PlainAppend("UPDATE ", table);
    PlainAppend("UPDATE " + table, " SET ");
    Sandwich("UPDATE " + table + " SET ", assignments + condition, " RETURNING id");
  }

  /** The delete query carries the one `%s` of its condition. */
  lemma DeletePlaceholdersMatch(table: string, conditionName: string)
    requires Plain(table) && Plain(conditionName)
    ensures Percents(DeleteSql(table, conditionName)) == 1
    ensures OnlyPlaceholders(DeleteSql(table, conditionName))
  {
    KeywordsPlain();
    PlainAppend("DELETE FROM ", table);
    PlainAppend("DELETE FROM " + table, " WHERE ");
    PlainAppend("DELETE FROM " + table + " WHERE ", conditionName);
    PlainAppend("DELETE FROM " + table + " WHERE " + conditionName, "=");
    PlainThenPlaceholder("DELETE FROM " + table + " WHERE " + conditionName + "=");
  }

  /** The position of the first `c` in `s`, or `|s|`. */
  function IndexOf(s: string, c: char): (k: nat)
    ensures k <= |s| && (forall j :: 0 <= j < k ==> s[j] != c) && (k < |s| ==> s[k] == c)
  {
    if s == [] || s[0] == c then 0 else 1 + IndexOf(s[1..], c)
  }

  /** `s.split(c)`. */
  function Split(s: string, c: char): seq<string>
    decreases |s|
  {
    var k := IndexOf(s, c);
    if k == |s| then [s] else [s[..k]] + Split(s[k + 1..], c)
  }

  /** The column list can be read back: splitting it at the separator gives
      the keys, when no key is empty of meaning for the split (holds the
      separator) and there is at least one key. */
  lemma {:induction false} SplitJoin(parts: seq<string>, c: char)
    requires parts != [] && forall p :: p in parts ==> c !in p
    ensures Split(Join([c], parts), c) == parts
  {
    assert parts[0] in parts;
    if |parts| == 1 {
      SplitLast(parts[0], c);
    } else {
      SplitJoin(parts[1..], c);
      SplitFirst(parts[0], Join([c], parts[1..]), c);
    }
  }

  /** A `c`-free text splits into itself. */
  lemma SplitLast(a: string, c: char)
    requires c !in a
    ensures Split(a, c) == [a]
  {
    assert IndexOf(a, c) == |a|;
  }

  /** A `c`-free text before a `c` is the first piece of the split. */
  lemma SplitFirst(a: string, rest: string, c: char)
    requires c !in a
    ensures Split(a + [c] + rest, c) == [a] + Split(rest, c)
  {
    var s := a + [c] + rest;
    assert s == a + ([c] + rest);
    IndexOfPast(a, [c] + rest, c);
    assert IndexOf(s, c) == |a|;
    assert s[..|a|] == a;
    assert s[|a| + 1..] == rest;
  }

  /** A `c`-free prefix moves the first `c` by its length. */
  lemma {:induction false} IndexOfPast(a: string, b: string, c: char)
    requires c !in a
    ensures IndexOf(a + b, c) == |a| + IndexOf(b, c)
  {
    if a != [] {
      assert (a + b)[1..] == a[1..] + b;
      assert a[0] in a;
      IndexOfPast(a[1..], b, c);
    } else {
      assert a + b == b;
    }
  }

  // ------------------------------------------------------------ the table

  /** A row of the table: column name to value. */
  type Record = map<string, Value>

  /** The client's dict, as (key, value) pairs in key order. */
  datatype Field = Field(key: string, value: Value)

  function Keys(fields: seq<Field>): (r: seq<string>)
    ensures |r| == |fields| && forall i :: 0 <= i < |fields| ==> r[i] == fields[i].key
  {
    seq(|fields|, i requires 0 <= i < |fields| => fields[i].key)
  }

  function Values(fields: seq<Field>): (r: seq<Value>)
    ensures |r| == |fields| && forall i :: 0 <= i < |fields| ==> r[i] == fields[i].value
  {
    seq(|fields|, i requires 0 <= i < |fields| => fields[i].value)
  }

  /** The cells the dict sets. */
  function Cells(fields: seq<Field>): (r: Record)
    ensures forall k :: k in r <==> k in Keys(fields)
  {
    if fields == [] then map[] else Cells(fields[..|fields| - 1])[fields[|fields| - 1].key := fields[|fields| - 1].value]
  }

  /** The keys of a dict are distinct. */
  predicate DistinctKeys(fields: seq<Field>) {
    forall i, j :: 0 <= i < j < |fields| ==> fields[i].key != fields[j].key
  }

  /** Each key's cell holds that key's value. */
  lemma {:induction false} CellsHoldValues(fields: seq<Field>)
    requires DistinctKeys(fields)
    ensures forall i :: 0 <= i < |fields| ==> Cells(fields)[fields[i].key] == fields[i].value
  {
    if fields != [] {
      var init := fields[..|fields| - 1];
      assert DistinctKeys(init);
      CellsHoldValues(init);
      forall i | 0 <= i < |fields| ensures Cells(fields)[fields[i].key] == fields[i].value {
        if i < |fields| - 1 {
          assert init[i] == fields[i];
        }
      }
    }
  }

  /** `WHERE condition_name = %s`. The driver sends the parameter as a quoted
      literal and PostgreSQL converts it to the column's type, so the text
      `'5'` finds the integer 5; the model compares the two values' texts. */
  predicate Matches(row: Record, conditionName: string, conditionValue: Value) {
    conditionName in row && Str(row[conditionName]) == Str(conditionValue)
  }

  /** What the helper answers on success. */
  datatype Reply = Reply(message: string, id: Value)

  /** The table the helper works on; every row has an `id`. */
  class Table {
    var rows: seq<Record>
    var nextId: nat

    ghost predicate Valid()
      reads this
    {
      forall i :: 0 <= i < |rows| ==> "id" in rows[i]
    }

    constructor ()
      ensures rows == [] && nextId == 1 && Valid()
    {
      rows, nextId := [], 1;
    }

    /** `create_method(user_data)`. An empty dict gives `INSERT INTO t () VALUES ()`,
        which the database rejects; `dbOk` is whether the database accepts
        the statement. An `id` the dict does not set comes from the table's
        sequence. */
    method Create(c: Crud, fields: seq<Field>, dbOk: bool) returns (stmt: Statement, r: Result<Reply>)
      requires Valid() && DistinctKeys(fields)
      modifies this
      ensures Valid()
      ensures stmt == Statement(InsertSql(c.tableName, Keys(fields)), Values(fields))
      ensures fields == [] || !dbOk ==> r == Err(HttpError(500, Foreign)) && unchanged(this)
      ensures fields != [] && dbOk ==>
        var cells := Cells(fields);
        var id := if "id" in cells then cells["id"] else IntValue(old(nextId));
        && r == Ok(Reply("Data is Inserted", id))
        && rows == old(rows) + [cells["id" := id]]
        && nextId == (if "id" in cells then old(nextId) else old(nextId) + 1)
    {
      stmt := Statement(InsertSql(c.tableName, Keys(fields)), Values(fields));
      if fields == [] || !dbOk {
        return stmt, Err(HttpError(500, Foreign));
      }
      var cells := Cells(fields);
      var id;
      if "id" in cells {
        id := cells["id"];
      } else {
        id := IntValue(nextId);
        nextId := nextId + 1;
      }
      rows := rows + [cells["id" := id]];
      r := Ok(Reply("Data is Inserted", id));
    }

    /** `update_method(update_data, condition_name, condition_value)`: every
        matching row takes the dict's cells; the reply carries the id of the
        first one. No match raises not-found, which the handler-wide catch
        re-raises as 500, and nothing is committed. */
    method Update(c: Crud, fields: seq<Field>, conditionName: string, conditionValue: Value, dbOk: bool)
      returns (stmt: Statement, r: Result<Reply>)
      requires Valid()
      modifies this`rows
      ensures Valid()
      ensures stmt == Statement(UpdateSql(c.tableName, Keys(fields), conditionName), Values(fields) + [conditionValue])
      ensures fields == [] || !dbOk ==> r == Err(HttpError(500, Foreign)) && unchanged(this)
      ensures fields != [] && dbOk && (forall i :: 0 <= i < |old(rows)| ==> !Matches(old(rows)[i], conditionName, conditionValue)) ==>
        r == Err(Rewrap(500, HttpError(404, Text("No matching record to update")))) && unchanged(this)
      ensures fields != [] && dbOk && (exists i :: 0 <= i < |old(rows)| && Matches(old(rows)[i], conditionName, conditionValue)) ==>
        && |rows| == |old(rows)|
        && (forall i :: 0 <= i < |rows| ==>
              rows[i] == if Matches(old(rows)[i], conditionName, conditionValue) then old(rows)[i] + Cells(fields) else old(rows)[i])
        && var k := FirstIndex(old(rows), (row: Record) => Matches(row, conditionName, conditionValue));
           k < |rows| && r == Ok(Reply("Data Updated Successfully", rows[k]["id"]))
    {
      stmt := Statement(UpdateSql(c.tableName, Keys(fields), conditionName), Values(fields) + [conditionValue]);
      if fields == [] || !dbOk {
        return stmt, Err(HttpError(500, Foreign));
      }
      var k := FirstIndex(rows, (row: Record) => Matches(row, conditionName, conditionValue));
      if k == |rows| {
        return stmt, Err(Rewrap(500, HttpError(404, Text("No matching record to update"))));
      }
      var cells := Cells(fields);
      var before := rows;
      rows := seq(|before|, i requires 0 <= i < |before| =>
        if Matches(before[i], conditionName, conditionValue) then before[i] + cells else before[i]);
      assert "id" in before[k];
      r := Ok(Reply("Data Updated Successfully", rows[k]["id"]));
    }

    /** `delete_method(condition_name, condition_value)`: every matching row
        goes, the deletion is committed, and only then is a zero row count
        reported as not found. */
    method Delete(c: Crud, conditionName: string, conditionValue: Value, dbOk: bool)
      returns (stmt: Statement, r: Result<string>)
      requires Valid()
      modifies this`rows
      ensures Valid()
      ensures stmt == Statement(DeleteSql(c.tableName, conditionName), [conditionValue])
      ensures !dbOk ==> r == Err(HttpError(500, Foreign)) && unchanged(this)
      ensures dbOk ==> rows == Filter(old(rows), (row: Record) => !Matches(row, conditionName, conditionValue))
      ensures dbOk ==>
        (r == Err(Rewrap(500, HttpError(404, Text("No data found to delete")))) <==> rows == old(rows))
      ensures dbOk && rows != old(rows) ==> r == Ok("Data is Deleted")
    {
      stmt := Statement(DeleteSql(c.tableName, conditionName), [conditionValue]);
      if !dbOk {
        return stmt, Err(HttpError(500, Foreign));
      }
      var before := rows;
      rows := Filter(rows, (row: Record) => !Matches(row, conditionName, conditionValue));
      forall i | 0 <= i < |rows| ensures "id" in rows[i] {
        assert rows[i] in before;
      }
      // `connection.commit()`, then `cursor.rowcount`
      if |rows| == |before| {
        FilterKeepsAll(before, (row: Record) => !Matches(row, conditionName, conditionValue));
        r := Err(Rewrap(500, HttpError(404, Text("No data found to delete"))));
      } else {
        r := Ok("Data is Deleted");
      }
    }
  }

  /** A filter that drops nothing gives its input back. */
  lemma {:induction false} FilterKeepsAll<T(!new)>(s: seq<T>, p: T -> bool)
    requires |Filter(s, p)| == |s|
    ensures Filter(s, p) == s
  {
    if s != [] {
      assert s == [s[0]] + s[1..];
      FilterKeepsAll(s[1..], p);
    }
  }

  /** After a delete no row matches the condition and every row that did not
      match is still there. */
  lemma DeleteMeaning(before: seq<Record>, conditionName: string, conditionValue: Value)
    ensures var after := Filter(before, (row: Record) => !Matches(row, conditionName, conditionValue));
      && (forall row :: row in after ==> !Matches(row, conditionName, conditionValue))
      && (forall row :: row in before && !Matches(row, conditionName, conditionValue) ==> row in after)
  {
  }

  /** `read_method()`: every row; an empty table raises not-found inside the
      handler, whose catch prefixes the text with "Database error: ". */
  function Read(rows: seq<Record>, dbOk: bool): (r: Result<seq<Record>>)
    ensures !dbOk ==> r == Err(HttpError(500, Foreign))
    ensures dbOk && rows == [] ==>
      r == Err(HttpError(500, Text("Database error: " + ErrorText(HttpError(404, Text("No data found"))).text)))
    ensures dbOk && rows != [] ==> r == Ok(rows)
  {
    if !dbOk then Err(HttpError(500, Foreign))
    else if rows == [] then Err(HttpError(500, Text("Database error: " + ErrorText(HttpError(404, Text("No data found"))).text)))
    else Ok(rows)
  }

  /** `read_method_each(id)`: the first row with that id. */
  function ReadEach(rows: seq<Record>, id: Value, dbOk: bool): (r: Result<Record>)
    ensures !dbOk ==> r == Err(HttpError(500, Foreign))
    ensures dbOk && (forall i :: 0 <= i < |rows| ==> !Matches(rows[i], "id", id)) ==>
      r == Err(HttpError(500, Text("Database Error: " + ErrorText(HttpError(404, Text("No Data Found"))).text)))
    ensures dbOk && (exists i :: 0 <= i < |rows| && Matches(rows[i], "id", id)) ==>
      r == Ok(rows[FirstIndex(rows, (row: Record) => Matches(row, "id", id))])
    ensures r.Ok? ==> r.value in rows && Matches(r.value, "id", id)
  {
    if !dbOk then Err(HttpError(500, Foreign))
    else
      match FirstWhere(rows, (row: Record) => Matches(row, "id", id))
      case None => Err(HttpError(500, Text("Database Error: " + ErrorText(HttpError(404, Text("No Data Found"))).text)))
      case Some(row) => Ok(row)
  }

  /** `read_method_each` takes the id as text: the decimal text of a row's
      integer id finds a row with that id, the first in table order. */
  lemma TextIdFindsIntegerId(rows: seq<Record>, n: int, k: nat)
    requires k < |rows| && "id" in rows[k] && rows[k]["id"] == IntValue(n)
    requires forall j :: 0 <= j < k ==> !Matches(rows[j], "id", IntValue(n))
    ensures ReadEach(rows, StrValue(IntToString(n)), true) == Ok(rows[k])
  {
    var p := (row: Record) => Matches(row, "id", StrValue(IntToString(n)));
    assert p(rows[k]);
    assert FirstIndex(rows, p) == k;
  }

  /** A single read agrees with the full read: a row it finds is among the
      rows `read_method` returns, and an empty table fails both. */
  lemma ReadEachWithinRead(rows: seq<Record>, id: Value, dbOk: bool)
    ensures ReadEach(rows, id, dbOk).Ok? ==> Read(rows, dbOk).Ok? && ReadEach(rows, id, dbOk).value in Read(rows, dbOk).value
    ensures Read(rows, dbOk).Err? ==> ReadEach(rows, id, dbOk).Err?
  {
  }

  /** The cells an update writes: each key of the dict takes its value and
      every other column keeps its own. */
  lemma {:induction false} UpdateWrites(row: Record, fields: seq<Field>)
    requires DistinctKeys(fields)
    ensures forall i :: 0 <= i < |fields| ==> (row + Cells(fields))[fields[i].key] == fields[i].value
    ensures forall k :: k in row && k !in Keys(fields) ==> (row + Cells(fields))[k] == row[k]
    ensures (row + Cells(fields)).Keys == row.Keys + set i | 0 <= i < |fields| :: fields[i].key
  {
    CellsHoldValues(fields);
  }
}
