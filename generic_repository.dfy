/** The generic repository's query builder: the columns come from the `db`
    tags of the stored struct, and every query is a text with positional or
    named parameters. Executing the queries is not part of the model. */
module GenericRepository {

  /** A field of the stored struct with its `db` tag ("" when it has none). */
  datatype StructField = StructField(name: string, dbTag: string)

  /** A repository over one table: its columns and the key column used for conflicts. */
  datatype Repository = Repository(tableName: string, columns: seq<string>, keyColumn: string)

  /** A query text and the values bound to its parameters, in order. */
  datatype Query = Query(text: string, args: seq<string>)

  /** A tag names a column unless it is empty or "-". */
  predicate IsColumnTag(tag: string) {
    tag != "" && tag != "-"
  }

  /** The column tags of the fields, in field order. */
  function Columns(fields: seq<StructField>): (columns: seq<string>)
    ensures |columns| <= |fields|
    ensures forall c :: c in columns ==> IsColumnTag(c)
  {
    if fields == [] then []
    else
      var last := fields[|fields| - 1];
      Columns(fields[..|fields| - 1]) + if IsColumnTag(last.dbTag) then [last.dbTag] else []
  }

  /** `strings.Join`. */
  function Join(parts: seq<string>, separator: string): (joined: string)
    ensures |parts| >= 1 ==> |parts[0]| <= |joined| && joined[..|parts[0]|] == parts[0]
    ensures |parts| >= 1 ==> var last := parts[|parts| - 1];
      |last| <= |joined| && joined[|joined| - |last|..] == last
  {
    if |parts| == 0 then ""
    else if |parts| == 1 then parts[0]
    else Join(parts[..|parts| - 1], separator) + separator + parts[|parts| - 1]
  }

  /** Every part occurs in the joined text. */
  lemma {:induction false} JoinHasEach(parts: seq<string>, separator: string)
    ensures forall i :: 0 <= i < |parts| ==> Occurs(parts[i], Join(parts, separator))
  {
    if |parts| == 1 {
      OccursSelf(parts[0]);
    } else if |parts| > 1 {
      var init := parts[..|parts| - 1];
      var last := parts[|parts| - 1];
      var head := Join(init, separator);
      JoinHasEach(init, separator);
      assert Join(parts, separator) == head + separator + last;
      forall j | 0 <= j < |init| ensures Occurs(init[j], head + separator + last) {
        OccursInLeft(init[j], head, separator);
        OccursInLeft(init[j], head + separator, last);
      }
      OccursSelf(last);
      OccursInRight(last, head + separator, last);
    }
  }

  /** `target` occurs in `text` starting at index `k`. */
  predicate OccursAt(target: string, text: string, k: int) {
    0 <= k && k + |target| <= |text| && text[k..k + |target|] == target
  }

  /** `target` occurs somewhere in `text`. */
  predicate Occurs(target: string, text: string) {
    exists k :: 0 <= k <= |text| && OccursAt(target, text, k)
  }

  lemma OccursSelf(text: string)
    ensures Occurs(text, text)
  {
    assert OccursAt(text, text, 0);
  }

  /** What occurs in a text occurs in the text followed by more. */
  lemma OccursInLeft(target: string, text: string, after: string)
    requires Occurs(target, text)
    ensures Occurs(target, text + after)
  {
    var k :| 0 <= k <= |text| && OccursAt(target, text, k);
    assert (text + after)[k..k + |target|] == text[k..k + |target|];
    assert OccursAt(target, text + after, k);
  }

  /** What occurs in a text occurs in the text preceded by more. */
  lemma OccursInRight(target: string, before: string, text: string)
    requires Occurs(target, text)
    ensures Occurs(target, before + text)
  {
    var k :| 0 <= k <= |text| && OccursAt(target, text, k);
    assert (before + text)[|before| + k..|before| + k + |target|] == text[k..k + |target|];
    assert OccursAt(target, before + text, |before| + k);
  }

  // ---------------------------------------------------------------------------
  // Columns

  /** `extractColumns`: walk the fields and keep each column tag. */
  method ExtractColumns(fields: seq<StructField>) returns (columns: seq<string>)
    ensures columns == Columns(fields)
  {
    columns := [];
    for i := 0 to |fields|
      invariant columns == Columns(fields[..i])
    {
      assert fields[..i + 1][..i] == fields[..i];
      var dbTag := fields[i].dbTag;
      if dbTag != "" && dbTag != "-" {
        columns := columns + [dbTag];
      }
    }
    assert fields[..|fields|] == fields;
  }

  /** The columns are exactly the column tags, and the extraction keeps field
      order: the columns of two runs of fields are the columns of each, in turn. */
  lemma {:induction false} ColumnsAreTheTags(fields: seq<StructField>)
    ensures forall c :: c in Columns(fields) <==> exists i :: 0 <= i < |fields| && fields[i].dbTag == c && IsColumnTag(c)
    ensures |Columns(fields)| <= |fields|
  {
    if fields != [] {
      var init := fields[..|fields| - 1];
      ColumnsAreTheTags(init);
      forall c | c in Columns(fields)
        ensures exists i :: 0 <= i < |fields| && fields[i].dbTag == c && IsColumnTag(c)
      {
        if c in Columns(init) {
          var i :| 0 <= i < |init| && init[i].dbTag == c && IsColumnTag(c);
          assert fields[i] == init[i];
        }
      }
      forall c | exists i :: 0 <= i < |fields| && fields[i].dbTag == c && IsColumnTag(c)
        ensures c in Columns(fields)
      {
        var i :| 0 <= i < |fields| && fields[i].dbTag == c && IsColumnTag(c);
        if i < |fields| - 1 {
          assert init[i] == fields[i];
        }
      }
    }
  }

  lemma {:induction false} ColumnsConcat(a: seq<StructField>, b: seq<StructField>)
    ensures Columns(a + b) == Columns(a) + Columns(b)
  {
    if b == [] {
      assert a + b == a;
    } else {
      var init := b[..|b| - 1];
      var last := b[|b| - 1];
      var tagged := if IsColumnTag(last.dbTag) then [last.dbTag] else [];
      ColumnsConcat(a, init);
      assert (a + b)[..|a + b| - 1] == a + init;
      calc {
        Columns(a + b);
        Columns(a + init) + tagged;
        (Columns(a) + Columns(init)) + tagged;
        Columns(a) + (Columns(init) + tagged);
      }
    }
  }

  /** `NewGenericRepository`: the columns are read from the struct once. */
  method NewGenericRepository(fields: seq<StructField>, tableName: string, keyColumn: string)
    returns (r: Repository)
    ensures r == Repository(tableName, Columns(fields), keyColumn)
  {
    var columns := ExtractColumns(fields);
    r := Repository(tableName, columns, keyColumn);
  }

  // ---------------------------------------------------------------------------
  // The upsert

  /** The placeholder list: one named parameter per column, in column order. */
  method BuildPlaceholders(columns: seq<string>) returns (placeholders: seq<string>)
    ensures |placeholders| == |columns|
    ensures forall i :: 0 <= i < |columns| ==> placeholders[i] == ":" + columns[i]
  {
    var slots := new string[|columns|];
    for i := 0 to |columns|
      invariant forall j :: 0 <= j < i ==> slots[j] == ":" + columns[j]
    {
      slots[i] := ":" + columns[i];
    }
    placeholders := slots[..];
  }

  /** The named parameters, one per column. */
  function Placeholders(columns: seq<string>): (placeholders: seq<string>)
    ensures |placeholders| == |columns|
    ensures forall i :: 0 <= i < |columns| ==> |placeholders[i]| == |columns[i]| + 1 && placeholders[i][0] == ':' && placeholders[i][1..] == columns[i]
    ensures forall i, j :: 0 <= i < j < |columns| && columns[i] != columns[j] ==> placeholders[i] != placeholders[j]
  {
    var placeholders := seq(|columns|, i requires 0 <= i < |columns| => ":" + columns[i]);
    assert forall i :: 0 <= i < |columns| ==> placeholders[i][1..] == columns[i];
    placeholders
  }

  /** The columns other than the key, in order. */
  function NonKeyColumns(columns: seq<string>, keyColumn: string): (others: seq<string>)
    ensures |others| <= |columns|
    ensures keyColumn !in columns ==> others == columns
  {
    if columns == [] then []
    else
      var last := columns[|columns| - 1];
      NonKeyColumns(columns[..|columns| - 1], keyColumn) + if last != keyColumn then [last] else []
  }

  /** The assignment that takes a column's value from the conflicting row. */
  function ExcludedAssignment(column: string): string {
    column + " = EXCLUDED." + column
  }

  function ExcludedAssignments(columns: seq<string>): seq<string> {
    seq(|columns|, i requires 0 <= i < |columns| => ExcludedAssignment(columns[i]))
  }

  /** The SET clause entries: one per non-key column. */
  function ConflictSet(columns: seq<string>, keyColumn: string): (entries: seq<string>)
    ensures |entries| <= |columns|
    ensures keyColumn !in columns ==> |entries| == |columns|
  {
    ExcludedAssignments(NonKeyColumns(columns, keyColumn))
  }

  /** The loop that builds the SET clause entries. */
  method BuildSetClause(columns: seq<string>, keyColumn: string) returns (setClause: seq<string>)
    ensures setClause == ConflictSet(columns, keyColumn)
  {
    setClause := [];
    for i := 0 to |columns|
      invariant setClause == ConflictSet(columns[..i], keyColumn)
    {
      assert columns[..i + 1][..i] == columns[..i];
      var col := columns[i];
      if col != keyColumn {
        setClause := setClause + [ExcludedAssignment(col)];
      }
    }
    assert columns[..|columns|] == columns;
  }

  /** The non-key columns are the columns other than the key, each as often
      as in the columns. */
  lemma NonKeyColumnsAreTheOthers(columns: seq<string>, keyColumn: string)
    ensures forall c :: c in NonKeyColumns(columns, keyColumn) <==> c in columns && c != keyColumn
    ensures forall c :: c != keyColumn ==> multiset(NonKeyColumns(columns, keyColumn))[c] == multiset(columns)[c]
    ensures multiset(NonKeyColumns(columns, keyColumn))[keyColumn] == 0
  {
    NonKeyColumnsCounts(columns, keyColumn);
    var others := NonKeyColumns(columns, keyColumn);
    forall c ensures c in others <==> c in columns && c != keyColumn {
      assert c in others <==> multiset(others)[c] > 0;
      assert c in columns <==> multiset(columns)[c] > 0;
    }
  }

  lemma {:induction false} NonKeyColumnsCounts(columns: seq<string>, keyColumn: string)
    ensures multiset(NonKeyColumns(columns, keyColumn)) == multiset(columns)[keyColumn := 0]
  {
    if columns != [] {
      var init := columns[..|columns| - 1];
      var last := columns[|columns| - 1];
      NonKeyColumnsCounts(init, keyColumn);
      assert columns == init + [last];
      assert multiset(columns) == multiset(init) + multiset{last};
    }
  }

  /** Distinct columns get distinct assignments. */
  lemma ExcludedAssignmentInjective(a: string, b: string)
    ensures a != b ==> ExcludedAssignment(a) != ExcludedAssignment(b)
  {
    if ExcludedAssignment(a) == ExcludedAssignment(b) {
      assert |a| == |b|;
      assert a == ExcludedAssignment(a)[..|a|];
      assert b == ExcludedAssignment(b)[..|b|];
    }
  }

  /** The SET clause updates every column but the key from the conflicting row,
      and never assigns the key. */
  lemma ConflictSetSkipsKey(columns: seq<string>, keyColumn: string)
    ensures forall c :: c in columns && c != keyColumn ==> ExcludedAssignment(c) in ConflictSet(columns, keyColumn)
    ensures ExcludedAssignment(keyColumn) !in ConflictSet(columns, keyColumn)
    ensures forall s :: s in ConflictSet(columns, keyColumn) ==>
      exists c :: c in columns && c != keyColumn && s == ExcludedAssignment(c)
  {
    ConflictSetAssignsOthers(columns, keyColumn);
    ConflictSetOmitsKey(columns, keyColumn);
    ConflictSetOnlyOthers(columns, keyColumn);
  }

  lemma ConflictSetAssignsOthers(columns: seq<string>, keyColumn: string)
    ensures forall c :: c in columns && c != keyColumn ==> ExcludedAssignment(c) in ConflictSet(columns, keyColumn)
  {
    NonKeyColumnsAreTheOthers(columns, keyColumn);
    var nonKey := NonKeyColumns(columns, keyColumn);
    var entries := ConflictSet(columns, keyColumn);
    forall c | c in columns && c != keyColumn ensures ExcludedAssignment(c) in entries {
      var i :| 0 <= i < |nonKey| && nonKey[i] == c;
      assert entries[i] == ExcludedAssignment(c);
    }
  }

  lemma ConflictSetOmitsKey(columns: seq<string>, keyColumn: string)
    ensures ExcludedAssignment(keyColumn) !in ConflictSet(columns, keyColumn)
  {
    NonKeyColumnsAreTheOthers(columns, keyColumn);
    var nonKey := NonKeyColumns(columns, keyColumn);
    var entries := ConflictSet(columns, keyColumn);
    forall i | 0 <= i < |entries| ensures entries[i] != ExcludedAssignment(keyColumn) {
      assert nonKey[i] in nonKey;
      ExcludedAssignmentInjective(nonKey[i], keyColumn);
    }
  }

  lemma ConflictSetOnlyOthers(columns: seq<string>, keyColumn: string)
    ensures forall s :: s in ConflictSet(columns, keyColumn) ==>
      exists c :: c in columns && c != keyColumn && s == ExcludedAssignment(c)
  {
    NonKeyColumnsAreTheOthers(columns, keyColumn);
    var nonKey := NonKeyColumns(columns, keyColumn);
    var entries := ConflictSet(columns, keyColumn);
    forall s | s in entries
      ensures exists c :: c in columns && c != keyColumn && s == ExcludedAssignment(c)
    {
      var i :| 0 <= i < |entries| && entries[i] == s;
      assert nonKey[i] in nonKey;
    }
  }

  /** The text of the upsert, as the repository builds it: the insert, then
      the conflict branch. */
  function UpsertText(tableName: string, columns: seq<string>, placeholders: seq<string>,
                      keyColumn: string, setClause: seq<string>): (text: string)
    ensures var suffix := ", updated_at = NOW()"; |text| >= |suffix| && text[|text| - |suffix|..] == suffix
  {
    InsertClause(tableName, columns, placeholders) + ConflictClause(keyColumn, setClause)
  }

  function InsertClause(tableName: string, columns: seq<string>, placeholders: seq<string>): string {
    "\n\t\tINSERT INTO " + tableName + " (" + Join(columns, ", ") + ") VALUES (" + Join(placeholders, ", ") + ")\n\t\t"
  }

  function ConflictClause(keyColumn: string, setClause: seq<string>): string {
    "ON CONFLICT (" + keyColumn + ") DO UPDATE SET " + Join(setClause, ", ") + ", updated_at = NOW()"
  }

  /** The upsert's text: the placeholders and the SET clause built from the columns. */
  method Upsert(r: Repository) returns (query: string)
    ensures query == UpsertText(r.tableName, r.columns, Placeholders(r.columns), r.keyColumn,
                                ConflictSet(r.columns, r.keyColumn))
  {
    var columnsStr := Join(r.columns, ", ");
    var placeholders := BuildPlaceholders(r.columns);
    var valuesStr := Join(placeholders, ", ");
    var setClause := BuildSetClause(r.columns, r.keyColumn);
    var setStr := Join(setClause, ", ");
    assert placeholders == Placeholders(r.columns);
    var insertPart := "\n\t\tINSERT INTO " + r.tableName + " (" + columnsStr + ") VALUES (" + valuesStr + ")\n\t\t";
    var conflictPart := "ON CONFLICT (" + r.keyColumn + ") DO UPDATE SET " + setStr + ", updated_at = NOW()";
    query := insertPart + conflictPart;
  }

  /** The upsert names the key column as the conflict target and always ends by
      stamping `updated_at`. */
  lemma UpsertTextShape(tableName: string, columns: seq<string>, placeholders: seq<string>,
                        keyColumn: string, setClause: seq<string>)
    ensures var text := UpsertText(tableName, columns, placeholders, keyColumn, setClause);
      var suffix := ", updated_at = NOW()";
      |text| >= |suffix| && text[|text| - |suffix|..] == suffix &&
      Occurs("ON CONFLICT (" + keyColumn + ") DO UPDATE SET ", text)
  {
    var target := "ON CONFLICT (" + keyColumn + ") DO UPDATE SET ";
    var middle := Join(setClause, ", ");
    OccursSelf(target);
    OccursInLeft(target, target, middle);
    OccursInLeft(target, target + middle, ", updated_at = NOW()");
    OccursInRight(target, InsertClause(tableName, columns, placeholders), ConflictClause(keyColumn, setClause));
  }

  /** A struct that carries an `updated_at` column (any key but that column)
      makes the upsert assign `updated_at` twice: the SET list holds
      `updated_at = EXCLUDED.updated_at`, and the text then ends with a second,
      different assignment `updated_at = NOW()`. */
  lemma UpdatedAtAssignedTwice(r: Repository)
    requires "updated_at" in r.columns && r.keyColumn != "updated_at"
    ensures Occurs(ExcludedAssignment("updated_at"), Join(ConflictSet(r.columns, r.keyColumn), ", "))
    ensures Occurs(ExcludedAssignment("updated_at"),
                   UpsertText(r.tableName, r.columns, Placeholders(r.columns), r.keyColumn,
                              ConflictSet(r.columns, r.keyColumn)))
    ensures var text := UpsertText(r.tableName, r.columns, Placeholders(r.columns), r.keyColumn,
                                   ConflictSet(r.columns, r.keyColumn));
      var stamp := ", updated_at = NOW()";
      |text| >= |stamp| && text[|text| - |stamp|..] == stamp
    ensures ExcludedAssignment("updated_at") != "updated_at = NOW()"
  {
    var entries := ConflictSet(r.columns, r.keyColumn);
    var i := UpdatedAtIsSetEntry(r.columns, r.keyColumn);
    JoinHasEach(entries, ", ");
    UpsertTextHasSetEntries(r.tableName, r.columns, Placeholders(r.columns), r.keyColumn, entries);
  }

  /** A non-key `updated_at` column has its entry in the SET clause. */
  lemma UpdatedAtIsSetEntry(columns: seq<string>, keyColumn: string) returns (i: nat)
    requires "updated_at" in columns && keyColumn != "updated_at"
    ensures i < |ConflictSet(columns, keyColumn)|
    ensures ConflictSet(columns, keyColumn)[i] == ExcludedAssignment("updated_at")
  {
    ConflictSetAssignsOthers(columns, keyColumn);
    var entries := ConflictSet(columns, keyColumn);
    i :| 0 <= i < |entries| && entries[i] == ExcludedAssignment("updated_at");
  }

  /** Every entry of the SET clause occurs in the upsert text. */
  lemma UpsertTextHasSetEntries(tableName: string, columns: seq<string>, placeholders: seq<string>,
                                keyColumn: string, setClause: seq<string>)
    ensures forall i :: 0 <= i < |setClause| ==>
      Occurs(setClause[i], UpsertText(tableName, columns, placeholders, keyColumn, setClause))
  {
    var setStr := Join(setClause, ", ");
    var conflictHead := "ON CONFLICT (" + keyColumn + ") DO UPDATE SET ";
    JoinHasEach(setClause, ", ");
    forall i | 0 <= i < |setClause|
      ensures Occurs(setClause[i], UpsertText(tableName, columns, placeholders, keyColumn, setClause))
    {
      OccursInRight(setClause[i], conflictHead, setStr);
      OccursInLeft(setClause[i], conflictHead + setStr, ", updated_at = NOW()");
      OccursInRight(setClause[i], InsertClause(tableName, columns, placeholders), ConflictClause(keyColumn, setClause));
    }
  }

  /** The columns of the stored user, in struct order. */
  const UserColumns: seq<string> :=
    ["id", "login", "node_id", "avatar_url", "url", "html_url", "type", "user_view_type",
     "site_admin", "updated_at", "created_at"]

  /** The users repository: the `github_users` table keyed by `id`. */
  const UsersRepository := Repository("github_users", UserColumns, "id")

  /** For the users repository the upsert text assigns `updated_at` twice: once
      from the conflicting row, here, and once from `NOW()`, at the end of every
      upsert text (`UpsertText`). */
  lemma UsersUpsertAssignsUpdatedAtTwice()
    ensures var r := UsersRepository;
      Occurs(ExcludedAssignment("updated_at"),
             UpsertText(r.tableName, r.columns, Placeholders(r.columns), r.keyColumn,
                        ConflictSet(r.columns, r.keyColumn)))
  {
    assert UserColumns[9] == "updated_at";
    UpdatedAtAssignedTwice(UsersRepository);
  }

  /** The corrected SET clause: the key and `updated_at` are left to the
      conflict target and to `NOW()`. */
  function CorrectedAssignedColumns(columns: seq<string>, keyColumn: string): seq<string> {
    NonKeyColumns(NonKeyColumns(columns, keyColumn), "updated_at") + ["updated_at"]
  }

  function CorrectedConflictSet(columns: seq<string>, keyColumn: string): seq<string> {
    ExcludedAssignments(NonKeyColumns(NonKeyColumns(columns, keyColumn), "updated_at"))
  }

  /** With distinct columns, the corrected conflict branch assigns every column
      at most once, `updated_at` exactly once, and never the key. */
  lemma CorrectedAssignsEachOnce(columns: seq<string>, keyColumn: string)
    requires forall i, j :: 0 <= i < j < |columns| ==> columns[i] != columns[j]
    requires keyColumn != "updated_at"
    ensures forall c :: multiset(CorrectedAssignedColumns(columns, keyColumn))[c] <= 1
    ensures multiset(CorrectedAssignedColumns(columns, keyColumn))["updated_at"] == 1
    ensures keyColumn !in CorrectedAssignedColumns(columns, keyColumn)
    ensures forall c :: c in columns && c != keyColumn ==> c in CorrectedAssignedColumns(columns, keyColumn)
  {
    var inner := NonKeyColumns(columns, keyColumn);
    var outer := NonKeyColumns(inner, "updated_at");
    assert CorrectedAssignedColumns(columns, keyColumn) == outer + ["updated_at"];
    NonKeyColumnsAreTheOthers(columns, keyColumn);
    NonKeyColumnsAreTheOthers(inner, "updated_at");
    DistinctCountsAtMostOne(columns);
    forall c ensures multiset(outer)[c] <= 1 {
      assert multiset(outer)[c] <= multiset(inner)[c] <= multiset(columns)[c];
    }
    AppendedOnce(outer, "updated_at");
  }

  /** A column appended to columns assigned at most once, none of them that
      column, leaves every column assigned at most once and that one exactly once. */
  lemma AppendedOnce(once: seq<string>, column: string)
    requires forall c :: multiset(once)[c] <= 1
    requires column !in once
    ensures forall c :: multiset(once + [column])[c] <= 1
    ensures multiset(once + [column])[column] == 1
  {
    assert multiset(once + [column]) == multiset(once) + multiset{column};
    assert multiset(once)[column] == 0;
  }

  lemma DistinctCountsAtMostOne(s: seq<string>)
    requires forall i, j :: 0 <= i < j < |s| ==> s[i] != s[j]
    ensures forall c :: multiset(s)[c] <= 1
  {
    if s != [] {
      var init := s[..|s| - 1];
      DistinctCountsAtMostOne(init);
      assert s == init + [s[|s| - 1]];
      assert s[|s| - 1] !in init;
    }
  }

  /** The corrected users upsert assigns every column of the stored user but the
      key once, and `updated_at` only from `NOW()`. */
  lemma CorrectedUsersUpsert()
    ensures ExcludedAssignment("updated_at") !in CorrectedConflictSet(UserColumns, "id")
    ensures forall c :: multiset(CorrectedAssignedColumns(UserColumns, "id"))[c] <= 1
  {
    CorrectedAssignsEachOnce(UserColumns, "id");
    var outer := NonKeyColumns(NonKeyColumns(UserColumns, "id"), "updated_at");
    NonKeyColumnsAreTheOthers(NonKeyColumns(UserColumns, "id"), "updated_at");
    ConflictSetSkipsKey(NonKeyColumns(UserColumns, "id"), "updated_at");
  }

  // ---------------------------------------------------------------------------
  // Reads and deletes

  /** `List`: every column of every row, with no filter, order or limit. */
  function List(r: Repository): (q: Query)
    ensures q.args == []
  {
    Query("SELECT " + Join(r.columns, ", ") + " FROM " + r.tableName, [])
  }

  /** The listing names every column of the repository and its table. */
  lemma ListNamesEveryColumn(r: Repository)
    ensures forall i :: 0 <= i < |r.columns| ==> Occurs(r.columns[i], List(r).text)
    ensures Occurs(r.tableName, List(r).text)
  {
    var selected := "SELECT " + Join(r.columns, ", ");
    JoinHasEach(r.columns, ", ");
    forall i | 0 <= i < |r.columns| ensures Occurs(r.columns[i], List(r).text) {
      OccursInRight(r.columns[i], "SELECT ", Join(r.columns, ", "));
      OccursInLeft(r.columns[i], selected, " FROM ");
      OccursInLeft(r.columns[i], selected + " FROM ", r.tableName);
    }
    OccursSelf(r.tableName);
    OccursInRight(r.tableName, selected + " FROM ", r.tableName);
  }

  /** `GetByField`: the first row whose field equals the bound value. */
  function GetByField(r: Repository, field: string, value: string): (q: Query)
    ensures q.args == [value]
  {
    Query("SELECT " + Join(r.columns, ", ") + " FROM " + r.tableName + " WHERE " + field + " = $1 LIMIT 1", [value])
  }

  /** `DeleteByField`: every row whose field equals the bound value. */
  function DeleteByField(r: Repository, field: string, value: string): (q: Query)
    ensures q.args == [value]
  {
    Query("DELETE FROM " + r.tableName + " WHERE " + field + " = $1", [value])
  }

  /** The looked-up value never reaches the query text: it is only bound to `$1`,
      and the lookup is the plain listing narrowed by one condition and a limit. */
  lemma ValueIsOnlyBound(r: Repository, field: string, value: string, other: string)
    ensures GetByField(r, field, value).text == GetByField(r, field, other).text
    ensures DeleteByField(r, field, value).text == DeleteByField(r, field, other).text
    ensures GetByField(r, field, value).text == List(r).text + " WHERE " + field + " = $1 LIMIT 1"
  {
  }

  /** `fmt.Sprintf("%v", n)` for an integer: its decimal digits, with a leading
      '-' when negative. */
  function FormatInt(n: int): string {
    if n < 0 then "-" + FormatNat(-n) else FormatNat(n)
  }

  function FormatNat(n: nat): string {
    if n < 10 then [Digit(n)] else FormatNat(n / 10) + [Digit(n % 10)]
  }

  function Digit(d: nat): char
    requires d < 10
  {
    "0123456789"[d]
  }

  /** The value a string of decimal digits denotes. */
  function DigitsValue(s: string): int {
    if s == [] then 0 else DigitsValue(s[..|s| - 1]) * 10 + DigitValue(s[|s| - 1])
  }

  function DigitValue(c: char): int {
    if '0' <= c <= '9' then c as int - '0' as int else 0
  }

  function ParseInt(s: string): int {
    if |s| > 0 && s[0] == '-' then -DigitsValue(s[1..]) else DigitsValue(s)
  }

  lemma {:induction false} FormatNatRoundTrip(n: nat)
    ensures |FormatNat(n)| > 0 && FormatNat(n)[0] != '-'
    ensures DigitsValue(FormatNat(n)) == n
  {
    if n >= 10 {
      FormatNatRoundTrip(n / 10);
      var s := FormatNat(n);
      assert s[..|s| - 1] == FormatNat(n / 10);
    }
  }

  /** The formatted id reads back as the same integer. */
  lemma FormatIntRoundTrip(n: int)
    ensures ParseInt(FormatInt(n)) == n
  {
    if n < 0 {
      var digits := FormatNat(-n);
      FormatNatRoundTrip(-n);
      assert FormatInt(n) == "-" + digits;
      assert ("-" + digits)[1..] == digits;
    } else {
      FormatNatRoundTrip(n);
      assert FormatInt(n) == FormatNat(n);
    }
  }

  /** `GetByID`: the lookup by the key column, with the id formatted as text. */
  function GetByID(r: Repository, id: int): (q: Query)
    ensures q == GetByField(r, r.keyColumn, FormatInt(id))
    ensures |q.args| == 1 && ParseInt(q.args[0]) == id
  {
    FormatIntRoundTrip(id);
    GetByField(r, r.keyColumn, FormatInt(id))
  }

  /** `DeleteByID`: the delete by the key column, with the id formatted as text. */
  function DeleteByID(r: Repository, id: int): (q: Query)
    ensures q == DeleteByField(r, r.keyColumn, FormatInt(id))
    ensures |q.args| == 1 && ParseInt(q.args[0]) == id
  {
    FormatIntRoundTrip(id);
    DeleteByField(r, r.keyColumn, FormatInt(id))
  }
}
