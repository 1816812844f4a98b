// SQLFS2: a SQL database seen as a tree `/<db>/<table>/<operation>`, where
// the operation files are `schema` and `count` (read), `query`, `execute`
// and `insert_json` (write). The database backend, the JSON decoder, the
// range read helper and the configuration helpers are parameters; what the
// model keeps is the path routing, the error cases, the permission modes and
// the way `insert_json` turns a document into INSERT statements.
module SqlFs2 {
  import opened Wrappers
  import opened Packing
  import opened GoFs
  import opened Json
  import Text

  const PLUGIN_NAME := "sqlfs2"

  /** The components of a path: all empty for the root. */
  datatype Parsed = Parsed(db: string, table: string, op: string)

  /** The outcome of running a SELECT: `Query` failing, iterating the rows failing, or done. */
  datatype QueryOutcome = QueryDone | QueryFailed(e: GoError) | RowsFailed(e: GoError)

  /** One INSERT given to the database: its text and its arguments, `None` for SQL NULL. */
  datatype Insert = Insert(sql: string, values: seq<Option<Json>>)

  /** The database backend and the helpers the filesystem calls. `parseJson` is
      `json.Unmarshal` into an untyped value; `rangeRead` is `plugin.ApplyRangeRead`;
      `encode` is the conversion of a string to bytes. */
  datatype Services = Services(
    listDatabases: Result<seq<string>, GoError>,
    listTables: string -> Result<seq<string>, GoError>,
    tableSchema: (string, string) -> Result<string, GoError>,
    tableColumns: (string, string) -> Result<seq<string>, GoError>,
    switchDatabase: string -> Option<GoError>,
    queryCount: string -> Result<int, GoError>,
    query: string -> QueryOutcome,
    exec: (string, seq<Option<Json>>) -> Option<GoError>,
    parseJson: string -> Result<Json, string>,
    encode: string -> seq<Byte>,
    rangeRead: (seq<Byte>, int, int) -> Result<seq<Byte>, GoError>)

  // ---------------------------------------------------------------------------------------
  // Paths

  /** `parsePath`: one leading `/` is dropped and the rest split on `/`; up to three
      components name a database, a table and an operation, more are an error. */
  function ParsePath(path: string): (r: Result<Parsed, GoError>)
  {
    var p := Text.TrimPrefix(path, "/");
    var parts := Text.Split(p, "/");
    if p == [] then Ok(Parsed("", "", ""))
    else if |parts| == 1 then Ok(Parsed(parts[0], "", ""))
    else if |parts| == 2 then Ok(Parsed(parts[0], parts[1], ""))
    else if |parts| == 3 then Ok(Parsed(parts[0], parts[1], parts[2]))
    else Err(Failure("invalid path: " + p))
  }

  /** Every parsed component is free of `/`, and the parse fails exactly for more than three
      components. */
  lemma ParsePathCases(path: string)
    ensures var p := Text.TrimPrefix(path, "/");
            var parts := Text.Split(p, "/");
            (ParsePath(path).Err? <==> p != [] && |parts| > 3)
            && (ParsePath(path).Err? ==> ParsePath(path).error == Failure("invalid path: " + p))
            && (ParsePath(path).Ok? ==> var q := ParsePath(path).value;
                  Component(q.db) && Component(q.table) && Component(q.op)
                  && (q.table != [] ==> |parts| >= 2) && (q.op != [] ==> |parts| == 3))
  {
    var p := Text.TrimPrefix(path, "/");
    var parts := Text.Split(p, "/");
    forall k | 0 <= k < |parts| ensures Component(parts[k]) {
      Text.CharAbsent(parts[k], '/');
    }
  }

  /** The path of an operation file. */
  function OpPath(db: string, table: string, op: string): string { "/" + db + "/" + table + "/" + op }

  /** A name usable as a path component. */
  predicate Component(s: string) { '/' !in s }

  /** The path of an operation file parses back to its three names. */
  lemma ParseOpPath(db: string, table: string, op: string)
    requires Component(db) && Component(table) && Component(op)
    ensures ParsePath(OpPath(db, table, op)) == Ok(Parsed(db, table, op))
  {
    var p := db + "/" + table + "/" + op;
    assert OpPath(db, table, op) == "/" + p;
    assert Text.TrimPrefix("/" + p, "/") == p by {
      assert ("/" + p)[..1] == "/";
    }
    assert Text.Join([db, table, op], "/") == p by {
      assert Text.Join([table, op], "/") == table + "/" + op;
      assert [db, table, op][1..] == [table, op];
    }
    Text.SplitJoin([db, table, op], "/");
  }

  /** The path of a table directory parses back to its two names. */
  lemma ParseTablePath(db: string, table: string)
    requires Component(db) && Component(table)
    ensures ParsePath("/" + db + "/" + table) == Ok(Parsed(db, table, ""))
  {
    var p := db + "/" + table;
    assert Text.TrimPrefix("/" + db + "/" + table, "/") == p by {
      assert ("/" + db + "/" + table) == "/" + p;
      assert ("/" + p)[..1] == "/";
    }
    Text.SplitJoin([db, table], "/");
  }

  /** Four or more components are refused. */
  lemma ParseDeepPath(db: string, table: string, op: string, rest: string)
    requires Component(db) && Component(table) && Component(op) && Component(rest)
    ensures ParsePath(OpPath(db, table, op) + "/" + rest).Err?
  {
    var path := OpPath(db, table, op) + "/" + rest;
    var p := db + "/" + table + "/" + op + "/" + rest;
    assert path == "/" + p;
    SlashTrimmed(p);
    JoinFour(db, table, op, rest);
    Text.SplitJoin([db, table, op, rest], "/");
    ParsePathCases(path);
  }

  lemma SlashTrimmed(p: string)
    ensures Text.TrimPrefix("/" + p, "/") == p
  {
    assert ("/" + p)[..1] == "/";
  }

  lemma JoinFour(a: string, b: string, c: string, d: string)
    ensures Text.Join([a, b, c, d], "/") == a + "/" + b + "/" + c + "/" + d
  {
    Text.JoinCons(c, [d], "/");
    assert [c] + [d] == [c, d];
    Text.JoinCons(b, [c, d], "/");
    assert [b] + [c, d] == [b, c, d];
    Text.JoinCons(a, [b, c, d], "/");
    assert [a] + [b, c, d] == [a, b, c, d];
  }

  // ---------------------------------------------------------------------------------------
  // Read

  predicate ReadOnlyOp(op: string) { op == "schema" || op == "count" }

  predicate WriteOnlyOp(op: string) { op == "query" || op == "execute" || op == "insert_json" }

  /** `Read`: the schema statement or the row count of a table, through the range helper;
      the write-only files refuse to be read, and anything else reads as a directory. */
  function Read(s: Services, path: string, offset: int, size: int): (r: Result<seq<Byte>, GoError>)
    ensures ParsePath(path).Err? ==> r == Err(ParsePath(path).error)
    ensures ParsePath(path).Ok? ==>
              var q := ParsePath(path).value;
              (WriteOnlyOp(q.op) ==> r == Err(Failure(q.op + " is write-only")))
              && (!ReadOnlyOp(q.op) && !WriteOnlyOp(q.op) ==> r == Err(InvalidArgument("path", path, "is a directory")))
              && (q.op == "schema" && (q.db == [] || q.table == []) ==>
                    r == Err(Failure("invalid path for schema: " + path)))
              && (q.op == "count" && (q.db == [] || q.table == []) ==>
                    r == Err(Failure("invalid path for count: " + path)))
  {
    match ParsePath(path)
    case Err(e) => Err(e)
    case Ok(Parsed(db, table, op)) =>
      if op == "schema" then
        if db == [] || table == [] then Err(Failure("invalid path for schema: " + path))
        else match s.tableSchema(db, table)
          case Err(e) => Err(e)
          case Ok(stmt) => s.rangeRead(s.encode(stmt + "\n"), offset, size)
      else if op == "count" then
        if db == [] || table == [] then Err(Failure("invalid path for count: " + path))
        else if s.switchDatabase(db).Some? then Err(s.switchDatabase(db).value)
        else match s.queryCount("SELECT COUNT(*) FROM " + db + "." + table)
          case Err(e) => Err(Wrapped("count query error", e))
          case Ok(n) => s.rangeRead(s.encode(Text.IntToString(n) + "\n"), offset, size)
      else if WriteOnlyOp(op) then Err(Failure(op + " is write-only"))
      else Err(InvalidArgument("path", path, "is a directory"))
  }

  /** Reading `schema` of a named table gives the statement the database reports, through the
      range helper. */
  lemma ReadSchema(s: Services, db: string, table: string, offset: int, size: int)
    requires Component(db) && Component(table) && db != [] && table != []
    requires s.tableSchema(db, table).Ok?
    ensures Read(s, OpPath(db, table, "schema"), offset, size)
            == s.rangeRead(s.encode(s.tableSchema(db, table).value + "\n"), offset, size)
  {
    ParseOpPath(db, table, "schema");
  }

  /** Reading `count` of a named table gives the row count in decimal. */
  lemma ReadCount(s: Services, db: string, table: string, offset: int, size: int)
    requires Component(db) && Component(table) && db != [] && table != []
    requires s.switchDatabase(db).None? && s.queryCount("SELECT COUNT(*) FROM " + db + "." + table).Ok?
    ensures Read(s, OpPath(db, table, "count"), offset, size)
            == s.rangeRead(s.encode(Text.IntToString(s.queryCount("SELECT COUNT(*) FROM " + db + "." + table).value) + "\n"), offset, size)
  {
    ParseOpPath(db, table, "count");
  }

  /** The write-only files of a table cannot be read. */
  lemma ReadWriteOnly(s: Services, db: string, table: string, op: string, offset: int, size: int)
    requires Component(db) && Component(table) && WriteOnlyOp(op)
    ensures Read(s, OpPath(db, table, op), offset, size) == Err(Failure(op + " is write-only"))
  {
    ParseOpPath(db, table, op);
  }

  // ---------------------------------------------------------------------------------------
  // insert_json: choosing the mode

  /** A line is blank when it holds only white space. */
  predicate Filled(line: string) { |Text.TrimSpace(line)| > 0 }

  /** The indices, in order, of the lines among the first `n` that are not blank. */
  function NonBlank(lines: seq<string>, n: nat): (r: seq<nat>)
    requires n <= |lines|
    ensures |r| <= n
    ensures forall k :: 0 <= k < |r| ==> r[k] < n
    decreases n
  {
    if n == 0 then []
    else NonBlank(lines, n - 1) + (if Filled(lines[n - 1]) then [n - 1] else [])
  }

  /** `NonBlank` holds exactly the non-blank lines. */
  lemma {:induction false} NonBlankMember(lines: seq<string>, n: nat, k: nat)
    requires n <= |lines|
    ensures k in NonBlank(lines, n) <==> k < n && Filled(lines[k])
    decreases n
  {
    if n > 0 {
      NonBlankMember(lines, n - 1, k);
      var prev := NonBlank(lines, n - 1);
      var tail: seq<nat> := if Filled(lines[n - 1]) then [n - 1] else [];
      assert NonBlank(lines, n) == prev + tail;
      assert k in prev + tail <==> k in prev || k in tail;
    }
  }

  /** `NonBlank` lists the lines in increasing order. */
  lemma {:induction false} NonBlankSorted(lines: seq<string>, n: nat, a: nat, b: nat)
    requires n <= |lines| && a < b < |NonBlank(lines, n)|
    ensures NonBlank(lines, n)[a] < NonBlank(lines, n)[b]
    decreases n
  {
    var prev := NonBlank(lines, n - 1);
    var tail: seq<nat> := if Filled(lines[n - 1]) then [n - 1] else [];
    var all := NonBlank(lines, n);
    assert all == prev + tail;
    if b < |prev| {
      NonBlankSorted(lines, n - 1, a, b);
    } else {
      assert all[b] == n - 1;
      assert all[a] == prev[a];
    }
  }

  /** The first loop of `insert_json`: the number of non-blank lines and the index of the first
      one, -1 when there is none. */
  method ScanLines(lines: seq<string>) returns (count: nat, first: int)
    ensures count == |NonBlank(lines, |lines|)|
    ensures first == if count == 0 then -1 else NonBlank(lines, |lines|)[0]
  {
    count := 0;
    first := -1;
    var i := 0;
    while i < |lines|
      invariant 0 <= i <= |lines|
      invariant count == |NonBlank(lines, i)|
      invariant first == if count == 0 then -1 else NonBlank(lines, i)[0]
    {
      assert NonBlank(lines, i + 1) == NonBlank(lines, i) + (if Filled(lines[i]) then [i] else []);
      if Filled(lines[i]) {
        count := count + 1;
        if first == -1 {
          first := i;
        }
      }
      i := i + 1;
    }
  }

  /** The name `json.Unmarshal` gives the kind of a value it cannot store in a map. */
  function KindName(j: Json): string
  {
    match j
    case JBool(_) => "bool"
    case JInt(_) => "number"
    case JFloat => "number"
    case JString(_) => "string"
    case JArray(_) => "array"
    case _ => "object"
  }

  /** `json.Unmarshal` into a `map[string]interface{}`: an object gives its members, `null`
      leaves the map empty, and any other value is a type error. */
  function UnmarshalMap(j: Result<Json, string>): (r: Result<map<string, Json>, string>)
    ensures r.Ok? <==> j.Ok? && (j.value.JObject? || j.value.JNull?)
    ensures r.Ok? && j.value.JObject? ==> r.value == j.value.fields
  {
    match j
    case Err(e) => Err(e)
    case Ok(JObject(fields)) => Ok(fields)
    case Ok(JNull) => Ok(map[])
    case Ok(v) => Err("json: cannot unmarshal " + KindName(v) + " into Go value of type map[string]interface {}")
  }

  /** NDJSON is chosen when more than one line is non-blank and the first of them decodes as
      a map. */
  predicate IsStreamMode(lines: seq<string>, parse: string -> Result<Json, string>)
  {
    var nb := NonBlank(lines, |lines|);
    |nb| > 1 && UnmarshalMap(parse(Text.TrimSpace(lines[nb[0]]))).Ok?
  }

  /** A document is read as a stream only when at least two of its lines are non-blank. */
  lemma StreamModeNeedsTwoLines(lines: seq<string>, parse: string -> Result<Json, string>)
    requires IsStreamMode(lines, parse)
    ensures exists k, m :: 0 <= k < m < |lines| && Filled(lines[k]) && Filled(lines[m])
  {
    var nb := NonBlank(lines, |lines|);
    NonBlankMember(lines, |lines|, nb[0]);
    NonBlankMember(lines, |lines|, nb[1]);
    NonBlankSorted(lines, |lines|, 0, 1);
  }

  // ---------------------------------------------------------------------------------------
  // insert_json: collecting records

  /** The records and the error texts a stream scan of the first `n` lines yields: every
      non-blank line gives one record or one "line <number>: <reason>" error. */
  function StreamScan(lines: seq<string>, parse: string -> Result<Json, string>, n: nat)
    : (r: (seq<map<string, Json>>, seq<string>))
    requires n <= |lines|
    decreases n
  {
    if n == 0 then ([], [])
    else
      var prev := StreamScan(lines, parse, n - 1);
      if !Filled(lines[n - 1]) then prev
      else match UnmarshalMap(parse(Text.TrimSpace(lines[n - 1])))
        case Err(e) => (prev.0, prev.1 + [LineError(n, e)])
        case Ok(m) => (prev.0 + [m], prev.1)
  }

  /** The error text for line `number` (counted from one). */
  function LineError(number: nat, reason: string): string
  {
    "line " + Text.NatToString(number) + ": " + reason
  }

  /** No non-blank line is lost or counted twice. */
  lemma {:induction false} StreamScanAccounts(lines: seq<string>, parse: string -> Result<Json, string>, n: nat)
    requires n <= |lines|
    ensures |StreamScan(lines, parse, n).0| + |StreamScan(lines, parse, n).1| == |NonBlank(lines, n)|
    decreases n
  {
    if n > 0 {
      StreamScanAccounts(lines, parse, n - 1);
      assert NonBlank(lines, n) == NonBlank(lines, n - 1) + (if Filled(lines[n - 1]) then [n - 1] else []);
    }
  }

  /** Stream mode's loop over the lines. */
  method CollectStream(lines: seq<string>, parse: string -> Result<Json, string>)
    returns (records: seq<map<string, Json>>, errors: seq<string>)
    ensures (records, errors) == StreamScan(lines, parse, |lines|)
  {
    records := [];
    errors := [];
    var lineNum := 0;
    while lineNum < |lines|
      invariant 0 <= lineNum <= |lines|
      invariant (records, errors) == StreamScan(lines, parse, lineNum)
    {
      var line := Text.TrimSpace(lines[lineNum]);
      if |line| > 0 {
        match UnmarshalMap(parse(line)) {
          case Err(e) =>
            errors := errors + [LineError(lineNum + 1, e)];
          case Ok(m) =>
            records := records + [m];
        }
      }
      lineNum := lineNum + 1;
    }
  }

  /** The records of the first `n` elements of a JSON array, or the error for the first
      element that is not an object. */
  function ArrayScan(items: seq<Json>, n: nat): (r: Result<seq<map<string, Json>>, GoError>)
    requires n <= |items|
    ensures r.Ok? ==> |r.value| == n && forall k :: 0 <= k < n ==> items[k].JObject? && r.value[k] == items[k].fields
    ensures r.Err? <==> exists k :: 0 <= k < n && !items[k].JObject?
    decreases n
  {
    if n == 0 then Ok([])
    else match ArrayScan(items, n - 1)
      case Err(e) => Err(e)
      case Ok(records) =>
        if items[n - 1].JObject? then Ok(records + [items[n - 1].fields])
        else Err(Failure("element at index " + Text.NatToString(n - 1) + " is not a JSON object"))
  }

  /** The error names the first element that is not an object. */
  lemma {:induction false} ArrayScanNamesFirst(items: seq<Json>, n: nat, k: nat)
    requires k < n <= |items|
    requires !items[k].JObject? && forall j :: 0 <= j < k ==> items[j].JObject?
    ensures ArrayScan(items, n) == Err(Failure("element at index " + Text.NatToString(k) + " is not a JSON object"))
    decreases n
  {
    if k < n - 1 {
      ArrayScanNamesFirst(items, n - 1, k);
    } else {
      assert ArrayScan(items, n - 1).Ok?;
    }
  }

  /** Normal mode's loop over the array elements. */
  method CollectArray(items: seq<Json>) returns (r: Result<seq<map<string, Json>>, GoError>)
    ensures r == ArrayScan(items, |items|)
  {
    var records: seq<map<string, Json>> := [];
    var i := 0;
    while i < |items|
      invariant 0 <= i <= |items|
      invariant ArrayScan(items, i) == Ok(records)
    {
      if items[i].JObject? {
        records := records + [items[i].fields];
      } else {
        assert ArrayScan(items, i + 1).Err?;
        ArrayScanStops(items, i + 1, |items|);
        return ArrayScan(items, i + 1);
      }
      i := i + 1;
    }
    r := Ok(records);
  }

  /** Once the scan fails it stays failed with the same error. */
  lemma {:induction false} ArrayScanStops(items: seq<Json>, m: nat, n: nat)
    requires m <= n <= |items| && ArrayScan(items, m).Err?
    ensures ArrayScan(items, n) == ArrayScan(items, m)
    decreases n - m
  {
    if m < n {
      ArrayScanStops(items, m, n - 1);
    }
  }

  /** Normal mode: the whole document is one object or an array of objects. */
  function NormalRecords(data: string, parse: string -> Result<Json, string>): (r: Result<seq<map<string, Json>>, GoError>)
    ensures parse(data).Err? ==> r == Err(Wrapped("invalid JSON", Failure(parse(data).error)))
    ensures parse(data).Ok? && parse(data).value.JObject? ==> r == Ok([parse(data).value.fields])
    ensures parse(data).Ok? && !parse(data).value.JObject? && !parse(data).value.JArray? ==>
              r == Err(Failure("JSON must be an object or array of objects"))
  {
    match parse(data)
    case Err(e) => Err(Wrapped("invalid JSON", Failure(e)))
    case Ok(JObject(fields)) => Ok([fields])
    case Ok(JArray(items)) => ArrayScan(items, |items|)
    case Ok(_) => Err(Failure("JSON must be an object or array of objects"))
  }

  // ---------------------------------------------------------------------------------------
  // insert_json: inserting

  /** The arguments of one INSERT: the record's value for each column, in column order, and
      NULL for a column the record lacks. */
  function Row(columns: seq<string>, record: map<string, Json>): (r: seq<Option<Json>>)
    ensures |r| == |columns|
    ensures forall i :: 0 <= i < |columns| ==>
              r[i] == if columns[i] in record then Some(record[columns[i]]) else None
  {
    seq(|columns|, i requires 0 <= i < |columns| => if columns[i] in record then Some(record[columns[i]]) else None)
  }

  /** The loop that fills the argument list of one INSERT. */
  method BuildRow(columns: seq<string>, record: map<string, Json>) returns (values: seq<Option<Json>>)
    ensures values == Row(columns, record)
  {
    values := [];
    var i := 0;
    while i < |columns|
      invariant 0 <= i <= |columns|
      invariant values == Row(columns, record)[..i]
    {
      var v := if columns[i] in record then Some(record[columns[i]]) else None;
      values := values + [v];
      i := i + 1;
    }
  }

  /** The INSERT statement for a table: the columns joined by ", " and one `?` per column. */
  function InsertSql(db: string, table: string, columns: seq<string>): string
  {
    var placeholders := seq(|columns|, _ => "?");
    "INSERT INTO " + db + "." + table + " (" + Text.Join(columns, ", ")
    + ") VALUES (" + Text.Join(placeholders, ", ") + ")"
  }

  /** The error (if any) and the INSERTs issued for the first `n` records. Normal mode stops at
      the first failed INSERT; stream mode goes on. */
  function InsertScan(exec: (string, seq<Option<Json>>) -> Option<GoError>, sql: string, columns: seq<string>,
                      records: seq<map<string, Json>>, stream: bool, n: nat): (r: (Option<GoError>, seq<Insert>))
    requires n <= |records|
    decreases n
  {
    if n == 0 then (None, [])
    else
      var (err, issued) := InsertScan(exec, sql, columns, records, stream, n - 1);
      if err.Some? then (err, issued)
      else
        var ins := Insert(sql, Row(columns, records[n - 1]));
        match exec(sql, ins.values)
        case None => (None, issued + [ins])
        case Some(e) =>
          if stream then (None, issued + [ins])
          else (Some(Wrapped("insert error at record " + Text.NatToString(n), e)), issued + [ins])
  }

  /** In stream mode every record is inserted, in order, and no INSERT failure is reported. */
  lemma {:induction false} StreamInsertsAll(exec: (string, seq<Option<Json>>) -> Option<GoError>, sql: string,
                                            columns: seq<string>, records: seq<map<string, Json>>, n: nat)
    requires n <= |records|
    ensures InsertScan(exec, sql, columns, records, true, n).0.None?
    ensures |InsertScan(exec, sql, columns, records, true, n).1| == n
    ensures forall k :: 0 <= k < n ==>
              InsertScan(exec, sql, columns, records, true, n).1[k] == Insert(sql, Row(columns, records[k]))
    decreases n
  {
    if n > 0 {
      StreamInsertsAll(exec, sql, columns, records, n - 1);
    }
  }

  /** In normal mode the INSERTs issued are those of a prefix of the records; the scan fails
      exactly when the last one issued failed, and every earlier one succeeded. */
  lemma {:induction false} NormalStopsAtFirstFailure(exec: (string, seq<Option<Json>>) -> Option<GoError>, sql: string,
                                                     columns: seq<string>, records: seq<map<string, Json>>, n: nat)
    requires n <= |records|
    ensures var (err, issued) := InsertScan(exec, sql, columns, records, false, n);
            |issued| <= n
            && (forall k :: 0 <= k < |issued| ==> issued[k] == Insert(sql, Row(columns, records[k])))
            && (forall k :: 0 <= k < |issued| - 1 ==> exec(sql, issued[k].values).None?)
            && (err.None? <==> |issued| == n && forall k :: 0 <= k < n ==> exec(sql, issued[k].values).None?)
    decreases n
  {
    if n > 0 {
      NormalStopsAtFirstFailure(exec, sql, columns, records, n - 1);
    }
  }

  /** The insert loop of `insert_json`. */
  method InsertRecords(exec: (string, seq<Option<Json>>) -> Option<GoError>, db: string, table: string,
                       columns: seq<string>, records: seq<map<string, Json>>, stream: bool)
    returns (err: Option<GoError>, issued: seq<Insert>)
    ensures (err, issued) == InsertScan(exec, InsertSql(db, table, columns), columns, records, stream, |records|)
  {
    var sql := InsertSql(db, table, columns);
    err := None;
    issued := [];
    var insertedCount := 0;
    var failedCount := 0;
    var idx := 0;
    while idx < |records|
      invariant 0 <= idx <= |records|
      invariant (None, issued) == InsertScan(exec, sql, columns, records, stream, idx)
    {
      var values := BuildRow(columns, records[idx]);
      issued := issued + [Insert(sql, values)];
      var e := exec(sql, values);
      if e.Some? {
        failedCount := failedCount + 1;
        if !stream {
          err := Some(Wrapped("insert error at record " + Text.NatToString(idx + 1), e.value));
          InsertScanStops(exec, sql, columns, records, idx + 1, |records|);
          return;
        }
      } else {
        insertedCount := insertedCount + 1;
      }
      idx := idx + 1;
    }
  }

  /** Once normal mode has failed, later records change nothing. */
  lemma {:induction false} InsertScanStops(exec: (string, seq<Option<Json>>) -> Option<GoError>, sql: string,
                                           columns: seq<string>, records: seq<map<string, Json>>, m: nat, n: nat)
    requires m <= n <= |records| && InsertScan(exec, sql, columns, records, false, m).0.Some?
    ensures InsertScan(exec, sql, columns, records, false, n) == InsertScan(exec, sql, columns, records, false, m)
    decreases n - m
  {
    if m < n {
      InsertScanStops(exec, sql, columns, records, m, n - 1);
    }
  }

  /** The records `insert_json` inserts, or the error that stops it before any INSERT. */
  function JsonRecords(data: string, parse: string -> Result<Json, string>): (r: (Result<seq<map<string, Json>>, GoError>, bool))
  {
    var lines := Text.Split(data, "\n");
    var stream := IsStreamMode(lines, parse);
    var records :=
      if stream then
        var (rs, errors) := StreamScan(lines, parse, |lines|);
        if rs == [] && errors != [] then Err(Failure("no valid records found. Errors: " + Text.Join(errors, "; ")))
        else Ok(rs)
      else NormalRecords(data, parse);
    match records
    case Err(e) => (Err(e), stream)
    case Ok(rs) => if rs == [] then (Err(Failure("no records to insert")), stream) else (Ok(rs), stream)
  }

  /** What writing `data` to `insert_json` of a table returns and the INSERTs it issues. */
  function InsertJsonOutcome(s: Services, db: string, table: string, data: string): (r: (Result<int, GoError>, seq<Insert>))
    ensures r.0.Ok? ==> r.0.value == |data|
  {
    if db == [] || table == [] then (Err(Failure("invalid path for insert_json: " + OpPath(db, table, "insert_json"))), [])
    else match s.tableColumns(db, table)
      case Err(e) => (Err(Wrapped("failed to get table columns", e)), [])
      case Ok(columns) =>
        if columns == [] then (Err(Failure("no columns found for table " + table)), [])
        else match JsonRecords(data, s.parseJson)
          case (Err(e), _) => (Err(e), [])
          case (Ok(records), stream) =>
            var (err, issued) := InsertScan(s.exec, InsertSql(db, table, columns), columns, records, stream, |records|);
            if err.Some? then (Err(err.value), issued) else (Ok(|data|), issued)
  }

  /** A single object is one INSERT with the object's values in column order. */
  lemma SingleObjectInsert(s: Services, db: string, table: string, data: string)
    requires db != [] && table != [] && s.tableColumns(db, table).Ok? && s.tableColumns(db, table).value != []
    requires !IsStreamMode(Text.Split(data, "\n"), s.parseJson)
    requires s.parseJson(data).Ok? && s.parseJson(data).value.JObject?
    ensures var columns := s.tableColumns(db, table).value;
            var sql := InsertSql(db, table, columns);
            InsertJsonOutcome(s, db, table, data).1 == [Insert(sql, Row(columns, s.parseJson(data).value.fields))]
            && (InsertJsonOutcome(s, db, table, data).0.Ok? <==> s.exec(sql, Row(columns, s.parseJson(data).value.fields)).None?)
  {
  }

  /** A stream write succeeds with the byte count once any record decodes, whatever the
      individual INSERTs do, and issues one INSERT per decoded record. */
  lemma StreamWriteSucceeds(s: Services, db: string, table: string, data: string)
    requires db != [] && table != [] && s.tableColumns(db, table).Ok? && s.tableColumns(db, table).value != []
    requires IsStreamMode(Text.Split(data, "\n"), s.parseJson)
    requires StreamScan(Text.Split(data, "\n"), s.parseJson, |Text.Split(data, "\n")|).0 != []
    ensures InsertJsonOutcome(s, db, table, data).0 == Ok(|data|)
    ensures |InsertJsonOutcome(s, db, table, data).1|
            == |StreamScan(Text.Split(data, "\n"), s.parseJson, |Text.Split(data, "\n")|).0|
  {
    var lines := Text.Split(data, "\n");
    var records := StreamScan(lines, s.parseJson, |lines|).0;
    var columns := s.tableColumns(db, table).value;
    StreamInsertsAll(s.exec, InsertSql(db, table, columns), columns, records, |records|);
  }

  /** The decoding half of `insert_json`: stream mode or one JSON document, and the refusal
      of an empty result. */
  method DecodeRecords(parse: string -> Result<Json, string>, data: string)
    returns (r: Result<seq<map<string, Json>>, GoError>, isStreamMode: bool)
    ensures (r, isStreamMode) == JsonRecords(data, parse)
  {
    var lines := Text.Split(data, "\n");
    var nonEmptyLines, firstNonEmptyIdx := ScanLines(lines);
    isStreamMode := false;
    if nonEmptyLines > 1 && firstNonEmptyIdx >= 0 {
      if UnmarshalMap(parse(Text.TrimSpace(lines[firstNonEmptyIdx]))).Ok? {
        isStreamMode := true;
      }
    }
    assert isStreamMode == IsStreamMode(lines, parse);
    var records: seq<map<string, Json>>;
    if isStreamMode {
      var streamErrors;
      records, streamErrors := CollectStream(lines, parse);
      if records == [] && streamErrors != [] {
        return Err(Failure("no valid records found. Errors: " + Text.Join(streamErrors, "; "))), isStreamMode;
      }
    } else {
      match parse(data) {
        case Err(e) =>
          return Err(Wrapped("invalid JSON", Failure(e))), isStreamMode;
        case Ok(JObject(fields)) =>
          records := [fields];
        case Ok(JArray(items)) =>
          var collected := CollectArray(items);
          if collected.Err? {
            return Err(collected.error), isStreamMode;
          }
          records := collected.value;
        case Ok(_) =>
          return Err(Failure("JSON must be an object or array of objects")), isStreamMode;
      }
    }
    if records == [] {
      return Err(Failure("no records to insert")), isStreamMode;
    }
    r := Ok(records);
  }

  /** The `insert_json` branch of `Write`. */
  method InsertJson(s: Services, db: string, table: string, data: string) returns (r: Result<int, GoError>, issued: seq<Insert>)
    ensures (r, issued) == InsertJsonOutcome(s, db, table, data)
  {
    issued := [];
    if db == [] || table == [] {
      return Err(Failure("invalid path for insert_json: " + OpPath(db, table, "insert_json"))), [];
    }
    var cols := s.tableColumns(db, table);
    if cols.Err? {
      return Err(Wrapped("failed to get table columns", cols.error)), [];
    }
    var columns := cols.value;
    if columns == [] {
      return Err(Failure("no columns found for table " + table)), [];
    }
    var decoded, isStreamMode := DecodeRecords(s.parseJson, data);
    if decoded.Err? {
      return Err(decoded.error), [];
    }
    var records := decoded.value;
    var err;
    err, issued := InsertRecords(s.exec, db, table, columns, records, isStreamMode);
    if err.Some? {
      return Err(err.value), issued;
    }
    r := Ok(|data|);
  }

  // ---------------------------------------------------------------------------------------
  // Write

  /** What `Write` returns and the INSERTs it issues, for every path. */
  function WriteOutcome(s: Services, path: string, data: string): (r: (Result<int, GoError>, seq<Insert>))
    ensures r.0.Ok? ==> r.0.value == |data|
    ensures r.1 != [] ==> ParsePath(path).Ok? && ParsePath(path).value.op == "insert_json"
  {
    match ParsePath(path)
    case Err(e) => (Err(e), [])
    case Ok(Parsed(db, table, op)) =>
      if op == [] then (Err(Failure("cannot write to directory: " + path)), [])
      else if ReadOnlyOp(op) then (Err(Failure(op + " is read-only")), [])
      else if s.switchDatabase(db).Some? then (Err(s.switchDatabase(db).value), [])
      else if op == "insert_json" then InsertJsonOutcome(s, db, table, data)
      else
        var stmt := Text.TrimSpace(data);
        if |stmt| == 0 then (Err(Failure("empty SQL statement")), [])
        else if op == "query" then
          match s.query(stmt)
          case QueryFailed(e) => (Err(Wrapped("query error", e)), [])
          case RowsFailed(e) => (Err(Wrapped("rows iteration error", e)), [])
          case QueryDone => (Ok(|data|), [])
        else if op == "execute" then
          match s.exec(stmt, [])
          case Some(e) => (Err(Wrapped("execution error", e)), [])
          case None => (Ok(|data|), [])
        else (Err(Failure("unknown operation: " + op)), [])
  }

  /** `Write`. */
  method Write(s: Services, path: string, data: string, offset: int, flags: bv32)
    returns (r: Result<int, GoError>, issued: seq<Insert>)
    ensures (r, issued) == WriteOutcome(s, path, data)
  {
    issued := [];
    var parsed := ParsePath(path);
    if parsed.Err? {
      return Err(parsed.error), [];
    }
    var Parsed(db, table, op) := parsed.value;
    if op == [] {
      return Err(Failure("cannot write to directory: " + path)), [];
    }
    if op == "schema" || op == "count" {
      return Err(Failure(op + " is read-only")), [];
    }
    var switched := s.switchDatabase(db);
    if switched.Some? {
      return Err(switched.value), [];
    }
    if op == "insert_json" {
      assert OpPath(db, table, "insert_json") == OpPath(db, table, op);
      r, issued := InsertJson(s, db, table, data);
      return;
    }
    var stmt := Text.TrimSpace(data);
    if |stmt| == 0 {
      return Err(Failure("empty SQL statement")), [];
    }
    if op == "query" {
      match s.query(stmt) {
        case QueryFailed(e) => return Err(Wrapped("query error", e)), [];
        case RowsFailed(e) => return Err(Wrapped("rows iteration error", e)), [];
        case QueryDone => return Ok(|data|), [];
      }
    } else if op == "execute" {
      var e := s.exec(stmt, []);
      if e.Some? {
        return Err(Wrapped("execution error", e.value)), [];
      }
      return Ok(|data|), [];
    }
    r := Err(Failure("unknown operation: " + op));
  }

  /** Directories and the read-only files refuse writes before the database is touched. */
  lemma WriteRefusals(s: Services, path: string, data: string)
    requires ParsePath(path).Ok?
    ensures ParsePath(path).value.op == [] ==>
              WriteOutcome(s, path, data) == (Err(Failure("cannot write to directory: " + path)), [])
    ensures ReadOnlyOp(ParsePath(path).value.op) ==>
              WriteOutcome(s, path, data) == (Err(Failure(ParsePath(path).value.op + " is read-only")), [])
  {
  }

  /** A blank statement is refused by `query` and `execute`. */
  lemma BlankStatementRefused(s: Services, path: string, data: string)
    requires ParsePath(path).Ok? && ParsePath(path).value.op in {"query", "execute"}
    requires |Text.TrimSpace(data)| == 0 && s.switchDatabase(ParsePath(path).value.db).None?
    ensures WriteOutcome(s, path, data).0 == Err(Failure("empty SQL statement"))
  {
  }

  // ---------------------------------------------------------------------------------------
  // Stat and ReadDir

  /** The permission bits of an operation file: read-only, write-only, or 0644 for any other
      name. */
  function OpMode(op: string): (m: nat)
    ensures ReadOnlyOp(op) ==> m == MODE_0444
    ensures WriteOnlyOp(op) ==> m == MODE_0222
    ensures !ReadOnlyOp(op) && !WriteOnlyOp(op) ==> m == MODE_0644
  {
    if ReadOnlyOp(op) then MODE_0444 else if WriteOnlyOp(op) then MODE_0222 else MODE_0644
  }

  /** The read-only files are readable and not writable; the write-only ones the reverse. */
  lemma OpModesMatchAccess(op: string)
    ensures ReadOnlyOp(op) ==> OpMode(op) / 0x40 % 8 == 4
    ensures WriteOnlyOp(op) ==> OpMode(op) / 0x40 % 8 == 2
  {
  }

  /** `tableExists` as a value: whether the table is among those the database lists. */
  function TableExists(s: Services, db: string, table: string): (r: Result<bool, GoError>)
    ensures db != [] && table != [] && s.listTables(db).Ok? ==> r == Ok(table in s.listTables(db).value)
  {
    if db == [] || table == [] then Err(Failure("dbName and tableName must not be empty"))
    else match s.listTables(db)
      case Err(e) => Err(e)
      case Ok(tables) => Ok(table in tables)
  }

  /** `tableExists`, searching the list. */
  method FindTable(s: Services, db: string, table: string) returns (r: Result<bool, GoError>)
    ensures r == TableExists(s, db, table)
  {
    if db == [] || table == [] {
      return Err(Failure("dbName and tableName must not be empty"));
    }
    var listed := s.listTables(db);
    if listed.Err? {
      return Err(listed.error);
    }
    var tables := listed.value;
    var i := 0;
    while i < |tables|
      invariant 0 <= i <= |tables|
      invariant table !in tables[..i]
    {
      if tables[i] == table {
        return Ok(true);
      }
      assert tables[..i + 1] == tables[..i] + [tables[i]];
      i := i + 1;
    }
    assert tables[..i] == tables;
    r := Ok(false);
  }

  function TableMissing(db: string, table: string): GoError
  {
    Failure("table '" + db + "." + table + "' does not exist")
  }

  /** `Stat`: directories for the root, a database and an existing table; a file for any
      operation name, with `OpMode`'s permission bits. */
  function Stat(s: Services, path: string, now: int): (r: Result<FileInfo, GoError>)
    ensures ParsePath(path).Err? ==> r == Err(ParsePath(path).error)
    ensures ParsePath(path).Ok? && ParsePath(path).value.db == [] ==>
              r.Ok? && r.value.isDir && r.value.name == "/" && r.value.mode == MODE_0755
    ensures ParsePath(path).Ok? && ParsePath(path).value.db != [] && ParsePath(path).value.table == [] ==>
              r.Ok? && r.value.isDir && r.value.name == ParsePath(path).value.db
    ensures ParsePath(path).Ok? && ParsePath(path).value.db != [] && ParsePath(path).value.table != []
            && ParsePath(path).value.op == [] ==>
              (r.Ok? <==> TableExists(s, ParsePath(path).value.db, ParsePath(path).value.table) == Ok(true))
    ensures ParsePath(path).Ok? && ParsePath(path).value.db != [] && ParsePath(path).value.table != []
            && ParsePath(path).value.op != [] ==>
              r.Ok? && !r.value.isDir && r.value.name == ParsePath(path).value.op
              && r.value.mode == OpMode(ParsePath(path).value.op)
  {
    match ParsePath(path)
    case Err(e) => Err(e)
    case Ok(Parsed(db, table, op)) =>
      if db == [] then Ok(FileInfo("/", 0, MODE_0755, now, true, Meta(PLUGIN_NAME, "")))
      else if table == [] then Ok(FileInfo(db, 0, MODE_0755, now, true, Meta(PLUGIN_NAME, "database")))
      else if op == [] then
        match TableExists(s, db, table)
        case Err(e) => Err(Wrapped("failed to check table existence", e))
        case Ok(false) => Err(TableMissing(db, table))
        case Ok(true) => Ok(FileInfo(table, 0, MODE_0755, now, true, Meta(PLUGIN_NAME, "table")))
      else Ok(FileInfo(op, 0, OpMode(op), now, false, Meta(PLUGIN_NAME, "operation")))
  }

  /** The five files of a table, in listing order. */
  const OPERATIONS := ["schema", "count", "query", "execute", "insert_json"]

  function OpEntry(op: string, now: int): FileInfo
  {
    FileInfo(op, 0, OpMode(op), now, false, Meta(PLUGIN_NAME, "operation"))
  }

  function OpEntries(now: int): (r: seq<FileInfo>)
    ensures |r| == 5 && forall i :: 0 <= i < 5 ==> r[i] == OpEntry(OPERATIONS[i], now)
  {
    [OpEntry("schema", now), OpEntry("count", now), OpEntry("query", now),
     OpEntry("execute", now), OpEntry("insert_json", now)]
  }

  /** Directory entries for a list of names, in the list's order. */
  function DirEntries(names: seq<string>, typ: string, now: int): (r: seq<FileInfo>)
    ensures |r| == |names|
    ensures forall i :: 0 <= i < |names| ==> r[i] == FileInfo(names[i], 0, MODE_0755, now, true, Meta(PLUGIN_NAME, typ))
  {
    seq(|names|, i requires 0 <= i < |names| => FileInfo(names[i], 0, MODE_0755, now, true, Meta(PLUGIN_NAME, typ)))
  }

  /** The loops that turn database and table names into entries. */
  method ListDirs(names: seq<string>, typ: string, now: int) returns (entries: seq<FileInfo>)
    ensures entries == DirEntries(names, typ, now)
  {
    entries := [];
    var i := 0;
    while i < |names|
      invariant 0 <= i <= |names|
      invariant entries == DirEntries(names, typ, now)[..i]
    {
      entries := entries + [FileInfo(names[i], 0, MODE_0755, now, true, Meta(PLUGIN_NAME, typ))];
      i := i + 1;
    }
  }

  /** What `ReadDir` returns for a path. */
  function ReadDirOutcome(s: Services, path: string, now: int): (r: Result<seq<FileInfo>, GoError>)
  {
    match ParsePath(path)
    case Err(e) => Err(e)
    case Ok(Parsed(db, table, op)) =>
      if db == [] then
        match s.listDatabases
        case Err(e) => Err(e)
        case Ok(names) => Ok(DirEntries(names, "database", now))
      else if table == [] then
        match s.listTables(db)
        case Err(e) => Err(e)
        case Ok(names) => Ok(DirEntries(names, "table", now))
      else if op == [] then
        match TableExists(s, db, table)
        case Err(e) => Err(Wrapped("failed to check table existence", e))
        case Ok(false) => Err(TableMissing(db, table))
        case Ok(true) => Ok(OpEntries(now))
      else Err(Failure("not a directory: " + path))
  }

  method ReadDir(s: Services, path: string, now: int) returns (r: Result<seq<FileInfo>, GoError>)
    ensures r == ReadDirOutcome(s, path, now)
  {
    var parsed := ParsePath(path);
    if parsed.Err? {
      return Err(parsed.error);
    }
    var Parsed(db, table, op) := parsed.value;
    if db == [] {
      if s.listDatabases.Err? {
        return Err(s.listDatabases.error);
      }
      var databases := ListDirs(s.listDatabases.value, "database", now);
      return Ok(databases);
    }
    if table == [] {
      var names := s.listTables(db);
      if names.Err? {
        return Err(names.error);
      }
      var tables := ListDirs(names.value, "table", now);
      return Ok(tables);
    }
    if op == [] {
      var found := FindTable(s, db, table);
      if found.Err? {
        return Err(Wrapped("failed to check table existence", found.error));
      }
      if !found.value {
        return Err(TableMissing(db, table));
      }
      return Ok(OpEntries(now));
    }
    r := Err(Failure("not a directory: " + path));
  }

  /** An existing table lists its five operation files. */
  lemma TableListing(s: Services, db: string, table: string, now: int)
    requires Component(db) && Component(table) && db != [] && table != []
    requires TableExists(s, db, table) == Ok(true)
    ensures ReadDirOutcome(s, "/" + db + "/" + table, now) == Ok(OpEntries(now))
  {
    ParseTablePath(db, table);
  }

  /** `Stat` of an operation file gives the entry the listing shows for it. */
  lemma StatOperationFile(s: Services, db: string, table: string, op: string, now: int)
    requires Component(db) && Component(table) && Component(op) && db != [] && table != [] && op != []
    ensures Stat(s, OpPath(db, table, op), now) == Ok(OpEntry(op, now))
  {
    ParseOpPath(db, table, op);
  }

  /** The listing of an existing table agrees with `Stat` on each of its five files. */
  lemma TableListingAgreesWithStat(s: Services, db: string, table: string, now: int, i: nat)
    requires Component(db) && Component(table) && db != [] && table != [] && i < 5
    requires TableExists(s, db, table) == Ok(true)
    ensures ReadDirOutcome(s, "/" + db + "/" + table, now).Ok?
            && |ReadDirOutcome(s, "/" + db + "/" + table, now).value| == 5
    ensures Stat(s, OpPath(db, table, OPERATIONS[i]), now)
            == Ok(ReadDirOutcome(s, "/" + db + "/" + table, now).value[i])
  {
    var op := OPERATIONS[i];
    assert Component(op) && op != [] by {
      OperationsAreComponents(i);
    }
    TableListing(s, db, table, now);
    StatOperationFile(s, db, table, op, now);
    assert OpEntries(now)[i] == OpEntry(op, now);
  }

  lemma OperationsAreComponents(i: nat)
    requires i < 5
    ensures Component(OPERATIONS[i]) && OPERATIONS[i] != []
  {
  }

  // ---------------------------------------------------------------------------------------
  // RemoveAll, Validate and the refused operations

  /** `RemoveAll`: drops a database for `/<db>` and a table for `/<db>/<table>`; nothing else
      can be removed. */
  function RemoveAll(s: Services, path: string): (r: Option<GoError>)
    ensures ParsePath(path).Ok? && ParsePath(path).value.op != [] ==>
              r == Some(Failure("operation not supported: can only remove databases or tables"))
    ensures ParsePath(path).Ok? && ParsePath(path).value.db == [] ==>
              r == Some(Failure("operation not supported: can only remove databases or tables"))
    ensures ParsePath(path).Ok? && ParsePath(path).value.db != [] && ParsePath(path).value.table == []
            && ParsePath(path).value.op == [] ==>
              r == (match s.exec("DROP DATABASE IF EXISTS " + ParsePath(path).value.db, [])
                    case None => None
                    case Some(e) => Some(Wrapped("failed to drop database", e)))
  {
    match ParsePath(path)
    case Err(e) => Some(e)
    case Ok(Parsed(db, table, op)) =>
      if db != [] && table == [] && op == [] then
        match s.exec("DROP DATABASE IF EXISTS " + db, [])
        case Some(e) => Some(Wrapped("failed to drop database", e))
        case None => None
      else if db != [] && table != [] && op == [] then
        if s.switchDatabase(db).Some? then s.switchDatabase(db)
        else match s.exec("DROP TABLE IF EXISTS " + db + "." + table, [])
          case Some(e) => Some(Wrapped("failed to drop table", e))
          case None => None
      else Some(Failure("operation not supported: can only remove databases or tables"))
  }

  /** Dropping a table runs `DROP TABLE IF EXISTS <db>.<table>` after switching database. */
  lemma RemoveTable(s: Services, db: string, table: string)
    requires Component(db) && Component(table) && db != [] && table != []
    requires s.switchDatabase(db).None?
    ensures RemoveAll(s, "/" + db + "/" + table).None?
            <==> s.exec("DROP TABLE IF EXISTS " + db + "." + table, []).None?
  {
    ParseTablePath(db, table);
  }

  function Create(path: string): Option<GoError> { Some(Failure("operation not supported: create")) }
  function Mkdir(path: string, perm: nat): Option<GoError> { Some(Failure("operation not supported: mkdir")) }
  function Remove(path: string): Option<GoError> { Some(Failure("operation not supported: remove")) }
  function Rename(oldPath: string, newPath: string): Option<GoError> { Some(Failure("operation not supported: rename")) }
  function Chmod(path: string, mode: nat): Option<GoError> { Some(Failure("operation not supported: chmod")) }

  lemma OtherMutatorsRefused(path: string, other: string, mode: nat)
    ensures Create(path).Some? && Mkdir(path, mode).Some? && Remove(path).Some?
    ensures Rename(path, other).Some? && Chmod(path, mode).Some?
  {
  }

  /** The configuration helpers, which live outside this plugin. */
  datatype ConfigHelpers = ConfigHelpers(
    onlyKnownKeys: (map<string, Json>, seq<string>) -> Option<GoError>,
    getString: (map<string, Json>, string, string) -> string,
    checkType: (map<string, Json>, string, string) -> Option<GoError>)

  const ALLOWED_KEYS := ["backend", "db_path", "dsn", "user", "password", "host", "port", "database",
                         "enable_tls", "tls_server_name", "tls_skip_verify", "mount_path"]

  const VALID_BACKENDS: set<string> := {"sqlite", "sqlite3", "mysql", "tidb"}

  const STRING_KEYS := ["db_path", "dsn", "user", "password", "host", "database", "tls_server_name"]

  const BOOL_KEYS := ["enable_tls", "tls_skip_verify"]

  /** The first failing type check over `keys`, in order. */
  function FirstTypeError(cfg: map<string, Json>, h: ConfigHelpers, keys: seq<string>, kind: string): (r: Option<GoError>)
    ensures r.None? <==> forall k :: 0 <= k < |keys| ==> h.checkType(cfg, keys[k], kind).None?
    decreases |keys|
  {
    if keys == [] then None
    else if h.checkType(cfg, keys[0], kind).Some? then h.checkType(cfg, keys[0], kind)
    else
      assert forall k :: 0 < k < |keys| ==> keys[k] == keys[1..][k - 1];
      FirstTypeError(cfg, h, keys[1..], kind)
  }

  /** `Validate`: only known keys, a supported backend (sqlite when unset), then the type of
      each optional string, integer and boolean parameter. */
  function Validate(cfg: map<string, Json>, h: ConfigHelpers): (r: Option<GoError>)
  {
    if h.onlyKnownKeys(cfg, ALLOWED_KEYS).Some? then h.onlyKnownKeys(cfg, ALLOWED_KEYS)
    else
      var backend := h.getString(cfg, "backend", "sqlite");
      if backend !in VALID_BACKENDS then
        Some(Failure("unsupported database backend: " + backend + " (valid options: sqlite, sqlite3, mysql, tidb)"))
      else if FirstTypeError(cfg, h, STRING_KEYS, "string").Some? then FirstTypeError(cfg, h, STRING_KEYS, "string")
      else if FirstTypeError(cfg, h, ["port"], "int").Some? then FirstTypeError(cfg, h, ["port"], "int")
      else FirstTypeError(cfg, h, BOOL_KEYS, "bool")
  }

  /** A configuration is accepted only with one of the four backends, and accepted exactly when
      in addition its keys are known and every typed parameter checks. */
  lemma ValidateBackends(cfg: map<string, Json>, h: ConfigHelpers)
    ensures Validate(cfg, h).None? ==> h.getString(cfg, "backend", "sqlite") in VALID_BACKENDS
    ensures h.onlyKnownKeys(cfg, ALLOWED_KEYS).None? && h.getString(cfg, "backend", "sqlite") !in VALID_BACKENDS ==>
              Validate(cfg, h) == Some(Failure("unsupported database backend: " + h.getString(cfg, "backend", "sqlite")
                                               + " (valid options: sqlite, sqlite3, mysql, tidb)"))
    ensures Validate(cfg, h).None? <==>
              h.onlyKnownKeys(cfg, ALLOWED_KEYS).None? && h.getString(cfg, "backend", "sqlite") in VALID_BACKENDS
              && (forall k :: 0 <= k < |STRING_KEYS| ==> h.checkType(cfg, STRING_KEYS[k], "string").None?)
              && h.checkType(cfg, "port", "int").None?
              && (forall k :: 0 <= k < |BOOL_KEYS| ==> h.checkType(cfg, BOOL_KEYS[k], "bool").None?)
  {
    var p := FirstTypeError(cfg, h, ["port"], "int");
    assert p.None? <==> h.checkType(cfg, "port", "int").None?;
  }
}
