// The vector database client of the vector filesystem: table naming, LIKE
// pattern escaping, namespace creation, lookup, listing and deletion, and the
// batched insertion of document chunks. The database itself is modelled by a
// small reference semantics (`Db`): a catalogue of tables holding rows of
// bound arguments, plus oracles for the failures a connection can report.
module TiDb {
  import opened Wrappers
  import opened GoFs
  import Text

  const META_PREFIX := "tbl_meta_"
  const CHUNKS_PREFIX := "tbl_chunks_"

  // ---------------------------------------------------------------------------------------
  // Table names

  /** The characters `sanitizeTableName` rewrites. */
  predicate IsReplaced(c: char) {
    c == '-' || c == '.' || c == '/' || c == ' '
  }

  /** `sanitizeTableName`: each of `-`, `.`, `/` and space becomes `_`, every other
      character is kept, position by position. */
  function SanitizeTableName(ns: string): (r: string)
    ensures |r| == |ns|
    ensures forall i :: 0 <= i < |ns| ==> r[i] == (if IsReplaced(ns[i]) then '_' else ns[i])
    decreases |ns|
  {
    if ns == [] then []
    else [if IsReplaced(ns[0]) then '_' else ns[0]] + SanitizeTableName(ns[1..])
  }

  /** A sanitised name holds none of the rewritten characters, and sanitising it again
      changes nothing. */
  lemma SanitizeIdempotent(ns: string)
    ensures forall i :: 0 <= i < |SanitizeTableName(ns)| ==> !IsReplaced(SanitizeTableName(ns)[i])
    ensures SanitizeTableName(SanitizeTableName(ns)) == SanitizeTableName(ns)
  {
  }

  /** A name without rewritten characters is its own table suffix. */
  lemma SanitizeKeepsClean(ns: string)
    requires forall i :: 0 <= i < |ns| ==> !IsReplaced(ns[i])
    ensures SanitizeTableName(ns) == ns
  {
  }

  /** Sanitising works character by character, so it distributes over concatenation. */
  lemma {:induction false} SanitizeAppend(a: string, b: string)
    ensures SanitizeTableName(a + b) == SanitizeTableName(a) + SanitizeTableName(b)
    decreases |a|
  {
    if a == [] {
      assert a + b == b;
    } else {
      assert (a + b)[0] == a[0] && (a + b)[1..] == a[1..] + b;
      SanitizeAppend(a[1..], b);
    }
  }

  /** Distinct namespaces can share their tables: `a-b`, `a.b`, `a/b`, `a b` and `a_b` all
      become `a_b`, while a name without those characters, such as `test`, is kept. */
  lemma SanitizeCollides()
    ensures SanitizeTableName("a-b") == SanitizeTableName("a.b") == "a_b"
    ensures SanitizeTableName("a/b") == SanitizeTableName("a b") == SanitizeTableName("a_b") == "a_b"
    ensures SanitizeTableName("test") == "test"
  {
  }

  function MetaTable(ns: string): (t: string)
    ensures Text.StartsWith(t, META_PREFIX) && t[|META_PREFIX|..] == SanitizeTableName(ns)
  {
    META_PREFIX + SanitizeTableName(ns)
  }

  function ChunksTable(ns: string): (t: string)
    ensures Text.StartsWith(t, CHUNKS_PREFIX) && t[|CHUNKS_PREFIX|..] == SanitizeTableName(ns)
  {
    CHUNKS_PREFIX + SanitizeTableName(ns)
  }

  /** Two namespaces get the same tables exactly when their sanitised names agree, and a
      metadata table is never a chunks table. */
  lemma TableNames(a: string, b: string)
    ensures MetaTable(a) == MetaTable(b) <==> SanitizeTableName(a) == SanitizeTableName(b)
    ensures ChunksTable(a) == ChunksTable(b) <==> SanitizeTableName(a) == SanitizeTableName(b)
    ensures MetaTable(a) != ChunksTable(b)
  {
    if MetaTable(a) == MetaTable(b) {
      assert MetaTable(a)[|META_PREFIX|..] == MetaTable(b)[|META_PREFIX|..];
    }
    if ChunksTable(a) == ChunksTable(b) {
      assert ChunksTable(a)[|CHUNKS_PREFIX|..] == ChunksTable(b)[|CHUNKS_PREFIX|..];
    }
    assert MetaTable(a)[4] == 'm' && ChunksTable(b)[4] == 'c';
  }

  // ---------------------------------------------------------------------------------------
  // LIKE patterns

  /** The escape of one character that a correct escaping produces. */
  function EscapeChar(c: char): (r: string)
    ensures |r| == 1 ==> r == [c] && c != '%' && c != '_' && c != '\\'
    ensures |r| == 2 ==> r == ['\\', c]
  {
    if c == '%' || c == '_' || c == '\\' then ['\\', c] else [c]
  }

  /** The escaping as `ListFilesWithPrefix` and `HasFilesWithPrefix` write it: `%` becomes
      `\%`, then `_` becomes `\_`; a backslash is left alone. */
  function LikeEscapeAsWritten(prefix: string): (r: string)
  {
    Text.ReplaceChar(Text.ReplaceChar(prefix, '%', "\\%"), '_', "\\_")
  }

  function LikePatternAsWritten(prefix: string): (r: string)
    ensures Text.EndsWith(r, "%")
  {
    LikeEscapeAsWritten(prefix) + "%"
  }

  /** The escaping with the backslash, the escape character of MySQL's and TiDB's LIKE,
      escaped first. */
  function LikeEscape(prefix: string): (r: string)
  {
    LikeEscapeAsWritten(Text.ReplaceChar(prefix, '\\', "\\\\"))
  }

  /** The pattern that matches exactly the names beginning with `prefix`. */
  function LikePattern(prefix: string): (r: string)
    ensures Text.EndsWith(r, "%")
  {
    LikeEscape(prefix) + "%"
  }

  /** How LIKE reads a pattern: a backslash takes the next character literally. */
  function Unescape(pat: string): (r: string)
    decreases |pat|
  {
    if pat == [] then []
    else if pat[0] == '\\' && |pat| >= 2 then [pat[1]] + Unescape(pat[2..])
    else [pat[0]] + Unescape(pat[1..])
  }

  /** A pattern with no wildcard left unescaped and no dangling backslash: it matches
      only the text `Unescape` gives. */
  predicate Literal(pat: string)
    decreases |pat|
  {
    if pat == [] then true
    else if pat[0] == '\\' then |pat| >= 2 && Literal(pat[2..])
    else pat[0] != '%' && pat[0] != '_' && Literal(pat[1..])
  }

  lemma StepAsWritten(p: string)
    requires p != [] && p[0] != '\\'
    ensures LikeEscapeAsWritten(p) == EscapeChar(p[0]) + LikeEscapeAsWritten(p[1..])
  {
    var head := if p[0] == '%' then "\\%" else [p[0]];
    var inner := Text.ReplaceChar(p[1..], '%', "\\%");
    assert Text.ReplaceChar(p, '%', "\\%") == head + inner;
    Text.ReplaceCharAppend(head, inner, '_', "\\_");
    if p[0] == '%' {
      assert Text.ReplaceChar(head, '_', "\\_") == "\\%";
    } else if p[0] == '_' {
      assert Text.ReplaceChar(head, '_', "\\_") == "\\_";
    } else {
      assert Text.ReplaceChar(head, '_', "\\_") == [p[0]];
    }
  }

  lemma {:induction false} Step(p: string)
    requires p != []
    ensures LikeEscape(p) == EscapeChar(p[0]) + LikeEscape(p[1..])
  {
    var doubled := Text.ReplaceChar(p, '\\', "\\\\");
    var rest := Text.ReplaceChar(p[1..], '\\', "\\\\");
    if p[0] == '\\' {
      assert doubled == "\\\\" + rest;
      Text.ReplaceCharAppend("\\\\", rest, '%', "\\%");
      assert Text.ReplaceChar("\\\\", '%', "\\%") == "\\\\";
      Text.ReplaceCharAppend("\\\\", Text.ReplaceChar(rest, '%', "\\%"), '_', "\\_");
      assert Text.ReplaceChar("\\\\", '_', "\\_") == "\\\\";
    } else {
      assert doubled == [p[0]] + rest;
      assert doubled[1..] == rest;
      StepAsWritten(doubled);
    }
  }

  /** The corrected escaping is read back by LIKE as the prefix itself, with no wildcard. */
  lemma {:induction false} LikeEscapeRoundTrip(prefix: string)
    ensures Literal(LikeEscape(prefix))
    ensures Unescape(LikeEscape(prefix)) == prefix
    decreases |prefix|
  {
    if prefix == [] {
      assert LikeEscape(prefix) == [];
    } else {
      Step(prefix);
      LikeEscapeRoundTrip(prefix[1..]);
      var e := EscapeChar(prefix[0]);
      var rest := LikeEscape(prefix[1..]);
      if |e| == 2 {
        assert (e + rest)[2..] == rest;
      } else {
        assert (e + rest)[1..] == rest;
      }
    }
  }

  /** The corrected pattern is a literal prefix followed by one wildcard. */
  lemma LikePatternShape(prefix: string)
    ensures var p := LikePattern(prefix);
            p[..|p| - 1] == LikeEscape(prefix) && Literal(p[..|p| - 1])
            && Unescape(p[..|p| - 1]) == prefix && p[|p| - 1] == '%'
  {
    LikeEscapeRoundTrip(prefix);
    var p := LikePattern(prefix);
    assert p[..|p| - 1] == LikeEscape(prefix);
  }

  /** Without a backslash in the prefix the code as written already gives the correct pattern. */
  lemma {:induction false} AsWrittenAgreesWithoutBackslash(prefix: string)
    requires '\\' !in prefix
    ensures LikePatternAsWritten(prefix) == LikePattern(prefix)
  {
  }

  /** The code as written on the prefix `\`: the escaped text ends in a dangling backslash,
      which LIKE joins with the appended `%`, so the pattern matches only the literal name
      `%` and not the names beginning with a backslash. */
  lemma BackslashPrefixLosesWildcard()
    ensures LikeEscapeAsWritten("\\") == "\\"
    ensures !Literal(LikeEscapeAsWritten("\\"))
    ensures LikePatternAsWritten("\\") == "\\%"
    ensures Unescape(LikePatternAsWritten("\\")) == "%"
    ensures LikePattern("\\") == "\\\\%"
  {
    assert Text.ReplaceChar("\\", '%', "\\%") == "\\";
    assert Text.ReplaceChar("\\", '_', "\\_") == "\\";
    assert Text.ReplaceChar("\\", '\\', "\\\\") == "\\\\";
    assert Text.ReplaceChar("\\\\", '%', "\\%") == "\\\\";
    assert Text.ReplaceChar("\\\\", '_', "\\_") == "\\\\";
    assert Unescape("\\%") == "%";
  }

  // ---------------------------------------------------------------------------------------
  // The database

  /** `ChunkData`; the embedding's text form (`formatVector`) is a parameter. */
  datatype ChunkData = ChunkData(chunkIndex: int, chunkText: string, embedding: seq<real>)

  /** A bound statement argument. */
  datatype Arg = StrArg(s: string) | IntArg(i: int)

  type Row = seq<Arg>

  /** The statements the client executes. */
  datatype Statement =
    | CreateMetaTable(table: string)
    | CreateChunksTable(table: string, dim: int)
    | DropTableIfExists(table: string)
    | InsertRows(table: string, placeholders: seq<string>, args: seq<Arg>)

  /** The database: its tables and their rows; `fault` is the failure (a lost connection,
      a rejected statement) the server reports for a statement, if any, and `queryFault`
      the failure of the catalogue query. */
  datatype Db = Db(
    tables: map<string, seq<Row>>,
    fault: Statement -> Option<GoError>,
    queryFault: Option<GoError>)

  const PLACEHOLDER := "(?, ?, ?, ?)"

  /** The rows a multi-row insert binds: four arguments for each placeholder group. */
  function BoundRows(args: seq<Arg>, n: nat): (r: seq<Row>)
    requires |args| == 4 * n
    ensures |r| == n && forall j :: 0 <= j < n ==> r[j] == args[4 * j..4 * j + 4]
  {
    seq(n, j requires 0 <= j < n => args[4 * j..4 * j + 4])
  }

  /** Executing one statement. */
  function Exec(db: Db, st: Statement): (r: (Option<GoError>, Db))
    ensures r.0.Some? ==> r.1 == db
    ensures r.1.fault == db.fault && r.1.queryFault == db.queryFault
  {
    if db.fault(st).Some? then (db.fault(st), db)
    else match st
      case CreateMetaTable(t) =>
        if t in db.tables then (Some(Failure("Error 1050: Table '" + t + "' already exists")), db)
        else (None, db.(tables := db.tables[t := []]))
      case CreateChunksTable(t, _) =>
        if t in db.tables then (Some(Failure("Error 1050: Table '" + t + "' already exists")), db)
        else (None, db.(tables := db.tables[t := []]))
      case DropTableIfExists(t) =>
        (None, db.(tables := db.tables - {t}))
      case InsertRows(t, ph, args) =>
        if t !in db.tables then (Some(Failure("Error 1146: Table '" + t + "' doesn't exist")), db)
        else if |args| != 4 * |ph| then (Some(Failure("Error 1210: Incorrect arguments to EXECUTE")), db)
        else (None, db.(tables := db.tables[t := db.tables[t] + BoundRows(args, |ph|)]))
  }

  // ---------------------------------------------------------------------------------------
  // Namespaces

  /** `NamespaceExists`: whether the namespace's metadata table is in the catalogue. */
  function NamespaceExists(db: Db, ns: string): (r: Result<bool, GoError>)
    ensures db.queryFault.Some? ==> r == Err(db.queryFault.value)
    ensures db.queryFault.None? ==> r == Ok(MetaTable(ns) in db.tables)
  {
    if db.queryFault.Some? then Err(db.queryFault.value)
    else Ok(MetaTable(ns) in db.tables)
  }

  /** `CreateNamespace`: fails when the existence check fails or finds the namespace;
      otherwise creates the metadata table and then the chunks table, stopping at the
      first failure. */
  function CreateNamespace(db: Db, ns: string, dim: int): (r: (Option<GoError>, Db))
  {
    match NamespaceExists(db, ns)
    case Err(e) => (Some(Wrapped("failed to check namespace existence", e)), db)
    case Ok(true) => (Some(Failure("namespace already exists: " + ns)), db)
    case Ok(false) =>
      var (e1, db1) := Exec(db, CreateMetaTable(MetaTable(ns)));
      if e1.Some? then (Some(Wrapped("failed to create metadata table", e1.value)), db1)
      else
        var (e2, db2) := Exec(db1, CreateChunksTable(ChunksTable(ns), dim));
        if e2.Some? then (Some(Wrapped("failed to create chunks table", e2.value)), db2)
        else (None, db2)
  }

  /** A namespace that exists, or whose existence cannot be checked, is refused and the
      database is left as it was. */
  lemma CreateNamespaceRefuses(db: Db, ns: string, dim: int)
    ensures NamespaceExists(db, ns) == Ok(true) ==>
              CreateNamespace(db, ns, dim) == (Some(Failure("namespace already exists: " + ns)), db)
    ensures db.queryFault.Some? ==>
              CreateNamespace(db, ns, dim) == (Some(Wrapped("failed to check namespace existence", db.queryFault.value)), db)
  {
  }

  /** A successful creation adds exactly the namespace's two empty tables; afterwards the
      namespace exists and creating it again is refused. */
  lemma CreateNamespaceSucceeds(db: Db, ns: string, dim: int)
    requires CreateNamespace(db, ns, dim).0.None?
    ensures var db' := CreateNamespace(db, ns, dim).1;
            db'.tables == db.tables[MetaTable(ns) := []][ChunksTable(ns) := []]
            && MetaTable(ns) !in db.tables && ChunksTable(ns) !in db.tables
            && NamespaceExists(db', ns) == Ok(true)
            && CreateNamespace(db', ns, dim).0 == Some(Failure("namespace already exists: " + ns))
  {
  }

  /** Two namespaces with the same sanitised name share tables: once `a-b` is created,
      creating `a.b` is refused. */
  lemma SanitizedNamesShareNamespace(db: Db, dim: int)
    requires CreateNamespace(db, "a-b", dim).0.None?
    ensures CreateNamespace(CreateNamespace(db, "a-b", dim).1, "a.b", dim).0
              == Some(Failure("namespace already exists: a.b"))
  {
    var db' := CreateNamespace(db, "a-b", dim).1;
    SanitizeCollides();
    TableNames("a-b", "a.b");
    CreateNamespaceSucceeds(db, "a-b", dim);
    SharedTablesRefused(db', "a-b", "a.b", dim);
    AlreadyExistsMessage();
  }

  lemma AlreadyExistsMessage()
    ensures "namespace already exists: " + "a.b" == "namespace already exists: a.b"
  {
  }

  /** A namespace whose metadata table is that of one that exists is refused. */
  lemma SharedTablesRefused(db: Db, a: string, b: string, dim: int)
    requires NamespaceExists(db, a) == Ok(true) && MetaTable(a) == MetaTable(b)
    ensures CreateNamespace(db, b, dim).0 == Some(Failure("namespace already exists: " + b))
  {
    CreateNamespaceRefuses(db, b, dim);
  }

  /** `DeleteNamespace`: drops the chunks table and then the metadata table, each only if
      it exists, stopping at the first failure. */
  function DeleteNamespace(db: Db, ns: string): (r: (Option<GoError>, Db))
  {
    var (e1, db1) := Exec(db, DropTableIfExists(ChunksTable(ns)));
    if e1.Some? then (Some(Wrapped("failed to drop chunks table", e1.value)), db1)
    else
      var (e2, db2) := Exec(db1, DropTableIfExists(MetaTable(ns)));
      if e2.Some? then (Some(Wrapped("failed to drop metadata table", e2.value)), db2)
      else (None, db2)
  }

  /** A successful deletion removes the namespace's two tables and nothing else, after
      which the namespace no longer exists; deleting a missing namespace succeeds too. */
  lemma DeleteNamespaceRemoves(db: Db, ns: string)
    requires DeleteNamespace(db, ns).0.None?
    ensures var db' := DeleteNamespace(db, ns).1;
            db'.tables == db.tables - {ChunksTable(ns)} - {MetaTable(ns)}
            && (db.queryFault.None? ==> NamespaceExists(db', ns) == Ok(false))
  {
  }

  /** Deletion undoes a creation: the tables are as before. */
  lemma CreateThenDelete(db: Db, ns: string, dim: int)
    requires CreateNamespace(db, ns, dim).0.None?
    requires DeleteNamespace(CreateNamespace(db, ns, dim).1, ns).0.None?
    ensures DeleteNamespace(CreateNamespace(db, ns, dim).1, ns).1.tables == db.tables
  {
    CreateNamespaceSucceeds(db, ns, dim);
    TableNames(ns, ns);
    var db1 := CreateNamespace(db, ns, dim).1;
    DeleteNamespaceRemoves(db1, ns);
    var db2 := DeleteNamespace(db1, ns).1;
    assert db2.tables.Keys == db.tables.Keys;
  }

  /** What the listing returns for the rows its catalogue query produced: the query's own
      error, the first row that failed to scan, or every table name with `tbl_meta_`
      removed. */
  function NamespacesOf(rows: seq<Result<string, GoError>>): (r: Result<seq<string>, GoError>)
    ensures r.Ok? ==> |r.value| == |rows|
    ensures r.Ok? <==> forall i :: 0 <= i < |rows| ==> rows[i].Ok?
    ensures r.Ok? ==> forall i :: 0 <= i < |rows| ==> r.value[i] == Text.TrimPrefix(rows[i].value, META_PREFIX)
  {
    if rows == [] then Ok([])
    else match NamespacesOf(rows[..|rows| - 1])
      case Err(e) => Err(e)
      case Ok(prev) =>
        match rows[|rows| - 1]
        case Err(e) => Err(e)
        case Ok(name) => Ok(prev + [Text.TrimPrefix(name, META_PREFIX)])
  }

  /** `ListNamespaces`, scanning the rows one at a time. */
  method ListNamespaces(query: Result<seq<Result<string, GoError>>, GoError>) returns (r: Result<seq<string>, GoError>)
    ensures query.Err? ==> r == Err(query.error)
    ensures query.Ok? ==> r == NamespacesOf(query.value)
  {
    if query.Err? {
      return Err(query.error);
    }
    var rows := query.value;
    var namespaces: seq<string> := [];
    var i := 0;
    while i < |rows|
      invariant 0 <= i <= |rows|
      invariant NamespacesOf(rows[..i]) == Ok(namespaces)
    {
      assert rows[..i + 1][..i] == rows[..i];
      if rows[i].Err? {
        assert NamespacesOf(rows[..i + 1]) == Err(rows[i].error);
        NamespacesErrorStays(rows, i + 1);
        return Err(rows[i].error);
      }
      namespaces := namespaces + [Text.TrimPrefix(rows[i].value, META_PREFIX)];
      i := i + 1;
    }
    assert rows[..i] == rows;
    r := Ok(namespaces);
  }

  /** Once a prefix of the rows fails, the whole listing fails with the same error. */
  lemma {:induction false} NamespacesErrorStays(rows: seq<Result<string, GoError>>, k: nat)
    requires k <= |rows| && NamespacesOf(rows[..k]).Err?
    ensures NamespacesOf(rows) == NamespacesOf(rows[..k])
    decreases |rows| - k
  {
    if k < |rows| {
      assert rows[..k + 1][..k] == rows[..k];
      NamespacesErrorStays(rows, k + 1);
    } else {
      assert rows[..k] == rows;
    }
  }

  /** Listing the metadata tables of created namespaces gives their sanitised names, not
      the names they were created with. */
  lemma ListingGivesSanitizedNames(names: seq<string>)
    ensures NamespacesOf(seq(|names|, i requires 0 <= i < |names| => Ok(MetaTable(names[i]))))
              == Ok(seq(|names|, i requires 0 <= i < |names| => SanitizeTableName(names[i])))
  {
    var rows := seq(|names|, i requires 0 <= i < |names| => Ok(MetaTable(names[i])));
    var r := NamespacesOf(rows);
    assert r.Ok?;
    forall i | 0 <= i < |names|
      ensures r.value[i] == SanitizeTableName(names[i])
    {
      var t := MetaTable(names[i]);
      assert rows[i].value == t;
      assert Text.TrimPrefix(t, META_PREFIX) == t[|META_PREFIX|..];
    }
    assert r.value == seq(|names|, i requires 0 <= i < |names| => SanitizeTableName(names[i]));
  }

  // ---------------------------------------------------------------------------------------
  // Batched chunk insertion

  const BATCH_SIZE: nat := 50

  /** The number of statements for `n` chunks: ⌈n / 50⌉. */
  function NumBatches(n: nat): (r: nat)
    ensures n == 0 <==> r == 0
    ensures n > 0 ==> BATCH_SIZE * (r - 1) < n <= BATCH_SIZE * r
  {
    (n + BATCH_SIZE - 1) / BATCH_SIZE
  }

  /** Batch `k`: the window `[50k, min(50k + 50, n))` of the chunks. */
  function Batch(chunks: seq<ChunkData>, k: nat): (b: seq<ChunkData>)
    requires k < NumBatches(|chunks|)
    ensures 0 < |b| <= BATCH_SIZE
    ensures k < NumBatches(|chunks|) - 1 ==> |b| == BATCH_SIZE
    ensures BATCH_SIZE * k + |b| <= |chunks|
    ensures k == NumBatches(|chunks|) - 1 ==> BATCH_SIZE * k + |b| == |chunks|
    ensures b == chunks[BATCH_SIZE * k..BATCH_SIZE * k + |b|]
  {
    var start := BATCH_SIZE * k;
    var end := if start + BATCH_SIZE > |chunks| then |chunks| else start + BATCH_SIZE;
    chunks[start..end]
  }

  /** The batches before `k`, concatenated: the first `min(50k, n)` chunks, in order. */
  function Batches(chunks: seq<ChunkData>, k: nat): (r: seq<ChunkData>)
    requires k <= NumBatches(|chunks|)
  {
    if k == 0 then [] else Batches(chunks, k - 1) + Batch(chunks, k - 1)
  }

  /** The batches are consecutive, in order, and together hold every chunk exactly once. */
  lemma {:induction false} BatchesCover(chunks: seq<ChunkData>, k: nat)
    requires k <= NumBatches(|chunks|)
    ensures Batches(chunks, k) == chunks[..if BATCH_SIZE * k < |chunks| then BATCH_SIZE * k else |chunks|]
  {
    if k > 0 {
      BatchesCover(chunks, k - 1);
    }
  }

  lemma AllBatchesCover(chunks: seq<ChunkData>)
    ensures Batches(chunks, NumBatches(|chunks|)) == chunks
  {
    BatchesCover(chunks, NumBatches(|chunks|));
  }

  /** The four arguments of one chunk. */
  function ChunkArgs(digest: string, c: ChunkData, format: seq<real> -> string): (r: Row)
    ensures |r| == 4
  {
    [StrArg(digest), IntArg(c.chunkIndex), StrArg(c.chunkText), StrArg(format(c.embedding))]
  }

  /** The arguments of a batch, chunk after chunk. */
  function ArgsOf(digest: string, batch: seq<ChunkData>, format: seq<real> -> string): (r: seq<Arg>)
    ensures |r| == 4 * |batch|
    ensures forall j :: 0 <= j < |batch| ==> r[4 * j..4 * j + 4] == ChunkArgs(digest, batch[j], format)
  {
    if batch == [] then []
    else
      var n := |batch| - 1;
      var prev := ArgsOf(digest, batch[..n], format);
      var r := prev + ChunkArgs(digest, batch[n], format);
      assert forall j :: 0 <= j < n ==> r[4 * j..4 * j + 4] == prev[4 * j..4 * j + 4];
      r
  }

  /** The statement for batch `k`: one `(?, ?, ?, ?)` group and four arguments per chunk. */
  function BatchStatement(ns: string, digest: string, chunks: seq<ChunkData>, format: seq<real> -> string, k: nat): (st: Statement)
    requires k < NumBatches(|chunks|)
    ensures st.InsertRows? && st.table == ChunksTable(ns)
    ensures |st.placeholders| == |Batch(chunks, k)| && |st.args| == 4 * |st.placeholders|
  {
    var b := Batch(chunks, k);
    InsertRows(ChunksTable(ns), seq(|b|, _ => PLACEHOLDER), ArgsOf(digest, b, format))
  }

  /** The error of a failed batch, naming the index of its first chunk. */
  function BatchError(start: nat, e: GoError): GoError {
    Wrapped("failed to batch insert chunks (batch starting at " + Text.NatToString(start) + ")", e)
  }

  /** The outcome of executing batches `k` onward: the first failure stops the run. */
  function InsertFrom(db: Db, ns: string, digest: string, chunks: seq<ChunkData>, format: seq<real> -> string, k: nat): (r: (Option<GoError>, Db))
    requires k <= NumBatches(|chunks|)
    decreases NumBatches(|chunks|) - k
  {
    if k == NumBatches(|chunks|) then (None, db)
    else
      var (e, db') := Exec(db, BatchStatement(ns, digest, chunks, format, k));
      if e.Some? then (Some(BatchError(BATCH_SIZE * k, e.value)), db')
      else InsertFrom(db', ns, digest, chunks, format, k + 1)
  }

  /** `InsertChunksBatch`'s effect. */
  function InsertOutcome(db: Db, ns: string, digest: string, chunks: seq<ChunkData>, format: seq<real> -> string): (r: (Option<GoError>, Db))
  {
    if chunks == [] then (None, db) else InsertFrom(db, ns, digest, chunks, format, 0)
  }

  /** Building one batch's placeholders and arguments. */
  method BuildBatch(digest: string, batch: seq<ChunkData>, format: seq<real> -> string) returns (placeholders: seq<string>, args: seq<Arg>)
    ensures placeholders == seq(|batch|, _ => PLACEHOLDER)
    ensures args == ArgsOf(digest, batch, format)
  {
    var ph := new string[|batch|];
    args := [];
    var j := 0;
    while j < |batch|
      invariant 0 <= j <= |batch|
      invariant forall t :: 0 <= t < j ==> ph[t] == PLACEHOLDER
      invariant args == ArgsOf(digest, batch[..j], format)
    {
      ph[j] := PLACEHOLDER;
      assert batch[..j + 1][..j] == batch[..j];
      args := args + ChunkArgs(digest, batch[j], format);
      j := j + 1;
    }
    assert batch[..j] == batch;
    placeholders := ph[..];
  }

  /** The statement for the window starting at chunk `i`. */
  method PrepareBatch(ns: string, digest: string, chunks: seq<ChunkData>, format: seq<real> -> string, i: nat, ghost k: nat)
    returns (st: Statement)
    requires k < NumBatches(|chunks|) && i == BATCH_SIZE * k
    ensures st == BatchStatement(ns, digest, chunks, format, k)
  {
    var end := i + BATCH_SIZE;
    if end > |chunks| {
      end := |chunks|;
    }
    var batch := chunks[i..end];
    assert batch == Batch(chunks, k);
    var placeholders, args := BuildBatch(digest, batch, format);
    st := InsertRows(ChunksTable(ns), placeholders, args);
  }

  /** `InsertChunksBatch`: an empty input issues nothing; otherwise one statement per
      window of 50 chunks, in order, stopping at the first failure. */
  method InsertChunksBatch(db: Db, ns: string, digest: string, chunks: seq<ChunkData>, format: seq<real> -> string)
    returns (err: Option<GoError>, db': Db)
    ensures (err, db') == InsertOutcome(db, ns, digest, chunks, format)
  {
    if |chunks| == 0 {
      return None, db;
    }
    db' := db;
    var i := 0;
    ghost var k: nat := 0;
    while i < |chunks|
      invariant k <= NumBatches(|chunks|) && i == BATCH_SIZE * k
      invariant k == NumBatches(|chunks|) <==> i >= |chunks|
      invariant InsertFrom(db', ns, digest, chunks, format, k) == InsertOutcome(db, ns, digest, chunks, format)
      decreases |chunks| - i
    {
      var st := PrepareBatch(ns, digest, chunks, format, i, k);
      var res := Exec(db', st);
      var e := res.0;
      db' := res.1;
      if e.Some? {
        return Some(BatchError(i, e.value)), db';
      }
      i := i + BATCH_SIZE;
      k := k + 1;
    }
    err := None;
  }

  /** The rows the chunks of a window add. */
  function RowsOf(digest: string, chunks: seq<ChunkData>, format: seq<real> -> string): (r: seq<Row>)
    ensures |r| == |chunks|
  {
    seq(|chunks|, j requires 0 <= j < |chunks| => ChunkArgs(digest, chunks[j], format))
  }

  lemma RowsOfAppend(digest: string, a: seq<ChunkData>, b: seq<ChunkData>, format: seq<real> -> string)
    ensures RowsOf(digest, a + b, format) == RowsOf(digest, a, format) + RowsOf(digest, b, format)
  {
  }

  /** Batch `k`, once executed, appends one row per chunk of its window. */
  lemma BatchRows(db: Db, ns: string, digest: string, chunks: seq<ChunkData>, format: seq<real> -> string, k: nat)
    requires k < NumBatches(|chunks|) && ChunksTable(ns) in db.tables
    requires Exec(db, BatchStatement(ns, digest, chunks, format, k)).0.None?
    ensures var db' := Exec(db, BatchStatement(ns, digest, chunks, format, k)).1;
            db'.tables == db.tables[ChunksTable(ns) := db.tables[ChunksTable(ns)] + RowsOf(digest, Batch(chunks, k), format)]
  {
    var b := Batch(chunks, k);
    var st := BatchStatement(ns, digest, chunks, format, k);
    assert BoundRows(st.args, |st.placeholders|) == RowsOf(digest, b, format);
  }

  /** A run from batch `k` that succeeds appends the rows of the chunks from `50k` on, and
      changes no other table. */
  lemma {:induction false} InsertFromRows(db: Db, ns: string, digest: string, chunks: seq<ChunkData>, format: seq<real> -> string, k: nat)
    requires k <= NumBatches(|chunks|) && ChunksTable(ns) in db.tables
    requires InsertFrom(db, ns, digest, chunks, format, k).0.None?
    ensures var start := if BATCH_SIZE * k < |chunks| then BATCH_SIZE * k else |chunks|;
            InsertFrom(db, ns, digest, chunks, format, k).1.tables
              == db.tables[ChunksTable(ns) := db.tables[ChunksTable(ns)] + RowsOf(digest, chunks[start..], format)]
    decreases NumBatches(|chunks|) - k
  {
    var start := if BATCH_SIZE * k < |chunks| then BATCH_SIZE * k else |chunks|;
    var t := ChunksTable(ns);
    if k == NumBatches(|chunks|) {
      assert chunks[start..] == [];
      assert db.tables[t] + [] == db.tables[t];
      assert db.tables[t := db.tables[t]] == db.tables;
    } else {
      var db1 := Exec(db, BatchStatement(ns, digest, chunks, format, k)).1;
      InsertFromStep(db, ns, digest, chunks, format, k);
      BatchRows(db, ns, digest, chunks, format, k);
      InsertFromRows(db1, ns, digest, chunks, format, k + 1);
      CombineRows(db.tables, db1.tables, InsertFrom(db1, ns, digest, chunks, format, k + 1).1.tables, t, digest, chunks, format, k);
    }
  }

  /** Batch `k`'s rows followed by the rows from batch `k + 1` on are the rows from batch `k` on. */
  lemma CombineRows(m: map<string, seq<Row>>, m1: map<string, seq<Row>>, m2: map<string, seq<Row>>, t: string,
                    digest: string, chunks: seq<ChunkData>, format: seq<real> -> string, k: nat)
    requires k < NumBatches(|chunks|) && t in m
    requires m1 == m[t := m[t] + RowsOf(digest, Batch(chunks, k), format)]
    requires var next := if BATCH_SIZE * (k + 1) < |chunks| then BATCH_SIZE * (k + 1) else |chunks|;
             m2 == m1[t := m1[t] + RowsOf(digest, chunks[next..], format)]
    ensures var start := if BATCH_SIZE * k < |chunks| then BATCH_SIZE * k else |chunks|;
            m2 == m[t := m[t] + RowsOf(digest, chunks[start..], format)]
  {
    var start := if BATCH_SIZE * k < |chunks| then BATCH_SIZE * k else |chunks|;
    var next := if BATCH_SIZE * (k + 1) < |chunks| then BATCH_SIZE * (k + 1) else |chunks|;
    var r1 := RowsOf(digest, Batch(chunks, k), format);
    var r2 := RowsOf(digest, chunks[next..], format);
    BatchSplit(chunks, k);
    RowsOfAppend(digest, Batch(chunks, k), chunks[next..], format);
    UpdateTwice(m, t, m[t] + r1, r2);
    assert m[t] + r1 + r2 == m[t] + RowsOf(digest, chunks[start..], format);
  }

  /** The chunks from batch `k` on are batch `k` followed by the chunks from batch `k + 1` on. */
  lemma BatchSplit(chunks: seq<ChunkData>, k: nat)
    requires k < NumBatches(|chunks|)
    ensures var start := if BATCH_SIZE * k < |chunks| then BATCH_SIZE * k else |chunks|;
            var next := if BATCH_SIZE * (k + 1) < |chunks| then BATCH_SIZE * (k + 1) else |chunks|;
            chunks[start..] == Batch(chunks, k) + chunks[next..]
  {
    var b := Batch(chunks, k);
    var next := if BATCH_SIZE * (k + 1) < |chunks| then BATCH_SIZE * (k + 1) else |chunks|;
    assert next == BATCH_SIZE * k + |b|;
  }

  /** A successful run from batch `k` executes batch `k` and then runs from `k + 1`. */
  lemma InsertFromStep(db: Db, ns: string, digest: string, chunks: seq<ChunkData>, format: seq<real> -> string, k: nat)
    requires k < NumBatches(|chunks|) && InsertFrom(db, ns, digest, chunks, format, k).0.None?
    ensures var (e, db1) := Exec(db, BatchStatement(ns, digest, chunks, format, k));
            e.None? && InsertFrom(db, ns, digest, chunks, format, k) == InsertFrom(db1, ns, digest, chunks, format, k + 1)
  {
  }

  lemma UpdateTwice(m: map<string, seq<Row>>, t: string, a: seq<Row>, b: seq<Row>)
    ensures m[t := a][t := m[t := a][t] + b] == m[t := a + b]
  {
  }

  /** A successful `InsertChunksBatch` adds exactly one row per chunk, in input order, to the
      namespace's chunks table and changes nothing else; an empty input changes nothing. */
  lemma InsertAddsEveryChunk(db: Db, ns: string, digest: string, chunks: seq<ChunkData>, format: seq<real> -> string)
    requires ChunksTable(ns) in db.tables
    requires InsertOutcome(db, ns, digest, chunks, format).0.None?
    ensures var db' := InsertOutcome(db, ns, digest, chunks, format).1;
            db'.tables == db.tables[ChunksTable(ns) := db.tables[ChunksTable(ns)] + RowsOf(digest, chunks, format)]
            && |db'.tables[ChunksTable(ns)]| == |db.tables[ChunksTable(ns)]| + |chunks|
  {
    if chunks == [] {
      var t := ChunksTable(ns);
      assert db.tables[t] + [] == db.tables[t];
      assert db.tables[t := db.tables[t]] == db.tables;
    } else {
      InsertFromRows(db, ns, digest, chunks, format, 0);
      assert chunks[0..] == chunks;
    }
  }

  /** Without the chunks table the first batch fails, wrapped with its starting index 0,
      and nothing changes. */
  lemma InsertWithoutTable(db: Db, ns: string, digest: string, chunks: seq<ChunkData>, format: seq<real> -> string)
    requires chunks != [] && ChunksTable(ns) !in db.tables
    ensures var (e, db') := InsertOutcome(db, ns, digest, chunks, format);
            db' == db && e.Some? && e.value.Wrapped?
            && e.value.context == "failed to batch insert chunks (batch starting at 0)"
  {
    assert Text.NatToString(0) == "0";
  }
}
