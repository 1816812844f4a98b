// VectorFS: documents stored per namespace, seen as `/<namespace>/docs/<name>`,
// with a virtual `/<namespace>/.indexing` file reporting the documents whose
// chunks are still being indexed, and `/README` at the root. The object
// storage, the vector database, the document preparation step, the digest,
// `filepath.Clean` and the range read helper are parameters (`Services`); the
// clock, the order in which Go ranges over the task map and the rendering of
// elapsed durations are the parameter `Env`. What the model keeps is the path
// parsing, the routing of every operation with its error cases and
// permission bits, the indexing-status table the plugin updates in place, and
// the grouping loop of the documents listing.
module VectorFs {
  import opened Wrappers
  import opened Packing
  import opened GoFs
  import Text

  const PLUGIN_NAME := "vectorfs"

  // ---------------------------------------------------------------------------------------
  // The indexing status table

  /** A document being indexed: its name and the instant indexing was queued. */
  datatype TaskInfo = TaskInfo(fileName: string, startTime: int)

  /** namespace -> (digest -> task) */
  type Status = map<string, map<string, TaskInfo>>

  /** The tasks of a namespace; a namespace without an entry has none. */
  function TasksOf(m: Status, ns: string): map<string, TaskInfo>
  {
    if ns in m then m[ns] else map[]
  }

  /** No namespace is kept with an empty task map. */
  predicate NoEmptyNamespaces(m: Status)
  {
    forall ns :: ns in m ==> |m[ns]| > 0
  }

  /** `addIndexingTask`: the namespace's map is created on demand and the task is keyed by
      its digest, replacing any task with the same digest. */
  function AddedTask(m: Status, ns: string, digest: string, info: TaskInfo): Status
  {
    m[ns := TasksOf(m, ns)[digest := info]]
  }

  /** `removeIndexingTask`: the digest is deleted and a namespace left without tasks is
      dropped. */
  function RemovedTask(m: Status, ns: string, digest: string): Status
  {
    if ns in m then
      var rest := m[ns] - {digest};
      if |rest| == 0 then m - {ns} else m[ns := rest]
    else m
  }

  /** Adding registers the task under its digest and touches no other namespace; the
      namespace then has one more task unless the digest was already there. */
  lemma AddedTaskRegisters(m: Status, ns: string, digest: string, info: TaskInfo, other: string)
    ensures digest in TasksOf(AddedTask(m, ns, digest, info), ns)
            && TasksOf(AddedTask(m, ns, digest, info), ns)[digest] == info
    ensures |TasksOf(AddedTask(m, ns, digest, info), ns)|
            == |TasksOf(m, ns)| + (if digest in TasksOf(m, ns) then 0 else 1)
    ensures other != ns ==> TasksOf(AddedTask(m, ns, digest, info), other) == TasksOf(m, other)
  {
    var tasks := TasksOf(m, ns);
    if digest in tasks {
      assert tasks[digest := info].Keys == tasks.Keys;
    } else {
      assert tasks[digest := info].Keys == tasks.Keys + {digest};
    }
  }

  /** Adding keeps every namespace non-empty. */
  lemma AddedTaskKeepsInvariant(m: Status, ns: string, digest: string, info: TaskInfo)
    requires NoEmptyNamespaces(m)
    ensures NoEmptyNamespaces(AddedTask(m, ns, digest, info))
  {
    assert digest in TasksOf(m, ns)[digest := info];
  }

  /** Removing forgets the digest and touches no other namespace. */
  lemma RemovedTaskForgets(m: Status, ns: string, digest: string, other: string)
    ensures digest !in TasksOf(RemovedTask(m, ns, digest), ns)
    ensures TasksOf(RemovedTask(m, ns, digest), ns) == TasksOf(m, ns) - {digest}
    ensures other != ns ==> TasksOf(RemovedTask(m, ns, digest), other) == TasksOf(m, other)
  {
    var r := RemovedTask(m, ns, digest);
    if ns in m {
      var rest := m[ns] - {digest};
      if |rest| == 0 {
        assert rest == map[];
        assert r == m - {ns} && ns !in r;
      } else {
        assert r == m[ns := rest] && r[ns] == rest;
      }
    } else {
      assert TasksOf(m, ns) - {digest} == map[];
    }
  }

  /** Removing never leaves an empty namespace behind. */
  lemma RemovedTaskKeepsInvariant(m: Status, ns: string, digest: string)
    requires NoEmptyNamespaces(m)
    ensures NoEmptyNamespaces(RemovedTask(m, ns, digest))
  {
  }

  /** Removing a task just added for a new digest gives back the table as it was. */
  lemma AddThenRemove(m: Status, ns: string, digest: string, info: TaskInfo)
    requires NoEmptyNamespaces(m) && digest !in TasksOf(m, ns)
    ensures RemovedTask(AddedTask(m, ns, digest, info), ns, digest) == m
  {
    var tasks := TasksOf(m, ns);
    var added := m[ns := tasks[digest := info]];
    var rest := tasks[digest := info] - {digest};
    assert rest == tasks;
    if ns in m {
      assert |rest| > 0;
      PutBack(m, ns, tasks[digest := info]);
    } else {
      assert |rest| == 0;
      AddedThenDropped(m, ns, tasks[digest := info]);
    }
  }

  lemma PutBack(m: Status, ns: string, v: map<string, TaskInfo>)
    requires ns in m
    ensures m[ns := v][ns := m[ns]] == m
  {
  }

  lemma AddedThenDropped(m: Status, ns: string, v: map<string, TaskInfo>)
    requires ns !in m
    ensures m[ns := v] - {ns} == m
  {
  }

  // ---------------------------------------------------------------------------------------
  // The status text

  /** The clock, the order in which ranging over a task map visits its digests, and the
      rendering of an elapsed time rounded to the second. */
  datatype Env = Env(now: int, order: seq<string>, showDuration: int -> string)

  /** `order` visits every digest of `tasks` exactly once, as a range over the map does. */
  predicate Enumerates(order: seq<string>, tasks: map<string, TaskInfo>)
  {
    (forall k :: 0 <= k < |order| ==> order[k] in tasks)
    && (forall d :: d in tasks ==> d in order)
    && (forall j, k :: 0 <= j < k < |order| ==> order[j] != order[k])
  }

  function StatusHeader(n: nat): string
  {
    "indexing " + Text.NatToString(n) + " file(s):\n"
  }

  function TaskLine(info: TaskInfo, env: Env): string
  {
    "  - " + info.fileName + " (" + env.showDuration(env.now - info.startTime) + ")\n"
  }

  /** The lines for the first `n` digests of the iteration order. */
  function TaskLines(tasks: map<string, TaskInfo>, env: Env, n: nat): string
    requires n <= |env.order|
    decreases n
  {
    if n == 0 then ""
    else
      var d := env.order[n - 1];
      TaskLines(tasks, env, n - 1) + (if d in tasks then TaskLine(tasks[d], env) else "")
  }

  /** `getIndexingStatus`: "idle" for a namespace without tasks, otherwise a header with the
      number of tasks followed by one line per task. */
  function IndexingStatus(m: Status, ns: string, env: Env): string
  {
    var tasks := TasksOf(m, ns);
    if |tasks| == 0 then "idle"
    else StatusHeader(|tasks|) + TaskLines(tasks, env, |env.order|)
  }

  /** The status is "idle" exactly when the namespace has no task; otherwise it starts with
      the number of distinct digests. */
  lemma StatusIdleIffNoTasks(m: Status, ns: string, env: Env)
    ensures IndexingStatus(m, ns, env) == "idle" <==> |TasksOf(m, ns)| == 0
    ensures |TasksOf(m, ns)| > 0 ==>
              Text.StartsWith(IndexingStatus(m, ns, env), StatusHeader(|TasksOf(m, ns)|))
  {
    var tasks := TasksOf(m, ns);
    if |tasks| > 0 {
      var s := IndexingStatus(m, ns, env);
      var h := StatusHeader(|tasks|);
      assert s == h + TaskLines(tasks, env, |env.order|);
      assert s[..|h|] == h;
      assert s[1] == 'n';
    }
  }

  /** Every line of the first `n` visited digests occurs in their text. */
  lemma {:induction false} TaskLinesContain(tasks: map<string, TaskInfo>, env: Env, n: nat, k: nat)
    requires k < n <= |env.order| && env.order[k] in tasks
    ensures Text.Contains(TaskLines(tasks, env, n), TaskLine(tasks[env.order[k]], env))
    decreases n
  {
    var line := TaskLine(tasks[env.order[k]], env);
    var prev := TaskLines(tasks, env, n - 1);
    var d := env.order[n - 1];
    var step := if d in tasks then TaskLine(tasks[d], env) else "";
    assert TaskLines(tasks, env, n) == prev + step;
    if k == n - 1 {
      ContainsEnd(prev, line);
    } else {
      TaskLinesContain(tasks, env, n - 1, k);
      ContainsBefore(prev, step, line);
    }
  }

  /** A text contains its own ending ... */
  lemma ContainsEnd(a: string, b: string)
    ensures Text.Contains(a + b, b)
  {
    assert (a + b)[|a|..|a| + |b|] == b;
    assert Text.OccursAt(a + b, b, |a|);
  }

  /** ... and whatever its beginning contains. */
  lemma ContainsBefore(a: string, b: string, pat: string)
    requires Text.Contains(a, pat)
    ensures Text.Contains(a + b, pat)
  {
    var i :| 0 <= i <= |a| - |pat| && Text.OccursAt(a, pat, i);
    assert (a + b)[i..i + |pat|] == a[i..i + |pat|];
    assert Text.OccursAt(a + b, pat, i);
  }

  /** With a genuine iteration order, the status names every file being indexed. */
  lemma StatusNamesEveryTask(m: Status, ns: string, env: Env, digest: string)
    requires digest in TasksOf(m, ns) && Enumerates(env.order, TasksOf(m, ns))
    ensures Text.Contains(IndexingStatus(m, ns, env), TaskLine(TasksOf(m, ns)[digest], env))
  {
    var tasks := TasksOf(m, ns);
    var k :| 0 <= k < |env.order| && env.order[k] == digest;
    TaskLinesContain(tasks, env, |env.order|, k);
    var h := StatusHeader(|tasks|);
    var body := TaskLines(tasks, env, |env.order|);
    var line := TaskLine(tasks[digest], env);
    ContainsAfter(h, body, line);
  }

  /** Text found in `b` is found in `a + b`. */
  lemma ContainsAfter(a: string, b: string, pat: string)
    requires Text.Contains(b, pat)
    ensures Text.Contains(a + b, pat)
  {
    var i :| 0 <= i <= |b| - |pat| && Text.OccursAt(b, pat, i);
    assert (a + b)[|a| + i..|a| + i + |pat|] == b[i..i + |pat|];
    assert Text.OccursAt(a + b, pat, |a| + i);
  }

  // ---------------------------------------------------------------------------------------
  // Paths

  /** `parsePath` after `filepath.Clean`: one leading `/` is dropped; the empty path and "."
      are the root; otherwise the text up to the first `/` is the namespace and the rest is
      the path inside it. */
  function ParseCleaned(p: string): (r: (string, string))
  {
    var q := Text.TrimPrefix(p, "/");
    if q == "" || q == "." then ("", "")
    else
      var i := Text.IndexOfChar(q, '/');
      if i < 0 then (q, "") else (q[..i], q[i + 1..])
  }

  /** The namespace never holds a `/`; below the root, the namespace and the relative path
      are the two sides of the first `/`. */
  lemma ParseCleanedSplits(p: string)
    ensures '/' !in ParseCleaned(p).0
    ensures var q := Text.TrimPrefix(p, "/");
            var (ns, rel) := ParseCleaned(p);
            q != "" && q != "." ==>
              (if '/' in q then q == ns + "/" + rel else q == ns && rel == "")
  {
    var q := Text.TrimPrefix(p, "/");
    if q != "" && q != "." {
      var i := Text.IndexOfChar(q, '/');
      if i >= 0 {
        assert q == q[..i] + "/" + q[i + 1..];
      }
    }
  }

  /** A namespace path and a path inside a namespace parse back to their parts. */
  lemma ParseNamespacePath(ns: string, rel: string)
    requires ns != "" && ns != "." && '/' !in ns
    ensures ParseCleaned("/" + ns) == (ns, "")
    ensures ParseCleaned("/" + ns + "/" + rel) == (ns, rel)
  {
    assert Text.TrimPrefix("/" + ns, "/") == ns by {
      assert ("/" + ns)[..1] == "/";
    }
    var q := ns + "/" + rel;
    assert "/" + ns + "/" + rel == "/" + q;
    assert Text.TrimPrefix("/" + q, "/") == q by {
      assert ("/" + q)[..1] == "/";
    }
    assert q[|ns|] == '/';
    assert q[..|ns|] == ns;
    assert Text.IndexOfChar(q, '/') == |ns|;
    assert q[|ns| + 1..] == rel;
  }

  /** A path below a namespace is neither the root nor `/README`. */
  lemma Beneath(ns: string, rest: string)
    requires ns != "" && '/' !in ns
    ensures "/" + ns + "/" + rest != "/" && "/" + ns + "/" + rest != "/README"
  {
    var p := "/" + ns + "/" + rest;
    assert p[|ns| + 1] == '/';
    assert forall i :: 1 <= i < 7 ==> "/README"[i] != '/';
  }

  /** `filepath.Base`: the last element of a path after trailing slashes are removed; "." for
      the empty path and "/" for a path of slashes only. */
  function Base(p: string): (r: string)
    ensures p != "" && '/' !in p ==> r == p
  {
    if p == "" then "."
    else
      var q := TrimTrailingSlashes(p);
      if q == "" then "/" else q[LastSlash(q) + 1..]
  }

  function TrimTrailingSlashes(p: string): (r: string)
    ensures |r| <= |p| && r == p[..|r|]
    ensures '/' !in p ==> r == p
  {
    if p != "" && p[|p| - 1] == '/' then TrimTrailingSlashes(p[..|p| - 1]) else p
  }

  /** The position of the last `/`, or -1. */
  function LastSlash(p: string): (r: int)
    ensures -1 <= r < |p|
    ensures r >= 0 ==> p[r] == '/'
    ensures '/' !in p ==> r == -1
    ensures forall i :: r < i < |p| ==> p[i] != '/'
  {
    if p == "" then -1
    else if p[|p| - 1] == '/' then |p| - 1
    else LastSlash(p[..|p| - 1])
  }

  // ---------------------------------------------------------------------------------------
  // Services

  /** A row of the metadata table. */
  datatype FileMetadata = FileMetadata(fileDigest: string, fileName: string, fileSize: int, updatedAt: int)

  /** The plugin's collaborators: `filepath.Clean`, the README text, the range read helper,
      the conversion of text to bytes, the vector database (namespaces and file metadata),
      the object store (`download`), the indexer's synchronous preparation step (which
      answers whether the same content is already stored) and the SHA-256 hex digest. */
  datatype Services = Services(
    clean: string -> string,
    readme: string,
    rangeRead: (seq<Byte>, int, int) -> Result<seq<Byte>, GoError>,
    encode: string -> seq<Byte>,
    listNamespaces: Result<seq<string>, GoError>,
    namespaceExists: string -> Result<bool, GoError>,
    createNamespace: string -> Option<GoError>,
    deleteNamespace: string -> Option<GoError>,
    fileMetadata: (string, string) -> Result<FileMetadata, GoError>,
    download: (string, string) -> Result<seq<Byte>, GoError>,
    listFiles: string -> Result<seq<FileMetadata>, GoError>,
    listFilesWithPrefix: (string, string) -> Result<seq<FileMetadata>, GoError>,
    hasFilesWithPrefix: (string, string) -> Result<bool, GoError>,
    prepareDocument: (string, string, string, string) -> Result<bool, GoError>,
    digest: string -> string)

  function ParsePath(s: Services, path: string): (string, string)
  {
    ParseCleaned(s.clean(path))
  }

  // ---------------------------------------------------------------------------------------
  // Read

  /** `Read`: `/README`, a namespace's `.indexing` status, or a document under `docs/`
      fetched by the digest its metadata names. */
  function Read(s: Services, m: Status, env: Env, path: string, offset: int, size: int): (r: Result<seq<Byte>, GoError>)
  {
    if path == "/README" then s.rangeRead(s.encode(s.readme), offset, size)
    else
      var (ns, rel) := ParsePath(s, path);
      if rel == ".indexing" then Ok(s.encode(IndexingStatus(m, ns, env)))
      else if !Text.StartsWith(rel, "docs/") then Err(Failure("can only read files from docs/ directory"))
      else
        var fileName := Text.TrimPrefix(rel, "docs/");
        if fileName == "" || fileName == "/" then Err(Failure("cannot read directory, specify a file"))
        else match s.fileMetadata(ns, fileName)
          case Err(e) => Err(Wrapped("failed to get file metadata", e))
          case Ok(meta) =>
            match s.download(ns, meta.fileDigest)
            case Err(e) => Err(Wrapped("failed to download document from S3", e))
            case Ok(data) => s.rangeRead(data, offset, size)
  }

  /** Only `/README`, `.indexing` files and documents are readable; the `.indexing` file is
      the status text itself, unaffected by the requested range. */
  lemma ReadRouting(s: Services, m: Status, env: Env, path: string, offset: int, size: int)
    requires path != "/README"
    ensures var (ns, rel) := ParsePath(s, path);
            (rel == ".indexing" ==> Read(s, m, env, path, offset, size) == Ok(s.encode(IndexingStatus(m, ns, env))))
            && (rel != ".indexing" && !Text.StartsWith(rel, "docs/") ==>
                  Read(s, m, env, path, offset, size) == Err(Failure("can only read files from docs/ directory")))
            && (rel == "docs/" ==>
                  Read(s, m, env, path, offset, size) == Err(Failure("cannot read directory, specify a file")))
  {
    var (ns, rel) := ParsePath(s, path);
    if rel == "docs/" {
      assert Text.TrimPrefix(rel, "docs/") == "";
    }
  }

  /** A document is read from the object named by its metadata's digest. */
  lemma ReadDocument(s: Services, m: Status, env: Env, ns: string, name: string, offset: int, size: int)
    requires ns != "" && ns != "." && '/' !in ns && name != "" && name != "/"
    requires s.clean("/" + ns + "/docs/" + name) == "/" + ns + "/docs/" + name
    requires s.fileMetadata(ns, name).Ok? && s.download(ns, s.fileMetadata(ns, name).value.fileDigest).Ok?
    ensures Read(s, m, env, "/" + ns + "/docs/" + name, offset, size)
            == s.rangeRead(s.download(ns, s.fileMetadata(ns, name).value.fileDigest).value, offset, size)
  {
    var rel := "docs/" + name;
    assert "/" + ns + "/docs/" + name == "/" + ns + "/" + rel;
    ParseNamespacePath(ns, rel);
    assert Text.StartsWith(rel, "docs/") by { assert rel[..5] == "docs/"; }
    assert Text.TrimPrefix(rel, "docs/") == name;
    assert rel[0] == 'd' && ".indexing"[0] == '.';
    Beneath(ns, rel);
  }

  // ---------------------------------------------------------------------------------------
  // Stat

  function ReadmeInfo(s: Services, now: int): FileInfo
  {
    FileInfo("README", |s.readme|, MODE_0444, now, false, Meta(PLUGIN_NAME, "doc"))
  }

  function DocsInfo(now: int): FileInfo
  {
    FileInfo("docs", 0, MODE_0755, now, true, Meta(PLUGIN_NAME, "docs"))
  }

  function IndexingInfo(m: Status, ns: string, env: Env): FileInfo
  {
    FileInfo(".indexing", |IndexingStatus(m, ns, env)|, MODE_0444, env.now, false, Meta(PLUGIN_NAME, "status"))
  }

  function NamespaceInfo(ns: string, now: int): FileInfo
  {
    FileInfo(ns, 0, MODE_0755, now, true, Meta(PLUGIN_NAME, "namespace"))
  }

  /** A document listed or found by name: its stored size and update time, mode 0644. */
  function DocumentInfo(name: string, meta: FileMetadata): FileInfo
  {
    FileInfo(name, meta.fileSize, MODE_0644, meta.updatedAt, false, Meta(PLUGIN_NAME, "document"))
  }

  /** A directory under `docs/`, virtual: it exists because some document name runs through it. */
  function SubdirInfo(name: string, now: int): FileInfo
  {
    FileInfo(name, 0, MODE_0755, now, true, Meta(PLUGIN_NAME, "directory"))
  }

  /** `Stat`: the root, `/README`, an existing namespace, its `docs` directory and
      `.indexing` file, and under `docs/` a document by exact name or else a directory that
      some document name passes through. */
  function Stat(s: Services, m: Status, env: Env, path: string): (r: Result<FileInfo, GoError>)
  {
    if path == "/" then Ok(FileInfo("/", 0, MODE_0755, env.now, true, Meta(PLUGIN_NAME, "root")))
    else if path == "/README" then Ok(ReadmeInfo(s, env.now))
    else
      var (ns, rel) := ParsePath(s, path);
      if rel == "" then
        match s.namespaceExists(ns)
        case Ok(true) => Ok(NamespaceInfo(ns, env.now))
        case _ => Err(ErrNotFound)
      else if rel == "docs" then Ok(DocsInfo(env.now))
      else if rel == ".indexing" then Ok(IndexingInfo(m, ns, env))
      else if Text.StartsWith(rel, "docs/") then
        var fileName := Text.TrimPrefix(rel, "docs/");
        if fileName == "" then Err(ErrNotFound)
        else match s.fileMetadata(ns, fileName)
          case Ok(meta) => Ok(DocumentInfo(Base(fileName), meta))
          case Err(_) =>
            match s.hasFilesWithPrefix(ns, fileName + "/")
            case Err(e) => Err(e)
            case Ok(true) => Ok(SubdirInfo(Base(fileName), env.now))
            case Ok(false) => Err(ErrNotFound)
      else Err(ErrNotFound)
  }

  /** A namespace exists for `Stat` only when the database says so; a lookup failure reads
      as not found. */
  lemma StatNamespace(s: Services, m: Status, env: Env, ns: string)
    requires ns != "" && ns != "." && ns != "README" && '/' !in ns && s.clean("/" + ns) == "/" + ns
    ensures Stat(s, m, env, "/" + ns).Ok? <==> s.namespaceExists(ns) == Ok(true)
    ensures Stat(s, m, env, "/" + ns).Err? ==> Stat(s, m, env, "/" + ns).error == ErrNotFound
  {
    ParseNamespacePath(ns, "");
    assert "/" + ns != "/";
    assert "/" + ns != "/README" by {
      assert ("/" + ns)[1..] == ns;
      assert "/README"[1..] == "README";
    }
  }

  /** The size `Stat` reports for `.indexing` is the length of what reading it returns. */
  lemma IndexingSizeMatchesRead(s: Services, m: Status, env: Env, ns: string)
    requires ns != "" && ns != "." && '/' !in ns
    requires s.clean("/" + ns + "/.indexing") == "/" + ns + "/.indexing"
    requires forall t :: |s.encode(t)| == |t|
    ensures Stat(s, m, env, "/" + ns + "/.indexing") == Ok(IndexingInfo(m, ns, env))
    ensures Read(s, m, env, "/" + ns + "/.indexing", 0, -1).Ok?
            && |Read(s, m, env, "/" + ns + "/.indexing", 0, -1).value|
               == Stat(s, m, env, "/" + ns + "/.indexing").value.size
  {
    var path := "/" + ns + "/.indexing";
    assert path == "/" + ns + "/" + ".indexing";
    ParseNamespacePath(ns, ".indexing");
    Beneath(ns, ".indexing");
  }

  // ---------------------------------------------------------------------------------------
  // ReadDir

  /** The root's entries: `README`, then one directory per namespace in the database's order. */
  function RootEntries(s: Services, names: seq<string>, now: int, n: nat): (r: seq<FileInfo>)
    requires n <= |names|
    ensures |r| == n + 1 && r[0] == ReadmeInfo(s, now)
    ensures forall k :: 0 <= k < n ==> r[k + 1] == NamespaceInfo(names[k], now)
    decreases n
  {
    if n == 0 then [ReadmeInfo(s, now)]
    else RootEntries(s, names, now, n - 1) + [NamespaceInfo(names[n - 1], now)]
  }

  /** A stored name relative to the listed directory. */
  function RelName(f: FileMetadata, subPrefix: string): string
  {
    if subPrefix != "" then Text.TrimPrefix(f.fileName, subPrefix) else f.fileName
  }

  /** The directory a relative name runs through, when it holds a `/`. */
  function FirstDir(name: string): string
    requires '/' in name
  {
    name[..Text.IndexOfChar(name, '/')]
  }

  /** The listing of the first `n` stored files and the directory names met so far: a name
      with a `/` contributes its first component as a directory the first time it is met,
      any other name is a document. */
  function DocsScan(files: seq<FileMetadata>, subPrefix: string, now: int, n: nat): (r: (seq<FileInfo>, set<string>))
    requires n <= |files|
    decreases n
  {
    if n == 0 then ([], {})
    else ScanStep(DocsScan(files, subPrefix, now, n - 1), RelName(files[n - 1], subPrefix), files[n - 1], now)
  }

  /** One stored file added to the listing. */
  function ScanStep(prev: (seq<FileInfo>, set<string>), name: string, f: FileMetadata, now: int): (seq<FileInfo>, set<string>)
  {
    if '/' in name then
      var dir := FirstDir(name);
      if dir in prev.1 then prev else (prev.0 + [SubdirInfo(dir, now)], prev.1 + {dir})
    else (prev.0 + [DocumentInfo(name, f)], prev.1)
  }

  /** The step only appends entries. */
  lemma ScanStepGrows(prev: (seq<FileInfo>, set<string>), name: string, f: FileMetadata, now: int, e: FileInfo)
    requires e in prev.0
    ensures e in ScanStep(prev, name, f, now).0
  {
  }

  /** The directories met are exactly the directory entries. */
  predicate SeenExactly(r: (seq<FileInfo>, set<string>), now: int)
  {
    (forall i :: 0 <= i < |r.0| && r.0[i].isDir ==> r.0[i].name in r.1)
    && (forall d :: d in r.1 ==> SubdirInfo(d, now) in r.0)
  }

  /** No two directory entries share a name. */
  predicate DirsDistinct(entries: seq<FileInfo>)
  {
    forall i, j :: 0 <= i < j < |entries| && entries[i].isDir && entries[j].isDir ==>
      entries[i].name != entries[j].name
  }

  lemma {:induction false} DocsScanSeen(files: seq<FileMetadata>, subPrefix: string, now: int, n: nat)
    requires n <= |files|
    ensures SeenExactly(DocsScan(files, subPrefix, now, n), now)
    decreases n
  {
    if n > 0 {
      DocsScanSeen(files, subPrefix, now, n - 1);
      ScanStepSeen(DocsScan(files, subPrefix, now, n - 1), RelName(files[n - 1], subPrefix), files[n - 1], now);
    }
  }

  lemma ScanStepSeen(prev: (seq<FileInfo>, set<string>), name: string, f: FileMetadata, now: int)
    requires SeenExactly(prev, now)
    ensures SeenExactly(ScanStep(prev, name, f, now), now)
  {
    var r := ScanStep(prev, name, f, now);
    if '/' in name && FirstDir(name) !in prev.1 {
      var dir := FirstDir(name);
      assert r == (prev.0 + [SubdirInfo(dir, now)], prev.1 + {dir});
      forall i | 0 <= i < |r.0| && r.0[i].isDir ensures r.0[i].name in r.1 {
        if i < |prev.0| { assert r.0[i] == prev.0[i]; }
      }
      forall d | d in r.1 ensures SubdirInfo(d, now) in r.0 {
        if d != dir { assert SubdirInfo(d, now) in prev.0; }
      }
    } else if '/' !in name {
      assert r == (prev.0 + [DocumentInfo(name, f)], prev.1);
      forall i | 0 <= i < |r.0| && r.0[i].isDir ensures r.0[i].name in r.1 {
        if i < |prev.0| { assert r.0[i] == prev.0[i]; }
      }
    }
  }

  /** Appending an entry keeps directory names distinct when a new directory's name is not among
      the names already seen. */
  lemma AppendKeepsDirsDistinct(prev: seq<FileInfo>, seen: set<string>, e: FileInfo)
    requires DirsDistinct(prev)
    requires forall i :: 0 <= i < |prev| && prev[i].isDir ==> prev[i].name in seen
    requires e.isDir ==> e.name !in seen
    ensures DirsDistinct(prev + [e])
  {
    var entries := prev + [e];
    forall i, j | 0 <= i < j < |entries| && entries[i].isDir && entries[j].isDir
      ensures entries[i].name != entries[j].name
    {
      assert entries[i] == prev[i];
      if j < |prev| {
        assert entries[j] == prev[j];
      }
    }
  }

  /** No directory is listed twice. */
  lemma {:induction false} DocsScanDirsOnce(files: seq<FileMetadata>, subPrefix: string, now: int, n: nat)
    requires n <= |files|
    ensures DirsDistinct(DocsScan(files, subPrefix, now, n).0)
    decreases n
  {
    if n > 0 {
      DocsScanDirsOnce(files, subPrefix, now, n - 1);
      DocsScanSeen(files, subPrefix, now, n - 1);
      ScanStepDistinct(DocsScan(files, subPrefix, now, n - 1), RelName(files[n - 1], subPrefix), files[n - 1], now);
    }
  }

  lemma ScanStepDistinct(prev: (seq<FileInfo>, set<string>), name: string, f: FileMetadata, now: int)
    requires SeenExactly(prev, now) && DirsDistinct(prev.0)
    ensures DirsDistinct(ScanStep(prev, name, f, now).0)
  {
    if '/' in name && FirstDir(name) !in prev.1 {
      AppendKeepsDirsDistinct(prev.0, prev.1, SubdirInfo(FirstDir(name), now));
    } else if '/' !in name {
      AppendKeepsDirsDistinct(prev.0, prev.1, DocumentInfo(name, f));
    }
  }

  /** Every stored name with a `/` is represented by the directory of its first component. */
  lemma DocsScanCoversDirs(files: seq<FileMetadata>, subPrefix: string, now: int, n: nat, k: nat)
    requires k < n <= |files| && '/' in RelName(files[k], subPrefix)
    ensures SubdirInfo(FirstDir(RelName(files[k], subPrefix)), now) in DocsScan(files, subPrefix, now, n).0
  {
    var e := SubdirInfo(FirstDir(RelName(files[k], subPrefix)), now);
    DocsScanSeen(files, subPrefix, now, k);
    ScanStepSubdir(DocsScan(files, subPrefix, now, k), RelName(files[k], subPrefix), files[k], now);
    DocsScanPrefix(files, subPrefix, now, k + 1, n);
    PrefixKeeps(DocsScan(files, subPrefix, now, k + 1).0, DocsScan(files, subPrefix, now, n).0, e);
  }

  /** A name with a `/` has its first directory listed once the step is done. */
  lemma ScanStepSubdir(prev: (seq<FileInfo>, set<string>), name: string, f: FileMetadata, now: int)
    requires SeenExactly(prev, now) && '/' in name
    ensures SubdirInfo(FirstDir(name), now) in ScanStep(prev, name, f, now).0
  {
    var dir := FirstDir(name);
    if dir in prev.1 {
      assert SubdirInfo(dir, now) in prev.0;
    } else {
      assert ScanStep(prev, name, f, now).0 == prev.0 + [SubdirInfo(dir, now)];
    }
  }

  /** Every stored name without a `/` is listed as a document with its stored size. */
  lemma DocsScanFiles(files: seq<FileMetadata>, subPrefix: string, now: int, n: nat, k: nat)
    requires k < n <= |files| && '/' !in RelName(files[k], subPrefix)
    ensures DocumentInfo(RelName(files[k], subPrefix), files[k]) in DocsScan(files, subPrefix, now, n).0
  {
    var e := DocumentInfo(RelName(files[k], subPrefix), files[k]);
    ScanStepDocument(DocsScan(files, subPrefix, now, k), RelName(files[k], subPrefix), files[k], now);
    DocsScanPrefix(files, subPrefix, now, k + 1, n);
    PrefixKeeps(DocsScan(files, subPrefix, now, k + 1).0, DocsScan(files, subPrefix, now, n).0, e);
  }

  lemma PrefixKeeps(a: seq<FileInfo>, b: seq<FileInfo>, e: FileInfo)
    requires a <= b && e in a
    ensures e in b
  {
    var i :| 0 <= i < |a| && a[i] == e;
    assert b[i] == e;
  }

  /** The listing after `m` files begins the listing after `n`. */
  lemma {:induction false} DocsScanPrefix(files: seq<FileMetadata>, subPrefix: string, now: int, m: nat, n: nat)
    requires m <= n <= |files|
    ensures DocsScan(files, subPrefix, now, m).0 <= DocsScan(files, subPrefix, now, n).0
    decreases n
  {
    if m < n {
      DocsScanPrefix(files, subPrefix, now, m, n - 1);
      var prev := DocsScan(files, subPrefix, now, n - 1);
      ScanStepExtends(prev, RelName(files[n - 1], subPrefix), files[n - 1], now);
    }
  }

  lemma ScanStepExtends(prev: (seq<FileInfo>, set<string>), name: string, f: FileMetadata, now: int)
    ensures prev.0 <= ScanStep(prev, name, f, now).0
  {
  }

  /** A name without a `/` is listed as a document. */
  lemma ScanStepDocument(prev: (seq<FileInfo>, set<string>), name: string, f: FileMetadata, now: int)
    requires '/' !in name
    ensures DocumentInfo(name, f) in ScanStep(prev, name, f, now).0
  {
    assert ScanStep(prev, name, f, now).0 == prev.0 + [DocumentInfo(name, f)];
  }

  /** The sub-directory prefix of a `docs` path: empty for `docs` itself. */
  function SubPrefix(rel: string): string
  {
    if rel != "docs" then Text.TrimPrefix(rel, "docs/") + "/" else ""
  }

  /** `ReadDir`: the root lists `README` and the namespaces; a namespace lists `docs` and
      `.indexing`; `docs` and its sub-directories list the stored files grouped by their
      next path component; anything else is not a directory. */
  function ReadDirOutcome(s: Services, m: Status, env: Env, path: string): (r: Result<seq<FileInfo>, GoError>)
  {
    var (ns, rel) := ParsePath(s, path);
    if path == "/" || ns == "" then
      match s.listNamespaces
      case Err(e) => Err(e)
      case Ok(names) => Ok(RootEntries(s, names, env.now, |names|))
    else if rel == "" then Ok([DocsInfo(env.now), IndexingInfo(m, ns, env)])
    else if rel == "docs" || Text.StartsWith(rel, "docs/") then
      var subPrefix := SubPrefix(rel);
      var listed := if subPrefix != "" then s.listFilesWithPrefix(ns, subPrefix) else s.listFiles(ns);
      match listed
      case Err(e) => Err(e)
      case Ok(files) => Ok(DocsScan(files, subPrefix, env.now, |files|).0)
    else Err(Failure("not a directory"))
  }

  /** A namespace lists its `docs` directory and its `.indexing` file. */
  lemma NamespaceListing(s: Services, m: Status, env: Env, ns: string)
    requires ns != "" && ns != "." && '/' !in ns
    requires s.clean("/" + ns) == "/" + ns
    ensures ReadDirOutcome(s, m, env, "/" + ns) == Ok([DocsInfo(env.now), IndexingInfo(m, ns, env)])
  {
    ParseNamespacePath(ns, "");
    assert "/" + ns != "/" by { assert |"/" + ns| > 1; }
  }

  /** `Stat` of a namespace's `docs` gives the entry its listing shows. */
  lemma StatDocs(s: Services, m: Status, env: Env, ns: string)
    requires ns != "" && ns != "." && '/' !in ns
    requires s.clean("/" + ns + "/docs") == "/" + ns + "/docs"
    ensures Stat(s, m, env, "/" + ns + "/docs") == Ok(DocsInfo(env.now))
  {
    assert "/" + ns + "/docs" == "/" + ns + "/" + "docs";
    ParseNamespacePath(ns, "docs");
    Beneath(ns, "docs");
  }

  /** Each of the two entries is what `Stat` reports for it. */
  lemma NamespaceListingAgreesWithStat(s: Services, m: Status, env: Env, ns: string)
    requires ns != "" && ns != "." && '/' !in ns
    requires s.clean("/" + ns) == "/" + ns
    requires s.clean("/" + ns + "/docs") == "/" + ns + "/docs"
    requires s.clean("/" + ns + "/.indexing") == "/" + ns + "/.indexing"
    requires forall t :: |s.encode(t)| == |t|
    ensures ReadDirOutcome(s, m, env, "/" + ns).Ok? && |ReadDirOutcome(s, m, env, "/" + ns).value| == 2
    ensures Stat(s, m, env, "/" + ns + "/docs") == Ok(ReadDirOutcome(s, m, env, "/" + ns).value[0])
    ensures Stat(s, m, env, "/" + ns + "/.indexing") == Ok(ReadDirOutcome(s, m, env, "/" + ns).value[1])
  {
    NamespaceListing(s, m, env, ns);
    StatDocs(s, m, env, ns);
    IndexingSizeMatchesRead(s, m, env, ns);
  }

  /** The root listing starts with the entry `Stat` gives for `/README`. */
  lemma RootListingAgreesWithStat(s: Services, m: Status, env: Env)
    requires s.listNamespaces.Ok?
    ensures ReadDirOutcome(s, m, env, "/").Ok?
    ensures |ReadDirOutcome(s, m, env, "/").value| == |s.listNamespaces.value| + 1
    ensures Stat(s, m, env, "/README") == Ok(ReadDirOutcome(s, m, env, "/").value[0])
  {
  }

  /** The step in the terms of the loop: the first `/` found by its index. */
  lemma ScanStepByIndex(prev: (seq<FileInfo>, set<string>), name: string, f: FileMetadata, now: int)
    ensures var idx := Text.IndexOfChar(name, '/');
            ScanStep(prev, name, f, now)
              == if idx != -1 then
                   (if name[..idx] in prev.1 then prev else (prev.0 + [SubdirInfo(name[..idx], now)], prev.1 + {name[..idx]}))
                 else (prev.0 + [DocumentInfo(name, f)], prev.1)
  {
  }

  /** The listing loop of `ReadDir` for `docs`, with its `seenDirs` set. */
  method ListDocs(files: seq<FileMetadata>, subPrefix: string, now: int) returns (fileInfos: seq<FileInfo>)
    ensures fileInfos == DocsScan(files, subPrefix, now, |files|).0
  {
    var seenDirs: set<string> := {};
    fileInfos := [];
    var i := 0;
    while i < |files|
      invariant 0 <= i <= |files|
      invariant (fileInfos, seenDirs) == DocsScan(files, subPrefix, now, i)
    {
      fileInfos, seenDirs := AddFile(fileInfos, seenDirs, files[i], subPrefix, now);
      i := i + 1;
    }
  }

  /** One turn of the listing loop: a file under a sub-directory adds that directory the first
      time it is met, any other file adds its document entry. */
  method AddFile(fileInfos: seq<FileInfo>, seenDirs: set<string>, f: FileMetadata, subPrefix: string, now: int)
    returns (fileInfos': seq<FileInfo>, seenDirs': set<string>)
    ensures (fileInfos', seenDirs') == ScanStep((fileInfos, seenDirs), RelName(f, subPrefix), f, now)
  {
    var fileName := f.fileName;
    if subPrefix != "" {
      fileName := Text.TrimPrefix(fileName, subPrefix);
    }
    var idx := Text.IndexOfChar(fileName, '/');
    ScanStepByIndex((fileInfos, seenDirs), fileName, f, now);
    fileInfos', seenDirs' := fileInfos, seenDirs;
    if idx != -1 {
      var dirName := fileName[..idx];
      if dirName !in seenDirs {
        seenDirs' := seenDirs + {dirName};
        fileInfos' := fileInfos + [SubdirInfo(dirName, now)];
      }
    } else {
      fileInfos' := fileInfos + [DocumentInfo(fileName, f)];
    }
  }

  /** `ReadDir`, with the loops over the namespaces and over the stored files. */
  method ReadDir(s: Services, m: Status, env: Env, path: string) returns (r: Result<seq<FileInfo>, GoError>)
    ensures r == ReadDirOutcome(s, m, env, path)
  {
    var (ns, rel) := ParsePath(s, path);
    if path == "/" || ns == "" {
      var files := [ReadmeInfo(s, env.now)];
      if s.listNamespaces.Err? {
        return Err(s.listNamespaces.error);
      }
      var namespaces := s.listNamespaces.value;
      var i := 0;
      while i < |namespaces|
        invariant 0 <= i <= |namespaces|
        invariant files == RootEntries(s, namespaces, env.now, i)
      {
        files := files + [NamespaceInfo(namespaces[i], env.now)];
        i := i + 1;
      }
      return Ok(files);
    }
    if rel == "" {
      return Ok([DocsInfo(env.now), IndexingInfo(m, ns, env)]);
    }
    if rel == "docs" || Text.StartsWith(rel, "docs/") {
      var subPrefix := SubPrefix(rel);
      var listed := if subPrefix != "" then s.listFilesWithPrefix(ns, subPrefix) else s.listFiles(ns);
      if listed.Err? {
        return Err(listed.error);
      }
      var fileInfos := ListDocs(listed.value, subPrefix, env.now);
      return Ok(fileInfos);
    }
    r := Err(Failure("not a directory"));
  }

  // ---------------------------------------------------------------------------------------
  // Removal and the ignored operations

  /** `RemoveAll`: only a bare, non-empty namespace can be removed, by dropping its tables. */
  function RemoveAll(s: Services, path: string): (r: Option<GoError>)
  {
    var (ns, rel) := ParsePath(s, path);
    if rel != "" then Some(Failure("can only remove entire namespace, not subdirectories (path: " + path + ")"))
    else if ns == "" then Some(Failure("cannot remove root directory"))
    else s.deleteNamespace(ns)
  }

  /** Removal reaches the database for a bare namespace and for nothing else. */
  lemma RemoveAllOnlyNamespaces(s: Services, path: string)
    ensures var (ns, rel) := ParsePath(s, path);
            (rel == "" && ns != "" ==> RemoveAll(s, path) == s.deleteNamespace(ns))
            && (rel != "" || ns == "" ==> RemoveAll(s, path).Some?)
  {
  }

  function Remove(path: string): Option<GoError>
  {
    Some(Failure("remove not supported in vectorfs (use rm -r to delete entire namespace)"))
  }

  function Rename(oldPath: string, newPath: string): Option<GoError>
  {
    Some(Failure("rename not supported in vectorfs"))
  }

  function Chmod(path: string, mode: nat): Option<GoError> { None }

  function Truncate(path: string, size: int): Option<GoError> { None }

  /** `Remove` and `Rename` always fail; `Chmod` and `Truncate` are accepted and ignored. */
  lemma IgnoredOperations(path: string, other: string, mode: nat, size: int)
    ensures Remove(path).Some? && Rename(path, other).Some?
    ensures Chmod(path, mode).None? && Truncate(path, size).None?
  {
  }

  // ---------------------------------------------------------------------------------------
  // Write, Create and Mkdir

  /** The digest a write stores a document under: of the content, or for empty content of
      the relative path, so that empty documents do not collide. */
  function DocumentDigest(s: Services, rel: string, data: string): string
  {
    if |data| == 0 then s.digest("empty:" + rel) else s.digest(data)
  }

  /** What `Write` returns and the status table after it: documents are stored only under
      `docs/`; new content is registered as being indexed, content already stored is not. */
  function WriteOutcome(s: Services, m: Status, path: string, data: string, now: int): (r: (Result<int, GoError>, Status))
    ensures r.0.Ok? ==> r.0.value == |data|
  {
    var (ns, rel) := ParsePath(s, path);
    if !Text.StartsWith(rel, "docs/") then (Err(Failure("can only write files to docs/ directory")), m)
    else
      var digest := DocumentDigest(s, rel, data);
      var fileName := Text.TrimPrefix(rel, "docs/");
      match s.prepareDocument(ns, digest, fileName, data)
      case Err(e) => (Err(Wrapped("failed to prepare document", e)), m)
      case Ok(true) => (Ok(|data|), m)
      case Ok(false) => (Ok(|data|), AddedTask(m, ns, digest, TaskInfo(fileName, now)))
  }

  /** A write outside `docs/` or a failed preparation changes nothing; a write of new content
      registers exactly one task, under the document's digest and name. */
  lemma WriteRegistersNewContent(s: Services, m: Status, path: string, data: string, now: int)
    ensures var (ns, rel) := ParsePath(s, path);
            var (r, m') := WriteOutcome(s, m, path, data, now);
            (r.Err? ==> m' == m)
            && (Text.StartsWith(rel, "docs/")
                && s.prepareDocument(ns, DocumentDigest(s, rel, data), Text.TrimPrefix(rel, "docs/"), data) == Ok(false) ==>
                  m' == AddedTask(m, ns, DocumentDigest(s, rel, data), TaskInfo(Text.TrimPrefix(rel, "docs/"), now)))
            && (NoEmptyNamespaces(m) ==> NoEmptyNamespaces(m'))
  {
    var (ns, rel) := ParsePath(s, path);
    var digest := DocumentDigest(s, rel, data);
    var fileName := Text.TrimPrefix(rel, "docs/");
    if Text.StartsWith(rel, "docs/") {
      match s.prepareDocument(ns, digest, fileName, data)
      case Err(e) =>
        assert WriteOutcome(s, m, path, data, now).1 == m;
      case Ok(b) =>
        assert WriteOutcome(s, m, path, data, now).0.Ok?;
    } else {
      assert WriteOutcome(s, m, path, data, now).1 == m;
    }
    if NoEmptyNamespaces(m) {
      AddedTaskKeepsInvariant(m, ns, digest, TaskInfo(Text.TrimPrefix(rel, "docs/"), now));
    }
  }

  /** What `Mkdir` returns and the status table after it: a directory under `docs/` is made
      visible by writing an empty `.keep` document into it; a bare namespace is created in
      the database. */
  function MkdirOutcome(s: Services, m: Status, path: string, now: int): (r: (Option<GoError>, Status))
  {
    var (ns, rel) := ParsePath(s, path);
    if rel != "" then
      if Text.StartsWith(rel, "docs/") then
        var dirName := Text.TrimPrefix(rel, "docs/");
        var (w, m') := WriteOutcome(s, m, path + "/.keep", "", now);
        match w
        case Err(e) => (Some(Wrapped("failed to create directory " + dirName, e)), m')
        case Ok(_) => (None, m')
      else (Some(Failure("can only create namespace directories or docs/ subdirectories")), m)
    else if ns == "" then (Some(Failure("invalid namespace name")), m)
    else (s.createNamespace(ns), m)
  }

  /** Only `docs/` sub-directories touch the status table, and only a bare non-empty
      namespace reaches the database's namespace creation. */
  lemma MkdirRouting(s: Services, m: Status, path: string, now: int)
    ensures var (ns, rel) := ParsePath(s, path);
            (!Text.StartsWith(rel, "docs/") ==> MkdirOutcome(s, m, path, now).1 == m)
            && (rel == "" && ns != "" ==> MkdirOutcome(s, m, path, now).0 == s.createNamespace(ns))
            && (rel != "" && !Text.StartsWith(rel, "docs/") ==> MkdirOutcome(s, m, path, now).0.Some?)
            && (rel == "" && ns == "" ==> MkdirOutcome(s, m, path, now).0 == Some(Failure("invalid namespace name")))
  {
    var (ns, rel) := ParsePath(s, path);
    if rel == "" {
      assert !Text.StartsWith(rel, "docs/");
    }
  }

  /** The plugin object: the indexing status table is the state its methods update. */
  class Plugin {
    var indexingStatus: Status

    /** `Initialize` starts with an empty table. */
    constructor()
      ensures indexingStatus == map[]
    {
      indexingStatus := map[];
    }

    predicate Valid()
      reads this
    {
      NoEmptyNamespaces(indexingStatus)
    }

    method AddIndexingTask(ns: string, digest: string, fileName: string, now: int)
      modifies this
      ensures indexingStatus == AddedTask(old(indexingStatus), ns, digest, TaskInfo(fileName, now))
      ensures old(Valid()) ==> Valid()
    {
      if old(Valid()) {
        AddedTaskKeepsInvariant(indexingStatus, ns, digest, TaskInfo(fileName, now));
      }
      var tasks := if ns in indexingStatus then indexingStatus[ns] else map[];
      indexingStatus := indexingStatus[ns := tasks[digest := TaskInfo(fileName, now)]];
    }

    method RemoveIndexingTask(ns: string, digest: string)
      modifies this
      ensures indexingStatus == RemovedTask(old(indexingStatus), ns, digest)
      ensures old(Valid()) ==> Valid()
    {
      if old(Valid()) {
        RemovedTaskKeepsInvariant(indexingStatus, ns, digest);
      }
      if ns in indexingStatus {
        var rest := indexingStatus[ns] - {digest};
        if |rest| == 0 {
          indexingStatus := indexingStatus - {ns};
        } else {
          indexingStatus := indexingStatus[ns := rest];
        }
      }
    }

    /** `getIndexingStatus`, building the text line by line in the iteration order. */
    method GetIndexingStatus(ns: string, env: Env) returns (status: string)
      ensures status == IndexingStatus(indexingStatus, ns, env)
    {
      var tasks := if ns in indexingStatus then indexingStatus[ns] else map[];
      if |tasks| == 0 {
        return "idle";
      }
      var sb := StatusHeader(|tasks|);
      var lines := "";
      var i := 0;
      while i < |env.order|
        invariant 0 <= i <= |env.order|
        invariant lines == TaskLines(tasks, env, i)
      {
        var d := env.order[i];
        if d in tasks {
          lines := lines + TaskLine(tasks[d], env);
        }
        i := i + 1;
      }
      status := sb + lines;
    }

    /** `Write`: the outcome and the new table are `WriteOutcome`'s. */
    method Write(s: Services, path: string, data: string, now: int) returns (r: Result<int, GoError>)
      modifies this
      ensures (r, indexingStatus) == WriteOutcome(s, old(indexingStatus), path, data, now)
      ensures old(Valid()) ==> Valid()
    {
      WriteRegistersNewContent(s, indexingStatus, path, data, now);
      var (ns, rel) := ParsePath(s, path);
      if !Text.StartsWith(rel, "docs/") {
        return Err(Failure("can only write files to docs/ directory"));
      }
      var digest := DocumentDigest(s, rel, data);
      var fileName := Text.TrimPrefix(rel, "docs/");
      var prepared := s.prepareDocument(ns, digest, fileName, data);
      if prepared.Err? {
        return Err(Wrapped("failed to prepare document", prepared.error));
      }
      if prepared.value {
        return Ok(|data|);
      }
      AddIndexingTask(ns, digest, fileName, now);
      r := Ok(|data|);
    }

    /** `Create`: writing empty content. */
    method Create(s: Services, path: string, now: int) returns (err: Option<GoError>)
      modifies this
      ensures var (w, m') := WriteOutcome(s, old(indexingStatus), path, "", now);
              indexingStatus == m' && (err.None? <==> w.Ok?)
    {
      var w := Write(s, path, "", now);
      err := if w.Err? then Some(w.error) else None;
    }

    method Mkdir(s: Services, path: string, now: int) returns (err: Option<GoError>)
      modifies this
      ensures (err, indexingStatus) == MkdirOutcome(s, old(indexingStatus), path, now)
    {
      var (ns, rel) := ParsePath(s, path);
      if rel != "" {
        if Text.StartsWith(rel, "docs/") {
          var dirName := Text.TrimPrefix(rel, "docs/");
          var w := Write(s, path + "/.keep", "", now);
          if w.Err? {
            return Some(Wrapped("failed to create directory " + dirName, w.error));
          }
          return None;
        }
        return Some(Failure("can only create namespace directories or docs/ subdirectories"));
      }
      if ns == "" {
        return Some(Failure("invalid namespace name"));
      }
      err := s.createNamespace(ns);
    }
  }

  /** The buffer `OpenWrite` returns: writes accumulate and closing writes the whole buffer. */
  class Writer {
    const path: string
    var buf: string

    constructor(path: string)
      ensures this.path == path && buf == ""
    {
      this.path := path;
      buf := "";
    }

    method Write(p: string) returns (n: int)
      modifies this
      ensures buf == old(buf) + p && n == |p|
    {
      buf := buf + p;
      n := |p|;
    }

    method Close(plugin: Plugin, s: Services, now: int) returns (err: Option<GoError>)
      modifies plugin
      ensures var (w, m') := WriteOutcome(s, old(plugin.indexingStatus), path, buf, now);
              plugin.indexingStatus == m' && (err.None? <==> w.Ok?)
    {
      var w := plugin.Write(s, path, buf, now);
      err := if w.Err? then Some(w.error) else None;
    }
  }

  /** `Open`: the whole file as `Read` gives it. */
  function Open(s: Services, m: Status, env: Env, path: string): (r: Result<seq<Byte>, GoError>)
    ensures r == Read(s, m, env, path, 0, -1)
  {
    Read(s, m, env, path, 0, -1)
  }

  /** Writing through `OpenWrite` in pieces stores the concatenation once, on close. */
  method WriteInPieces(plugin: Plugin, s: Services, path: string, a: string, b: string, now: int)
    returns (err: Option<GoError>)
    modifies plugin
    ensures var (w, m') := WriteOutcome(s, old(plugin.indexingStatus), path, a + b, now);
            plugin.indexingStatus == m' && (err.None? <==> w.Ok?)
  {
    var writer := new Writer(path);
    var n1 := writer.Write(a);
    var n2 := writer.Write(b);
    assert writer.buf == a + b && writer.path == path;
    err := writer.Close(plugin, s, now);
  }
}
