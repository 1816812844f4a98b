// Value types of the WebAssembly plugin SDK: the error enum and its message
// text, file information with its JSON form, and the configuration map.
module WasmTypes {
  import opened Wrappers
  import opened Packing
  import opened Json
  import Text

  datatype Error =
    | NotFound
    | PermissionDenied
    | AlreadyExists
    | IsDirectory
    | NotDirectory
    | ReadOnly
    | InvalidInput(msg: string)
    | Io(msg: string)
    | Other(msg: string)

  /** The `Display` text of an error, which crosses the boundary as a C string. */
  function Display(e: Error): (s: string)
    ensures e.InvalidInput? ==> Text.StartsWith(s, "invalid input: ")
    ensures e.Io? ==> Text.StartsWith(s, "I/O error: ")
    ensures e.Other? ==> s == e.msg
    ensures !(e.InvalidInput? || e.Io? || e.Other?) ==> s != []
  {
    match e
    case NotFound => "file not found"
    case PermissionDenied => "permission denied"
    case AlreadyExists => "file already exists"
    case IsDirectory => "is a directory"
    case NotDirectory => "not a directory"
    case ReadOnly => "read-only filesystem"
    case InvalidInput(m) => "invalid input: " + m
    case Io(m) => "I/O error: " + m
    case Other(m) => m
  }

  /** The message of a parameterised error is recoverable from its text. */
  lemma DisplayRecoversMessage(e: Error)
    requires e.InvalidInput? || e.Io?
    ensures e.InvalidInput? ==> Display(e)[|"invalid input: "|..] == e.msg
    ensures e.Io? ==> Display(e)[|"I/O error: "|..] == e.msg
  {
  }

  /** The six unit variants render six different texts. */
  lemma UnitDisplaysDistinct(a: Error, b: Error)
    requires !(a.InvalidInput? || a.Io? || a.Other?)
    requires !(b.InvalidInput? || b.Io? || b.Other?)
    requires a != b
    ensures Display(a) != Display(b)
  {
  }

  /** `Other` forwards any text as it is, so rendering loses the variant. */
  lemma OtherMimicsAnyError(e: Error)
    ensures Display(Other(Display(e))) == Display(e)
  {
  }

  datatype MetaData = MetaData(name: string, typ: string, content: Json)

  /** `MetaData::new`: the content starts as an empty JSON object. */
  function NewMetaData(name: string, typ: string): (m: MetaData)
    ensures m.name == name && m.typ == typ && m.content == JObject(map[])
  {
    MetaData(name, typ, JObject(map[]))
  }

  function WithContent(m: MetaData, content: Json): (r: MetaData)
    ensures r.name == m.name && r.typ == m.typ && r.content == content
  {
    m.(content := content)
  }

  datatype FileInfo = FileInfo(
    name: string, size: I64, mode: Nat32, modTime: I64, isDir: bool, meta: Option<MetaData>)

  /** `FileInfo::file`. */
  function FileOf(name: string, size: I64, mode: Nat32): (fi: FileInfo)
    ensures fi.name == name && fi.size == size && fi.mode == mode
    ensures !fi.isDir && fi.modTime == 0 && fi.meta.None?
  {
    FileInfo(name, size, mode, 0, false, None)
  }

  /** `FileInfo::dir`. */
  function DirOf(name: string, mode: Nat32): (fi: FileInfo)
    ensures fi.name == name && fi.mode == mode
    ensures fi.size == 0 && fi.isDir && fi.modTime == 0 && fi.meta.None?
  {
    FileInfo(name, 0, mode, 0, true, None)
  }

  /** `with_meta`: replaces only the metadata. */
  function WithMeta(fi: FileInfo, meta: MetaData): (r: FileInfo)
    ensures r.meta == Some(meta)
    ensures r.(meta := fi.meta) == fi
  {
    fi.(meta := Some(meta))
  }

  /** `with_mod_time`: replaces only the modification time. */
  function WithModTime(fi: FileInfo, t: I64): (r: FileInfo)
    ensures r.modTime == t
    ensures r.(modTime := fi.modTime) == fi
  {
    fi.(modTime := t)
  }

  /** The fixed text every modification time serialises to. */
  const ZERO_TIME: string := "0001-01-01T00:00:00Z"

  function MetaToJson(m: MetaData): (j: Json)
    ensures j.JObject? && j.fields.Keys == {"Name", "Type", "Content"}
  {
    JObject(map["Name" := JString(m.name), "Type" := JString(m.typ), "Content" := m.content])
  }

  /** The serde form of a FileInfo: renamed keys, the time as ZERO_TIME, `Meta` omitted when absent. */
  function FileInfoToJson(fi: FileInfo): (j: Json)
    ensures j.JObject?
    ensures "ModTime" in j.fields && j.fields["ModTime"] == JString(ZERO_TIME)
    ensures ("Meta" in j.fields) <==> fi.meta.Some?
    ensures {"Name", "Size", "Mode", "ModTime", "IsDir"} <= j.fields.Keys
  {
    var base := map[
      "Name" := JString(fi.name),
      "Size" := JInt(fi.size as int),
      "Mode" := JInt(fi.mode),
      "ModTime" := JString(ZERO_TIME),
      "IsDir" := JBool(fi.isDir)];
    if fi.meta.Some? then JObject(base["Meta" := MetaToJson(fi.meta.value)]) else JObject(base)
  }

  function MetaFromJson(j: Json): (r: Option<MetaData>)
  {
    if j.JObject? && "Name" in j.fields && "Type" in j.fields && "Content" in j.fields
       && j.fields["Name"].JString? && j.fields["Type"].JString?
    then Some(MetaData(j.fields["Name"].s, j.fields["Type"].s, j.fields["Content"]))
    else None
  }

  predicate IsI64(n: int) { -0x8000_0000_0000_0000 <= n < 0x8000_0000_0000_0000 }

  predicate IsU32(n: int) { 0 <= n < 0x1_0000_0000 }

  /** The serde decoding of a FileInfo: the time string is read and discarded as 0,
      a missing or null `Meta` is None, unknown keys are ignored. */
  function FileInfoFromJson(j: Json): (r: Option<FileInfo>)
    ensures r.Some? ==> r.value.modTime == 0
  {
    if !j.JObject? then None
    else
      var f := j.fields;
      if !("Name" in f && "Size" in f && "Mode" in f && "ModTime" in f && "IsDir" in f) then None
      else if !(f["Name"].JString? && f["Size"].JInt? && f["Mode"].JInt? && f["ModTime"].JString? && f["IsDir"].JBool?) then None
      else if !(IsI64(f["Size"].n) && IsU32(f["Mode"].n)) then None
      else
        var meta: Option<Option<MetaData>> :=
          if "Meta" !in f || f["Meta"] == JNull then Some(None)
          else match MetaFromJson(f["Meta"]) case Some(m) => Some(Some(m)) case None => None;
        if meta.None? then None
        else Some(FileInfo(f["Name"].s, f["Size"].n as I64, f["Mode"].n as Nat32, 0, f["IsDir"].b, meta.value))
  }

  /** Decoding the serialised form gives back every field except the modification time, which reads as 0. */
  lemma {:induction false} FileInfoJsonRoundTrip(fi: FileInfo)
    ensures FileInfoFromJson(FileInfoToJson(fi)) == Some(fi.(modTime := 0))
  {
    var j := FileInfoToJson(fi);
    var f := j.fields;
    assert f["Size"] == JInt(fi.size as int) && f["Mode"] == JInt(fi.mode);
    if fi.meta.Some? {
      assert f["Meta"] == MetaToJson(fi.meta.value);
    }
  }

  /** Hence a FileInfo survives the JSON boundary exactly when its modification time is 0. */
  lemma FileInfoRoundTripsIffZeroTime(fi: FileInfo)
    ensures FileInfoFromJson(FileInfoToJson(fi)) == Some(fi) <==> fi.modTime == 0
  {
    FileInfoJsonRoundTrip(fi);
  }

  datatype ConfigParameter = ConfigParameter(
    name: string, paramType: string, required: bool, default: string, description: string)

  /** The serde form of a ConfigParameter: `param_type` is renamed to `type`. */
  function ConfigParameterToJson(p: ConfigParameter): (j: Json)
    ensures j.JObject? && j.fields.Keys == {"name", "type", "required", "default", "description"}
    ensures j.fields["type"] == JString(p.paramType)
  {
    JObject(map[
      "name" := JString(p.name), "type" := JString(p.paramType), "required" := JBool(p.required),
      "default" := JString(p.default), "description" := JString(p.description)])
  }

  /** The plugin configuration: the members of the JSON object handed over at validation. */
  datatype Config = Config(inner: map<string, Json>)
  {
    function GetStr(key: string): (r: Option<string>)
      ensures key !in inner ==> r.None?
      ensures r.Some? <==> key in inner && inner[key].JString?
      ensures r.Some? ==> inner[key] == JString(r.value)
    {
      if key in inner then inner[key].AsStr() else None
    }

    function GetI64(key: string): (r: Option<int>)
      ensures key !in inner ==> r.None?
      ensures r.Some? ==> key in inner && inner[key] == JInt(r.value) && IsI64(r.value)
      ensures key in inner && inner[key].JInt? && IsI64(inner[key].n) ==> r.Some?
    {
      if key in inner then inner[key].AsI64() else None
    }

    function GetBool(key: string): (r: Option<bool>)
      ensures key !in inner ==> r.None?
      ensures r.Some? <==> key in inner && inner[key].JBool?
      ensures r.Some? ==> inner[key] == JBool(r.value)
    {
      if key in inner then inner[key].AsBool() else None
    }

    predicate Contains(key: string) {
      key in inner
    }
  }

  /** A value has at most one of the three typed readings, so at most one getter answers. */
  lemma GettersExclusive(c: Config, key: string)
    ensures !(c.GetStr(key).Some? && c.GetI64(key).Some?)
    ensures !(c.GetStr(key).Some? && c.GetBool(key).Some?)
    ensures !(c.GetI64(key).Some? && c.GetBool(key).Some?)
  {
  }

  /** `From<Value> for Config`: an object gives its members, anything else an empty map. */
  function ConfigFrom(v: Json): (c: Config)
    ensures v.JObject? ==> c.inner == v.fields
    ensures !v.JObject? ==> c.inner == map[]
  {
    if v.JObject? then Config(v.fields) else Config(map[])
  }

  /** A configuration built from a non-object value answers no key. */
  lemma NonObjectConfigIsEmpty(v: Json, key: string)
    requires !v.JObject?
    ensures !ConfigFrom(v).Contains(key)
    ensures ConfigFrom(v).GetStr(key).None? && ConfigFrom(v).GetI64(key).None? && ConfigFrom(v).GetBool(key).None?
  {
  }
}
