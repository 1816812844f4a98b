// Value types of the C++ plugin SDK, which compiles to WebAssembly: the error
// class and its text, the tagged-union result (whose wrong-variant accessors
// trap), file records, the string-valued configuration and the 32-bit write
// flag (the same word as module Flags).
module CppTypes {
  import opened Wrappers
  import opened Packing
  import opened Flags
  import Text
  import WasmTypes

  datatype ErrorKind =
    NotFound | PermissionDenied | AlreadyExists | IsDirectory | NotDirectory | ReadOnly | InvalidInput | Io | Other

  /** An error: a kind and a message, which may be empty. */
  datatype Error = Error(kind: ErrorKind, message: string)

  /** The text for a kind when the message is empty. */
  function KindText(k: ErrorKind): (s: string)
    ensures s != []
  {
    match k
    case NotFound => "file not found"
    case PermissionDenied => "permission denied"
    case AlreadyExists => "file already exists"
    case IsDirectory => "is a directory"
    case NotDirectory => "not a directory"
    case ReadOnly => "read-only filesystem"
    case _ => "unknown error"
  }

  /** `Error::to_string`: the message if there is one, otherwise the kind's text. */
  function ToString(e: Error): (s: string)
    ensures e.message != [] ==> s == e.message
    ensures e.message == [] ==> s == KindText(e.kind)
    ensures s != []
  {
    if e.message != [] then e.message else KindText(e.kind)
  }

  // The factory helpers.
  function NotFoundError(): Error { Error(NotFound, "file not found") }
  function PermissionDeniedError(): Error { Error(PermissionDenied, "permission denied") }
  function AlreadyExistsError(): Error { Error(AlreadyExists, "file already exists") }
  function IsDirectoryError(): Error { Error(IsDirectory, "is a directory") }
  function NotDirectoryError(): Error { Error(NotDirectory, "not a directory") }
  function ReadOnlyError(): Error { Error(ReadOnly, "read-only filesystem") }
  function InvalidInputError(msg: string): Error { Error(InvalidInput, msg) }
  function IoError(msg: string): Error { Error(Io, msg) }
  function OtherError(msg: string): Error { Error(Other, msg) }

  /** The factory for each unit kind attaches exactly the text its kind would default to, so an
      error made by a factory renders the same whether or not its message is looked at. */
  lemma FactoryTextsMatchKinds()
    ensures ToString(NotFoundError()) == KindText(NotFound)
    ensures ToString(PermissionDeniedError()) == KindText(PermissionDenied)
    ensures ToString(AlreadyExistsError()) == KindText(AlreadyExists)
    ensures ToString(IsDirectoryError()) == KindText(IsDirectory)
    ensures ToString(NotDirectoryError()) == KindText(NotDirectory)
    ensures ToString(ReadOnlyError()) == KindText(ReadOnly)
  {
  }

  /** The parameterised kinds render their message bare, and an empty message as "unknown error". */
  lemma ParameterisedTexts(msg: string)
    ensures ToString(InvalidInputError(msg)) == (if msg == [] then "unknown error" else msg)
    ensures ToString(IoError(msg)) == (if msg == [] then "unknown error" else msg)
    ensures ToString(OtherError(msg)) == (if msg == [] then "unknown error" else msg)
  {
  }

  /** The unit kinds render as the WebAssembly Rust SDK renders them; an invalid-input error does
      not, since the C++ text carries no "invalid input: " prefix. */
  lemma AgreesWithRustSdk(msg: string)
    ensures ToString(NotFoundError()) == WasmTypes.Display(WasmTypes.NotFound)
    ensures ToString(ReadOnlyError()) == WasmTypes.Display(WasmTypes.ReadOnly)
    ensures ToString(PermissionDeniedError()) == WasmTypes.Display(WasmTypes.PermissionDenied)
    ensures ToString(InvalidInputError(msg)) != WasmTypes.Display(WasmTypes.InvalidInput(msg))
  {
    var w := WasmTypes.Display(WasmTypes.InvalidInput(msg));
    assert |w| == |"invalid input: "| + |msg|;
    if msg == [] {
      assert w[0] == 'i';
    }
  }

  /** `Result<T>::unwrap`: traps on an error. */
  function Unwrap<T>(r: Result<T, Error>): (c: Call<T>)
    ensures c.Abort? <==> r.Err?
    ensures r.Ok? ==> c == Returns(r.value)
  {
    if r.Ok? then Returns(r.value) else Abort
  }

  /** `Result<T>::unwrap_err`: traps on a success. */
  function UnwrapErr<T>(r: Result<T, Error>): (c: Call<Error>)
    ensures c.Abort? <==> r.Ok?
    ensures r.Err? ==> c == Returns(r.error)
  {
    if r.Err? then Returns(r.error) else Abort
  }

  /** Exactly one of the two accessors returns, whatever the result. */
  lemma ExactlyOneAccessorReturns<T>(r: Result<T, Error>)
    ensures Unwrap(r).Returns? != UnwrapErr(r).Returns?
  {
  }

  datatype MetaData = MetaData(name: string, typ: string, content: string)

  /** `MetaData()`: all fields empty. */
  const EMPTY_META := MetaData("", "", "")

  /** `MetaData(n, t)`: the content defaults to an empty JSON object. */
  function NewMetaData(name: string, typ: string): (m: MetaData)
    ensures m == MetaData(name, typ, "{}")
  {
    MetaData(name, typ, "{}")
  }

  datatype FileInfo = FileInfo(name: string, size: I64, mode: Nat32, modTime: I64, isDir: bool, meta: Option<MetaData>)

  /** `FileInfo()`: all zero, not a directory, no metadata. */
  const DEFAULT_INFO := FileInfo("", 0, 0, 0, false, None)

  function File(name: string, size: I64, mode: Nat32): (f: FileInfo)
    ensures f == DEFAULT_INFO.(name := name, size := size, mode := mode)
  {
    FileInfo(name, size, mode, 0, false, None)
  }

  function Dir(name: string, mode: Nat32): (f: FileInfo)
    ensures f == DEFAULT_INFO.(name := name, mode := mode, isDir := true)
  {
    FileInfo(name, 0, mode, 0, true, None)
  }

  function WithMeta(f: FileInfo, m: MetaData): (g: FileInfo)
    ensures g.meta == Some(m) && g.(meta := f.meta) == f
  {
    f.(meta := Some(m))
  }

  function WithModTime(f: FileInfo, t: I64): (g: FileInfo)
    ensures g.modTime == t && g.(modTime := f.modTime) == f
  {
    f.(modTime := t)
  }

  /** `file` and `dir` are told apart by `isDir` alone, and a directory has size 0. */
  lemma FileAndDirDiffer(name: string, size: I64, mode: Nat32)
    ensures !File(name, size, mode).isDir && Dir(name, mode).isDir && Dir(name, mode).size == 0
    ensures File(name, 0, mode).(isDir := true) == Dir(name, mode)
  {
  }

  /** `std::stoll` in base 10: optional leading white space and sign, then at least one digit; the
      digits end at the first non-digit. No digits, or a value outside 64 bits, throws, which in
      a WebAssembly build without exceptions aborts. */
  function StoLL(s: string): (r: Option<I64>)
  {
    ParseSigned(Text.TrimLeft(s))
  }

  function ParseSigned(t: string): (r: Option<I64>)
  {
    if t != [] && t[0] == '-' then ParseDigits(t[1..], true)
    else if t != [] && t[0] == '+' then ParseDigits(t[1..], false)
    else ParseDigits(t, false)
  }

  /** The longest digit prefix of `u`, negated when `negative`, if there is one and it fits. */
  function ParseDigits(u: string, negative: bool): (r: Option<I64>)
    ensures r.Some? ==> DigitPrefix(u) != []
  {
    var digits := DigitPrefix(u);
    if digits == [] then None
    else
      var m: int := Text.DigitsValue(digits);
      var v: int := if negative then -m else m;
      if -0x8000_0000_0000_0000 <= v < 0x8000_0000_0000_0000 then Some(v as I64) else None
  }

  function DigitPrefix(s: string): (d: string)
    ensures |d| <= |s| && d == s[..|d|]
    ensures forall i :: 0 <= i < |d| ==> Text.IsDigit(d[i])
    ensures |d| < |s| ==> !Text.IsDigit(s[|d|])
  {
    if s == [] || !Text.IsDigit(s[0]) then [] else [s[0]] + DigitPrefix(s[1..])
  }

  lemma {:induction false} DigitPrefixOfDigits(s: string)
    requires forall i :: 0 <= i < |s| ==> Text.IsDigit(s[i])
    ensures DigitPrefix(s) == s
  {
    if s != [] {
      DigitPrefixOfDigits(s[1..]);
    }
  }

  lemma DecimalDigits(n: nat)
    ensures DigitPrefix(Text.NatToString(n)) == Text.NatToString(n)
    ensures Text.DigitsValue(Text.NatToString(n)) == n
  {
    DigitPrefixOfDigits(Text.NatToString(n));
    Text.DigitsOfNatToString(n);
  }

  /** A decimal rendering reads back as the number it renders. */
  lemma StoLLOfDecimal(n: nat)
    requires n < 0x8000_0000_0000_0000
    ensures StoLL(Text.NatToString(n)) == Some(n as I64)
  {
    var d := Text.NatToString(n);
    DecimalDigits(n);
    assert Text.TrimLeft(d) == d by {
      assert Text.IsDigit(d[0]);
    }
    assert ParseSigned(d) == ParseDigits(d, false) by {
      assert Text.IsDigit(d[0]);
    }
  }

  lemma ParseDecimal(n: nat, negative: bool)
    requires if negative then 0 < n <= 0x8000_0000_0000_0000 else n < 0x8000_0000_0000_0000
    ensures ParseDigits(Text.NatToString(n), negative) == Some((if negative then -(n as int) else n) as I64)
  {
    DecimalDigits(n);
  }

  /** ... and so does a negative one, down to the least 64-bit value. */
  lemma StoLLOfNegativeDecimal(n: nat)
    requires 0 < n <= 0x8000_0000_0000_0000
    ensures StoLL("-" + Text.NatToString(n)) == Some(-(n as int) as I64)
  {
    var d := Text.NatToString(n);
    var m := "-" + d;
    assert m[0] == '-' && m[1..] == d;
    assert Text.TrimLeft(m) == m;
    assert ParseSigned(m) == ParseDigits(d, true);
    ParseDecimal(n, true);
  }

  /** Text with no leading digit after the optional sign never converts. */
  lemma StoLLRejectsNonNumeric(s: string)
    requires s != [] && !Text.IsSpace(s[0]) && !Text.IsDigit(s[0]) && s[0] != '-' && s[0] != '+'
    ensures StoLL(s).None?
  {
    assert Text.TrimLeft(s) == s;
  }

  /** The configuration handed to a C++ plugin: every value as text. */
  datatype Config = Config(values: map<string, string>)
  {
    /** `get_str`: null for a missing key. */
    function GetStr(key: string): (r: Option<string>)
      ensures r.Some? <==> key in values
      ensures r.Some? ==> r.value == values[key]
    {
      if key in values then Some(values[key]) else None
    }

    /** `get_i64`: the default for a missing key, `stoll` of the text otherwise. */
    function GetI64(key: string, default: I64): (r: Call<I64>)
      ensures key !in values ==> r == Returns(default)
      ensures key in values ==> (r.Abort? <==> StoLL(values[key]).None?)
      ensures key in values && StoLL(values[key]).Some? ==> r == Returns(StoLL(values[key]).value)
    {
      if key !in values then Returns(default)
      else match StoLL(values[key])
        case Some(v) => Returns(v)
        case None => Abort
    }

    /** `get_bool`: true only for "true" or "1"; the default for a missing key. */
    function GetBool(key: string, default: bool): (r: bool)
      ensures key !in values ==> r == default
      ensures key in values ==> (r <==> values[key] == "true" || values[key] == "1")
    {
      if key in values then values[key] == "true" || values[key] == "1" else default
    }

    predicate Contains(key: string) {
      key in values
    }
  }

  /** A present key holding a decimal number reads as that number, and as a boolean it reads true
      only for 1. */
  lemma ConfigNumbers(c: Config, key: string, n: nat, d: I64, b: bool)
    requires key in c.values && c.values[key] == Text.NatToString(n) && n < 0x8000_0000_0000_0000
    ensures c.GetI64(key, d) == Returns(n as I64)
    ensures c.GetBool(key, b) <==> n == 1
  {
    StoLLOfDecimal(n);
    var t := Text.NatToString(n);
    assert t != "true" by {
      assert Text.IsDigit(t[0]);
    }
    if t == "1" {
      DecimalDigits(n);
      assert Text.DigitsValue("1") == 1;
    }
    if n == 1 {
      assert t == "1";
    }
  }

  /** `WriteFlag::operator|` is `With`; the union is symmetric. */
  lemma WriteFlagOrSymmetric(a: WriteFlag, b: WriteFlag)
    ensures a.With(b) == b.With(a)
  {
    assert a.bits | b.bits == b.bits | a.bits;
  }
}
