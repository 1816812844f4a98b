// Value types of the server's Go filesystem interface shared by the Go
// plugins: the errors they return and the file information they report.
// Go error values are compared by kind and text; `errors.New` and
// `fmt.Errorf` results are `Failure` with their formatted text.
module GoFs {
  /** `filesystem.ErrNotFound`, `io.EOF`, `filesystem.NewInvalidArgumentError`, an error
      wrapped by `fmt.Errorf("<context>: %w", cause)`, and any other error by its text. */
  datatype GoError =
    | ErrNotFound
    | EOF
    | InvalidArgument(name: string, value: string, reason: string)
    | Wrapped(context: string, cause: GoError)
    | Failure(msg: string)

  datatype MetaData = MetaData(name: string, typ: string, content: map<string, string>)

  /** `filesystem.FileInfo`; `modTime` is the instant the plugin read from the clock. */
  datatype FileInfo = FileInfo(
    name: string, size: int, mode: nat, modTime: int, isDir: bool, meta: MetaData)

  /** A `MetaData` literal that sets only `Name` and `Type`. */
  function Meta(name: string, typ: string): (m: MetaData)
    ensures m.name == name && m.typ == typ && m.content == map[]
  {
    MetaData(name, typ, map[])
  }

  const MODE_0222: nat := 0x92
  const MODE_0444: nat := 0x124
  const MODE_0555: nat := 0x16D
  const MODE_0644: nat := 0x1A4
  const MODE_0666: nat := 0x1B6
  const MODE_0755: nat := 0x1ED
}
