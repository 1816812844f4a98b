# agfs core, modelled in Dafny

agfs is a server that mounts filesystem plugins side by side. There is also a FUSE client and a
shell for it. The plugins are compiled separately: as WebAssembly modules (a Rust SDK and a C++
SDK) or as native shared libraries (a Rust SDK and plain C). They talk to the host across a flat
memory boundary. Results cross that boundary as a pointer to an error string, as a 64-bit word
carrying two 32-bit halves, or as the word 0.

This project models the sequential logic of that system and proves properties of the model.

- **Plugin SDKs.** The value types of the three SDKs: the open and write flag bit-sets, the error
  kinds with their texts, file records and their JSON form, and configuration lookups. Also the
  default behaviour of every capability a plugin may leave out (modules `Flags`, `WasmTypes`,
  `WasmFs`, `NativeTypes`, `NativeFs`, `CppTypes`, `CppFs`, `GoFs`, `Json`).
- **Boundary.** The packing of two 32-bit halves into one word (`Packing`). The generic
  WebAssembly handlers and the entry points `export_plugin!` generates (`WasmFfi`,
  `WasmExport`). The C boundary of a native plugin, with its `out_len`/`out_count` cells
  (`NativeFfi`). The C++ export macro (`CppExport`).
- **Handle tables.** The HelloFS WebAssembly plugin's open handles with their positions
  (`HelloWasm`). The server's lease-based handle manager, with an explicit integer clock
  (`ServerHandles`). The FUSE client's local and remote handles and its flag and attribute
  translation (`FuseHandles`, `FuseNode`).
- **Example filesystems.** `HelloC`, `HelloCpp`, `DevFs`, `HackerNews`, `SqlFs2` and `VectorFs`,
  with their path routing, error cases and permission modes. Also the VectorFS text chunker
  (`Chunker`) and its vector database client: table names, LIKE escaping, namespaces and batched
  inserts (`TiDb`).
- **Shell.** The `alias`, `unalias`, `read`, `http` and `fsgrep` built-ins, the job table, the
  command registry, tab completion, and the script runner and `-c` command splitter of the entry
  point (modules `Shell*`).
- **Shared helpers.** Python's string order and `sorted` (`StringOrder`), the parts of
  `posixpath` the shell uses (`PosixPath`), string helpers (`Text`), and `Option`/`Result`
  (`Wrappers`).

Each source file is modelled in its own form:

- Pure matches and conversions become functions with named results.
- Objects whose fields change become classes, whose methods state the whole new state.
- Loops become methods with invariants, proved equal to recursive reference definitions. The
  properties the source promises are lemmas about those definitions.
- Services outside the core become function-typed parameters and never appear as behaviour: the
  host filesystem, the SQL backends, object storage, HTTP, JSON decoding, clocks, `normpath`,
  `shlex.quote` and the filesystem grep.

Where comments and code disagree, the model follows the code:

- `fs_write` in the native Rust SDK returns -1 on every failure. The comment at
  `agfs-server/examples/hellofs-rust/agfs-ffi/src/ffi.rs:391` describes an error pointer in the low
  bits instead.
- The FUSE client tests `O_SYNC` with a mask whose bits include `O_DSYNC`. So a data-only sync
  request also sets the AGFS sync flag (`FuseNode.DataSyncSetsSync`).
- The `export_plugin!` and `AGFS_EXPORT_PLUGIN` write entry points call a `write` that takes a
  path and the data (in Rust also the plugin as receiver) and returns a response buffer, while the
  traits declare a `write` that also takes an offset and flags and returns a byte count. The macro versions are modelled as written, with the response as a parameter. The
  generic `handle_write` handler is modelled as the write channel.

## Model

| member | source | states |
|---|---|---|
| Packing.Hi | agfs-server/examples/agfs-wasm-ffi/src/ffi.rs:113-133 | the high half of a packed result word |
| Packing.Lo | agfs-server/examples/agfs-wasm-ffi/src/ffi.rs:113-133 | the low half of a packed result word |
| Packing.HalvesOfPack | agfs-server/examples/agfs-wasm-ffi/src/ffi.rs:113-133 | unpacking a packed word gives back both halves |
| Packing.PackOfHalves | agfs-server/examples/agfs-wasm-ffi/src/ffi.rs:113-133 | every word is the packing of its halves, so the host can always split a result |
| Packing.PackZero | agfs-server/examples/agfs-wasm-ffi/src/ffi.rs:65-97 | a packed word is 0 exactly when both halves are null |
| Packing.UsizeAsI64 | agfs-server/examples/agfs-wasm-ffi/src/ffi.rs:50-62 | a length below 2^32 is kept unchanged and the result is never negative |
| Packing.WrapI64 | agfs-server/examples/hellofs-wasm/src/lib.rs:386-390 | a sum in the i64 range is kept; a sum from 2^63 below 2^64 wraps around to the sum minus 2^64, as a release build adds |
| Json.Json.AsStr | agfs-server/examples/agfs-wasm-ffi/src/types.rs:182-184 | a string reading exists exactly for string values |
| Json.Json.AsI64 | agfs-server/examples/agfs-wasm-ffi/src/types.rs:187-189 | an integer reading exists exactly for integers in the signed 64-bit range, and is that integer |
| Json.Json.AsBool | agfs-server/examples/agfs-wasm-ffi/src/types.rs:192-194 | a boolean reading exists exactly for boolean values |
| GoFs.Meta | agfs-server/pkg/plugins/devfs/devfs.go:106-116 | metadata with only a name and a type has empty content |
| WasmTypes.Display | agfs-server/examples/agfs-wasm-ffi/src/types.rs:22-36 | parameterised errors render with their prefix and message, Other renders its message alone, the unit variants render non-empty texts |
| WasmTypes.DisplayRecoversMessage | agfs-server/examples/agfs-wasm-ffi/src/types.rs:31-33 | the message of an InvalidInput, Io or Other error can be read back from its text |
| WasmTypes.UnitDisplaysDistinct | agfs-server/examples/agfs-wasm-ffi/src/types.rs:25-30 | the six unit variants render six different texts |
| WasmTypes.OtherMimicsAnyError | agfs-server/examples/agfs-wasm-ffi/src/types.rs:33 | an Other error can render exactly like any other error, so the text does not identify the variant |
| WasmTypes.NewMetaData | agfs-server/examples/agfs-wasm-ffi/src/types.rs:128-134 | new metadata has the given name and type and an empty object as content |
| WasmTypes.WithContent | agfs-server/examples/agfs-wasm-ffi/src/types.rs:137-140 | only the content is replaced |
| WasmTypes.FileOf | agfs-server/examples/agfs-wasm-ffi/src/types.rs:79-88 | a regular-file record with the given name, size and mode, time 0 and no metadata |
| WasmTypes.DirOf | agfs-server/examples/agfs-wasm-ffi/src/types.rs:91-100 | a directory record of size 0 with time 0 and no metadata |
| WasmTypes.WithMeta | agfs-server/examples/agfs-wasm-ffi/src/types.rs:103-106 | only the metadata is replaced |
| WasmTypes.WithModTime | agfs-server/examples/agfs-wasm-ffi/src/types.rs:109-112 | only the modification time is replaced |
| WasmTypes.MetaToJson | agfs-server/examples/agfs-wasm-ffi/src/types.rs:117-124 | metadata serialises as an object with the keys Name, Type and Content |
| WasmTypes.FileInfoToJson | agfs-server/examples/agfs-wasm-ffi/src/types.rs:42-65 | a record serialises under its renamed keys, the time always as the zero-time string, and without Meta when it has none |
| WasmTypes.FileInfoFromJson | agfs-server/examples/agfs-wasm-ffi/src/types.rs:42-75 | decoding reads the renamed keys, accepts any time string as 0 and treats a missing Meta as none |
| WasmTypes.FileInfoJsonRoundTrip | agfs-server/examples/agfs-wasm-ffi/src/types.rs:42-75 | decoding the serialised form gives back every field except the modification time, which becomes 0 |
| WasmTypes.FileInfoRoundTripsIffZeroTime | agfs-server/examples/agfs-wasm-ffi/src/types.rs:58-75 | a record survives the JSON boundary unchanged exactly when its modification time is 0 |
| WasmTypes.ConfigParameterToJson | agfs-server/examples/agfs-wasm-ffi/src/types.rs:144-152 | a parameter serialises with `param_type` under the key `type` |
| WasmTypes.Config.GetStr | agfs-server/examples/agfs-wasm-ffi/src/types.rs:182-184 | a string exactly when the key is present with a string value |
| WasmTypes.Config.GetI64 | agfs-server/examples/agfs-wasm-ffi/src/types.rs:187-189 | an integer exactly when the key is present with an integer in the 64-bit range |
| WasmTypes.Config.GetBool | agfs-server/examples/agfs-wasm-ffi/src/types.rs:192-194 | a boolean exactly when the key is present with a boolean value |
| WasmTypes.GettersExclusive | agfs-server/examples/agfs-wasm-ffi/src/types.rs:180-195 | for one key at most one of the three typed getters answers |
| WasmTypes.ConfigFrom | agfs-server/examples/agfs-wasm-ffi/src/types.rs:202-211 | an object value gives its members, anything else an empty configuration |
| WasmTypes.NonObjectConfigIsEmpty | agfs-server/examples/agfs-wasm-ffi/src/types.rs:202-211 | a configuration built from a non-object contains no key and every getter answers none |
| Flags.WriteFlag.With | agfs-server/examples/agfs-wasm-ffi/src/types.rs:236-239 | adding a non-empty flag to a set gives a set that contains it |
| Flags.WithContainsOnlyParts | agfs-server/examples/agfs-wasm-ffi/src/types.rs:231-239 | a combined write-flag set contains a flag only if one of its two parts does |
| Flags.WithKeeps | agfs-server/examples/agfs-wasm-ffi/src/types.rs:231-239 | combining keeps every flag the original set contains |
| Flags.WriteFlagFromU32 | agfs-server/examples/agfs-wasm-ffi/src/types.rs:242-246 | the conversion from a 32-bit word keeps every bit |
| Flags.U32FromWriteFlag | agfs-server/examples/agfs-wasm-ffi/src/types.rs:248-252 | the conversion to a 32-bit word loses nothing: wrapping the word again gives the flag back |
| Flags.WriteFlagConversions | agfs-server/examples/agfs-wasm-ffi/src/types.rs:242-252 | the two conversions between words and write flags are mutual inverses |
| Flags.WriteFlagConstants | agfs-server/examples/agfs-wasm-ffi/src/types.rs:218-234 | APPEND, CREATE, EXCLUSIVE, TRUNCATE and SYNC are the values 1, 2, 4, 8 and 16 and pairwise disjoint; NONE contains nothing and is contained in nothing |
| Flags.OpenFlag.With | agfs-server/examples/agfs-wasm-ffi/src/types.rs:279-282 | adding a non-empty open flag gives a set that contains it |
| Flags.OpenFlag.AccessMode | agfs-server/examples/agfs-wasm-ffi/src/types.rs:284-287 | the access mode is one of the four values 0 to 3 held in the two low bits |
| Flags.OpenFlagOr | agfs-server/examples/agfs-wasm-ffi/src/types.rs:314-319 | `a | b` is `a.with(b)`, and equal to `b.with(a)` |
| Flags.OpenFlagFromU32 | agfs-server/examples/agfs-wasm-ffi/src/types.rs:302-306 | the conversion from a 32-bit word keeps every bit |
| Flags.U32FromOpenFlag | agfs-server/examples/agfs-wasm-ffi/src/types.rs:308-312 | wrapping the word again gives the open flag back |
| Flags.OpenFlagConversions | agfs-server/examples/agfs-wasm-ffi/src/types.rs:302-312 | the two conversions between words and open flags are mutual inverses |
| Flags.AccessModeClassification | agfs-server/examples/agfs-wasm-ffi/src/types.rs:284-299 | readable exactly for O_RDONLY and O_RDWR, writable exactly for O_WRONLY and O_RDWR, both only for O_RDWR; access mode 3 is neither |
| Flags.ModifiersKeepAccessMode | agfs-server/examples/agfs-wasm-ffi/src/types.rs:265-298 | adding O_APPEND, O_CREATE, O_EXCL or O_TRUNC never changes the access mode, readability or writability |
| WasmFfi.ResultToErrorPtr | agfs-server/examples/agfs-wasm-ffi/src/ffi.rs:11-16 | the pointer is null exactly on success; on failure it points to the error's text |
| WasmFfi.ReadConfig | agfs-server/examples/agfs-wasm-ffi/src/ffi.rs:19-31 | a null pointer gives the empty configuration, unparsable text an InvalidInput error with the parser's message, and parsed JSON its configuration |
| WasmFfi.MalformedConfigIsError | agfs-server/examples/agfs-wasm-ffi/src/ffi.rs:19-31 | malformed configuration text is reported as an InvalidInput error, never replaced by a default |
| WasmFfi.FileInfoToJsonPtr | agfs-server/examples/agfs-wasm-ffi/src/ffi.rs:34-39 | the serialised record's text on success, an Other error prefixed "JSON serialization failed: " otherwise |
| WasmFfi.FileInfosToJson | agfs-server/examples/agfs-wasm-ffi/src/ffi.rs:42-47 | a listing serialises as an array with one serialised record per entry, in order |
| WasmFfi.FileInfosToJsonPtr | agfs-server/examples/agfs-wasm-ffi/src/ffi.rs:42-47 | the serialised listing's text on success, an Other error prefixed "JSON serialization failed: " otherwise |
| WasmFfi.PackBuffer | agfs-server/examples/agfs-wasm-ffi/src/ffi.rs:50-62 | a successful read packs the buffer address above the truncated length, and is never the error word 0 |
| WasmFfi.PackJsonOrError | agfs-server/examples/agfs-wasm-ffi/src/ffi.rs:65-97 | success packs the JSON pointer above 0, failure packs 0 above the error text; the high half is non-null exactly on success |
| WasmFfi.HandleRead | agfs-server/examples/agfs-wasm-ffi/src/ffi.rs:50-62 | the word is 0 exactly when the plugin's read fails; otherwise it holds the data's buffer and length |
| WasmFfi.HandleStat | agfs-server/examples/agfs-wasm-ffi/src/ffi.rs:65-81 | a plugin error packs its text in the low half; the high half is non-null exactly when both the stat and its serialisation succeed |
| WasmFfi.HandleReaddir | agfs-server/examples/agfs-wasm-ffi/src/ffi.rs:84-100 | as for stat, over the JSON array of the directory entries |
| WasmFfi.HandleWrite | agfs-server/examples/agfs-wasm-ffi/src/ffi.rs:102-136 | success packs the byte count (low 32 bits) above 0; failure packs 0 above the error text; the low half is non-null exactly on failure, and the flag word reaches the plugin unchanged |
| WasmFfi.HandleCreate | agfs-server/examples/agfs-wasm-ffi/src/ffi.rs:139-142 | null exactly when the plugin's create succeeds, else its error text |
| WasmFfi.HandleMkdir | agfs-server/examples/agfs-wasm-ffi/src/ffi.rs:145-148 | null exactly when mkdir succeeds, else its error text |
| WasmFfi.HandleRemove | agfs-server/examples/agfs-wasm-ffi/src/ffi.rs:151-154 | null exactly when remove succeeds, else its error text |
| WasmFfi.HandleRemoveAll | agfs-server/examples/agfs-wasm-ffi/src/ffi.rs:157-160 | null exactly when remove-all succeeds, else its error text |
| WasmFfi.HandleRename | agfs-server/examples/agfs-wasm-ffi/src/ffi.rs:163-171 | null exactly when rename succeeds, else its error text |
| WasmFfi.HandleChmod | agfs-server/examples/agfs-wasm-ffi/src/ffi.rs:174-177 | null exactly when chmod succeeds, else its error text |
| WasmFfi.ReadOnlyPluginHandlers | agfs-server/examples/agfs-wasm-ffi/src/ffi.rs:139-160 | a plugin that overrides no mutator answers create, remove-all and write with "read-only filesystem" |
| WasmFs.Minimal | agfs-server/examples/agfs-wasm-ffi/src/filesystem.rs:9-106 | an implementation that supplies only the name, stat and readdir has those and overrides nothing else |
| WasmFs.Readme | agfs-server/examples/agfs-wasm-ffi/src/filesystem.rs:14-16 | without an override the readme is "No documentation available" |
| WasmFs.ConfigParams | agfs-server/examples/agfs-wasm-ffi/src/filesystem.rs:19-21 | without an override there are no configuration parameters |
| WasmFs.Validate | agfs-server/examples/agfs-wasm-ffi/src/filesystem.rs:27-29 | without an override every configuration is valid |
| WasmFs.Initialize | agfs-server/examples/agfs-wasm-ffi/src/filesystem.rs:35-37 | without an override initialisation succeeds |
| WasmFs.Shutdown | agfs-server/examples/agfs-wasm-ffi/src/filesystem.rs:43-45 | without an override shutdown succeeds |
| WasmFs.Read | agfs-server/examples/agfs-wasm-ffi/src/filesystem.rs:53-55 | without an override a read fails with ReadOnly |
| WasmFs.Write | agfs-server/examples/agfs-wasm-ffi/src/filesystem.rs:67-69 | without an override a write fails with ReadOnly |
| WasmFs.Create | agfs-server/examples/agfs-wasm-ffi/src/filesystem.rs:72-74 | without an override create fails with ReadOnly |
| WasmFs.Mkdir | agfs-server/examples/agfs-wasm-ffi/src/filesystem.rs:77-79 | without an override mkdir fails with ReadOnly |
| WasmFs.Remove | agfs-server/examples/agfs-wasm-ffi/src/filesystem.rs:82-84 | without an override remove fails with ReadOnly |
| WasmFs.RemoveAll | agfs-server/examples/agfs-wasm-ffi/src/filesystem.rs:87-89 | without an override remove-all fails with ReadOnly |
| WasmFs.Rename | agfs-server/examples/agfs-wasm-ffi/src/filesystem.rs:98-100 | without an override rename fails with ReadOnly |
| WasmFs.Chmod | agfs-server/examples/agfs-wasm-ffi/src/filesystem.rs:103-105 | without an override chmod fails with ReadOnly |
| WasmFs.MinimalDefaults | agfs-server/examples/agfs-wasm-ffi/src/filesystem.rs:9-106 | an implementation that overrides nothing is read-only, undocumented, parameter-less, and its lifecycle calls succeed |
| WasmFs.FromReadOnly | agfs-server/examples/agfs-wasm-ffi/src/filesystem.rs:131-152 | the blanket implementation keeps the name, stat, readdir and read of the read-only filesystem |
| WasmFs.ReadOnlyForwarding | agfs-server/examples/agfs-wasm-ffi/src/filesystem.rs:131-152 | the blanket implementation forwards readme, read, stat and readdir, and every mutator fails with ReadOnly |
| WasmFs.WhenceOf | agfs-server/examples/agfs-wasm-ffi/src/filesystem.rs:179-181 | the whence codes 0, 1 and 2 are start, current and end, and no other code is a whence |
| WasmExport.ParamsJson | agfs-server/examples/agfs-wasm-ffi/src/macros.rs:44-56 | the parameter list serialises as an array with one element per parameter, in order |
| WasmExport.PluginModule.constructor | agfs-server/examples/agfs-wasm-ffi/src/macros.rs:5-21 | the module starts with no instance and two distinct 64 KiB shared buffers |
| WasmExport.PluginModule.PluginNew | agfs-server/examples/agfs-wasm-ffi/src/macros.rs:16-21 | installs the default instance and reports 1 |
| WasmExport.PluginModule.PluginName | agfs-server/examples/agfs-wasm-ffi/src/macros.rs:24-31 | traps exactly when no instance exists; otherwise the C string of the plugin's name |
| WasmExport.PluginModule.PluginGetReadme | agfs-server/examples/agfs-wasm-ffi/src/macros.rs:34-41 | traps exactly when no instance exists; otherwise the C string of the plugin's readme, the default text when the plugin has none |
| WasmExport.PluginModule.PluginGetConfigParams | agfs-server/examples/agfs-wasm-ffi/src/macros.rs:44-56 | traps exactly when no instance exists; otherwise the JSON text of the parameters, or "[]" when serialising fails |
| WasmExport.PluginModule.PluginValidate | agfs-server/examples/agfs-wasm-ffi/src/macros.rs:59-70 | a configuration error is returned even without an instance; a good configuration traps exactly when no instance exists and otherwise returns null when validation succeeds and the C string of the error's text when it fails |
| WasmExport.PluginModule.PluginInitialize | agfs-server/examples/agfs-wasm-ffi/src/macros.rs:73-84 | the same shape as validation, over initialisation: null on success, the C string of the error's text on failure |
| WasmExport.PluginModule.PluginShutdown | agfs-server/examples/agfs-wasm-ffi/src/macros.rs:87-94 | traps exactly without an instance; otherwise null exactly when shutdown succeeds, and the C string of the error's text when it fails |
| WasmExport.PluginModule.FsRead | agfs-server/examples/agfs-wasm-ffi/src/macros.rs:97-115 | traps exactly without an instance; a failed read returns 0 and a successful one packs its buffer and length |
| WasmExport.PluginModule.FsStat | agfs-server/examples/agfs-wasm-ffi/src/macros.rs:118-141 | traps exactly without an instance; (json, 0) on success; (0, error text) on a stat failure; on a serialisation failure the error half is the text "JSON serialization failed: " followed by the serialiser's message |
| WasmExport.PluginModule.FsReaddir | agfs-server/examples/agfs-wasm-ffi/src/macros.rs:144-167 | as stat, over the JSON array of the entries, with the same "JSON serialization failed: " text |
| WasmExport.PluginModule.FsWrite | agfs-server/examples/agfs-wasm-ffi/src/macros.rs:170-189 | traps exactly without an instance; the response bytes as (buffer, length) on success and 0 on any error |
| WasmExport.PluginModule.FsCreate | agfs-server/examples/agfs-wasm-ffi/src/macros.rs:192-203 | traps exactly without an instance; null exactly when create succeeds, otherwise the error text |
| WasmExport.PluginModule.FsMkdir | agfs-server/examples/agfs-wasm-ffi/src/macros.rs:206-217 | traps exactly without an instance; null exactly when mkdir succeeds, otherwise the error text |
| WasmExport.PluginModule.FsRemove | agfs-server/examples/agfs-wasm-ffi/src/macros.rs:220-231 | traps exactly without an instance; null exactly when remove succeeds, otherwise the error text |
| WasmExport.PluginModule.FsRemoveAll | agfs-server/examples/agfs-wasm-ffi/src/macros.rs:234-245 | traps exactly without an instance; null exactly when remove-all succeeds, otherwise the error text |
| WasmExport.PluginModule.FsRename | agfs-server/examples/agfs-wasm-ffi/src/macros.rs:248-260 | traps exactly without an instance; null exactly when rename succeeds, otherwise the error text |
| WasmExport.PluginModule.FsChmod | agfs-server/examples/agfs-wasm-ffi/src/macros.rs:263-274 | traps exactly without an instance; null exactly when chmod succeeds, otherwise the error text |
| WasmExport.PluginModule.GetSharedBufferSize | agfs-server/examples/agfs-wasm-ffi/src/macros.rs:276-298 | both shared buffers hold 65536 bytes, the size reported |
| WasmExport.NoTrapAfterPluginNew | agfs-server/examples/agfs-wasm-ffi/src/macros.rs:16-274 | once the default instance is installed, the entry points answer instead of trapping |
| WasmExport.Allocator.constructor | agfs-server/examples/agfs-wasm-ffi/src/macros.rs:300-327 | no block is live at start |
| WasmExport.Allocator.Malloc | agfs-server/examples/agfs-wasm-ffi/src/macros.rs:302-313 | a zero-byte request gives null and allocates nothing; a request above isize::MAX (2^31-1 on wasm32) aborts, as the unwrap of the refused layout does, and allocates nothing; otherwise the allocator's answer, recorded as live when non-null |
| WasmExport.Allocator.Free | agfs-server/examples/agfs-wasm-ffi/src/macros.rs:316-327 | a null pointer or a zero size changes nothing; a size above isize::MAX with a non-null pointer aborts; otherwise the block is no longer live |
| HelloWasm.Lift | agfs-server/examples/hellofs-wasm/src/lib.rs:62-64 | a host result passes through unchanged on success; a host failure becomes an Other error prefixed "host fs: " |
| HelloWasm.HostPath | agfs-server/examples/hellofs-wasm/src/lib.rs:59-62 | a path is forwarded exactly when it starts with "/host/" and a prefix is configured, and then maps to the prefix followed by the rest after "/host" |
| HelloWasm.HelloIsNotHostPath | agfs-server/examples/hellofs-wasm/src/lib.rs:56-62 | the built-in file is never forwarded to the host |
| HelloWasm.Read | agfs-server/examples/hellofs-wasm/src/lib.rs:56-68 | the built-in file reads as "Hello World\n" whatever the offset and size; forwarded paths read from the host; anything else is NotFound |
| HelloWasm.Stat | agfs-server/examples/hellofs-wasm/src/lib.rs:70-96 | the root and the built-in file have fixed records, "/host" exists exactly when a prefix is configured and is then the directory "host" of mode 0755, forwarded paths ask the host, anything else is NotFound |
| HelloWasm.ListingAgreesWithStat | agfs-server/examples/hellofs-wasm/src/lib.rs:70-96 | each entry of the root listing, the built-in file and (with a prefix) "host", is the record stat gives for its path |
| HelloWasm.HelloSizeMatchesContent | agfs-server/examples/hellofs-wasm/src/lib.rs:56-96 | the size stat reports for the built-in file is the length read returns |
| HelloWasm.Readdir | agfs-server/examples/hellofs-wasm/src/lib.rs:98-145 | the root lists the built-in file, then "host" when a prefix is configured; "/host" and forwarded paths list the host directory; anything else is NotFound |
| HelloWasm.Write | agfs-server/examples/hellofs-wasm/src/lib.rs:147-159 | writes outside "/host/" are PermissionDenied; a forwarded write reports the whole input as written or an Other error |
| HelloWasm.Create | agfs-server/examples/hellofs-wasm/src/lib.rs:161-171 | PermissionDenied outside "/host/", otherwise the host's answer |
| HelloWasm.Mkdir | agfs-server/examples/hellofs-wasm/src/lib.rs:173-183 | PermissionDenied outside "/host/", otherwise the host's answer |
| HelloWasm.Remove | agfs-server/examples/hellofs-wasm/src/lib.rs:185-195 | PermissionDenied outside "/host/", otherwise the host's answer |
| HelloWasm.RemoveAll | agfs-server/examples/hellofs-wasm/src/lib.rs:197-207 | PermissionDenied outside "/host/", otherwise the host's answer |
| HelloWasm.Rename | agfs-server/examples/hellofs-wasm/src/lib.rs:209-221 | forwarded only when both ends lie under "/host/", otherwise PermissionDenied |
| HelloWasm.Chmod | agfs-server/examples/hellofs-wasm/src/lib.rs:223-225 | always succeeds |
| HelloWasm.NoPrefixIsHelloOnly | agfs-server/examples/hellofs-wasm/src/lib.rs:56-221 | without a configured prefix every path other than the root and the built-in file is missing for reading and refused for writing |
| HelloWasm.AsFileSystem | agfs-server/examples/hellofs-wasm/src/lib.rs:37-226 | the plugin, as the SDK sees it, is named "hellofs-wasm" and overrides read, write and chmod |
| HelloWasm.DispatchThroughSdk | agfs-server/examples/hellofs-wasm/src/lib.rs:37-226 | through the SDK dispatch the built-in file reads in full, chmod succeeds and the readme is the plugin's own |
| HelloWasm.HexDigits | agfs-server/examples/hellofs-wasm/src/lib.rs:24-29 | exactly k characters, each a hex digit |
| HelloWasm.HexRoundTrip | agfs-server/examples/hellofs-wasm/src/lib.rs:24-29 | reading back k hex digits gives the number whenever it has at most k digits |
| HelloWasm.Pow16Add | agfs-server/examples/hellofs-wasm/src/lib.rs:24-29 | 16^(a+b) = 16^a · 16^b |
| HelloWasm.Pow16Sixteen | agfs-server/examples/hellofs-wasm/src/lib.rs:21-29 | sixteen hex digits cover exactly the u64 range of the counter |
| HelloWasm.HandleId | agfs-server/examples/hellofs-wasm/src/lib.rs:24-29 | an identifier is "wh_" followed by sixteen digits, 19 characters in all |
| HelloWasm.ParseHandleIdRoundTrip | agfs-server/examples/hellofs-wasm/src/lib.rs:24-29 | every identifier reads back as the counter value it was made from |
| HelloWasm.HandleIdInjective | agfs-server/examples/hellofs-wasm/src/lib.rs:24-29 | different counter values give different identifiers |
| HelloWasm.OpenDecision | agfs-server/examples/hellofs-wasm/src/lib.rs:229-268 | a successful open records the path and flags at position 0, with in-memory content exactly for the built-in file and a host path otherwise |
| HelloWasm.OpenFailures | agfs-server/examples/hellofs-wasm/src/lib.rs:229-268 | a missing file without O_CREATE is NotFound, an existing one under O_CREATE and O_EXCL is AlreadyExists, and a path neither built in nor forwarded never opens |
| HelloWasm.OpenHello | agfs-server/examples/hellofs-wasm/src/lib.rs:229-268 | the built-in file opens exactly unless the open is exclusive-create |
| HelloWasm.RootDoesNotOpen | agfs-server/examples/hellofs-wasm/src/lib.rs:229-268 | the directories "/" and "/host" cannot be opened |
| HelloWasm.Lookup | agfs-server/examples/hellofs-wasm/src/lib.rs:270-431 | a handle identifier resolves exactly when it is open, and every other identifier is NotFound |
| HelloWasm.ReadAt | agfs-server/examples/hellofs-wasm/src/lib.rs:288-317 | an unreadable handle is PermissionDenied; a read never returns more than the buffer holds, and never fails on in-memory content |
| HelloWasm.ReadAtContent | agfs-server/examples/hellofs-wasm/src/lib.rs:288-317 | on in-memory content a positioned read copies min(buffer, remaining) bytes from the offset cast to a 32-bit usize (its remainder modulo 2^32), and nothing from a negative offset or one whose cast lies at or past the end |
| HelloWasm.ReadAtSmallOffset | agfs-server/examples/hellofs-wasm/src/lib.rs:296-304 | an offset inside the content, below 2^32, reads the content from that offset up to the buffer's length or the end |
| HelloWasm.ReadAtWrapsOffset | agfs-server/examples/hellofs-wasm/src/lib.rs:296-304 | on in-memory content offsets 2^32 apart read the same bytes, so an offset of 2^32 reads from the start, as `offset as usize` does on wasm32 |
| HelloWasm.WriteTarget | agfs-server/examples/hellofs-wasm/src/lib.rs:319-349 | under O_APPEND the target is the end of the file (the host's size for a host file), otherwise the handle's position |
| HelloWasm.WriteAt | agfs-server/examples/hellofs-wasm/src/lib.rs:351-372 | only writable host handles accept data, and then all of it; the built-in file refuses |
| HelloWasm.WriteDecision | agfs-server/examples/hellofs-wasm/src/lib.rs:319-349 | an unwritable handle is PermissionDenied; a write succeeds exactly when its target resolves and the positioned write does |
| HelloWasm.HelloHandleRefusesWrites | agfs-server/examples/hellofs-wasm/src/lib.rs:319-372 | a handle on the built-in file refuses every write, in any mode |
| HelloWasm.SeekSize | agfs-server/examples/hellofs-wasm/src/lib.rs:374-400 | the end a seek measures from is the content length, the host's size, or 0 for a handle with neither |
| HelloWasm.SeekDecision | agfs-server/examples/hellofs-wasm/src/lib.rs:374-400 | set, current and end positions as whence 0, 1, 2 say, where the sums wrap around as i64 additions in a release build; a position in range is the exact sum; never negative; any other whence is "invalid whence" |
| HelloWasm.SeekOverflowRefused | agfs-server/examples/hellofs-wasm/src/lib.rs:388-395 | a relative seek by i64::MAX from position 1 wraps around to i64::MIN and is refused as a negative position |
| HelloWasm.SeekNegativeRefused | agfs-server/examples/hellofs-wasm/src/lib.rs:374-400 | a seek whose sum lies in the i64 range below 0 is refused with "negative position" |
| HelloWasm.StatOf | agfs-server/examples/hellofs-wasm/src/lib.rs:407-421 | the built-in file by its content length, a host file by the host's record, otherwise NotFound |
| HelloWasm.CopyPrefix | agfs-server/examples/hellofs-wasm/src/lib.rs:288-317 | the front of the buffer receives the data and the rest of it is unchanged |
| HelloWasm.HelloFs.constructor | agfs-server/examples/hellofs-wasm/src/lib.rs:31-35 | no prefix, no handles and a zero counter |
| HelloWasm.HelloFs.Initialize | agfs-server/examples/hellofs-wasm/src/lib.rs:48-54 | takes the prefix from a string "host_prefix" and otherwise keeps the old one; always succeeds |
| HelloWasm.HelloFs.GenerateHandleId | agfs-server/examples/hellofs-wasm/src/lib.rs:21-29 | increments the counter with wrap-around at 2^64 and returns the identifier of the new value |
| HelloWasm.HelloFs.OpenHandle | agfs-server/examples/hellofs-wasm/src/lib.rs:229-268 | a refused open changes nothing; a successful one adds the new state under a fresh identifier, which is not already open while the counter has not wrapped |
| HelloWasm.HelloFs.HandleReadAt | agfs-server/examples/hellofs-wasm/src/lib.rs:288-317 | fills the front of the buffer with the positioned read (offset cast to a 32-bit usize on in-memory content) and leaves the handle's position alone |
| HelloWasm.HelloFs.HandleRead | agfs-server/examples/hellofs-wasm/src/lib.rs:270-286 | reads at the handle's position (cast to a 32-bit usize on in-memory content, so a position of 2^32 reads from the start) and advances it by exactly the number of bytes read, as an i64 addition; on failure nothing changes |
| HelloWasm.HelloFs.HandleWriteAt | agfs-server/examples/hellofs-wasm/src/lib.rs:351-372 | an unknown handle is NotFound, otherwise the positioned write's answer (the offset is unused) |
| HelloWasm.HelloFs.HandleWrite | agfs-server/examples/hellofs-wasm/src/lib.rs:319-349 | on success the position moves to the resolved target plus the count, as an i64 addition; on failure nothing changes |
| HelloWasm.HelloFs.HandleSeek | agfs-server/examples/hellofs-wasm/src/lib.rs:374-400 | the new position is the seek decision (with its i64 wrap-around); a refused seek leaves the position unchanged |
| HelloWasm.HelloFs.HandleSync | agfs-server/examples/hellofs-wasm/src/lib.rs:402-405 | succeeds exactly for an open handle |
| HelloWasm.HelloFs.HandleStat | agfs-server/examples/hellofs-wasm/src/lib.rs:407-421 | an unknown handle is NotFound, otherwise the handle's record |
| HelloWasm.HelloFs.HandleInfo | agfs-server/examples/hellofs-wasm/src/lib.rs:423-426 | the path and flags recorded at open time |
| HelloWasm.HelloFs.CloseHandle | agfs-server/examples/hellofs-wasm/src/lib.rs:428-431 | removes an open handle, so closing it again reports NotFound |
| HelloWasm.UnknownHandle | agfs-server/examples/hellofs-wasm/src/lib.rs:351-426 | every handle operation on an identifier that is not open reports NotFound |
| NativeTypes.DefaultMetadata | agfs-server/examples/hellofs-rust/agfs-ffi/src/types.rs:99-107 | default metadata has an empty name and type and "{}" as content |
| NativeTypes.FileWithMetadata | agfs-server/examples/hellofs-rust/agfs-ffi/src/types.rs:34-50 | a regular-file record with the given fields and metadata, stamped with the current time |
| NativeTypes.DirectoryWithMetadata | agfs-server/examples/hellofs-rust/agfs-ffi/src/types.rs:51-66 | a directory record of size 0 with the given metadata, stamped with the current time |
| NativeTypes.File | agfs-server/examples/hellofs-rust/agfs-ffi/src/types.rs:24-28 | a file is a file with default metadata |
| NativeTypes.Directory | agfs-server/examples/hellofs-rust/agfs-ffi/src/types.rs:29-33 | a directory is a directory with default metadata |
| NativeTypes.WithModTime | agfs-server/examples/hellofs-rust/agfs-ffi/src/types.rs:67-70 | the new record has the given modification time |
| NativeTypes.WithModTimeKeepsOtherFields | agfs-server/examples/hellofs-rust/agfs-ffi/src/types.rs:67-70 | setting the modification time changes no other field |
| NativeTypes.WithModTimeLastWins | agfs-server/examples/hellofs-rust/agfs-ffi/src/types.rs:67-70 | the last time set wins, and setting the current time changes nothing |
| NativeTypes.FileAndDirectoryDiffer | agfs-server/examples/hellofs-rust/agfs-ffi/src/types.rs:24-33 | a file and a directory record are never equal; a directory has size 0 and a file its given size |
| NativeFfi.AsCInt | agfs-server/examples/hellofs-rust/agfs-ffi/src/ffi.rs:212-213 | a length is kept when it fits in a C int, and the result is always in the C int range |
| NativeFfi.CStrToStr | agfs-server/examples/hellofs-rust/agfs-ffi/src/ffi.rs:98-103 | a null pointer is "null pointer", bytes that are not UTF-8 are "invalid UTF-8", anything else its text |
| NativeFfi.ErrorToCString | agfs-server/examples/hellofs-rust/agfs-ffi/src/ffi.rs:106-110 | a text without a NUL byte becomes a non-null C string; a text with one aborts |
| NativeFfi.FixedTextsReturn | agfs-server/examples/hellofs-rust/agfs-ffi/src/ffi.rs:98-125 | the fixed error texts of the boundary never abort |
| NativeFfi.Status | agfs-server/examples/hellofs-rust/agfs-ffi/src/ffi.rs:106-115 | null exactly on success, otherwise the error's text |
| NativeFfi.PathEntry | agfs-server/examples/hellofs-rust/agfs-ffi/src/ffi.rs:298-388 | a null plugin reports "plugin is null", a bad path its conversion error, anything else the operation's status |
| NativeFfi.PathEntryNullIffSuccess | agfs-server/examples/hellofs-rust/agfs-ffi/src/ffi.rs:298-388 | a path entry point returns null exactly when the plugin exists, the path converts and the operation succeeds |
| NativeFfi.PluginValidate | agfs-server/examples/hellofs-rust/agfs-ffi/src/ffi.rs:119-142 | null exactly when the plugin exists, the configuration converts and validation succeeds |
| NativeFfi.PluginInitialize | agfs-server/examples/hellofs-rust/agfs-ffi/src/ffi.rs:144-167 | null exactly when the plugin exists, the configuration converts and initialisation succeeds |
| NativeFfi.PluginShutdown | agfs-server/examples/hellofs-rust/agfs-ffi/src/ffi.rs:169-182 | "plugin is null" for a null plugin, otherwise the shutdown's status |
| NativeFfi.FsCreate | agfs-server/examples/hellofs-rust/agfs-ffi/src/ffi.rs:298-318 | null exactly when create succeeds on an existing plugin with a convertible path |
| NativeFfi.FsMkdir | agfs-server/examples/hellofs-rust/agfs-ffi/src/ffi.rs:320-344 | null exactly when mkdir succeeds on an existing plugin with a convertible path |
| NativeFfi.FsRemove | agfs-server/examples/hellofs-rust/agfs-ffi/src/ffi.rs:346-366 | null exactly when remove succeeds on an existing plugin with a convertible path |
| NativeFfi.FsRemoveAll | agfs-server/examples/hellofs-rust/agfs-ffi/src/ffi.rs:368-388 | null exactly when remove-all succeeds on an existing plugin with a convertible path |
| NativeFfi.FsChmod | agfs-server/examples/hellofs-rust/agfs-ffi/src/ffi.rs:461-485 | null exactly when chmod succeeds on an existing plugin with a convertible path |
| NativeFfi.FsRename | agfs-server/examples/hellofs-rust/agfs-ffi/src/ffi.rs:428-459 | the old path's conversion error comes first, then the new path's; null exactly when both convert and the rename succeeds |
| NativeFfi.DefaultMutatorsReportReadOnly | agfs-server/examples/hellofs-rust/agfs-ffi/src/ffi.rs:298-485 | a plugin that overrides create and chmod reports the read-only error text through them |
| NativeFfi.FileInfoCOf | agfs-server/examples/hellofs-rust/agfs-ffi/src/ffi.rs:33-54 | the conversion to the C record aborts exactly when a text field holds a NUL byte; the directory flag is 1 exactly for directories |
| NativeFfi.FileInfoCKeepsFields | agfs-server/examples/hellofs-rust/agfs-ffi/src/ffi.rs:33-54 | converting to the C record loses no field |
| NativeFfi.FsStat | agfs-server/examples/hellofs-rust/agfs-ffi/src/ffi.rs:226-246 | null for a null plugin, a bad path or a failed stat; otherwise the boxed C record |
| NativeFfi.StatNonNullMeansFound | agfs-server/examples/hellofs-rust/agfs-ffi/src/ffi.rs:226-246 | a non-null stat result means the plugin found the path |
| NativeFfi.FileInfosC | agfs-server/examples/hellofs-rust/agfs-ffi/src/ffi.rs:273-275 | one C record per entry, in order, aborting exactly when one of the conversions does |
| NativeFfi.OutInt.constructor | agfs-server/examples/hellofs-rust/agfs-ffi/src/ffi.rs:184-190 | an out parameter holds the value it was given |
| NativeFfi.ReadReplyCases | agfs-server/examples/hellofs-rust/agfs-ffi/src/ffi.rs:184-224 | -1 and the error text for a null plugin, a bad path or a failed read; otherwise the content's length and its C string |
| NativeFfi.FsRead | agfs-server/examples/hellofs-rust/agfs-ffi/src/ffi.rs:184-224 | the length written through out_len and the pointer returned are those the read reply gives |
| NativeFfi.ReaddirReplyCases | agfs-server/examples/hellofs-rust/agfs-ffi/src/ffi.rs:248-296 | a null result always comes with count -1; a listing gives its entry count and the boxed array of its records |
| NativeFfi.FsReaddir | agfs-server/examples/hellofs-rust/agfs-ffi/src/ffi.rs:248-296 | the pointer returned is the readdir reply, and the count written through out_count is its count |
| NativeFfi.FsWrite | agfs-server/examples/hellofs-rust/agfs-ffi/src/ffi.rs:392-426 | -1 for a null plugin, a bad path, a null buffer or a negative length; otherwise the plugin's count for the first data_len bytes, or -1 on error |
| NativeFfi.DefaultWriteFails | agfs-server/examples/hellofs-rust/agfs-ffi/src/ffi.rs:392-426 | a plugin that does not override write always answers -1 |
| NativeFs.Minimal | agfs-server/examples/hellofs-rust/agfs-ffi/src/filesystem.rs:57-173 | an implementation that supplies only the required members overrides nothing else |
| NativeFs.Readme | agfs-server/examples/hellofs-rust/agfs-ffi/src/filesystem.rs:62-64 | without an override the readme is the text "# Plugin", a blank line, "No documentation provided." |
| NativeFs.Validate | agfs-server/examples/hellofs-rust/agfs-ffi/src/filesystem.rs:67-69 | without an override validation succeeds |
| NativeFs.Initialize | agfs-server/examples/hellofs-rust/agfs-ffi/src/filesystem.rs:72-74 | without an override initialisation succeeds |
| NativeFs.Shutdown | agfs-server/examples/hellofs-rust/agfs-ffi/src/filesystem.rs:77-79 | without an override shutdown succeeds |
| NativeFs.Write | agfs-server/examples/hellofs-rust/agfs-ffi/src/filesystem.rs:128-133 | without an override a write fails with ReadOnly |
| NativeFs.Create | agfs-server/examples/hellofs-rust/agfs-ffi/src/filesystem.rs:135-140 | without an override create fails with ReadOnly |
| NativeFs.Mkdir | agfs-server/examples/hellofs-rust/agfs-ffi/src/filesystem.rs:142-147 | without an override mkdir fails with ReadOnly |
| NativeFs.Remove | agfs-server/examples/hellofs-rust/agfs-ffi/src/filesystem.rs:149-154 | without an override remove fails with ReadOnly |
| NativeFs.RemoveAll | agfs-server/examples/hellofs-rust/agfs-ffi/src/filesystem.rs:156-161 | without an override remove-all fails with ReadOnly |
| NativeFs.Rename | agfs-server/examples/hellofs-rust/agfs-ffi/src/filesystem.rs:163-168 | without an override rename fails with ReadOnly |
| NativeFs.Chmod | agfs-server/examples/hellofs-rust/agfs-ffi/src/filesystem.rs:170-172 | without an override chmod fails with ReadOnly |
| NativeFs.MinimalDefaults | agfs-server/examples/hellofs-rust/agfs-ffi/src/filesystem.rs:57-173 | an implementation that overrides nothing is undocumented, accepts every configuration and refuses every mutation with ReadOnly |
| ServerHandles.Normalize | agfs-server/pkg/filesystem/handle_manager.go:52-77 | each zero field of the configuration is replaced by its default (60 s, 300 s, 10000 handles, 10 s) and every other value is kept |
| ServerHandles.NormalizeDefaults | agfs-server/pkg/filesystem/handle_manager.go:33-77 | the all-zero configuration becomes the default one, and normalising is idempotent |
| ServerHandles.ClampLease | agfs-server/pkg/filesystem/handle_manager.go:88-121 | a positive request is granted up to the maximum; a non-positive one takes the fallback; no grant exceeds the maximum |
| ServerHandles.ClampLeasePositive | agfs-server/pkg/filesystem/handle_manager.go:88-121 | with positive bounds every granted lease is positive |
| ServerHandles.HexEncode | agfs-server/pkg/filesystem/handle_manager.go:80-84 | two hex digits per byte |
| ServerHandles.HexDecodeEncode | agfs-server/pkg/filesystem/handle_manager.go:80-84 | the hex text decodes back to the bytes it was made from |
| ServerHandles.GenerateId | agfs-server/pkg/filesystem/handle_manager.go:80-84 | an identifier is "h_" followed by the hex of the random bytes |
| ServerHandles.GenerateIdInjective | agfs-server/pkg/filesystem/handle_manager.go:80-84 | different random bytes give different identifiers |
| ServerHandles.ExpiryInstant | agfs-server/pkg/filesystem/handle_manager.go:124-229 | at the very instant of expiry an entry is neither listed nor swept, because listing needs strictly before and expiry strictly after |
| ServerHandles.Unexpired | agfs-server/pkg/filesystem/handle_manager.go:261-279 | a sweep keeps exactly the entries that have not expired, unchanged |
| ServerHandles.UnexpiredIdempotent | agfs-server/pkg/filesystem/handle_manager.go:261-279 | sweeping twice at the same time is sweeping once |
| ServerHandles.HandleManager.constructor | agfs-server/pkg/filesystem/handle_manager.go:52-77 | the table starts empty under the normalised configuration |
| ServerHandles.HandleManager.Count | agfs-server/pkg/filesystem/handle_manager.go:232-236 | the number of entries in the table |
| ServerHandles.HandleManager.Register | agfs-server/pkg/filesystem/handle_manager.go:88-121 | refuses at capacity and changes nothing; otherwise installs the entry under a new identifier with the clamped lease starting now, and reports its expiry |
| ServerHandles.HandleManager.Get | agfs-server/pkg/filesystem/handle_manager.go:124-146 | an unknown identifier is ErrNotFound; an expired entry is closed, dropped and ErrNotFound; a live one is returned with its lease restarted from now |
| ServerHandles.HandleManager.GetInfo | agfs-server/pkg/filesystem/handle_manager.go:149-163 | the entry exactly when it exists and has not expired, without refreshing or removing anything |
| ServerHandles.HandleManager.Renew | agfs-server/pkg/filesystem/handle_manager.go:166-197 | a live entry gets the clamped new lease from now, keeping its current lease for a non-positive request; an expired one is closed and dropped |
| ServerHandles.HandleManager.Close | agfs-server/pkg/filesystem/handle_manager.go:200-214 | closes and drops the entry, reporting the handle's own close error; an unknown or already closed identifier is ErrNotFound |
| ServerHandles.HandleManager.List | agfs-server/pkg/filesystem/handle_manager.go:217-229 | every entry whose expiry lies strictly in the future is listed, and nothing else |
| ServerHandles.HandleManager.Evict | agfs-server/pkg/filesystem/handle_manager.go:261-296 | the named entries are closed once each and dropped, and every other entry is kept |
| ServerHandles.HandleManager.Cleanup | agfs-server/pkg/filesystem/handle_manager.go:261-279 | closes and drops exactly the expired entries and keeps the rest |
| ServerHandles.HandleManager.Stop | agfs-server/pkg/filesystem/handle_manager.go:282-296 | closes every remaining entry once and leaves the table empty |
| FuseHandles.NotFoundText | agfs-fuse/pkg/fusefs/handles.go:96-116 | the error for an unknown handle is "handle <n> not found" |
| FuseHandles.Window | agfs-fuse/pkg/fusefs/handles.go:160-189 | a read of a cached file returns the bytes from the offset, at most size of them, and nothing from an offset at or past the end |
| FuseHandles.WindowsConcatenate | agfs-fuse/pkg/fusefs/handles.go:160-189 | reading a window and then the next gives the same bytes as one larger read |
| FuseHandles.SequentialReadsCoverFile | agfs-fuse/pkg/fusefs/handles.go:160-189 | reading a cached file from an offset in steps of size bytes yields all of the rest of it |
| FuseHandles.HandleManager.constructor | agfs-fuse/pkg/fusefs/handles.go:43-49 | the table starts empty with the next handle number at 1 |
| FuseHandles.HandleManager.Count | agfs-fuse/pkg/fusefs/handles.go:272-276 | the number of open handles |
| FuseHandles.HandleManager.Open | agfs-fuse/pkg/fusefs/handles.go:54-93 | the counter advances on every attempt; a server without handle support gives a local handle, a server handle gives a remote one, and any other error gives no handle; a new number was never in use while the counter has not wrapped |
| FuseHandles.HandleManager.Close | agfs-fuse/pkg/fusefs/handles.go:96-116 | the entry is removed before the server is asked, so it is gone even when the server's close fails; only remote handles are closed on the server |
| FuseHandles.HandleManager.Read | agfs-fuse/pkg/fusefs/handles.go:119-189 | a remote handle forwards the server's answer; a local handle reads the whole file once, keeps it and serves windows of the copy |
| FuseHandles.HandleManager.Write | agfs-fuse/pkg/fusefs/handles.go:192-224 | a remote handle forwards the server's count; a local handle writes the data as a whole file and reports all of it written |
| FuseHandles.HandleManager.Sync | agfs-fuse/pkg/fusefs/handles.go:227-247 | forwarded for remote handles, nothing to do for local ones, an error for unknown ones |
| FuseHandles.HandleManager.CloseAll | agfs-fuse/pkg/fusefs/handles.go:250-269 | the table is emptied; the server receives exactly one close per remote handle of the old table, in the order the table is walked, and none for a local handle; the result is the error of the last remote close that failed in that order, and no error exactly when every remote close succeeded |
| FuseHandles.RemoteHandles | agfs-fuse/pkg/fusefs/handles.go:250-269 | the server handles closed for a walk over the given keys; never more than one per key |
| FuseHandles.LastError | agfs-fuse/pkg/fusefs/handles.go:259-268 | an error reported after a walk is always the answer of a remote entry walked whose close failed |
| FuseHandles.RemoteHandlesExactly | agfs-fuse/pkg/fusefs/handles.go:250-269 | the handles closed are exactly the server handles of the remote entries walked, and a walk over local entries only closes nothing |
| FuseNode.ConvertOpenFlags | agfs-fuse/pkg/fusefs/node.go:414-445 | append, create, exclusive, truncate and sync are set exactly when their open(2) bits are |
| FuseNode.ReadOnlyAccess | agfs-fuse/pkg/fusefs/node.go:414-445 | access mode O_RDONLY gives a read-only open |
| FuseNode.WriteOnlyAccess | agfs-fuse/pkg/fusefs/node.go:414-445 | access mode O_WRONLY gives a write-only open |
| FuseNode.ReadWriteAccess | agfs-fuse/pkg/fusefs/node.go:414-445 | access mode O_RDWR gives a read-write open |
| FuseNode.AccessModeThreeHasNoAccessFlag | agfs-fuse/pkg/fusefs/node.go:414-445 | exactly access mode 3 matches no case and or-s in no access constant |
| FuseNode.ModifiersKeepAccess | agfs-fuse/pkg/fusefs/node.go:414-445 | bits outside the access mode never change the access chosen |
| FuseNode.DataSyncSetsSync | agfs-fuse/pkg/fusefs/node.go:414-445 | O_DSYNC shares its bit with O_SYNC, so a data-only sync request sets the sync flag |
| FuseNode.CreateExclusiveWrite | agfs-fuse/pkg/fusefs/node.go:414-445 | O_WRONLY, O_CREAT and O_EXCL give a write-only, create, exclusive open |
| FuseNode.TypeBits | agfs-fuse/pkg/fusefs/node.go:390-411 | the type bits lie inside the file-type mask |
| FuseNode.SymlinkBeatsDirectory | agfs-fuse/pkg/fusefs/node.go:390-411 | a symbolic link reports itself as a link even when it is also marked as a directory |
| FuseNode.TypeBitsDistinguish | agfs-fuse/pkg/fusefs/node.go:390-411 | links, directories and regular files get three distinct type codes |
| FuseNode.FillAttr | agfs-fuse/pkg/fusefs/node.go:390-411 | access, change and modification times are the same instant, the modification time as its seconds cast to unsigned 64 bits (a negative time wraps to 2^64 plus it) and its nanoseconds; the size is cast to unsigned 64 bits; the caller's uid and gid are filled in |
| FuseNode.FillAttrType | agfs-fuse/pkg/fusefs/node.go:390-411 | the type field of the attributes is the selected type when the base mode has no type bits |
| FuseNode.FillAttrPermissions | agfs-fuse/pkg/fusefs/node.go:390-411 | the permission bits are those of the base mode |
| FuseNode.Components | agfs-fuse/pkg/fusefs/node.go:22-46 | the path components are non-empty names met on the way to the root |
| FuseNode.OwnNameIsLast | agfs-fuse/pkg/fusefs/node.go:22-46 | a node's own name is the last path component |
| FuseNode.PathComponents | agfs-fuse/pkg/fusefs/node.go:22-46 | every path starts with "/", and when no name contains "/" splitting the rest gives back the components |
| FuseNode.GetPath | agfs-fuse/pkg/fusefs/node.go:22-46 | the loop builds the path of the ancestor chain |
| CppTypes.KindText | agfs-server/examples/hellofs-wasm-cpp/agfs-cpp-sdk/agfs_types.h:51-58 | every error kind has a non-empty default text |
| CppTypes.ToString | agfs-server/examples/hellofs-wasm-cpp/agfs-cpp-sdk/agfs_types.h:47-60 | an error's own message when it has one, otherwise its kind's default text; never empty |
| CppTypes.FactoryTextsMatchKinds | agfs-server/examples/hellofs-wasm-cpp/agfs-cpp-sdk/agfs_types.h:37-60 | each unit factory attaches exactly the text its kind defaults to |
| CppTypes.ParameterisedTexts | agfs-server/examples/hellofs-wasm-cpp/agfs-cpp-sdk/agfs_types.h:43-60 | invalid-input, I/O and other errors render their message, or "unknown error" when it is empty |
| CppTypes.AgreesWithRustSdk | agfs-server/examples/hellofs-wasm-cpp/agfs-cpp-sdk/agfs_types.h:37-60 | the unit texts agree with the Rust SDK's, but an invalid-input error drops the "invalid input: " prefix the Rust SDK adds |
| CppTypes.Unwrap | agfs-server/examples/hellofs-wasm-cpp/agfs-cpp-sdk/agfs_types.h:111-124 | unwrap traps exactly on an error and otherwise gives the value |
| CppTypes.UnwrapErr | agfs-server/examples/hellofs-wasm-cpp/agfs-cpp-sdk/agfs_types.h:127-138 | unwrap_err traps exactly on a success and otherwise gives the error |
| CppTypes.ExactlyOneAccessorReturns | agfs-server/examples/hellofs-wasm-cpp/agfs-cpp-sdk/agfs_types.h:108-138 | of unwrap and unwrap_err exactly one returns |
| CppTypes.NewMetaData | agfs-server/examples/hellofs-wasm-cpp/agfs-cpp-sdk/agfs_types.h:178-180 | the content defaults to "{}" |
| CppTypes.File | agfs-server/examples/hellofs-wasm-cpp/agfs-cpp-sdk/agfs_types.h:196-204 | a regular-file record with the given name, size and mode and time 0 |
| CppTypes.Dir | agfs-server/examples/hellofs-wasm-cpp/agfs-cpp-sdk/agfs_types.h:206-214 | a directory record of size 0 and time 0 |
| CppTypes.WithMeta | agfs-server/examples/hellofs-wasm-cpp/agfs-cpp-sdk/agfs_types.h:216-219 | only the metadata is replaced |
| CppTypes.WithModTime | agfs-server/examples/hellofs-wasm-cpp/agfs-cpp-sdk/agfs_types.h:221-224 | only the modification time is replaced |
| CppTypes.FileAndDirDiffer | agfs-server/examples/hellofs-wasm-cpp/agfs-cpp-sdk/agfs_types.h:196-214 | a file is not a directory, a directory has size 0, and otherwise the two constructors agree |
| CppTypes.ParseDigits | agfs-server/examples/hellofs-wasm-cpp/agfs-cpp-sdk/agfs_types.h:240-246 | std::stoll accepts a number only when at least one digit follows the sign |
| CppTypes.DigitPrefix | agfs-server/examples/hellofs-wasm-cpp/agfs-cpp-sdk/agfs_types.h:240-246 | the longest run of leading digits, which std::stoll reads |
| CppTypes.DigitPrefixOfDigits | agfs-server/examples/hellofs-wasm-cpp/agfs-cpp-sdk/agfs_types.h:240-246 | a text of digits is its own leading run |
| CppTypes.DecimalDigits | agfs-server/examples/hellofs-wasm-cpp/agfs-cpp-sdk/agfs_types.h:240-246 | a decimal numeral is all digits and its value is the number |
| CppTypes.StoLLOfDecimal | agfs-server/examples/hellofs-wasm-cpp/agfs-cpp-sdk/agfs_types.h:240-246 | std::stoll reads a decimal numeral in range as its number |
| CppTypes.ParseDecimal | agfs-server/examples/hellofs-wasm-cpp/agfs-cpp-sdk/agfs_types.h:240-246 | a numeral with an optional minus sign in the 64-bit range reads as its signed value |
| CppTypes.StoLLOfNegativeDecimal | agfs-server/examples/hellofs-wasm-cpp/agfs-cpp-sdk/agfs_types.h:240-246 | a minus sign followed by a numeral in range reads as the negative number |
| CppTypes.StoLLRejectsNonNumeric | agfs-server/examples/hellofs-wasm-cpp/agfs-cpp-sdk/agfs_types.h:240-246 | a text starting with anything other than space, sign or digit is rejected (std::stoll throws) |
| CppTypes.Config.GetStr | agfs-server/examples/hellofs-wasm-cpp/agfs-cpp-sdk/agfs_types.h:232-238 | the value exactly when the key is present |
| CppTypes.Config.GetI64 | agfs-server/examples/hellofs-wasm-cpp/agfs-cpp-sdk/agfs_types.h:240-246 | the default for a missing key; a present key traps exactly when std::stoll rejects its value, and is read as its number otherwise |
| CppTypes.Config.GetBool | agfs-server/examples/hellofs-wasm-cpp/agfs-cpp-sdk/agfs_types.h:248-254 | the default for a missing key; a present key is true exactly for "true" and "1" |
| CppTypes.ConfigNumbers | agfs-server/examples/hellofs-wasm-cpp/agfs-cpp-sdk/agfs_types.h:240-254 | a key holding a decimal number reads as that number, and as a boolean it is true only for 1 |
| CppTypes.WriteFlagOrSymmetric | agfs-server/examples/hellofs-wasm-cpp/agfs-cpp-sdk/agfs_types.h:283-294 | combining write flags is symmetric |
| CppFs.Minimal | agfs-server/examples/hellofs-wasm-cpp/agfs-cpp-sdk/agfs_filesystem.h:9-97 | an implementation that supplies only name, stat and readdir overrides nothing else |
| CppFs.Readme | agfs-server/examples/hellofs-wasm-cpp/agfs-cpp-sdk/agfs_filesystem.h:17-19 | without an override the readme is the SDK's default text |
| CppFs.Validate | agfs-server/examples/hellofs-wasm-cpp/agfs-cpp-sdk/agfs_filesystem.h:22-26 | without an override validation succeeds |
| CppFs.Initialize | agfs-server/examples/hellofs-wasm-cpp/agfs-cpp-sdk/agfs_filesystem.h:28-32 | without an override initialisation succeeds |
| CppFs.Shutdown | agfs-server/examples/hellofs-wasm-cpp/agfs-cpp-sdk/agfs_filesystem.h:34-37 | without an override shutdown succeeds |
| CppFs.Read | agfs-server/examples/hellofs-wasm-cpp/agfs-cpp-sdk/agfs_filesystem.h:39-49 | without an override a read fails with the read-only error |
| CppFs.Write | agfs-server/examples/hellofs-wasm-cpp/agfs-cpp-sdk/agfs_filesystem.h:51-55 | without an override a write fails with the read-only error |
| CppFs.Create | agfs-server/examples/hellofs-wasm-cpp/agfs-cpp-sdk/agfs_filesystem.h:57-61 | without an override create fails with the read-only error |
| CppFs.Mkdir | agfs-server/examples/hellofs-wasm-cpp/agfs-cpp-sdk/agfs_filesystem.h:63-67 | without an override mkdir fails with the read-only error |
| CppFs.Remove | agfs-server/examples/hellofs-wasm-cpp/agfs-cpp-sdk/agfs_filesystem.h:69-73 | without an override remove fails with the read-only error |
| CppFs.RemoveAll | agfs-server/examples/hellofs-wasm-cpp/agfs-cpp-sdk/agfs_filesystem.h:75-79 | without an override remove-all fails with the read-only error |
| CppFs.Rename | agfs-server/examples/hellofs-wasm-cpp/agfs-cpp-sdk/agfs_filesystem.h:87-91 | without an override rename fails with the read-only error |
| CppFs.Chmod | agfs-server/examples/hellofs-wasm-cpp/agfs-cpp-sdk/agfs_filesystem.h:93-96 | without an override chmod succeeds, unlike the Rust SDKs |
| CppFs.MinimalDefaults | agfs-server/examples/hellofs-wasm-cpp/agfs-cpp-sdk/agfs_filesystem.h:9-97 | an implementation that overrides nothing has the default readme, accepts configuration and chmod, and refuses reading and every other mutation |
| CppExport.ErrorPtr | agfs-server/examples/hellofs-wasm-cpp/agfs-cpp-sdk/agfs_export.h:138-203 | null exactly on success, otherwise the error's text |
| CppExport.JsonOrErrorWord | agfs-server/examples/hellofs-wasm-cpp/agfs-cpp-sdk/agfs_export.h:94-121 | success packs the JSON text above 0, failure packs 0 above the error text; the high half is non-null exactly on success |
| CppExport.NotInitializedWord | agfs-server/examples/hellofs-wasm-cpp/agfs-cpp-sdk/agfs_export.h:94-121 | without an instance stat and readdir pack 0 above "not initialized" |
| CppExport.PluginModule.constructor | agfs-server/examples/hellofs-wasm-cpp/agfs-cpp-sdk/agfs_export.h:24-27 | the module starts with no instance and two distinct 64 KiB buffers |
| CppExport.PluginModule.PluginNew | agfs-server/examples/hellofs-wasm-cpp/agfs-cpp-sdk/agfs_export.h:29-33 | installs a new instance and reports 1 |
| CppExport.PluginModule.PluginName | agfs-server/examples/hellofs-wasm-cpp/agfs-cpp-sdk/agfs_export.h:35-40 | null exactly without an instance, otherwise the plugin's name |
| CppExport.PluginModule.PluginGetReadme | agfs-server/examples/hellofs-wasm-cpp/agfs-cpp-sdk/agfs_export.h:41-46 | null exactly without an instance, otherwise the readme |
| CppExport.PluginModule.PluginValidate | agfs-server/examples/hellofs-wasm-cpp/agfs-cpp-sdk/agfs_export.h:47-57 | "not initialized" without an instance; null exactly when validation succeeds, otherwise its error text |
| CppExport.PluginModule.PluginInitialize | agfs-server/examples/hellofs-wasm-cpp/agfs-cpp-sdk/agfs_export.h:58-68 | "not initialized" without an instance; null exactly when initialisation succeeds, otherwise its error text |
| CppExport.PluginModule.PluginShutdown | agfs-server/examples/hellofs-wasm-cpp/agfs-cpp-sdk/agfs_export.h:69-78 | "not initialized" without an instance; null exactly when shutdown succeeds, and the text `to_string` gives for the error when it fails |
| CppExport.PluginModule.FsRead | agfs-server/examples/hellofs-wasm-cpp/agfs-cpp-sdk/agfs_export.h:79-93 | 0 exactly without an instance or on a failed read; otherwise the buffer and length of the data |
| CppExport.PluginModule.FsStat | agfs-server/examples/hellofs-wasm-cpp/agfs-cpp-sdk/agfs_export.h:94-107 | "not initialized" without an instance; otherwise (json, 0) or (0, error text); the high half is non-null exactly on success |
| CppExport.PluginModule.FsReaddir | agfs-server/examples/hellofs-wasm-cpp/agfs-cpp-sdk/agfs_export.h:108-121 | as stat, over the serialised listing |
| CppExport.PluginModule.FsWrite | agfs-server/examples/hellofs-wasm-cpp/agfs-cpp-sdk/agfs_export.h:122-137 | 0 exactly without an instance or on a failed write; otherwise the response's buffer and length |
| CppExport.PluginModule.FsCreate | agfs-server/examples/hellofs-wasm-cpp/agfs-cpp-sdk/agfs_export.h:138-148 | "not initialized" without an instance; null exactly when create succeeds, otherwise its error text |
| CppExport.PluginModule.FsMkdir | agfs-server/examples/hellofs-wasm-cpp/agfs-cpp-sdk/agfs_export.h:149-159 | "not initialized" without an instance; null exactly when mkdir succeeds, otherwise its error text |
| CppExport.PluginModule.FsRemove | agfs-server/examples/hellofs-wasm-cpp/agfs-cpp-sdk/agfs_export.h:160-170 | "not initialized" without an instance; null exactly when remove succeeds, otherwise its error text |
| CppExport.PluginModule.FsRemoveAll | agfs-server/examples/hellofs-wasm-cpp/agfs-cpp-sdk/agfs_export.h:171-181 | "not initialized" without an instance; null exactly when remove-all succeeds, otherwise its error text |
| CppExport.PluginModule.FsRename | agfs-server/examples/hellofs-wasm-cpp/agfs-cpp-sdk/agfs_export.h:182-192 | "not initialized" without an instance; null exactly when rename succeeds, otherwise its error text |
| CppExport.PluginModule.FsChmod | agfs-server/examples/hellofs-wasm-cpp/agfs-cpp-sdk/agfs_export.h:194-203 | "not initialized" without an instance; null exactly when chmod succeeds, otherwise its error text |
| CppExport.PluginModule.GetSharedBufferSize | agfs-server/examples/hellofs-wasm-cpp/agfs-cpp-sdk/agfs_export.h:205-223 | both shared buffers hold 65536 bytes, the size reported |
| CppExport.BeforePluginNew | agfs-server/examples/hellofs-wasm-cpp/agfs-cpp-sdk/agfs_export.h:29-203 | before plugin_new the name and readme are null and every other entry point reports "not initialized" or returns 0, never trapping |
| CppExport.MinimalPluginAnswers | agfs-server/examples/hellofs-wasm-cpp/agfs-cpp-sdk/agfs_export.h:79-203 | a plugin that overrides nothing answers chmod with success, create with "read-only filesystem" and read with 0 |
| HelloCpp.GetHostPath | agfs-server/examples/hellofs-wasm-cpp/src/main.cpp:14-19 | a path is forwarded exactly when it starts with "/host/" and a prefix is configured, mapping to the prefix followed by the rest after "/host" |
| HelloCpp.GetHostPathIsHostPath | agfs-server/examples/hellofs-wasm-cpp/src/main.cpp:14-19 | the C++ example forwards exactly the paths the Rust WebAssembly example forwards, to the same host path |
| HelloCpp.HelloFs.constructor | agfs-server/examples/hellofs-wasm-cpp/src/main.cpp:9-12 | no prefix is configured at start |
| HelloCpp.HelloFs.Initialize | agfs-server/examples/hellofs-wasm-cpp/src/main.cpp:32-39 | takes the prefix from "host_prefix" when present and otherwise keeps the old one; always succeeds |
| HelloCpp.HelloFs.AsFileSystem | agfs-server/examples/hellofs-wasm-cpp/src/main.cpp:9-151 | the plugin, as the SDK sees it, is named "hellofs-wasm-cpp", has its own readme and overrides read, write and chmod but not validate |
| HelloCpp.Read | agfs-server/examples/hellofs-wasm-cpp/src/main.cpp:41-53 | the built-in file reads in full; forwarded paths read from the host; anything else is not found |
| HelloCpp.Stat | agfs-server/examples/hellofs-wasm-cpp/src/main.cpp:55-70 | the root and the built-in file have fixed records, "/host" exists exactly when a prefix is configured, forwarded paths ask the host, anything else is not found |
| HelloCpp.Readdir | agfs-server/examples/hellofs-wasm-cpp/src/main.cpp:72-89 | the root lists the built-in file, then "host" when a prefix is configured; "/host" and forwarded paths list the host directory; anything else is not found |
| HelloCpp.Write | agfs-server/examples/hellofs-wasm-cpp/src/main.cpp:91-105 | permission denied outside "/host/"; a forwarded write reports the whole input or the host's error |
| HelloCpp.Create | agfs-server/examples/hellofs-wasm-cpp/src/main.cpp:107-113 | permission denied outside "/host/", otherwise the host's answer |
| HelloCpp.Mkdir | agfs-server/examples/hellofs-wasm-cpp/src/main.cpp:115-121 | permission denied outside "/host/", otherwise the host's answer |
| HelloCpp.Remove | agfs-server/examples/hellofs-wasm-cpp/src/main.cpp:123-129 | permission denied outside "/host/", otherwise the host's answer |
| HelloCpp.RemoveAll | agfs-server/examples/hellofs-wasm-cpp/src/main.cpp:131-137 | permission denied outside "/host/", otherwise the host's answer |
| HelloCpp.Rename | agfs-server/examples/hellofs-wasm-cpp/src/main.cpp:139-146 | forwarded only when both ends lie under "/host/", otherwise permission denied |
| HelloCpp.HelloSizeMatchesContent | agfs-server/examples/hellofs-wasm-cpp/src/main.cpp:41-70 | the size stat reports for the built-in file is the length read returns |
| HelloCpp.NoPrefixIsHelloOnly | agfs-server/examples/hellofs-wasm-cpp/src/main.cpp:41-146 | without a prefix every path other than the root and the built-in file is missing for reading and refused for writing |
| HelloCpp.InitializeThenList | agfs-server/examples/hellofs-wasm-cpp/src/main.cpp:32-89 | after initialising with a prefix, "/host" is a directory listed in the root whose entries are the host's |
| HelloCpp.DispatchThroughSdk | agfs-server/examples/hellofs-wasm-cpp/src/main.cpp:9-151 | through the SDK the built-in file reads in full, chmod succeeds and the readme is the plugin's own |
| HelloC.ContentLength | agfs-server/examples/hellofs-c/hellofs.c:80-83 | the file's content is 30 bytes long |
| HelloC.Plugin.constructor | agfs-server/examples/hellofs-c/hellofs.c:31-37 | a new plugin is not initialised |
| HelloC.PluginNew | agfs-server/examples/hellofs-c/hellofs.c:31-37 | a fresh uninitialised plugin when malloc succeeds, NULL when it fails |
| HelloC.PluginInitialize | agfs-server/examples/hellofs-c/hellofs.c:54-61 | "plugin is null" for a null plugin, otherwise the plugin is marked initialised and no error is returned |
| HelloC.PluginShutdown | agfs-server/examples/hellofs-c/hellofs.c:63-69 | clears the flag of a non-null plugin and never reports an error |
| HelloC.InitializeThenShutdown | agfs-server/examples/hellofs-c/hellofs.c:31-69 | initialisation followed by shutdown leaves the plugin as new |
| HelloC.ReadRangeAsWritten | agfs-server/examples/hellofs-c/hellofs.c:80-101 | as written: nothing is copied exactly when the offset is at or past the end, so every negative offset reaches memcpy |
| HelloC.NegativeOffsetReadsBeforeContent | agfs-server/examples/hellofs-c/hellofs.c:85-97 | at offset -1 with no size limit memcpy is asked to copy 31 bytes starting one byte before the string |
| HelloC.ReadRange | agfs-server/examples/hellofs-c/hellofs.c:80-101 | corrected: nothing is copied for an offset outside the content; otherwise the copied range starts at the offset, is non-empty, stays inside the content and is size bytes when 0 < size < remaining |
| HelloC.ReadRangeAgreesOnNonNegativeOffsets | agfs-server/examples/hellofs-c/hellofs.c:80-101 | the correction changes nothing for non-negative offsets |
| HelloC.ReadReplyCases | agfs-server/examples/hellofs-c/hellofs.c:80-106 | corrected: any path other than /hello gives -1 and "file not found"; an offset outside the content gives 0 and ""; otherwise out_len bytes of the content from the offset, at most size when size is positive |
| HelloC.SequentialReads | agfs-server/examples/hellofs-c/hellofs.c:80-106 | a read of k bytes followed by a read of the rest from where it stopped returns the whole remainder |
| HelloC.FsRead | agfs-server/examples/hellofs-c/hellofs.c:80-106 | corrected: the length written through out_len and the text returned are the corrected read reply |
| HelloC.HelloInfo | agfs-server/examples/hellofs-c/hellofs.c:122-133 | the record of /hello has the content's length, mode 0644, is not a directory and carries the current time |
| HelloC.FsStat | agfs-server/examples/hellofs-c/hellofs.c:108-137 | a record exactly for "/" and "/hello": the root is a directory of mode 0755 and size 0, /hello is its file record |
| HelloC.ReaddirReply | agfs-server/examples/hellofs-c/hellofs.c:139-163 | the root lists the one record of /hello with count 1; any other path gives -1 and NULL |
| HelloC.FsReadDir | agfs-server/examples/hellofs-c/hellofs.c:139-163 | the count written through out_count and the listing returned are the readdir reply |
| HelloC.ListingAgreesWithStat | agfs-server/examples/hellofs-c/hellofs.c:108-163 | the listing's one entry is the record stat gives for /hello, whose size is the length of a whole read, and the count matches the entries |
| HelloC.ReadOnlyPlugin | agfs-server/examples/hellofs-c/hellofs.c:166-204 | every mutator reports an error, a write reports -1, and validation accepts every configuration |
| DevFs.NullInfo | agfs-server/pkg/plugins/devfs/devfs.go:98-108 | the device record is "null", size 0, mode 0666, not a directory, with device metadata |
| DevFs.Read | agfs-server/pkg/plugins/devfs/devfs.go:82-88 | a read gives no data, with io.EOF on /null and ErrNotFound elsewhere |
| DevFs.Write | agfs-server/pkg/plugins/devfs/devfs.go:90-96 | a write to /null accepts every byte; anywhere else it is refused as read-only |
| DevFs.Stat | agfs-server/pkg/plugins/devfs/devfs.go:98-120 | /null is the device record, "/" a directory of mode 0555, and anything else ErrNotFound |
| DevFs.ReadDir | agfs-server/pkg/plugins/devfs/devfs.go:122-136 | the root lists the device alone; anything else is "not a directory" |
| DevFs.Open | agfs-server/pkg/plugins/devfs/devfs.go:138-143 | only /null opens for reading, as the empty reader |
| DevFs.OpenWrite | agfs-server/pkg/plugins/devfs/devfs.go:145-150 | only /null opens for writing, as the discarding writer; anything else is read-only |
| DevFs.NullRead | agfs-server/pkg/plugins/devfs/devfs.go:189-192 | the reader returns 0 bytes and io.EOF |
| DevFs.NullWrite | agfs-server/pkg/plugins/devfs/devfs.go:201-204 | the writer reports every byte written and no error |
| DevFs.Truncate | agfs-server/pkg/plugins/devfs/devfs.go:178-184 | truncation succeeds exactly on /null |
| DevFs.MutatorsRefused | agfs-server/pkg/plugins/devfs/devfs.go:153-175 | create, mkdir, remove, remove-all, rename and chmod are always refused as read-only |
| DevFs.ListingAgreesWithStat | agfs-server/pkg/plugins/devfs/devfs.go:82-184 | the listing is the stat record of /null, and a path is a stat-able file exactly when it opens, reads to EOF, accepts writes and truncates |
| DevFs.StreamsMatchDevice | agfs-server/pkg/plugins/devfs/devfs.go:82-204 | the streams behave like the device's own read and write |
| HackerNews.ItemUrl | agfs-server/examples/hackernewsfs-wasm/src/lib.rs:94 | a story is fetched from the API base's /item/ path, as a .json resource |
| HackerNews.FetchStory | agfs-server/examples/hackernewsfs-wasm/src/lib.rs:93-103 | a transport error passes through, an unsuccessful status becomes "HTTP <status>", and the fetch succeeds exactly when the response is successful and its body decodes as a story |
| HackerNews.TopStories | agfs-server/examples/hackernewsfs-wasm/src/lib.rs:41-68 | the id list fails with the transport error, with "Failed to fetch top stories: HTTP <status>", with "Response body is empty", or with "Failed to parse story IDs: <reason>", and otherwise is the decoded ids |
| HackerNews.Take | agfs-server/examples/hackernewsfs-wasm/src/lib.rs:71 | the first MAX_STORIES ids, or all of them when there are fewer |
| HackerNews.CollectedFromFetches | agfs-server/examples/hackernewsfs-wasm/src/lib.rs:70-88 | every collected story is the successful fetch of one of the ids, and there are no more stories than ids |
| HackerNews.CollectedAllSucceed | agfs-server/examples/hackernewsfs-wasm/src/lib.rs:70-88 | when every fetch succeeds the stories are exactly the fetched items, in id order |
| HackerNews.RefreshedAtMostMax | agfs-server/examples/hackernewsfs-wasm/src/lib.rs:70-90 | a refresh never keeps more than 30 stories |
| HackerNews.RefreshMessage | agfs-server/examples/hackernewsfs-wasm/src/lib.rs:192 | the refresh report begins "Refreshed <count>" |
| HackerNews.MarkdownFrame | agfs-server/examples/hackernewsfs-wasm/src/lib.rs:105-148 | a story renders with its title as a level-one heading, then the story number and fields, and ends with the link to the story on news.ycombinator.com |
| HackerNews.MarkdownOmitsEmptyFields | agfs-server/examples/hackernewsfs-wasm/src/lib.rs:106-121 | without a URL or text the details are author, score, comments, id and time, with no URL line and no content section |
| HackerNews.MarkdownShowsText | agfs-server/examples/hackernewsfs-wasm/src/lib.rs:112-118 | a story with text ends its details with a "## Content" section holding that text |
| HackerNews.ParseUsize | agfs-server/examples/hackernewsfs-wasm/src/lib.rs:202-203 | a file number parses only to a value that fits in a 32-bit usize |
| HackerNews.ParseUsizeOfNatToString | agfs-server/examples/hackernewsfs-wasm/src/lib.rs:202-203 | the number printed in a file name parses back to itself |
| HackerNews.FrontpageName | agfs-server/examples/hackernewsfs-wasm/src/lib.rs:195-200 | a path names a story file exactly when it starts with "/frontpage/" and ends with ".md", and the name is what lies between |
| HackerNews.FrontpageNameOfStoryPath | agfs-server/examples/hackernewsfs-wasm/src/lib.rs:195-200 | the file name of the n-th listing entry strips back to n |
| HackerNews.StoryIndex | agfs-server/examples/hackernewsfs-wasm/src/lib.rs:195-207 | a story number names a current story, counted from one; otherwise the path is not found |
| HackerNews.StoryIndexOfStoryPath | agfs-server/examples/hackernewsfs-wasm/src/lib.rs:195-207 | the path of the k-th listed story resolves to story k + 1 |
| HackerNews.ReadStory | agfs-server/examples/hackernewsfs-wasm/src/lib.rs:195-213 | a story path reads as the markdown of that story exactly when its number names a current story; otherwise not found |
| HackerNews.StoryEntry | agfs-server/examples/hackernewsfs-wasm/src/lib.rs:263-265 | a listing entry is "<n>.md", a plain file of mode 0644 whose size is the markdown's byte length |
| HackerNews.Stat | agfs-server/examples/hackernewsfs-wasm/src/lib.rs:218-249 | the root is the directory named "hackernews", /refresh and /frontpage have fixed records; a story path stats exactly when it reads; everything else is not found |
| HackerNews.Listing | agfs-server/examples/hackernewsfs-wasm/src/lib.rs:262-266 | the frontpage listing has one entry per story |
| HackerNews.ListingStep | agfs-server/examples/hackernewsfs-wasm/src/lib.rs:262-266 | listing one more story appends that story's entry |
| HackerNews.ListingEntries | agfs-server/examples/hackernewsfs-wasm/src/lib.rs:262-266 | the i-th listing entry is the entry of the i-th story |
| HackerNews.Readdir | agfs-server/examples/hackernewsfs-wasm/src/lib.rs:251-273 | the root lists refresh and frontpage, /frontpage lists the stories, anything else is not found |
| HackerNews.ListingAgreesWithStatAndRead | agfs-server/examples/hackernewsfs-wasm/src/lib.rs:218-273 | each listed story stat-s to the same record, and its size is the length of what a read returns |
| HackerNews.MutatorsRefused | agfs-server/examples/hackernewsfs-wasm/src/lib.rs:286-308 | create, mkdir, remove, remove-all and rename are refused as permission denied, and chmod succeeds |
| HackerNews.HackerNewsFs.constructor | agfs-server/examples/hackernewsfs-wasm/src/lib.rs:36-38 | the plugin starts with no stories |
| HackerNews.HackerNewsFs.Refresh | agfs-server/examples/hackernewsfs-wasm/src/lib.rs:41-91 | a successful fetch replaces the story list; a failed one leaves it as it was and returns the error |
| HackerNews.HackerNewsFs.Initialize | agfs-server/examples/hackernewsfs-wasm/src/lib.rs:179-185 | initialisation is the first refresh, and fails when it fails |
| HackerNews.HackerNewsFs.Read | agfs-server/examples/hackernewsfs-wasm/src/lib.rs:187-216 | reading /refresh refreshes and returns the report of the new count; any other path reads a story without touching the list |
| HackerNews.HackerNewsFs.Write | agfs-server/examples/hackernewsfs-wasm/src/lib.rs:275-284 | writing /refresh refreshes and returns the report's byte length; any other path is refused and the list is unchanged |
| HackerNews.HackerNewsFs.ReaddirFrontpage | agfs-server/examples/hackernewsfs-wasm/src/lib.rs:259-268 | the loop builds exactly the frontpage listing |
| HackerNews.RefreshThenRead | agfs-server/examples/hackernewsfs-wasm/src/lib.rs:187-216 | after a successful refresh the k-th story reads as its markdown, no number past the list reads, and at most 30 stories are kept |
| SqlFs2.ParsePathCases | agfs-server/pkg/plugins/sqlfs2/sqlfs2.go:208-233 | after one leading slash is dropped, a path of up to three slash-free components names database, table and operation; four or more fail with "invalid path" |
| SqlFs2.ParseOpPath | agfs-server/pkg/plugins/sqlfs2/sqlfs2.go:208-233 | /<db>/<table>/<op> parses back to its three names |
| SqlFs2.ParseTablePath | agfs-server/pkg/plugins/sqlfs2/sqlfs2.go:208-233 | /<db>/<table> parses back to its two names with no operation |
| SqlFs2.ParseDeepPath | agfs-server/pkg/plugins/sqlfs2/sqlfs2.go:231-232 | a path with four components is refused |
| SqlFs2.Read | agfs-server/pkg/plugins/sqlfs2/sqlfs2.go:255-306 | a bad path fails as parsed; schema and count need a database and a table; the write-only files refuse reading; anything else reads as a directory |
| SqlFs2.ReadSchema | agfs-server/pkg/plugins/sqlfs2/sqlfs2.go:262-275 | the schema file reads as the backend's CREATE statement plus a newline, range-limited |
| SqlFs2.ReadCount | agfs-server/pkg/plugins/sqlfs2/sqlfs2.go:278-298 | the count file reads as the decimal result of SELECT COUNT(*) FROM <db>.<table> plus a newline, range-limited |
| SqlFs2.ReadWriteOnly | agfs-server/pkg/plugins/sqlfs2/sqlfs2.go:300-302 | query, execute and insert_json fail with "<op> is write-only" |
| SqlFs2.NonBlank | agfs-server/pkg/plugins/sqlfs2/sqlfs2.go:357-366 | the non-blank line indices lie among the lines scanned |
| SqlFs2.NonBlankMember | agfs-server/pkg/plugins/sqlfs2/sqlfs2.go:359-365 | a line is counted exactly when it is not blank after trimming |
| SqlFs2.NonBlankSorted | agfs-server/pkg/plugins/sqlfs2/sqlfs2.go:359-365 | the counted lines come in increasing order, so the first is the first non-blank line |
| SqlFs2.ScanLines | agfs-server/pkg/plugins/sqlfs2/sqlfs2.go:357-366 | the loop yields the number of non-blank lines and the first one's index, or -1 when there is none |
| SqlFs2.UnmarshalMap | agfs-server/pkg/plugins/sqlfs2/sqlfs2.go:371-373 | decoding into a map succeeds exactly for an object (its members) or null |
| SqlFs2.StreamModeNeedsTwoLines | agfs-server/pkg/plugins/sqlfs2/sqlfs2.go:368-377 | stream mode is chosen only when at least two lines are non-blank |
| SqlFs2.StreamScanAccounts | agfs-server/pkg/plugins/sqlfs2/sqlfs2.go:384-396 | every non-blank line yields either a record or a line error, never both and never neither |
| SqlFs2.CollectStream | agfs-server/pkg/plugins/sqlfs2/sqlfs2.go:384-396 | the stream loop collects exactly the decoded records and the numbered line errors |
| SqlFs2.ArrayScan | agfs-server/pkg/plugins/sqlfs2/sqlfs2.go:409-417 | an array gives one record per element, in order, when every element is an object; otherwise it fails |
| SqlFs2.ArrayScanNamesFirst | agfs-server/pkg/plugins/sqlfs2/sqlfs2.go:411-416 | the failure names the index of the first element that is not an object |
| SqlFs2.CollectArray | agfs-server/pkg/plugins/sqlfs2/sqlfs2.go:411-417 | the loop over the elements computes the array scan |
| SqlFs2.ArrayScanStops | agfs-server/pkg/plugins/sqlfs2/sqlfs2.go:414-416 | once an element fails, later elements change nothing |
| SqlFs2.NormalRecords | agfs-server/pkg/plugins/sqlfs2/sqlfs2.go:398-421 | invalid JSON fails as "invalid JSON", an object is one record, and anything but an object or array is refused |
| SqlFs2.Row | agfs-server/pkg/plugins/sqlfs2/sqlfs2.go:437-444 | the INSERT arguments are the record's value for each column in order, NULL where the record lacks the column |
| SqlFs2.BuildRow | agfs-server/pkg/plugins/sqlfs2/sqlfs2.go:437-444 | the loop builds exactly that argument list |
| SqlFs2.StreamInsertsAll | agfs-server/pkg/plugins/sqlfs2/sqlfs2.go:435-469 | in stream mode every record is inserted in order and INSERT failures are not reported |
| SqlFs2.NormalStopsAtFirstFailure | agfs-server/pkg/plugins/sqlfs2/sqlfs2.go:458-466 | in normal mode the INSERTs issued are those of a prefix of the records, all but the last succeeded, and the write succeeds exactly when all of them did |
| SqlFs2.InsertRecords | agfs-server/pkg/plugins/sqlfs2/sqlfs2.go:435-469 | the insert loop issues and reports what the scan says |
| SqlFs2.InsertScanStops | agfs-server/pkg/plugins/sqlfs2/sqlfs2.go:463-465 | after a normal-mode failure no further record is inserted |
| SqlFs2.InsertJsonOutcome | agfs-server/pkg/plugins/sqlfs2/sqlfs2.go:328-474 | a successful insert_json write reports the length of the data |
| SqlFs2.SingleObjectInsert | agfs-server/pkg/plugins/sqlfs2/sqlfs2.go:405-408 | a single object becomes one INSERT with its values in column order, and the write succeeds exactly when that INSERT does |
| SqlFs2.StreamWriteSucceeds | agfs-server/pkg/plugins/sqlfs2/sqlfs2.go:382-474 | a stream write with at least one decoded record succeeds with the data length and issues one INSERT per record |
| SqlFs2.DecodeRecords | agfs-server/pkg/plugins/sqlfs2/sqlfs2.go:349-428 | decoding chooses stream or normal mode and refuses an empty result, listing the line errors when there are any |
| SqlFs2.InsertJson | agfs-server/pkg/plugins/sqlfs2/sqlfs2.go:328-474 | the insert_json branch computes that outcome |
| SqlFs2.WriteOutcome | agfs-server/pkg/plugins/sqlfs2/sqlfs2.go:308-511 | a successful write reports the data length, and INSERTs are issued only for insert_json |
| SqlFs2.Write | agfs-server/pkg/plugins/sqlfs2/sqlfs2.go:308-511 | the write method computes that outcome on every path |
| SqlFs2.WriteRefusals | agfs-server/pkg/plugins/sqlfs2/sqlfs2.go:314-320 | directories and the read-only files refuse writes before the database is touched |
| SqlFs2.BlankStatementRefused | agfs-server/pkg/plugins/sqlfs2/sqlfs2.go:476-479 | a blank statement is refused by query and execute |
| SqlFs2.OpMode | agfs-server/pkg/plugins/sqlfs2/sqlfs2.go:729-734 | schema and count are 0444, query, execute and insert_json 0222, any other name 0644 |
| SqlFs2.OpModesMatchAccess | agfs-server/pkg/plugins/sqlfs2/sqlfs2.go:729-734 | the owner bits of the read-only files are read and of the write-only files write |
| SqlFs2.TableExists | agfs-server/pkg/plugins/sqlfs2/sqlfs2.go:236-253 | a table exists exactly when the database's table list holds it |
| SqlFs2.FindTable | agfs-server/pkg/plugins/sqlfs2/sqlfs2.go:236-253 | the search over the list computes that answer |
| SqlFs2.Stat | agfs-server/pkg/plugins/sqlfs2/sqlfs2.go:675-744 | the root and a database are directories, a table is one exactly when it exists, and an operation name is a file with its mode |
| SqlFs2.OpEntries | agfs-server/pkg/plugins/sqlfs2/sqlfs2.go:628-669 | a table lists its five operation files in the order schema, count, query, execute, insert_json |
| SqlFs2.DirEntries | agfs-server/pkg/plugins/sqlfs2/sqlfs2.go:582-614 | databases and tables list as 0755 directories in the backend's order |
| SqlFs2.ListDirs | agfs-server/pkg/plugins/sqlfs2/sqlfs2.go:582-614 | the loops build exactly those entries |
| SqlFs2.ReadDir | agfs-server/pkg/plugins/sqlfs2/sqlfs2.go:567-673 | the listing method computes the listing outcome on every path |
| SqlFs2.TableListing | agfs-server/pkg/plugins/sqlfs2/sqlfs2.go:617-670 | an existing table lists its five operation files |
| SqlFs2.StatOperationFile | agfs-server/pkg/plugins/sqlfs2/sqlfs2.go:728-743 | stat of an operation file gives the entry the listing shows |
| SqlFs2.TableListingAgreesWithStat | agfs-server/pkg/plugins/sqlfs2/sqlfs2.go:617-743 | each of the five listed files stat-s to the same record |
| SqlFs2.OperationsAreComponents | agfs-server/pkg/plugins/sqlfs2/sqlfs2.go:628-669 | the five operation names are non-empty path components |
| SqlFs2.RemoveAll | agfs-server/pkg/plugins/sqlfs2/sqlfs2.go:525-565 | /<db> runs DROP DATABASE IF EXISTS, and anything that is not a database or a table cannot be removed |
| SqlFs2.RemoveTable | agfs-server/pkg/plugins/sqlfs2/sqlfs2.go:545-562 | /<db>/<table> succeeds exactly when DROP TABLE IF EXISTS <db>.<table> does, after the switch |
| SqlFs2.OtherMutatorsRefused | agfs-server/pkg/plugins/sqlfs2/sqlfs2.go:513-752 | create, mkdir, remove, rename and chmod are not supported |
| SqlFs2.FirstTypeError | agfs-server/pkg/plugins/sqlfs2/sqlfs2.go:59-77 | a typed-parameter pass succeeds exactly when every key checks |
| SqlFs2.ValidateBackends | agfs-server/pkg/plugins/sqlfs2/sqlfs2.go:39-80 | a configuration is accepted exactly when its keys are known, the backend (sqlite when unset) is one of four, and every typed parameter checks; an unknown backend gets the "unsupported database backend" message |
| VectorFs.AddedTaskRegisters | agfs-server/pkg/plugins/vectorfs/vectorfs.go:182-193 | adding a task stores it under its digest in its namespace, grows that namespace by one unless the digest was there, and touches no other namespace |
| VectorFs.AddedTaskKeepsInvariant | agfs-server/pkg/plugins/vectorfs/vectorfs.go:182-193 | adding never leaves an empty namespace in the table |
| VectorFs.RemovedTaskForgets | agfs-server/pkg/plugins/vectorfs/vectorfs.go:196-206 | removing deletes exactly that digest and touches no other namespace |
| VectorFs.RemovedTaskKeepsInvariant | agfs-server/pkg/plugins/vectorfs/vectorfs.go:196-206 | a namespace left empty is dropped, so no empty namespace remains |
| VectorFs.AddThenRemove | agfs-server/pkg/plugins/vectorfs/vectorfs.go:182-206 | removing a task just added for a new digest restores the table |
| VectorFs.StatusIdleIffNoTasks | agfs-server/pkg/plugins/vectorfs/vectorfs.go:209-225 | the status is "idle" exactly when the namespace has no task; otherwise it starts "indexing <n> file(s):" |
| VectorFs.TaskLinesContain | agfs-server/pkg/plugins/vectorfs/vectorfs.go:220-223 | every visited task's line appears in the status text |
| VectorFs.StatusNamesEveryTask | agfs-server/pkg/plugins/vectorfs/vectorfs.go:209-225 | the status names every file of the namespace being indexed |
| VectorFs.ParseCleanedSplits | agfs-server/pkg/plugins/vectorfs/vectorfs.go:423-442 | the namespace holds no slash, and below the root namespace and relative path are the two sides of the first slash |
| VectorFs.ParseNamespacePath | agfs-server/pkg/plugins/vectorfs/vectorfs.go:423-442 | /<ns> and /<ns>/<rel> parse back to their parts |
| VectorFs.Beneath | agfs-server/pkg/plugins/vectorfs/vectorfs.go:506-509 | a path inside a namespace is neither the root nor /README |
| VectorFs.ReadRouting | agfs-server/pkg/plugins/vectorfs/vectorfs.go:504-532 | .indexing reads as the status text whatever the range, only docs/ files are readable, and docs/ itself is refused as a directory |
| VectorFs.ReadDocument | agfs-server/pkg/plugins/vectorfs/vectorfs.go:534-551 | a document reads as the stored object named by its metadata's digest, range-limited |
| VectorFs.StatNamespace | agfs-server/pkg/plugins/vectorfs/vectorfs.go:806-821 | a namespace stat-s exactly when the database says it exists; a failed lookup reads as not found |
| VectorFs.IndexingSizeMatchesRead | agfs-server/pkg/plugins/vectorfs/vectorfs.go:835-846 | the size stat reports for .indexing is the length of what reading it returns |
| VectorFs.RootEntries | agfs-server/pkg/plugins/vectorfs/vectorfs.go:652-684 | the root lists README first, then one directory per namespace in the database's order |
| VectorFs.DocsScanSeen | agfs-server/pkg/plugins/vectorfs/vectorfs.go:731-769 | the directories listed are exactly those recorded as seen |
| VectorFs.DocsScanDirsOnce | agfs-server/pkg/plugins/vectorfs/vectorfs.go:744-757 | no sub-directory is listed twice |
| VectorFs.DocsScanCoversDirs | agfs-server/pkg/plugins/vectorfs/vectorfs.go:744-757 | every stored name with a slash is represented by the directory of its first component |
| VectorFs.DocsScanFiles | agfs-server/pkg/plugins/vectorfs/vectorfs.go:758-768 | every stored name without a slash is listed as a document with its stored size |
| VectorFs.NamespaceListing | agfs-server/pkg/plugins/vectorfs/vectorfs.go:686-707 | a namespace lists its docs directory and its .indexing file |
| VectorFs.StatDocs | agfs-server/pkg/plugins/vectorfs/vectorfs.go:823-833 | stat of a namespace's docs gives the entry its listing shows |
| VectorFs.NamespaceListingAgreesWithStat | agfs-server/pkg/plugins/vectorfs/vectorfs.go:686-846 | both entries of a namespace listing are what stat reports for them |
| VectorFs.RootListingAgreesWithStat | agfs-server/pkg/plugins/vectorfs/vectorfs.go:652-799 | the root listing has one entry per namespace after README, and README's entry is what stat reports |
| VectorFs.ListDocs | agfs-server/pkg/plugins/vectorfs/vectorfs.go:731-771 | the loop with its seen-directory set builds exactly the docs listing |
| VectorFs.AddFile | agfs-server/pkg/plugins/vectorfs/vectorfs.go:735-768 | one turn of the listing loop adds a sub-directory the first time it is met and a document otherwise, as the reference step says |
| VectorFs.ReadDir | agfs-server/pkg/plugins/vectorfs/vectorfs.go:644-775 | the listing method computes the listing outcome on every path |
| VectorFs.RemoveAllOnlyNamespaces | agfs-server/pkg/plugins/vectorfs/vectorfs.go:485-502 | removal deletes a bare namespace from the database and refuses the root and anything below a namespace |
| VectorFs.IgnoredOperations | agfs-server/pkg/plugins/vectorfs/vectorfs.go:481-908 | remove and rename fail, and chmod and truncate are accepted and ignored |
| VectorFs.WriteOutcome | agfs-server/pkg/plugins/vectorfs/vectorfs.go:554-642 | a successful write reports the data length |
| VectorFs.WriteRegistersNewContent | agfs-server/pkg/plugins/vectorfs/vectorfs.go:554-642 | a failed write changes nothing; a write of new content under docs/ registers one task under the document's digest and name; no empty namespace appears |
| VectorFs.MkdirRouting | agfs-server/pkg/plugins/vectorfs/vectorfs.go:451-479 | only docs/ sub-directories touch the status table, a bare namespace reaches namespace creation, and the root is "invalid namespace name" |
| VectorFs.Plugin.constructor | agfs-server/pkg/plugins/vectorfs/vectorfs.go:164 | the plugin starts with an empty status table |
| VectorFs.Plugin.AddIndexingTask | agfs-server/pkg/plugins/vectorfs/vectorfs.go:182-193 | the table becomes the table with the task added, and stays free of empty namespaces |
| VectorFs.Plugin.RemoveIndexingTask | agfs-server/pkg/plugins/vectorfs/vectorfs.go:196-206 | the table becomes the table with the task removed, and stays free of empty namespaces |
| VectorFs.Plugin.GetIndexingStatus | agfs-server/pkg/plugins/vectorfs/vectorfs.go:209-225 | the text built line by line is the namespace's status |
| VectorFs.Plugin.Write | agfs-server/pkg/plugins/vectorfs/vectorfs.go:554-642 | the result and the new table are the write outcome's |
| VectorFs.Plugin.Create | agfs-server/pkg/plugins/vectorfs/vectorfs.go:444-449 | creating a file is writing empty content to it |
| VectorFs.Plugin.Mkdir | agfs-server/pkg/plugins/vectorfs/vectorfs.go:451-479 | the result and the new table are the mkdir outcome's |
| VectorFs.Writer.constructor | agfs-server/pkg/plugins/vectorfs/vectorfs.go:918-920 | a writer starts with an empty buffer for its path |
| VectorFs.Writer.Write | agfs-server/pkg/plugins/vectorfs/vectorfs.go:928-930 | a piece is appended to the buffer and counted in full |
| VectorFs.Writer.Close | agfs-server/pkg/plugins/vectorfs/vectorfs.go:932-936 | closing writes the whole buffer once |
| VectorFs.Open | agfs-server/pkg/plugins/vectorfs/vectorfs.go:910-916 | opening gives the whole file as a read from offset 0 with no size limit |
| VectorFs.WriteInPieces | agfs-server/pkg/plugins/vectorfs/vectorfs.go:918-936 | writing two pieces and closing stores their concatenation in a single write |
| Chunker.IsSentenceEnd | agfs-server/pkg/plugins/vectorfs/chunker.go:168-187 | a position ends a sentence exactly when it holds one of . ! ? and their full-width forms and is followed by white space or the end of the text |
| Chunker.SentenceScanShape | agfs-server/pkg/plugins/vectorfs/chunker.go:143-154 | every sentence closed inside the scan is trimmed, non-empty and ends with its terminator |
| Chunker.SentencesShape | agfs-server/pkg/plugins/vectorfs/chunker.go:138-165 | the sentences are trimmed and non-empty, and all but the last end with a terminator |
| Chunker.SplitSentences | agfs-server/pkg/plugins/vectorfs/chunker.go:138-165 | the rune loop with its builder yields exactly those sentences |
| Chunker.GroupScanInvariant | agfs-server/pkg/plugins/vectorfs/chunker.go:108-127 | the packing loop keeps every sentence once and in order, tracks the token count of the open chunk, and keeps every closed chunk within the size unless it is a single sentence |
| Chunker.LongTextKeepsSentences | agfs-server/pkg/plugins/vectorfs/chunker.go:100-135 | every sentence lands in exactly one chunk, in order, the chunks joined with spaces are the sentences joined with spaces, and a chunk of several sentences stays within the chunk size |
| Chunker.OversizedSentenceAlone | agfs-server/pkg/plugins/vectorfs/chunker.go:118-126 | a sentence estimated above the chunk size is alone in its chunk |
| Chunker.SplitLongText | agfs-server/pkg/plugins/vectorfs/chunker.go:100-135 | the builder loop yields exactly the packed chunks |
| Chunker.ParagraphsShape | agfs-server/pkg/plugins/vectorfs/chunker.go:67-97 | there is always a paragraph; paragraphs found by the blank-line or the newline split are trimmed and non-empty; the text is kept whole only when neither split finds a part |
| Chunker.KeepNonEmpty | agfs-server/pkg/plugins/vectorfs/chunker.go:73-78 | one split stage keeps exactly the trimmed non-empty parts, in order |
| Chunker.SplitParagraphs | agfs-server/pkg/plugins/vectorfs/chunker.go:67-97 | the two loops and the fallback yield exactly the paragraphs |
| Chunker.Pieces | agfs-server/pkg/plugins/vectorfs/chunker.go:31-53 | each paragraph contributes one group of chunk texts |
| Chunker.PiecesAt | agfs-server/pkg/plugins/vectorfs/chunker.go:33-52 | a fitting paragraph is its own chunk and a long one its packed sentences |
| Chunker.DocumentTexts | agfs-server/pkg/plugins/vectorfs/chunker.go:21-64 | a document always yields at least one chunk text, the text itself when nothing else |
| Chunker.Numbered | agfs-server/pkg/plugins/vectorfs/chunker.go:37-50 | chunk indices count up from 0 in order |
| Chunker.NumberedIndices | agfs-server/pkg/plugins/vectorfs/chunker.go:37-50 | chunk i holds text i and carries index i |
| Chunker.AppendNumbered | agfs-server/pkg/plugins/vectorfs/chunker.go:45-51 | the inner loop appends each sub-chunk with the next index |
| Chunker.AppendParagraph | agfs-server/pkg/plugins/vectorfs/chunker.go:33-52 | the loop body appends a fitting paragraph as one chunk and a long one as its packed sentences, numbering on |
| Chunker.ChunkParagraphs | agfs-server/pkg/plugins/vectorfs/chunker.go:27-53 | the paragraph loop gives the chunk texts of every paragraph, in order, numbered from 0 |
| Chunker.ChunkDocument | agfs-server/pkg/plugins/vectorfs/chunker.go:21-64 | the chunks are the document's texts numbered 0, 1, ... in order, and never none |
| Chunker.ShortTextOneChunk | agfs-server/pkg/plugins/vectorfs/chunker.go:33-41 | a text that is one fitting paragraph is one chunk holding that paragraph |
| TiDb.SanitizeTableName | agfs-server/pkg/plugins/vectorfs/tidb_client.go:73-82 | each of -, ., / and space becomes _ and every other character is kept, position by position |
| TiDb.SanitizeIdempotent | agfs-server/pkg/plugins/vectorfs/tidb_client.go:73-82 | a sanitised name holds none of the rewritten characters, and sanitising it again changes nothing |
| TiDb.SanitizeKeepsClean | agfs-server/pkg/plugins/vectorfs/tidb_client.go:73-82 | a name without those characters is its own table suffix |
| TiDb.SanitizeAppend | agfs-server/pkg/plugins/vectorfs/tidb_client.go:73-82 | sanitising distributes over concatenation |
| TiDb.SanitizeCollides | agfs-server/pkg/plugins/vectorfs/tidb_client.go:73-82 | a-b, a.b, a/b, "a b" and a_b all become a_b, while test is kept |
| TiDb.MetaTable | agfs-server/pkg/plugins/vectorfs/tidb_client.go:86-87 | the metadata table is tbl_meta_ followed by the sanitised name |
| TiDb.ChunksTable | agfs-server/pkg/plugins/vectorfs/tidb_client.go:86-88 | the chunks table is tbl_chunks_ followed by the sanitised name |
| TiDb.TableNames | agfs-server/pkg/plugins/vectorfs/tidb_client.go:85-88 | two namespaces get the same tables exactly when their sanitised names agree, and a metadata table is never a chunks table |
| TiDb.EscapeChar | agfs-server/pkg/plugins/vectorfs/tidb_client.go:418-421 | one character's correct escape is itself, or a backslash before %, _ or a backslash |
| TiDb.LikePatternAsWritten | agfs-server/pkg/plugins/vectorfs/tidb_client.go:418-421 | the pattern as written is the escaped prefix followed by the wildcard % |
| TiDb.LikePattern | agfs-server/pkg/plugins/vectorfs/tidb_client.go:454-457 | the corrected pattern also ends in the wildcard % |
| TiDb.StepAsWritten | agfs-server/pkg/plugins/vectorfs/tidb_client.go:419-420 | without a leading backslash, the as-written escaping works one character at a time |
| TiDb.Step | agfs-server/pkg/plugins/vectorfs/tidb_client.go:419-420 | the corrected escaping works one character at a time |
| TiDb.LikeEscapeRoundTrip | agfs-server/pkg/plugins/vectorfs/tidb_client.go:418-421 | LIKE reads the corrected escaping back as the prefix itself, with no unescaped wildcard |
| TiDb.LikePatternShape | agfs-server/pkg/plugins/vectorfs/tidb_client.go:418-421 | the corrected pattern is a literal prefix followed by one wildcard |
| TiDb.AsWrittenAgreesWithoutBackslash | agfs-server/pkg/plugins/vectorfs/tidb_client.go:454-457 | without a backslash in the prefix the code as written gives the correct pattern |
| TiDb.BackslashPrefixLosesWildcard | agfs-server/pkg/plugins/vectorfs/tidb_client.go:454-457 | on the prefix made of one backslash, the pattern as written matches only the literal name %, while the corrected one is an escaped backslash before the wildcard |
| TiDb.NamespaceExists | agfs-server/pkg/plugins/vectorfs/tidb_client.go:159-177 | a namespace exists exactly when its metadata table is in the catalogue; a failed query is passed on |
| TiDb.CreateNamespaceRefuses | agfs-server/pkg/plugins/vectorfs/tidb_client.go:90-97 | an existing namespace, or one whose existence cannot be checked, is refused and the database is left as it was |
| TiDb.CreateNamespaceSucceeds | agfs-server/pkg/plugins/vectorfs/tidb_client.go:85-136 | a successful creation adds exactly the two empty tables, after which the namespace exists and creating it again is refused |
| TiDb.SanitizedNamesShareNamespace | agfs-server/pkg/plugins/vectorfs/tidb_client.go:85-97 | once a-b exists, creating a.b is refused |
| TiDb.DeleteNamespaceRemoves | agfs-server/pkg/plugins/vectorfs/tidb_client.go:139-156 | a successful deletion removes the two tables and nothing else, after which the namespace does not exist |
| TiDb.CreateThenDelete | agfs-server/pkg/plugins/vectorfs/tidb_client.go:85-156 | deleting a namespace just created gives back the tables as they were |
| TiDb.NamespacesOf | agfs-server/pkg/plugins/vectorfs/tidb_client.go:194-206 | the listing fails exactly when a row fails, and is otherwise every table name with tbl_meta_ removed, in row order |
| TiDb.ListNamespaces | agfs-server/pkg/plugins/vectorfs/tidb_client.go:180-207 | a failed query is passed on, and the row loop computes that listing |
| TiDb.NamespacesErrorStays | agfs-server/pkg/plugins/vectorfs/tidb_client.go:197-199 | once a row fails, later rows change nothing |
| TiDb.ListingGivesSanitizedNames | agfs-server/pkg/plugins/vectorfs/tidb_client.go:180-207 | listing gives the sanitised names of the created namespaces, not the names they were created with |
| TiDb.NumBatches | agfs-server/pkg/plugins/vectorfs/tidb_client.go:290-292 | n chunks take the ceiling of n / 50 statements |
| TiDb.Batch | agfs-server/pkg/plugins/vectorfs/tidb_client.go:292-297 | batch k is the window from 50k up to 50k + 50 or the end |
| TiDb.BatchesCover | agfs-server/pkg/plugins/vectorfs/tidb_client.go:292-297 | the batches are consecutive, in order, and together hold every chunk once |
| TiDb.ChunkArgs | agfs-server/pkg/plugins/vectorfs/tidb_client.go:305 | a chunk binds four arguments for its placeholder group |
| TiDb.ArgsOf | agfs-server/pkg/plugins/vectorfs/tidb_client.go:303-306 | a batch binds four arguments per chunk, chunk after chunk |
| TiDb.BatchStatement | agfs-server/pkg/plugins/vectorfs/tidb_client.go:299-311 | a batch's statement has one (?, ?, ?, ?) group and four arguments per chunk |
| TiDb.BuildBatch | agfs-server/pkg/plugins/vectorfs/tidb_client.go:300-306 | the loop builds exactly those placeholders and arguments |
| TiDb.PrepareBatch | agfs-server/pkg/plugins/vectorfs/tidb_client.go:293-311 | the statement for the window starting at chunk i |
| TiDb.InsertChunksBatch | agfs-server/pkg/plugins/vectorfs/tidb_client.go:280-321 | an empty input issues nothing; otherwise one statement per window, in order, stopping at the first failure with its starting index |
| TiDb.RowsOf | agfs-server/pkg/plugins/vectorfs/tidb_client.go:303-306 | a window adds one row per chunk |
| TiDb.BatchRows | agfs-server/pkg/plugins/vectorfs/tidb_client.go:313-316 | an executed batch appends one row per chunk of its window |
| TiDb.InsertFromRows | agfs-server/pkg/plugins/vectorfs/tidb_client.go:292-317 | a successful run from batch k appends the rows of every chunk from 50k on and changes no other table |
| TiDb.InsertAddsEveryChunk | agfs-server/pkg/plugins/vectorfs/tidb_client.go:280-321 | a successful insertion adds one row per chunk, in input order, to the chunks table and nothing else |
| TiDb.InsertWithoutTable | agfs-server/pkg/plugins/vectorfs/tidb_client.go:313-316 | without the chunks table the first batch fails, reported at index 0, and nothing changes |
| ShellAlias.IsValidAliasName | agfs-shell/agfs_shell/commands/alias.py:81-101 | a name is valid exactly when it is non-empty, starts with a letter, _ or ., and holds only letters, digits, _, - and . |
| ShellAlias.NoEqualsInName | agfs-shell/agfs_shell/commands/alias.py:50-57 | a valid name holds no =, so the text before a definition's first = is its whole name |
| ShellAlias.StripQuotesExact | agfs-shell/agfs_shell/commands/alias.py:62-66 | one matching pair of surrounding quotes is stripped, once; a value without a matching pair is kept |
| ShellAlias.Definition | agfs-shell/agfs_shell/commands/alias.py:45 | an alias is shown as a non-empty line |
| ShellAlias.ListAliases | agfs-shell/agfs_shell/commands/alias.py:44-45 | the listing loop writes the definitions of the names in order |
| ShellAlias.HandleArg | agfs-shell/agfs_shell/commands/alias.py:49-76 | one argument defines, shows or reports an error, as the argument step says |
| ShellAlias.Alias | agfs-shell/agfs_shell/commands/alias.py:14-78 | without a shell the command fails with 1; without arguments it lists every alias in name order and changes nothing; otherwise table and reply are those of the arguments handled in turn |
| ShellAlias.ArgsEffectAppend | agfs-shell/agfs_shell/commands/alias.py:49-76 | handling one list of arguments and then another is handling them all |
| ShellAlias.ListingEmptyIff | agfs-shell/agfs_shell/commands/alias.py:40-46 | the listing is empty exactly when no alias is defined |
| ShellAlias.DefineThenShow | agfs-shell/agfs_shell/commands/alias.py:50-73 | defining an alias and naming it next shows its definition with the quotes stripped |
| ShellAlias.InvalidNameKeepsTable | agfs-shell/agfs_shell/commands/alias.py:56-60 | an invalid name leaves the table alone and sets the exit code to 1, and later arguments are still handled |
| ShellAlias.CodeMatchesErrors | agfs-shell/agfs_shell/commands/alias.py:48-78 | the exit code is 0 or 1, and 1 exactly when something was written to standard error |
| ShellAlias.OnlyValidNamesAdded | agfs-shell/agfs_shell/commands/alias.py:56-68 | the table gains only keys with valid names |
| ShellUnalias.Unalias | agfs-shell/agfs_shell/commands/unalias.py:14-56 | no shell gives 1, no arguments gives 2 and the usage line, -a anywhere clears the table and gives 0, otherwise the named aliases are removed one argument at a time |
| ShellUnalias.SurvivorsAreUnnamed | agfs-shell/agfs_shell/commands/unalias.py:44-54 | an alias survives exactly when no argument names it (an option never removes one), and none is added |
| ShellUnalias.SucceedsIff | agfs-shell/agfs_shell/commands/unalias.py:43-56 | the exit code is 0 exactly when every argument names, without a leading -, an alias still present at its turn; 1 exactly when an error was written |
| ShellJobs.StateName | agfs-shell/agfs_shell/job_manager.py:10-14 | every state shows as a non-empty name, and a finished job — and only it — shows as "Done" |
| ShellJobs.Finish | agfs-shell/agfs_shell/job_manager.py:60-64 | a finished job is done exactly when its exit code is 0 and failed otherwise, records the code and end time, and keeps its id, command, thread and start |
| ShellJobs.ReapAll | agfs-shell/agfs_shell/job_manager.py:83-94 | reaping keeps the same ids |
| ShellJobs.ReapSettles | agfs-shell/agfs_shell/job_manager.py:83-94 | after reaping a job runs exactly when it ran on a live thread; a running job whose thread has ended becomes done with an exit code; every other job is unchanged; reaping twice is reaping once |
| ShellJobs.Ids | agfs-shell/agfs_shell/job_manager.py:37-46 | the table is visited in increasing id order, each id in use once, all below the next id |
| ShellJobs.JobsOf | agfs-shell/agfs_shell/job_manager.py:81 | the jobs of the ids, in that order |
| ShellJobs.RemovableIds | agfs-shell/agfs_shell/job_manager.py:130-135 | exactly the ids of finished, reported jobs whose threads have ended |
| ShellJobs.RunningOfExactly | agfs-shell/agfs_shell/job_manager.py:75 | a job is listed as running exactly when it is in the table and running |
| ShellJobs.RunningAfterReap | agfs-shell/agfs_shell/job_manager.py:71-75 | get_running_jobs lists exactly the jobs that were running on a live thread |
| ShellJobs.UnnotifiedOfExactly | agfs-shell/agfs_shell/job_manager.py:144-149 | a job is listed as unreported exactly when it is finished and its id has not been reported |
| ShellJobs.CleanupKeepsTheRest | agfs-shell/agfs_shell/job_manager.py:126-139 | clean-up keeps, unchanged, exactly the jobs that are unfinished, unreported or still alive, and a second clean-up removes nothing more |
| ShellJobs.ReapEach | agfs-shell/agfs_shell/job_manager.py:86-94 | the loop over the ids in order computes the reaped table |
| ShellJobs.RemovingRemovable | agfs-shell/agfs_shell/job_manager.py:130-137 | deleting the removable ids leaves exactly the cleaned table |
| ShellJobs.RemoveEach | agfs-shell/agfs_shell/job_manager.py:136-139 | each doomed id leaves the table and the reported set |
| ShellJobs.JobManager.constructor | agfs-shell/agfs_shell/job_manager.py:36-40 | a manager starts with no jobs, next id 1 and nothing reported |
| ShellJobs.JobManager.AddJob | agfs-shell/agfs_shell/job_manager.py:42-55 | the new job is running under the next id, which exceeds every id in use, and nothing else changes |
| ShellJobs.JobManager.UpdateJobStatus | agfs-shell/agfs_shell/job_manager.py:57-64 | a known job is finished with the exit code; an unknown id changes nothing |
| ShellJobs.JobManager.GetJob | agfs-shell/agfs_shell/job_manager.py:66-69 | a job is found exactly when its id is in the table |
| ShellJobs.JobManager.ReapCompletedJobs | agfs-shell/agfs_shell/job_manager.py:83-94 | the table becomes the reaped table |
| ShellJobs.JobManager.GetRunningJobs | agfs-shell/agfs_shell/job_manager.py:71-75 | after reaping, the running jobs in id order |
| ShellJobs.JobManager.GetAllJobs | agfs-shell/agfs_shell/job_manager.py:77-81 | after reaping, every job in id order |
| ShellJobs.JobManager.RemoveJob | agfs-shell/agfs_shell/job_manager.py:96-100 | the id leaves the table, and a missing id changes nothing |
| ShellJobs.JobManager.WaitForJob | agfs-shell/agfs_shell/job_manager.py:102-118 | nothing for an unknown id, otherwise the job's recorded exit code |
| ShellJobs.JobManager.WaitForAll | agfs-shell/agfs_shell/job_manager.py:120-124 | waiting reaps the table and leaves the rest as it was |
| ShellJobs.JobManager.CleanupFinishedJobs | agfs-shell/agfs_shell/job_manager.py:126-139 | the removable jobs leave the table and the reported set |
| ShellJobs.JobManager.GetUnnotifiedCompletedJobs | agfs-shell/agfs_shell/job_manager.py:141-149 | the finished jobs not yet reported, in id order, with nothing changed |
| ShellJobs.JobManager.MarkJobNotified | agfs-shell/agfs_shell/job_manager.py:151-154 | the id joins the reported set and nothing else changes |
| ShellRead.UnescapePlain | agfs-shell/agfs_shell/commands/read.py:68-73 | a line without backslashes is not changed by escape processing |
| ShellRead.UnescapeEach | agfs-shell/agfs_shell/commands/read.py:70-73 | each of the four escapes on its own becomes its character |
| ShellRead.UnescapeInSequence | agfs-shell/agfs_shell/commands/read.py:70-73 | because the replacements run one after another, an escaped backslash followed by n becomes a backslash and a newline |
| ShellRead.StripLineEndCases | agfs-shell/agfs_shell/commands/read.py:59-63 | one trailing newline and then one carriage return are removed, so a CRLF or LF ending goes once and a line with neither is kept |
| ShellRead.FillFields | agfs-shell/agfs_shell/commands/read.py:81-109 | the assignment loop gives each name its field's value |
| ShellRead.ReadLine | agfs-shell/agfs_shell/commands/read.py:37-65 | the line comes from the process's input, or at its end from the terminal, and end of input reads as nothing |
| ShellRead.Read | agfs-shell/agfs_shell/commands/read.py:14-111 | at end of input the result is 1 and no variable changes; otherwise 0, and the names (REPLY when none) get the line, escapes interpreted unless -r |
| ShellRead.FillLookup | agfs-shell/agfs_shell/commands/read.py:86-109 | with distinct names each name holds its own field's value and no other variable changes |
| ShellRead.BlankLineClears | agfs-shell/agfs_shell/commands/read.py:84-88 | a blank line gives every one of several names the empty value |
| ShellRead.FieldsKept | agfs-shell/agfs_shell/commands/read.py:90-105 | no field is lost: the names' values joined with spaces are the fields joined with spaces, the last name taking the rest |
| ShellHttp.HttpClient.constructor | agfs-shell/agfs_shell/http_client.py:37-40 | a new client has no base URL, no default headers and a 30-second timeout |
| ShellHttp.ParseTimeout | agfs-shell/agfs_shell/http_client.py:54-62 | after lower-casing and trimming, a trailing `ms` gives the number divided by 1000, a trailing `s` the number itself, anything else is parsed whole; a parse failure is reported |
| ShellHttp.HttpClient.SetTimeout | agfs-shell/agfs_shell/http_client.py:54-62 | a duration that parses becomes the client's timeout and nothing else changes; one that does not leaves the client as it was and reports the parse error |
| ShellHttp.SetCommand | agfs-shell/agfs_shell/commands/http.py:65-104 | the new client configuration and the reply are the `set` reply of the old configuration |
| ShellHttp.SetReply | agfs-shell/agfs_shell/commands/http.py:65-104 | `set base` stores the URL without trailing slashes, `set header` adds one default header and needs a value, `set timeout` stores the parsed timeout or reports it invalid; too few arguments and unknown subcommands fail and leave the configuration unchanged |
| ShellHttp.ParseOptions | agfs-shell/agfs_shell/commands/http.py:127-189 | the option loop computes the options the recursive reference definition gives, walking the arguments left to right |
| ShellHttp.HeaderAtFirstColon | agfs-shell/agfs_shell/commands/http.py:131-140 | `-H k:v` splits at the first colon and stores the trimmed key and value |
| ShellHttp.LaterBodyWins | agfs-shell/agfs_shell/commands/http.py:142-158 | of `-d` and a valid `-j` the later one sets the body, while `-j` always adds the JSON content type |
| ShellHttp.UnknownOption | agfs-shell/agfs_shell/commands/http.py:128-189 | an option that needs a value but comes last, or an argument that is no option at all, is reported as an unknown option |
| ShellHttp.FlagsOnly | agfs-shell/agfs_shell/commands/http.py:171-185 | a run of `-f`, `-i` and `--stdout` sets exactly the flags that occur in it and nothing else |
| ShellHttp.RenderedEndsLines | agfs-shell/agfs_shell/commands/http.py:210-225 | in interactive mode the output starts with the `HTTP` status line and always ends in a newline |
| ShellHttp.Render | agfs-shell/agfs_shell/commands/http.py:201-225 | the output writer produces the rendering of the response the options ask for |
| ShellHttp.RequestReply | agfs-shell/agfs_shell/commands/http.py:107-248 | a request without URL fails with code 1 and saves nothing; the exit code is always 0 or 1; a saved variable comes with no error output |
| ShellHttp.FailOnError | agfs-shell/agfs_shell/commands/http.py:240-244 | after a request that got a reply the exit code is 1 exactly when `-f` was given and the status is outside 200-299 |
| ShellHttp.Http | agfs-shell/agfs_shell/commands/http.py:41-62 | without a shell the command fails; no arguments fail; `set` leaves the variables alone and gives the `set` reply and configuration; a request changes only the variable `-o` names and leaves the client's configuration unchanged |
| ShellFsgrep.TakeLimit | agfs-shell/agfs_shell/commands/fsgrep.py:62-74 | `-n` consumes the next argument and succeeds exactly when there is one and it parses to a positive number, which becomes the limit; the three failures (missing, unparsable, not positive) give the program's three error texts; every other option is kept |
| ShellFsgrep.Cluster | agfs-shell/agfs_shell/commands/fsgrep.py:76-100 | a cluster of single-letter options consumes at most the arguments that follow it |
| ShellFsgrep.ParseOpts | agfs-shell/agfs_shell/commands/fsgrep.py:56-100 | option parsing leaves at most the arguments it was given |
| ShellFsgrep.ClusterLoop | agfs-shell/agfs_shell/commands/fsgrep.py:76-100 | the loop over a cluster's letters computes what the recursive reference definition gives |
| ShellFsgrep.ParseOptions | agfs-shell/agfs_shell/commands/fsgrep.py:48-100 | the option loop over the argument list computes what the recursive reference definition gives, from the default options |
| ShellFsgrep.LimitNeedsPositive | agfs-shell/agfs_shell/commands/fsgrep.py:62-93 | `-n` and `-rn` fail on a missing, unparsable or non-positive number and otherwise set the limit (and for `-rn` recursion) and carry on with the rest |
| ShellFsgrep.OptionsEnd | agfs-shell/agfs_shell/commands/fsgrep.py:56-59 | `--` ends the options and is dropped; a lone `-` and any argument not starting with `-` end them and are kept |
| ShellFsgrep.ClusterRejects | agfs-shell/agfs_shell/commands/fsgrep.py:98-100 | a letter other than r, i, n, c and q is reported as an invalid option |
| ShellFsgrep.Resolve | agfs-shell/agfs_shell/commands/fsgrep.py:110-129 | the searched path is always absolute: `.` is the working directory, `..` its parent (the root when it has none), other relative paths are joined to it, and the normalised result gets a leading slash when it lacks one |
| ShellFsgrep.ExitCodeIff | agfs-shell/agfs_shell/commands/fsgrep.py:149-191 | after a successful search the exit code is 0 exactly when there are matches and 1 otherwise; quiet mode without `-c` prints nothing |
| ShellFsgrep.ExitCodes | agfs-shell/agfs_shell/commands/fsgrep.py:47-203 | the exit code is 2 exactly when the options are invalid or the pattern or path is missing, and is always 0, 1 or 2 |
| ShellFsgrep.VectorfsIsRecursive | agfs-shell/agfs_shell/commands/fsgrep.py:101-145 | when the options parse, two arguments remain and the resolved path lies under `/vectorfs`, the query sent to the server is recursive, for that path and pattern |
| ShellFsgrep.QueryOf | agfs-shell/agfs_shell/commands/fsgrep.py:101-145 | the query carries the resolved path, the pattern, the case flag and the limit, and is recursive exactly when `-r` was given or the path lies under `/vectorfs` |
| ShellFsgrep.SentQuery | agfs-shell/agfs_shell/commands/fsgrep.py:15-145 | a query is sent exactly when the options parse and at least a pattern and a path remain |
| ShellFsgrep.RepliesToSentQuery | agfs-shell/agfs_shell/commands/fsgrep.py:137-145 | the reply depends on the server only through its answer to the query sent |
| ShellFsgrep.PrintMatches | agfs-shell/agfs_shell/commands/fsgrep.py:164-185 | the output loop writes one line per match, in order, as the reference rendering gives |
| ShellFsgrep.Fsgrep | agfs-shell/agfs_shell/commands/fsgrep.py:15-203 | the command replies as the reference definition of parsing, path resolution, search and rendering gives |
| ShellRegistry.RegisteredLookup | agfs-shell/agfs_shell/commands/__init__.py:31-34 | registering a function under several names maps each of them to it and leaves every other name as it was |
| ShellRegistry.LaterRegistrationWins | agfs-shell/agfs_shell/commands/__init__.py:31-34 | a name registered twice runs the later function |
| ShellRegistry.Registry.constructor | agfs-shell/agfs_shell/commands/__init__.py:12 | the registry starts empty |
| ShellRegistry.Registry.RegisterCommand | agfs-shell/agfs_shell/commands/__init__.py:15-35 | the decorator adds the names to the registry and returns the function unchanged |
| ShellRegistry.Registry.GetBuiltin | agfs-shell/agfs_shell/commands/__init__.py:38-48 | a lookup finds a function exactly when the name is registered, and it is the registered one |
| ShellCompleter.CommandMatchesExactly | agfs-shell/agfs_shell/completer.py:55 | a command name is offered exactly when it is a built-in beginning with the typed text |
| ShellCompleter.CommandMatchesIncreasing | agfs-shell/agfs_shell/completer.py:50-56 | the names offered keep the sorted order of the command list |
| ShellCompleter.CompleteCommandIsFilter | agfs-shell/agfs_shell/completer.py:50-56 | empty text offers the whole list, which is what filtering by the empty prefix gives as well |
| ShellCompleter.AnyIn | agfs-shell/agfs_shell/completer.py:62 | true exactly when some special character occurs in the path |
| ShellCompleter.NeedsQuotingIff | agfs-shell/agfs_shell/completer.py:58-62 | a path needs quoting exactly when it contains a blank, a shell operator, a quote or a backslash |
| ShellCompleter.QuoteIfNeeded | agfs-shell/agfs_shell/completer.py:64-69 | a path that needs no quoting is returned as it is |
| ShellCompleter.SplitQuote | agfs-shell/agfs_shell/completer.py:76-80 | a leading quote is taken off and remembered, and the rest of the text is what follows it |
| ShellCompleter.AbsPath | agfs-shell/agfs_shell/completer.py:130-140 | the candidate's full path ends in the entry's name, plus a slash for a directory |
| ShellCompleter.Displayed | agfs-shell/agfs_shell/completer.py:142-154 | the path shown is the full path, `.` for the working directory itself, or (for relative text outside the root) its part below the working directory |
| ShellCompleter.Quoted | agfs-shell/agfs_shell/completer.py:156-163 | after an opening quote the path gets that quote on both sides; otherwise it is quoted only when it needs it |
| ShellCompleter.Candidate | agfs-shell/agfs_shell/completer.py:127-129 | an entry gives a candidate exactly when its name is non-empty and begins with the partial name |
| ShellCompleter.CandidatesExactly | agfs-shell/agfs_shell/completer.py:126-165 | the collected candidates are exactly those the listing's entries give |
| ShellCompleter.PathCompletionsSpec | agfs-shell/agfs_shell/completer.py:71-170 | path completion returns the candidates of the listed directory sorted and with the same multiplicities, so a string is offered exactly when some entry gives it; a failed listing offers nothing |
| ShellCompleter.QuoteRestored | agfs-shell/agfs_shell/completer.py:157-160 | after an opening quote every candidate begins and ends with that quote |
| ShellCompleter.DirectoryGetsSlash | agfs-shell/agfs_shell/completer.py:138-154 | a directory's candidate is its path with a trailing slash, shown absolute, as `.`, or relative to the working directory |
| ShellCompleter.Completer.constructor | agfs-shell/agfs_shell/completer.py:13-17 | the completer starts with the built-in names sorted and no matches |
| ShellCompleter.Completer.Complete | agfs-shell/agfs_shell/completer.py:19-48 | the first call computes command matches at the start of a line and path matches elsewhere, later calls keep them, and call number `state` returns match number `state` or nothing past the end |
| ShellCompleter.CollectCandidates | agfs-shell/agfs_shell/completer.py:126-165 | the loop over the entries collects what the reference definition gives |
| ShellCompleter.CompletePath | agfs-shell/agfs_shell/completer.py:71-170 | path completion computes what the reference definition gives |
| StringOrder.SortedKeys | agfs-shell/agfs_shell/completer.py:15 | the built-in names in strictly increasing order, each exactly once |
| StringOrder.Sort | agfs-shell/agfs_shell/completer.py:167 | `sorted` gives the same candidates, with the same multiplicities, in sorted order |
| StringOrder.SortSorted | agfs-shell/agfs_shell/completer.py:167 | sorting is unique, so a list already in order is returned as it is |
| ShellCli.PositionalLookup | agfs-shell/agfs_shell/cli.py:21-23 | variable `i` holds the i-th argument for every i from 1 to the number of arguments, and every other variable keeps its value or its absence |
| ShellCli.ScriptEnvSpecial | agfs-shell/agfs_shell/cli.py:19-28 | `$0` is the script path, `$#` the number of arguments and `$@` the arguments joined by spaces, which is `0` and the empty string without arguments |
| ShellCli.ScriptEnvArgument | agfs-shell/agfs_shell/cli.py:21-23 | after the script starts, `$i` holds its i-th argument |
| ShellCli.ScriptEnvKeepsOthers | agfs-shell/agfs_shell/cli.py:18-28 | starting a script changes no variable other than `0`, `#`, `@` and the argument numbers |
| ShellCli.SetScriptEnv | agfs-shell/agfs_shell/cli.py:18-28 | the shell's variables become the script's variables over the old ones, and its aliases are unchanged |
| ShellCli.Collect | agfs-shell/agfs_shell/cli.py:52-65 | the line where collecting a block stops is never before its start and never past the end |
| ShellCli.CollectEndsBalanced | agfs-shell/agfs_shell/cli.py:75-88 | a collected block ends at the first closer (`done` or `fi`) where the nesting depth returns to 0, and at no earlier closer does it |
| ShellCli.AllSucceed | agfs-shell/agfs_shell/cli.py:34-108 | a script whose commands and blocks all succeed exits with 0 and reports nothing |
| ShellCli.ErrorMeansFailure | agfs-shell/agfs_shell/cli.py:34-108 | every error the script runner reports comes with a non-zero exit code |
| ShellCli.CollectBlock | agfs-shell/agfs_shell/cli.py:75-88 | the collection loop gathers the stripped lines up to the closer and stops where the reference definition says |
| ShellCli.RunBlock | agfs-shell/agfs_shell/cli.py:49-88 | a line asking for a block has the block collected and run; the script stops with the reference result when the block fails and otherwise goes on after the closer |
| ShellCli.RunLine | agfs-shell/agfs_shell/cli.py:45-106 | one non-blank, non-comment line stops the script with the reference result (exit, exception, failed command or failed block) or tells the loop to go on at the next line or after the block |
| ShellCli.RunLines | agfs-shell/agfs_shell/cli.py:34-108 | the script's line loop computes what the reference definition of running the lines gives |
| ShellCli.ExecuteScriptFile | agfs-shell/agfs_shell/cli.py:10-117 | running a script sets the script's variables and replies as the reference definition gives, including 127 for a missing file |
| ShellCli.StepKeepsParts | agfs-shell/agfs_shell/cli.py:208-238 | one step of the `-c` splitter keeps its invariant: the stripped part, when not empty, joins what was kept |
| ShellCli.StepRegular | agfs-shell/agfs_shell/cli.py:233-238 | a part outside any statement becomes a command of its own, after any parts still open |
| ShellCli.FoldKeepsParts | agfs-shell/agfs_shell/cli.py:203-242 | the splitter's invariant: the finished commands, cut again, followed by the open parts, are the non-empty stripped parts so far |
| ShellCli.ReSplitGivesParts | agfs-shell/agfs_shell/cli.py:201-242 | the splitter only regroups: cutting its commands again at `; ` gives back the non-empty stripped parts of the string in order |
| ShellCli.StepCollects | agfs-shell/agfs_shell/cli.py:223-224 | inside an open statement a part that does not close it is collected |
| ShellCli.StepCloses | agfs-shell/agfs_shell/cli.py:225-232 | inside an open statement a part that closes it finishes the statement as one command |
| ShellCli.StepOutside | agfs-shell/agfs_shell/cli.py:233-238 | outside any statement, with nothing open, a part is a command of its own |
| ShellCli.InnerPartsStayOpen | agfs-shell/agfs_shell/cli.py:214-232 | with `fi` matched as a word, an `if` statement stays open through inner parts that do not begin with `fi` |
| ShellCli.IfStatementStaysWhole | agfs-shell/agfs_shell/cli.py:214-242 | the corrected splitter keeps a whole `if … fi` statement in one command |
| ShellCli.FiInsideWordEndsIf | agfs-shell/agfs_shell/cli.py:226-227 | as written, a part that merely contains `fi`, such as `then fine`, ends the `if` and leaves a stray `fi` command |
| ShellCli.FiInsideWordSplitsCommand | agfs-shell/agfs_shell/cli.py:201-242 | as written, the string `if a;then fine;fi` is cut into the two commands `if a; then fine` and `fi` |
| ShellCli.FiAsWordEndsIf | agfs-shell/agfs_shell/cli.py:226-227 | corrected, the same parts stay one command `if a; then fine; fi` |
| ShellCli.SplitCommandString | agfs-shell/agfs_shell/cli.py:201-242 | the splitting loop computes, as the program does, the splitter as written, and, when asked for the corrected one, the corrected splitter's commands |
| ShellCli.RunSequenceSpec | agfs-shell/agfs_shell/cli.py:244-252 | the commands run in order as a prefix of the list, only the first gets standard input, every call but the last continued, the exit code is the last call's, and the run stops early only at a failure that is not one of the special codes -997, -998 and -999 |
| ShellCli.RunCommands | agfs-shell/agfs_shell/cli.py:245-251 | the loop running the commands computes what the reference definition gives |
| ShellCli.RunCommandString | agfs-shell/agfs_shell/cli.py:188-256 | a `-c` string exits with the code of running, in sequence, the commands the splitter as written (or, when asked, the corrected splitter) cuts it into |
| ShellCli.StrayFiRunsAlone | agfs-shell/agfs_shell/cli.py:226-227 | as written, `-c 'if a;then fine;fi'` executes the truncated `if a; then fine` and then `fi` on its own |

## Left out

- Concurrency is not modelled. Every table is an object accessed one call at a time, and no lock
  is modelled. This covers the VectorFS index workers, their channel and the overflow goroutine,
  the handle manager's cleanup ticker (its sweep is the method `Cleanup` with an explicit `now`),
  and the job threads (whether a thread is alive is a parameter).
- Remote services and foreign calls are parameters, not behaviour. This covers the SQL
  backends, object storage, the embedding API, the indexer, the agfs client behind the FUSE
  handles, go-fuse's inode plumbing, the host filesystem of the WebAssembly and C++ plugins, and
  the HTTP client of HackerNewsFS and of the shell's `http`.
- The vector database has only a small reference semantics as it appears in `TiDb`: tables of
  bound rows and a fault oracle per statement. The error texts for an existing table (1050) and
  a missing table (1146) are MySQL's texts, not text taken from the code.
- Floating point is left out: vector distances and scores, `formatVector`, the `duration_ms` of a
  response and the fractional part of timeouts. `ParseTimeout` takes `float()` as a parameter
  over reals.
- Raw memory is not modelled: allocation, `Box::into_raw`, `mem::forget`, the `Drop` of C records
  and `malloc`/`strdup`. Pointers are opaque numbers, allocation is an oracle that returns a
  fresh non-null pointer, and the bytes behind a pointer arrive already decoded.
- Encodings and digests are parameters: serde, `json.Unmarshal` and `json.loads`, the C++ JSON
  helpers, the SHA-256 digest, `filepath.Clean`, `os.path.normpath`, `shlex.quote` and Python's
  `int()`.
- Clocks are parameters (`now`), and so is the elapsed-time text of the VectorFS indexing status.
- Strings are sequences of characters. The model does not tell bytes from characters, so Go's
  byte lengths, UTF-8 validation (`c_str_to_str`'s "invalid UTF-8" is an oracle's verdict) and
  `into_bytes` agree with it only on ASCII text.
- Whitespace and case are ASCII only: trimming strips space, tab, newline, vertical tab, form
  feed and carriage return, and case mapping changes only A-Z and a-z. Go's `unicode.IsSpace`
  and Python's `str.strip`, `lower` and `upper` also act on other Unicode characters.
- Iteration order over Go maps is not modelled: the order in which VectorFS ranges over its task
  map is a parameter. Python dictionaries iterate in insertion order, and the job table inserts
  ids in increasing order and never reuses them, so the model iterates in increasing id order.
- The option parser that `read` uses to separate `-r` from the variable names is not part of this
  model. Its flags and remaining arguments are parameters.
- `http_client.py` is modelled only for its configuration: the constructor, `set_base_url`,
  `set_header` and `set_timeout`. `request` is the network and is the parameter `send`.
- Reading standard input for `-c` and for a command given as arguments is left out, because it
  depends on the terminal (`isatty`, `select`). The bytes waiting there are a parameter. The
  argparse handling, the web application mode and the interactive loop of `cli.py` are I/O and
  are not modelled either.
- `load_all_commands` and `_load_plugins_from_dir` (dynamic imports), `pwd.py` (one write) and the
  re-exporting `lib.rs` files are not modelled.
- The shell itself (`shell.py`: running one line, `execute_for_loop` and `execute_if_statement`)
  is not part of this model. Running a line or a block is the parameter `Executor`.
- `export_handle_plugin!` is not part of this model. HelloFS's handles are modelled at the level
  of the `HandleFS` trait, not at their wire encoding.
- The effects of a WebAssembly plugin's own `&mut self` methods on its private state are not
  modelled in `WasmExport`: the exported plugin is a fixed `FileSystem` value.
- `ChunkOverlap` is never read by the chunker, so overlap is not modelled.
- SQLFS2's `Initialize` and `Shutdown` are not modelled, because they construct the backend and
  open or close its connection. Its `Open`/`OpenWrite` stream wrappers over `Read` and `Write`
  are not modelled either. The backend, its drivers and the range read helper are parameters.
- `ShellHttp.RequestReply`: its own contract states only the error case without a URL, the range
  of exit codes and that a saved variable comes without error output. The exit code for `-f` is
  stated by `FailOnError`, and the option parsing by `ParseOptions` and its lemmas.
- `ShellFsgrep.Cluster` and `ShellFsgrep.ParseOpts`: their own contracts bound only what they
  leave. Their behaviour is stated by `LimitNeedsPositive`, `OptionsEnd` and `ClusterRejects`,
  and the loops are proved equal to them.
- `ShellCli.Collect`: its own contract bounds the stop line. Where the block ends is stated by
  `CollectEndsBalanced`.
- `ShellCompleter.QuoteIfNeeded`: `shlex.quote` is a parameter, so only paths that need no quoting
  are specified.
- `HelloWasm.SeekDecision`: the new position of a relative or end seek is the i64 sum as a
  release build computes it, wrapping around. A debug build panics on that overflow instead, and
  the panic is not modelled.
- `HelloWasm.HelloFs.HandleSeek`, `HelloWasm.HelloFs.HandleRead` and
  `HelloWasm.HelloFs.HandleWrite`: positions advance with the same release-build wrap-around; the
  debug-build overflow panic is left out.
- `HelloWasm.ReadAt`: the end of the copied range, `start + buf.len()`, is computed without the
  32-bit `usize` bound. It could overflow on wasm32 only for a buffer within 12 bytes of 4 GiB,
  which a 32-bit linear memory that also holds the plugin cannot provide.
- `WasmExport.Allocator.Malloc` and `WasmExport.Allocator.Free`: a size above isize::MAX makes
  `Layout::from_size_align(..).unwrap()` panic, which is modelled as an abort. Sizes that pass
  the layout check but that the allocator cannot serve are the allocator's answer.
- `HelloCpp.HelloFs.AsFileSystem`: its `initialize` is a fixed success. The prefix that
  `HelloFs.Initialize` stores is read when the value is built. So `CppExport` serves a fixed
  plugin value, and an `initialize` that goes through the export does not change the host prefix
  of the value it serves.
- `HelloC.FsRead` and `HelloC.ReadReplyCases`: they follow the corrected range (`ReadRange`). The
  read as written, which lets a negative offset reach `memcpy`, is `ReadRangeAsWritten` (see
  Findings).
- `HelloC.PluginFree`: `free` of the plugin record is raw memory and is not modelled.
  `PluginGetReadme` carries no contract apart from its fixed text.
- `FuseNode.GetPath`: `filepath.Join` also cleans the joined path (it resolves `.` and `..`
  components and collapses repeated slashes). The model joins the non-empty names with one slash
  and does not clean; the two agree when no name is `.` or `..` and none contains `/`.
- `VectorFs.Plugin.Write`: before re-indexing a file it asks the database to delete the old
  chunks of that file by name (`DeleteFileByName`). That call is a database effect and is not
  modelled.

## Findings

| source | as written | input that shows it | evidently intended | confidence | as-written member | corrected member |
|---|---|---|---|---|---|---|
| agfs-server/examples/hellofs-c/hellofs.c:86-97 | `FSRead` only checks `offset >= content_len`, so a negative offset passes, the remaining length grows beyond the content and `memcpy` starts before the string | offset -1 with size 0 gives the range (-1, 31) over a 30-byte string | a negative offset reads nothing, as an offset past the end does | not executed | HelloC.ReadRangeAsWritten, HelloC.NegativeOffsetReadsBeforeContent | HelloC.ReadRange, HelloC.ReadRangeAgreesOnNonNegativeOffsets, HelloC.ReadReplyCases, HelloC.FsRead |
| agfs-server/pkg/plugins/vectorfs/tidb_client.go:418-421 | the LIKE escaping escapes `%` and `_` but not the escape character `\` itself (the same code again at lines 454-457) | the prefix `\` gives the pattern `\%`, which matches only the literal name `%` instead of every name starting with `\` | the backslash is escaped first, so every prefix is matched literally | not executed | TiDb.LikePatternAsWritten, TiDb.BackslashPrefixLosesWildcard | TiDb.LikePattern, TiDb.LikeEscapeRoundTrip |
| agfs-shell/agfs_shell/cli.py:226-227 | an open `if` or `for` is closed by any part in which `fi` or `done` occurs as a substring | `if a;then fine;fi` is cut into `if a; then fine` and a stray `fi` | the part must begin with the word `fi` or `done` | not executed | ShellCli.FiInsideWordEndsIf, ShellCli.FiInsideWordSplitsCommand, ShellCli.StrayFiRunsAlone, ShellCli.SplitCommandString, ShellCli.RunCommandString | ShellCli.IfStatementStaysWhole, ShellCli.FiAsWordEndsIf |
