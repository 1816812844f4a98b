// The FUSE node helpers: translating the open(2) flags FUSE hands over into AGFS
// open flags, filling the attributes the kernel sees from an AGFS file record,
// and rebuilding a node's path from its chain of ancestors.
module FuseNode {
  import Text

  // Linux open(2) flag values.
  const O_ACCMODE: bv32 := 3
  const O_RDONLY: bv32 := 0
  const O_WRONLY: bv32 := 1
  const O_RDWR: bv32 := 2
  const O_CREAT: bv32 := 0x40
  const O_EXCL: bv32 := 0x80
  const O_TRUNC: bv32 := 0x200
  const O_APPEND: bv32 := 0x400
  const O_DSYNC: bv32 := 0x1000
  const O_SYNC: bv32 := 0x10_1000

  /** The access-mode constant chosen; `NoAccessFlag` when none of the three cases matched. */
  datatype AccessFlag = AccessReadOnly | AccessWriteOnly | AccessReadWrite | NoAccessFlag

  /** An AGFS open flag as the set of constants or-ed into it. */
  datatype AgfsOpenFlag = AgfsOpenFlag(
    access: AccessFlag, append: bool, create: bool, exclusive: bool, truncate: bool, sync: bool)

  function AccessOf(mode: bv32): (a: AccessFlag)
  {
    if mode == O_RDONLY then AccessReadOnly
    else if mode == O_WRONLY then AccessWriteOnly
    else if mode == O_RDWR then AccessReadWrite
    else NoAccessFlag
  }

  /** `convertOpenFlags`. */
  function ConvertOpenFlags(flags: bv32): (r: AgfsOpenFlag)
    ensures r.append <==> flags & O_APPEND != 0
    ensures r.create <==> flags & O_CREAT != 0
    ensures r.exclusive <==> flags & O_EXCL != 0
    ensures r.truncate <==> flags & O_TRUNC != 0
    ensures r.sync <==> flags & O_SYNC != 0
  {
    AgfsOpenFlag(AccessOf(flags & O_ACCMODE), flags & O_APPEND != 0, flags & O_CREAT != 0,
                 flags & O_EXCL != 0, flags & O_TRUNC != 0, flags & O_SYNC != 0)
  }

  lemma ReadOnlyAccess(flags: bv32)
    requires flags & O_ACCMODE == O_RDONLY
    ensures ConvertOpenFlags(flags).access == AccessReadOnly
  {
  }

  lemma WriteOnlyAccess(flags: bv32)
    requires flags & O_ACCMODE == O_WRONLY
    ensures ConvertOpenFlags(flags).access == AccessWriteOnly
  {
  }

  lemma ReadWriteAccess(flags: bv32)
    requires flags & O_ACCMODE == O_RDWR
    ensures ConvertOpenFlags(flags).access == AccessReadWrite
  {
  }

  /** Access mode 3 matches no case, so no access constant is or-ed in. */
  lemma AccessModeThreeHasNoAccessFlag(flags: bv32)
    ensures ConvertOpenFlags(flags).access == NoAccessFlag <==> flags & O_ACCMODE == 3
  {
  }

  /** The access mode is read from the low two bits alone: the modifier bits never change it. */
  lemma ModifiersKeepAccess(flags: bv32, extra: bv32)
    requires extra & O_ACCMODE == 0
    ensures ConvertOpenFlags(flags | extra).access == ConvertOpenFlags(flags).access
  {
    assert (flags | extra) & O_ACCMODE == flags & O_ACCMODE;
  }

  /** `O_SYNC` shares a bit with `O_DSYNC`, so a data-only sync request also sets the sync flag. */
  lemma DataSyncSetsSync()
    ensures ConvertOpenFlags(O_DSYNC).sync
    ensures ConvertOpenFlags(O_DSYNC).access == AccessReadOnly
  {
  }

  /** An open(2) create-exclusive for writing. */
  lemma CreateExclusiveWrite()
    ensures ConvertOpenFlags(O_WRONLY | O_CREAT | O_EXCL)
            == AgfsOpenFlag(AccessWriteOnly, false, true, true, false, false)
  {
  }

  // File-type bits of a mode word.
  const S_IFMT: bv32 := 0xF000
  const S_IFDIR: bv32 := 0x4000
  const S_IFREG: bv32 := 0x8000
  const S_IFLNK: bv32 := 0xA000

  /** The AGFS file record fields `fillAttr` reads; the modification time is seconds and nanoseconds. */
  datatype AgfsInfo = AgfsInfo(
    size: int, mode: nat, modSeconds: int, modNanos: nat, isDir: bool, isSymlink: bool)

  datatype Attr = Attr(
    mode: bv32, size: nat, mtime: nat, mtimensec: nat, atime: nat, atimensec: nat,
    ctime: nat, ctimensec: nat, uid: nat, gid: nat)

  const TWO_TO_64: int := 0x1_0000_0000_0000_0000
  const TWO_TO_32: int := 0x1_0000_0000

  /** The type bits `fillAttr` or-s in: symbolic link first, then directory, else regular file. */
  function TypeBits(isSymlink: bool, isDir: bool): (t: bv32)
    ensures t & S_IFMT == t
  {
    if isSymlink then S_IFLNK else if isDir then S_IFDIR else S_IFREG
  }

  /** A symbolic link reports itself as a link even when it is also marked as a directory. */
  lemma SymlinkBeatsDirectory(isDir: bool)
    ensures TypeBits(true, isDir) == S_IFLNK
  {
  }

  /** The three outcomes are distinct type codes. */
  lemma TypeBitsDistinguish(l1: bool, d1: bool, l2: bool, d2: bool)
    requires TypeBits(l1, d1) == TypeBits(l2, d2)
    ensures l1 == l2
    ensures !l1 ==> d1 == d2
  {
  }

  /** `fillAttr`; `baseMode` is the permission word the mode conversion gives (not part of this
      model) and `uid`/`gid` are the caller's ids. Sizes and times are cast to unsigned 64 bits. */
  function FillAttr(info: AgfsInfo, baseMode: bv32, uid: nat, gid: nat): (a: Attr)
    ensures 0 <= info.modSeconds < TWO_TO_64 ==> a.mtime == info.modSeconds
    ensures -TWO_TO_64 <= info.modSeconds < 0 ==> a.mtime == info.modSeconds + TWO_TO_64
    ensures info.modNanos < 1_000_000_000 ==> a.mtimensec == info.modNanos
    ensures a.atime == a.mtime && a.ctime == a.mtime
    ensures a.atimensec == a.mtimensec && a.ctimensec == a.mtimensec
    ensures 0 <= info.size < TWO_TO_64 ==> a.size == info.size
    ensures -TWO_TO_64 <= info.size < 0 ==> a.size == info.size + TWO_TO_64
    ensures uid < TWO_TO_32 && gid < TWO_TO_32 ==> a.uid == uid && a.gid == gid
  {
    var mtime := info.modSeconds % TWO_TO_64;
    var nsec := info.modNanos % TWO_TO_32;
    Attr(baseMode | TypeBits(info.isSymlink, info.isDir), info.size % TWO_TO_64,
         mtime, nsec, mtime, nsec, mtime, nsec, uid % TWO_TO_32, gid % TWO_TO_32)
  }

  /** When the base mode carries no type bits, the type field of the result is exactly the selected
      type and the permission bits are the base mode's. */
  lemma FillAttrType(info: AgfsInfo, baseMode: bv32, uid: nat, gid: nat)
    requires baseMode & S_IFMT == 0
    ensures FillAttr(info, baseMode, uid, gid).mode & S_IFMT == TypeBits(info.isSymlink, info.isDir)
  {
    var t := TypeBits(info.isSymlink, info.isDir);
    assert (baseMode | t) & S_IFMT == (baseMode & S_IFMT) | (t & S_IFMT);
  }

  lemma FillAttrPermissions(info: AgfsInfo, baseMode: bv32, uid: nat, gid: nat)
    ensures FillAttr(info, baseMode, uid, gid).mode & 0xFFF == baseMode & 0xFFF
  {
    var t := TypeBits(info.isSymlink, info.isDir);
    assert t & 0xFFF == 0;
  }

  /** The path components of a node, root outward, from the names met walking from the node up to
      (not including) the root; `chain[0]` is the node's own name. Empty names are skipped. */
  function Components(chain: seq<string>): (cs: seq<string>)
    ensures |cs| <= |chain|
    ensures forall k :: 0 <= k < |cs| ==> cs[k] != [] && cs[k] in chain
  {
    if chain == [] then []
    else
      var last := chain[|chain| - 1];
      var rest := Components(chain[..|chain| - 1]);
      assert forall n :: n in chain[..|chain| - 1] ==> n in chain;
      (if last != [] then [last] else []) + rest
  }

  /** `getPath` as a value: `/` for the root, otherwise `/` followed by the components joined. */
  function PathOf(chain: seq<string>): (p: string)
  {
    var cs := Components(chain);
    if cs == [] then "/" else "/" + Text.Join(cs, "/")
  }

  /** The node's own name is the last component. */
  lemma {:induction false} OwnNameIsLast(chain: seq<string>)
    requires chain != [] && chain[0] != []
    ensures Components(chain) != [] && Components(chain)[|Components(chain)| - 1] == chain[0]
    decreases |chain|
  {
    if |chain| > 1 {
      OwnNameIsLast(chain[..|chain| - 1]);
      assert chain[..|chain| - 1][0] == chain[0];
    }
  }

  /** Every path starts with `/`, and when no name contains `/` the components can be read back by
      splitting what follows it. */
  lemma PathComponents(chain: seq<string>)
    requires forall k :: 0 <= k < |chain| ==> '/' !in chain[k]
    ensures PathOf(chain) != [] && PathOf(chain)[0] == '/'
    ensures Components(chain) != [] ==> Text.Split(PathOf(chain)[1..], "/") == Components(chain)
  {
    var cs := Components(chain);
    if cs != [] {
      assert forall k :: 0 <= k < |cs| ==> "/"[0] !in cs[k];
      Text.SplitJoin(cs, "/");
      assert PathOf(chain)[1..] == Text.Join(cs, "/");
    }
  }

  /** `getPath`: walks the ancestor names, prepending every non-empty one. */
  method GetPath(chain: seq<string>) returns (p: string)
    ensures p == PathOf(chain)
  {
    var components: seq<string> := [];
    var i := 0;
    while i < |chain|
      invariant 0 <= i <= |chain|
      invariant components == Components(chain[..i])
    {
      var name := chain[i];
      assert chain[..i + 1][..i] == chain[..i];
      if name != [] {
        components := [name] + components;
      }
      i := i + 1;
    }
    assert chain[..|chain|] == chain;
    if components == [] {
      return "/";
    }
    p := "/" + Text.Join(components, "/");
  }
}
