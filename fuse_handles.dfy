// The FUSE client's handle table. A FUSE handle either stands for a handle
// opened on the server (remote) or, when the server has no handle support, for
// a path the client serves itself (local): a local handle fetches the whole
// file on its first read and answers later reads from that copy. Every call
// into the server is represented by its reply, passed to the operation that
// makes the call.
module FuseHandles {
  import opened Wrappers
  import opened Packing
  import Text

  datatype HandleKind = Remote | Local

  datatype HandleInfo = HandleInfo(
    kind: HandleKind, agfsHandle: int, path: string, flags: int, mode: Nat32,
    readBuffer: Option<seq<Byte>>)

  /** The server's reply to `OpenHandle`. */
  datatype OpenReply = Opened(handle: int) | NotSupported | OpenFailed(msg: string)

  function NotFoundText(fh: nat): (s: string)
    ensures Text.StartsWith(s, "handle ")
  {
    "handle " + Text.NatToString(fh) + " not found"
  }

  /** The part of `data` a read of `size` bytes at `offset` returns. */
  function Window(data: seq<Byte>, offset: nat, size: nat): (w: seq<Byte>)
    ensures |w| <= size
    ensures offset >= |data| ==> w == []
    ensures offset < |data| ==> |w| == if offset + size <= |data| then size else |data| - offset
    ensures forall i :: 0 <= i < |w| ==> w[i] == data[offset + i]
  {
    if offset >= |data| then []
    else if offset + size > |data| then data[offset..]
    else data[offset..offset + size]
  }

  /** Reading a window and then the next one gives the same bytes as one larger read. */
  lemma WindowsConcatenate(data: seq<Byte>, offset: nat, s1: nat, s2: nat)
    ensures Window(data, offset, s1) + Window(data, offset + s1, s2) == Window(data, offset, s1 + s2)
  {
    var a := Window(data, offset, s1);
    var b := Window(data, offset + s1, s2);
    var c := Window(data, offset, s1 + s2);
    assert |a + b| == |c|;
    forall i | 0 <= i < |c|
      ensures (a + b)[i] == c[i]
    {
      if i >= |a| {
        assert (a + b)[i] == b[i - |a|];
      }
    }
  }

  /** Reading a cached file from 0 in steps of `size` bytes eventually yields all of it. */
  lemma {:induction false} SequentialReadsCoverFile(data: seq<Byte>, offset: nat, size: nat)
    requires size > 0 && offset <= |data|
    ensures ChunkedRead(data, offset, size) == data[offset..]
    decreases |data| - offset
  {
    if offset < |data| {
      var next := if offset + size <= |data| then offset + size else |data|;
      SequentialReadsCoverFile(data, next, size);
      assert ChunkedRead(data, offset + size, size) == ChunkedRead(data, next, size);
      assert Window(data, offset, size) == data[offset..next];
      SplitAt(data, offset, next);
    }
  }

  lemma SplitAt(data: seq<Byte>, i: nat, j: nat)
    requires i <= j <= |data|
    ensures data[i..] == data[i..j] + data[j..]
  {
  }

  /** The concatenation of consecutive reads of `size` bytes from `offset` until end of file. */
  function ChunkedRead(data: seq<Byte>, offset: nat, size: nat): (r: seq<Byte>)
    requires size > 0
    decreases |data| - offset
  {
    if offset >= |data| then [] else Window(data, offset, size) + ChunkedRead(data, offset + size, size)
  }

  /** The server handles of the remote entries of `m`, visited in the order `keys`: one per
      remote entry, in that order, and nothing for a local entry. */
  function RemoteHandles(m: map<nat, HandleInfo>, keys: seq<nat>): (r: seq<int>)
    requires forall i :: 0 <= i < |keys| ==> keys[i] in m
    ensures |r| <= |keys|
  {
    if keys == [] then []
    else
      var last := keys[|keys| - 1];
      RemoteHandles(m, keys[..|keys| - 1]) + (if m[last].kind.Remote? then [m[last].agfsHandle] else [])
  }

  /** The error `CloseAll` reports after visiting `keys` in order: that of the last remote
      close that failed, none when every one of them closed. */
  function LastError(m: map<nat, HandleInfo>, keys: seq<nat>, reply: int -> Option<string>): (r: Option<string>)
    requires forall i :: 0 <= i < |keys| ==> keys[i] in m
    ensures r.Some? ==> exists i :: 0 <= i < |keys| && m[keys[i]].kind.Remote? && reply(m[keys[i]].agfsHandle) == r
  {
    if keys == [] then None
    else
      var last := keys[|keys| - 1];
      if m[last].kind.Remote? && reply(m[last].agfsHandle).Some? then reply(m[last].agfsHandle)
      else LastError(m, keys[..|keys| - 1], reply)
  }

  /** Every remote entry visited contributes its server handle, every handle listed comes from
      a remote entry, and local entries alone contribute nothing. */
  lemma {:induction false} RemoteHandlesExactly(m: map<nat, HandleInfo>, keys: seq<nat>)
    requires forall i :: 0 <= i < |keys| ==> keys[i] in m
    ensures forall i :: 0 <= i < |keys| && m[keys[i]].kind.Remote? ==> m[keys[i]].agfsHandle in RemoteHandles(m, keys)
    ensures forall x :: x in RemoteHandles(m, keys) ==>
              exists i :: 0 <= i < |keys| && m[keys[i]].kind.Remote? && m[keys[i]].agfsHandle == x
    ensures (forall i :: 0 <= i < |keys| ==> m[keys[i]].kind.Local?) ==> RemoteHandles(m, keys) == []
  {
    if keys != [] {
      var init := keys[..|keys| - 1];
      RemoteHandlesExactly(m, init);
      forall x | x in RemoteHandles(m, keys)
        ensures exists i :: 0 <= i < |keys| && m[keys[i]].kind.Remote? && m[keys[i]].agfsHandle == x
      {
        if x in RemoteHandles(m, init) {
          var i :| 0 <= i < |init| && m[init[i]].kind.Remote? && m[init[i]].agfsHandle == x;
          assert keys[i] == init[i];
        }
      }
      forall i | 0 <= i < |keys| && m[keys[i]].kind.Remote?
        ensures m[keys[i]].agfsHandle in RemoteHandles(m, keys)
      {
        if i < |init| {
          assert keys[i] == init[i];
        }
      }
    }
  }

  /** Part way through a walk over the keys of a table: `todo` is what is left to visit and
      `order` lists the keys visited so far, each once. */
  ghost predicate Walked(keys: set<nat>, todo: set<nat>, order: seq<nat>)
  {
    && todo <= keys
    && |order| + |todo| == |keys|
    && (forall k :: k in keys ==> (k in todo <==> k !in order))
    && (forall i :: 0 <= i < |order| ==> order[i] in keys)
    && (forall i, j :: 0 <= i < j < |order| ==> order[i] != order[j])
  }

  /** Taking `fh` out of what is left and appending it to the order continues the walk. */
  lemma WalkStep(keys: set<nat>, todo: set<nat>, order: seq<nat>, fh: nat)
    requires Walked(keys, todo, order) && fh in todo
    ensures Walked(keys, todo - {fh}, order + [fh])
  {
    assert |todo - {fh}| == |todo| - 1;
    assert fh !in order;
  }

  /** After visiting the keys outside `todo`, `r` is the error of a failed close of a remote
      entry visited, and none exactly when all of them closed. */
  ghost predicate Reported(m: map<nat, HandleInfo>, todo: set<nat>, reply: int -> Option<string>, r: Option<string>)
  {
    && (r.None? <==> forall k :: k in m && k !in todo && m[k].kind.Remote? ==> reply(m[k].agfsHandle).None?)
    && (r.Some? ==> exists k :: k in m && k !in todo && m[k].kind.Remote? && reply(m[k].agfsHandle) == r)
  }

  /** Visiting `fh` keeps the error bookkeeping: a failed remote close replaces the error. */
  lemma ReplyStep(m: map<nat, HandleInfo>, todo: set<nat>, fh: nat, reply: int -> Option<string>,
                  r0: Option<string>, r: Option<string>)
    requires fh in todo && fh in m && Reported(m, todo, reply, r0)
    requires r == (if m[fh].kind.Remote? && reply(m[fh].agfsHandle).Some? then reply(m[fh].agfsHandle) else r0)
    ensures Reported(m, todo - {fh}, reply, r)
  {
    if r.Some? && r != r0 {
      assert fh in m && fh !in todo - {fh} && m[fh].kind.Remote? && reply(m[fh].agfsHandle) == r;
    }
  }

  /** The walk of `CloseAll` over a snapshot of the table: the server handles it closes, in the
      order it visits the entries, and the error of the last close that failed. The visiting
      order is returned as `order`: every key of the snapshot exactly once. */
  method CloseEach(snapshot: map<nat, HandleInfo>, reply: int -> Option<string>)
      returns (closes: seq<int>, r: Option<string>, ghost order: seq<nat>)
    ensures |order| == |snapshot| && forall fh :: fh in snapshot <==> fh in order
    ensures forall i, j :: 0 <= i < j < |order| ==> order[i] != order[j]
    ensures closes == RemoteHandles(snapshot, order)
    ensures r == LastError(snapshot, order, reply)
    ensures r.None? <==> forall fh :: fh in snapshot && snapshot[fh].kind.Remote? ==>
                                       reply(snapshot[fh].agfsHandle).None?
    ensures r.Some? ==> exists fh :: fh in snapshot && snapshot[fh].kind.Remote?
                                      && reply(snapshot[fh].agfsHandle) == r
  {
    var todo := snapshot.Keys;
    closes := [];
    r := None;
    order := [];
    while todo != {}
      invariant Walked(snapshot.Keys, todo, order)
      invariant closes == RemoteHandles(snapshot, order)
      invariant r == LastError(snapshot, order, reply)
      invariant Reported(snapshot, todo, reply, r)
      decreases |todo|
    {
      var fh :| fh in todo;
      var info := snapshot[fh];
      WalkStep(snapshot.Keys, todo, order, fh);
      assert (order + [fh])[..|order|] == order;
      assert RemoteHandles(snapshot, order + [fh]) ==
             RemoteHandles(snapshot, order) + (if info.kind.Remote? then [info.agfsHandle] else []);
      var r0 := r;
      if info.kind.Remote? {
        closes := closes + [info.agfsHandle];
        var e := reply(info.agfsHandle);
        if e.Some? {
          r := e;
        }
      }
      ReplyStep(snapshot, todo, fh, reply, r0, r);
      order := order + [fh];
      todo := todo - {fh};
    }
  }

  class HandleManager {
    var handles: map<nat, HandleInfo>
    var nextHandle: Nat64
    /** The server handles this manager has asked the server to close, in order. */
    var serverCloses: seq<int>

    /** Every handle in the table was issued by the counter. */
    ghost predicate Valid()
      reads this
    {
      forall fh :: fh in handles ==> fh <= nextHandle
    }

    constructor()
      ensures handles == map[] && nextHandle == 1 && serverCloses == []
      ensures Valid()
    {
      handles := map[];
      nextHandle := 1;
      serverCloses := [];
    }

    function Count(): (n: nat)
      reads this
      ensures n == |handles.Keys|
    {
      |handles|
    }

    /** `Open`: the counter advances on every attempt; a server without handle support yields
        a local handle, any other server error yields no handle at all. */
    method Open(path: string, flags: int, mode: Nat32, reply: OpenReply) returns (r: Result<nat, string>)
      modifies this
      ensures nextHandle == (old(nextHandle) + 1) % 0x1_0000_0000_0000_0000
      ensures reply.OpenFailed? ==>
                r == Err("failed to open handle: " + reply.msg) && handles == old(handles)
      ensures reply.NotSupported? ==>
                r == Ok(nextHandle) && handles == old(handles)[nextHandle := HandleInfo(Local, 0, path, flags, mode, None)]
      ensures reply.Opened? ==>
                r == Ok(nextHandle)
                && handles == old(handles)[nextHandle := HandleInfo(Remote, reply.handle, path, flags, mode, None)]
      ensures serverCloses == old(serverCloses)
      ensures old(Valid()) && old(nextHandle) + 1 < 0x1_0000_0000_0000_0000 ==>
                Valid() && nextHandle > old(nextHandle) && (r.Ok? ==> r.value !in old(handles))
    {
      nextHandle := (nextHandle + 1) % 0x1_0000_0000_0000_0000;
      var fh := nextHandle;
      match reply
      case OpenFailed(msg) =>
        r := Err("failed to open handle: " + msg);
      case NotSupported =>
        handles := handles[fh := HandleInfo(Local, 0, path, flags, mode, None)];
        r := Ok(fh);
      case Opened(h) =>
        handles := handles[fh := HandleInfo(Remote, h, path, flags, mode, None)];
        r := Ok(fh);
    }

    /** `Close`: the entry is removed before the server is asked, so it is gone even when the
        server's close fails. `reply` is the server's answer to `CloseHandle`. */
    method Close(fh: nat, reply: Option<string>) returns (r: Option<string>)
      modifies this
      ensures fh !in old(handles) ==>
                r == Some(NotFoundText(fh)) && handles == old(handles) && serverCloses == old(serverCloses)
      ensures fh in old(handles) ==> handles == old(handles) - {fh}
      ensures fh in old(handles) && old(handles)[fh].kind.Local? ==> r.None? && serverCloses == old(serverCloses)
      ensures fh in old(handles) && old(handles)[fh].kind.Remote? ==>
                serverCloses == old(serverCloses) + [old(handles)[fh].agfsHandle]
                && r == (if reply.Some? then Some("failed to close handle: " + reply.value) else None)
      ensures nextHandle == old(nextHandle)
      ensures fh !in handles
    {
      if fh !in handles {
        return Some(NotFoundText(fh));
      }
      var info := handles[fh];
      handles := handles - {fh};
      if info.kind.Remote? {
        serverCloses := serverCloses + [info.agfsHandle];
        r := if reply.Some? then Some("failed to close handle: " + reply.value) else None;
      } else {
        r := None;
      }
    }

    /** `Read`. For a remote handle `reply` is the server's `ReadHandle` answer; for a local
        handle without a copy it is the answer to reading the whole file, which is then kept;
        a local handle with a copy asks nothing. */
    method Read(fh: nat, offset: nat, size: nat, reply: Result<seq<Byte>, string>) returns (r: Result<seq<Byte>, string>)
      modifies this
      ensures fh !in old(handles) ==> r == Err(NotFoundText(fh)) && handles == old(handles)
      ensures fh in old(handles) && old(handles)[fh].kind.Remote? ==>
                handles == old(handles)
                && r == (if reply.Ok? then Ok(reply.value) else Err("failed to read handle: " + reply.error))
      ensures fh in old(handles) && old(handles)[fh].kind.Local? && old(handles)[fh].readBuffer.Some? ==>
                handles == old(handles) && r == Ok(Window(old(handles)[fh].readBuffer.value, offset, size))
      ensures fh in old(handles) && old(handles)[fh].kind.Local? && old(handles)[fh].readBuffer.None? && reply.Err? ==>
                handles == old(handles) && r == Err("failed to read file: " + reply.error)
      ensures fh in old(handles) && old(handles)[fh].kind.Local? && old(handles)[fh].readBuffer.None? && reply.Ok? ==>
                handles == old(handles)[fh := old(handles)[fh].(readBuffer := Some(reply.value))]
                && r == Ok(Window(reply.value, offset, size))
      ensures nextHandle == old(nextHandle) && serverCloses == old(serverCloses)
    {
      if fh !in handles {
        return Err(NotFoundText(fh));
      }
      var info := handles[fh];
      if info.kind.Remote? {
        return if reply.Ok? then Ok(reply.value) else Err("failed to read handle: " + reply.error);
      }
      if info.readBuffer.None? {
        if reply.Err? {
          return Err("failed to read file: " + reply.error);
        }
        var data := reply.value;
        if fh in handles {
          handles := handles[fh := handles[fh].(readBuffer := Some(data))];
        }
        return Ok(Window(data, offset, size));
      }
      r := Ok(Window(info.readBuffer.value, offset, size));
    }

    /** `Write`. A remote handle forwards the write with its offset; a local handle sends the
        data as a whole-file write, ignoring the offset, and reports all of it as written. */
    method Write(fh: nat, data: seq<Byte>, offset: int, reply: Result<int, string>) returns (r: Result<int, string>)
      ensures fh !in handles ==> r == Err(NotFoundText(fh))
      ensures fh in handles && handles[fh].kind.Remote? ==>
                r == (if reply.Ok? then Ok(reply.value) else Err("failed to write handle: " + reply.error))
      ensures fh in handles && handles[fh].kind.Local? ==>
                r == (if reply.Ok? then Ok(|data|) else Err("failed to write to server: " + reply.error))
    {
      if fh !in handles {
        return Err(NotFoundText(fh));
      }
      if handles[fh].kind.Remote? {
        return if reply.Ok? then Ok(reply.value) else Err("failed to write handle: " + reply.error);
      }
      r := if reply.Ok? then Ok(|data|) else Err("failed to write to server: " + reply.error);
    }

    /** `Sync`: forwarded for remote handles, nothing to do for local ones. */
    function Sync(fh: nat, reply: Option<string>): (r: Option<string>)
      reads this
      ensures fh !in handles ==> r == Some(NotFoundText(fh))
      ensures fh in handles && handles[fh].kind.Local? ==> r.None?
      ensures fh in handles && handles[fh].kind.Remote? ==>
                r == (if reply.Some? then Some("failed to sync handle: " + reply.value) else None)
    {
      if fh !in handles then Some(NotFoundText(fh))
      else if handles[fh].kind.Local? then None
      else if reply.Some? then Some("failed to sync handle: " + reply.value)
      else None
    }

    ghost predicate RemoteFails(fh: nat, reply: int -> Option<string>)
      reads this
    {
      fh in handles && handles[fh].kind.Remote? && reply(handles[fh].agfsHandle).Some?
    }

    /** `CloseAll`: empties the table, asks the server to close every remote handle (`reply`
        gives its answer for each), and returns the error of the last close that failed. Go's
        map iteration order is unspecified, so the order in which the table was visited is
        returned as `order`: every handle of the table exactly once. */
    method CloseAll(reply: int -> Option<string>) returns (r: Option<string>, ghost order: seq<nat>)
      modifies this
      ensures handles == map[] && Count() == 0
      ensures nextHandle == old(nextHandle)
      ensures |order| == |old(handles)| && forall fh :: fh in old(handles) <==> fh in order
      ensures forall i, j :: 0 <= i < j < |order| ==> order[i] != order[j]
      ensures serverCloses == old(serverCloses) + RemoteHandles(old(handles), order)
      ensures r == LastError(old(handles), order, reply)
      ensures r.None? <==> forall fh :: fh in old(handles) && old(handles)[fh].kind.Remote? ==>
                                         reply(old(handles)[fh].agfsHandle).None?
      ensures r.Some? ==> exists fh :: fh in old(handles) && old(handles)[fh].kind.Remote?
                                        && reply(old(handles)[fh].agfsHandle) == r
    {
      var snapshot := handles;
      handles := map[];
      var closes;
      closes, r, order := CloseEach(snapshot, reply);
      serverCloses := serverCloses + closes;
    }
  }
}
