// The server's lease-based handle table. Every registered handle carries a
// lease; accessing it refreshes the lease, and a handle whose lease has run
// out is closed and dropped the next time it is touched or swept. Time is an
// explicit integer `now` in nanoseconds; the random bytes of an identifier are a
// parameter; closing an underlying file handle is recorded in a log of closed
// identifiers.
module ServerHandles {
  import opened Wrappers
  import opened Packing
  import Text

  const SECOND: int := 1_000_000_000

  datatype HandleManagerConfig = HandleManagerConfig(
    defaultLease: int, maxLease: int, maxHandles: int, cleanupInterval: int)

  /** `DefaultHandleManagerConfig`. */
  const DEFAULT_CONFIG := HandleManagerConfig(60 * SECOND, 300 * SECOND, 10000, 10 * SECOND)

  /** The defaults `NewHandleManager` puts in place of zero fields; other values are kept. */
  function Normalize(c: HandleManagerConfig): (r: HandleManagerConfig)
    ensures r.defaultLease == (if c.defaultLease == 0 then 60 * SECOND else c.defaultLease)
    ensures r.maxLease == (if c.maxLease == 0 then 300 * SECOND else c.maxLease)
    ensures r.maxHandles == (if c.maxHandles == 0 then 10000 else c.maxHandles)
    ensures r.cleanupInterval == (if c.cleanupInterval == 0 then 10 * SECOND else c.cleanupInterval)
  {
    HandleManagerConfig(
      if c.defaultLease == 0 then DEFAULT_CONFIG.defaultLease else c.defaultLease,
      if c.maxLease == 0 then DEFAULT_CONFIG.maxLease else c.maxLease,
      if c.maxHandles == 0 then DEFAULT_CONFIG.maxHandles else c.maxHandles,
      if c.cleanupInterval == 0 then DEFAULT_CONFIG.cleanupInterval else c.cleanupInterval)
  }

  /** The all-zero configuration becomes the default one, and normalising twice changes nothing. */
  lemma NormalizeDefaults(c: HandleManagerConfig)
    ensures Normalize(HandleManagerConfig(0, 0, 0, 0)) == DEFAULT_CONFIG
    ensures Normalize(Normalize(c)) == Normalize(c)
    ensures Normalize(DEFAULT_CONFIG) == DEFAULT_CONFIG
  {
  }

  /** The lease actually granted: a non-positive request takes `fallback`, and nothing exceeds `max`. */
  function ClampLease(lease: int, fallback: int, max: int): (r: int)
    ensures r <= max
    ensures lease > 0 && lease <= max ==> r == lease
    ensures lease > 0 && lease > max ==> r == max
    ensures lease <= 0 && fallback <= max ==> r == fallback
  {
    var l := if lease <= 0 then fallback else lease;
    if l > max then max else l
  }

  /** With positive bounds a granted lease is always positive. */
  lemma ClampLeasePositive(lease: int, fallback: int, max: int)
    requires fallback > 0 && max > 0
    ensures ClampLease(lease, fallback, max) > 0
  {
  }

  /** `hex.EncodeToString`: two lower-case digits per byte, high nibble first. */
  function HexEncode(bytes: seq<Byte>): (s: string)
    ensures |s| == 2 * |bytes|
    ensures forall i :: 0 <= i < |s| ==> Text.IsHexDigit(s[i])
  {
    if bytes == [] then []
    else
      var b := bytes[0] as int;
      [Text.HexChar(b / 16), Text.HexChar(b % 16)] + HexEncode(bytes[1..])
  }

  /** Reads back the bytes of a hex string of even length. */
  function HexDecode(s: string): (bytes: seq<Byte>)
    requires |s| % 2 == 0
    requires forall i :: 0 <= i < |s| ==> Text.IsHexDigit(s[i])
  {
    if s == [] then []
    else [(Text.HexDigitValue(s[0]) * 16 + Text.HexDigitValue(s[1])) as Byte] + HexDecode(s[2..])
  }

  lemma {:induction false} HexDecodeEncode(bytes: seq<Byte>)
    ensures HexDecode(HexEncode(bytes)) == bytes
  {
    if bytes != [] {
      var s := HexEncode(bytes);
      HexDecodeEncode(bytes[1..]);
      assert s[2..] == HexEncode(bytes[1..]);
      var b := bytes[0] as int;
      assert (b / 16 * 16 + b % 16) as Byte == bytes[0];
    }
  }

  /** `generateID` over the sixteen random bytes it reads. */
  function GenerateId(random: seq<Byte>): (id: string)
    ensures |id| == 2 + 2 * |random| && id[..2] == "h_"
  {
    "h_" + HexEncode(random)
  }

  /** Different random bytes give different identifiers. */
  lemma GenerateIdInjective(a: seq<Byte>, b: seq<Byte>)
    requires a != b
    ensures GenerateId(a) != GenerateId(b)
  {
    if GenerateId(a) == GenerateId(b) {
      assert HexEncode(a) == GenerateId(a)[2..];
      HexDecodeEncode(a);
      HexDecodeEncode(b);
    }
  }

  /** One table entry; `handle` identifies the underlying file handle. */
  datatype ManagedHandle = ManagedHandle(
    handle: nat, path: string, flags: int, leaseTime: int, expiresAt: int, createdAt: int, lastAccess: int)

  /** `now.After(ExpiresAt)`: strictly past the expiry. */
  predicate Expired(mh: ManagedHandle, now: int) {
    now > mh.expiresAt
  }

  /** `now.Before(ExpiresAt)`: strictly before the expiry. */
  predicate Listed(mh: ManagedHandle, now: int) {
    now < mh.expiresAt
  }

  /** At the very instant of expiry an entry is neither listed nor swept. */
  lemma ExpiryInstant(mh: ManagedHandle)
    ensures !Expired(mh, mh.expiresAt) && !Listed(mh, mh.expiresAt)
  {
  }

  datatype HmError = ErrNotFound | ErrMaxHandles(limit: int) | ErrClose(msg: string)

  /** The entries that survive a sweep at `now`. */
  function Unexpired(handles: map<string, ManagedHandle>, now: int): (r: map<string, ManagedHandle>)
    ensures r.Keys <= handles.Keys
    ensures forall id :: id in r ==> r[id] == handles[id] && !Expired(r[id], now)
    ensures forall id :: id in handles && !Expired(handles[id], now) ==> id in r
  {
    map id | id in handles && !Expired(handles[id], now) :: handles[id]
  }

  /** A sweep is idempotent and keeps nothing that a later sweep at the same time would drop. */
  lemma UnexpiredIdempotent(handles: map<string, ManagedHandle>, now: int)
    ensures Unexpired(Unexpired(handles, now), now) == Unexpired(handles, now)
  {
  }

  class HandleManager {
    var handles: map<string, ManagedHandle>
    const config: HandleManagerConfig
    /** Identifiers of the entries whose file handle has been closed, in order. */
    var closed: seq<string>

    constructor(cfg: HandleManagerConfig)
      ensures config == Normalize(cfg) && handles == map[] && closed == []
    {
      config := Normalize(cfg);
      handles := map[];
      closed := [];
    }

    function Count(): (n: nat)
      reads this
      ensures n == |handles.Keys|
    {
      |handles|
    }

    /** `Register`: refuses at capacity; otherwise installs an entry whose clamped lease starts now. */
    method Register(handle: nat, path: string, flags: int, lease: int, now: int, random: seq<Byte>)
      returns (r: Result<(string, int), HmError>)
      requires |random| == 16
      modifies this
      ensures |old(handles)| >= config.maxHandles ==>
                r == Err(ErrMaxHandles(config.maxHandles)) && handles == old(handles)
      ensures |old(handles)| < config.maxHandles ==>
                var granted := ClampLease(lease, config.defaultLease, config.maxLease);
                var id := GenerateId(random);
                r == Ok((id, now + granted))
                && handles == old(handles)[id := ManagedHandle(handle, path, flags, granted, now + granted, now, now)]
      ensures r.Ok? && r.value.0 !in old(handles) ==> |handles| == |old(handles)| + 1
      ensures closed == old(closed)
    {
      if |handles| >= config.maxHandles {
        return Err(ErrMaxHandles(config.maxHandles));
      }
      var granted := ClampLease(lease, config.defaultLease, config.maxLease);
      var id := GenerateId(random);
      handles := handles[id := ManagedHandle(handle, path, flags, granted, now + granted, now, now)];
      r := Ok((id, now + granted));
    }

    /** `Get`: an expired entry is closed and dropped; a live one has its lease restarted from now. */
    method Get(id: string, now: int) returns (r: Result<nat, HmError>)
      modifies this
      ensures id !in old(handles) ==> r == Err(ErrNotFound) && handles == old(handles) && closed == old(closed)
      ensures id in old(handles) && Expired(old(handles)[id], now) ==>
                r == Err(ErrNotFound) && handles == old(handles) - {id} && closed == old(closed) + [id]
      ensures id in old(handles) && !Expired(old(handles)[id], now) ==>
                var mh := old(handles)[id];
                r == Ok(mh.handle) && closed == old(closed)
                && handles == old(handles)[id := mh.(lastAccess := now, expiresAt := now + mh.leaseTime)]
    {
      if id !in handles {
        return Err(ErrNotFound);
      }
      var mh := handles[id];
      if Expired(mh, now) {
        closed := closed + [id];
        handles := handles - {id};
        return Err(ErrNotFound);
      }
      handles := handles[id := mh.(lastAccess := now, expiresAt := now + mh.leaseTime)];
      r := Ok(mh.handle);
    }

    /** `GetInfo`: the entry as it is, without refreshing or removing anything. */
    function GetInfo(id: string, now: int): (r: Result<ManagedHandle, HmError>)
      reads this
      ensures r.Ok? <==> id in handles && !Expired(handles[id], now)
      ensures r.Ok? ==> r.value == handles[id]
      ensures r.Err? ==> r.error == ErrNotFound
    {
      if id !in handles then Err(ErrNotFound)
      else if Expired(handles[id], now) then Err(ErrNotFound)
      else Ok(handles[id])
    }

    /** `Renew`: a non-positive request keeps the entry's current lease; the grant never exceeds the maximum. */
    method Renew(id: string, lease: int, now: int) returns (r: Result<int, HmError>)
      modifies this
      ensures id !in old(handles) ==> r == Err(ErrNotFound) && handles == old(handles) && closed == old(closed)
      ensures id in old(handles) && Expired(old(handles)[id], now) ==>
                r == Err(ErrNotFound) && handles == old(handles) - {id} && closed == old(closed) + [id]
      ensures id in old(handles) && !Expired(old(handles)[id], now) ==>
                var mh := old(handles)[id];
                var granted := ClampLease(lease, mh.leaseTime, config.maxLease);
                r == Ok(now + granted) && closed == old(closed)
                && handles == old(handles)[id := mh.(leaseTime := granted, expiresAt := now + granted, lastAccess := now)]
    {
      if id !in handles {
        return Err(ErrNotFound);
      }
      var mh := handles[id];
      if Expired(mh, now) {
        closed := closed + [id];
        handles := handles - {id};
        return Err(ErrNotFound);
      }
      var granted := ClampLease(lease, mh.leaseTime, config.maxLease);
      handles := handles[id := mh.(leaseTime := granted, expiresAt := now + granted, lastAccess := now)];
      r := Ok(now + granted);
    }

    /** `Close`: closes and drops the entry, reporting the file handle's own close error;
        an unknown identifier (such as one already closed) is ErrNotFound. `closeError` is
        what the file handle's `Close` returns. */
    method Close(id: string, closeError: Option<string>) returns (r: Option<HmError>)
      modifies this
      ensures id !in old(handles) ==> r == Some(ErrNotFound) && handles == old(handles) && closed == old(closed)
      ensures id in old(handles) ==>
                handles == old(handles) - {id} && closed == old(closed) + [id]
                && r == (if closeError.Some? then Some(ErrClose(closeError.value)) else None)
      ensures id !in handles
    {
      if id !in handles {
        return Some(ErrNotFound);
      }
      closed := closed + [id];
      handles := handles - {id};
      r := if closeError.Some? then Some(ErrClose(closeError.value)) else None;
    }

    ghost function ListedIds(now: int): (s: set<string>)
      reads this
    {
      set id | id in handles && Listed(handles[id], now)
    }

    /** `List`: the entries whose lease is still running, one per identifier, in map order. */
    /** A set of keys holding exactly the listed entries is `ListedIds`. */
    lemma ListedIdsExactly(seen: set<string>, now: int)
      requires seen <= handles.Keys
      requires forall id :: id in handles ==> (id in seen <==> Listed(handles[id], now))
      ensures seen == ListedIds(now)
    {
    }

    method List(now: int) returns (r: seq<ManagedHandle>)
      ensures |r| == |ListedIds(now)|
      ensures forall i :: 0 <= i < |r| ==> Listed(r[i], now) && r[i] in handles.Values
      ensures forall id :: id in handles && Listed(handles[id], now) ==> handles[id] in r
    {
      var todo := handles.Keys;
      ghost var seen: set<string> := {};
      ghost var visited: set<string> := {};
      r := [];
      while todo != {}
        invariant todo <= handles.Keys && visited == handles.Keys - todo
        invariant seen <= visited
        invariant forall id :: id in visited ==> (id in seen <==> Listed(handles[id], now))
        invariant |r| == |seen|
        invariant forall i :: 0 <= i < |r| ==> Listed(r[i], now) && r[i] in handles.Values
        invariant forall id :: id in seen ==> handles[id] in r
        decreases |todo|
      {
        var id :| id in todo;
        assert id !in visited;
        if Listed(handles[id], now) {
          assert id !in seen;
          assert handles[id] in handles.Values;
          r := r + [handles[id]];
          seen := seen + {id};
        }
        todo := todo - {id};
        visited := visited + {id};
      }
      ListedIdsExactly(seen, now);
    }

    /** Closes and drops the entries named in `ids`, one at a time in some order. */
    method Evict(ids: set<string>) returns (ghost order: seq<string>)
      requires ids <= handles.Keys
      modifies this
      ensures handles == map id | id in old(handles) && id !in ids :: old(handles)[id]
      ensures closed == old(closed) + order
      ensures |order| == |ids| && (forall i :: 0 <= i < |order| ==> order[i] in ids)
      ensures forall id :: id in ids ==> id in order
    {
      var todo := ids;
      order := [];
      while todo != {}
        invariant todo <= ids && todo <= handles.Keys
        invariant handles == map id | id in old(handles) && (id !in ids || id in todo) :: old(handles)[id]
        invariant closed == old(closed) + order
        invariant |order| + |todo| == |ids|
        invariant forall i :: 0 <= i < |order| ==> order[i] in ids && order[i] !in todo
        invariant forall id :: id in ids && id !in todo ==> id in order
        decreases |todo|
      {
        var id :| id in todo;
        closed := closed + [id];
        handles := handles - {id};
        order := order + [id];
        todo := todo - {id};
      }
    }

    ghost function ExpiredIds(now: int): (s: set<string>)
      reads this
      ensures s <= handles.Keys
    {
      set id | id in handles && Expired(handles[id], now)
    }

    /** `cleanup`: closes and drops exactly the expired entries. */
    method Cleanup(now: int) returns (ghost swept: seq<string>)
      modifies this
      ensures handles == Unexpired(old(handles), now)
      ensures closed == old(closed) + swept
      ensures |swept| == |old(ExpiredIds(now))|
      ensures forall id :: id in swept <==> id in old(handles) && Expired(old(handles)[id], now)
    {
      var expired := set id | id in handles && Expired(handles[id], now);
      swept := Evict(expired);
    }

    /** `Stop`: closes every remaining entry and leaves the table empty. */
    method Stop() returns (ghost swept: seq<string>)
      modifies this
      ensures handles == map[] && Count() == 0
      ensures closed == old(closed) + swept
      ensures |swept| == |old(handles)|
      ensures forall id :: id in swept <==> id in old(handles)
    {
      swept := Evict(handles.Keys);
      assert handles.Keys == {};
    }
  }
}
