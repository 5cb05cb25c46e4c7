/** Creating the storage of a request body, and handing the same body to every reader of the request. */
module RequestContext {
  import opened Basics
  import opened BodyStorage

  /** `threshold` and `maxBytes` are the configured megabytes in bytes. */
  datatype Config = Config(enabled: bool, threshold: int, maxBytes: int)

  datatype Result =
    | Ok(storage: Storage)
    | TooLarge           // ErrRequestBodyTooLarge
    | Failed             // any other error

  predicate DiskAvailable(cfg: Config, used: int, size: int) {
    cfg.enabled && used + size <= cfg.maxBytes
  }

  /** The body of an HTTP request: `rest` is still to be read, `broken` says that it ends in an error. */
  class Body {
    var rest: seq<byte>
    const broken: bool
    var closed: bool

    constructor (data: seq<byte>, broken: bool)
      ensures rest == data && this.broken == broken && !closed
    {
      rest, this.broken, closed := data, broken, false;
    }

    /** Everything up to `limit` bytes, as io.ReadAll and io.Copy read through io.LimitReader. */
    method ReadUpTo(limit: nat) returns (data: seq<byte>, ok: bool)
      modifies this
      ensures closed == old(closed)
      ensures ok <==> !closed && (limit <= |old(rest)| || !broken)
      ensures ok ==> data == old(rest)[..if limit <= |old(rest)| then limit else |old(rest)|]
    {
      if closed { return [], false; }
      if limit <= |rest| {
        data, ok := rest[..limit], true;
        rest := rest[limit..];
      } else {
        data, ok := rest, !broken;
        rest := [];
      }
    }
  }

  /** newDiskStorage and newDiskStorageFromReader, once the bytes are there; `fileOk` says that every file operation
      succeeds. */
  method NewDiskStorage(stats: Stats, data: seq<byte>, fileOk: bool) returns (s: Option<Storage>)
    modifies stats
    ensures s.Some? <==> fileOk
    ensures s.Some? ==> s.value.Disk? && Stored(s.value, stats, data) && fresh(s.value.Repr())
    ensures stats.Value() == if fileOk then Added(old(stats.Value()), true, |data|) else old(stats.Value())
  {
    var file := new File();
    if !fileOk {
      file.removed := true;
      return None;
    }
    file.Write(data);
    var home := file.Seek(0, Start);
    var d := new DiskStorage(file, |data|, stats);
    return Some(Disk(d));
  }

  /** An open storage at the start of `data`. */
  ghost predicate Stored(s: Storage, stats: Stats, data: seq<byte>)
    reads s.Repr()
  {
    s.Valid() && s.Abs() == Abstract(data, 0, false) && s.Stats() == stats
  }

  method CreateBodyStorage(cfg: Config, stats: Stats, data: seq<byte>, fileOk: bool) returns (s: Storage)
    modifies stats
    ensures Stored(s, stats, data) && fresh(s.Repr())
    ensures s.Disk? <==>
      cfg.enabled && |data| >= cfg.threshold && old(stats.diskBytes) + |data| <= cfg.maxBytes && fileOk
    ensures stats.Value() == Added(old(stats.Value()), s.Disk?, |data|)
  {
    if cfg.enabled && |data| >= cfg.threshold && DiskAvailable(cfg, stats.diskBytes, |data|) {
      var d := NewDiskStorage(stats, data, fileOk);
      if d.Some? { return d.value; }
    }
    var m := new MemoryStorage(data, stats);
    return Memory(m);
  }

  /** An oversized or unreadable body leaves the counters as they were. */
  method CreateFromReader(cfg: Config, stats: Stats, body: Body, contentLength: int, maxBytes: nat, fileOk: bool)
    returns (r: Result)
    modifies stats, body
    ensures body.closed == old(body.closed) && (body.closed ==> !r.Ok?)
    ensures r.Ok? ==>
      && Stored(r.storage, stats, old(body.rest)) && fresh(r.storage.Repr()) && |old(body.rest)| <= maxBytes
      && stats.Value() == Added(old(stats.Value()), r.storage.Disk?, |old(body.rest)|)
    ensures !r.Ok? ==> stats.Value() == old(stats.Value())
    ensures var direct := && cfg.enabled && contentLength > 0 && contentLength >= cfg.threshold
                          && old(stats.diskBytes) + contentLength <= cfg.maxBytes;
      var n := |old(body.rest)|;
      && (r.Failed? <==> body.closed || (direct && !fileOk) || (n <= maxBytes && body.broken))
      && (r.TooLarge? <==> n > maxBytes && !body.closed && (direct ==> fileOk))
      && (r.Ok? ==>
            (r.storage.Disk? <==>
              || direct
              || (cfg.enabled && n >= cfg.threshold && old(stats.diskBytes) + n <= cfg.maxBytes && fileOk)))
  {
    if cfg.enabled && contentLength > 0 && contentLength >= cfg.threshold &&
       DiskAvailable(cfg, stats.diskBytes, contentLength)
    {
      if !fileOk { return Failed; }
      var data, ok := body.ReadUpTo(maxBytes + 1);
      if !ok { return Failed; }
      if |data| > maxBytes { return TooLarge; }
      var d := NewDiskStorage(stats, data, fileOk);
      return Ok(d.value);
    }
    var data, ok := body.ReadUpTo(maxBytes + 1);
    if !ok { return Failed; }
    if |data| > maxBytes { return TooLarge; }
    var s := CreateBodyStorage(cfg, stats, data, fileOk);
    return Ok(s);
  }

  // ---------------------------------------------------------------- the request context

  /** The cached values of a gin context, for a request whose body is `original`. */
  class Context {
    var storage: Option<Storage>     // KeyBodyStorage
    var cached: Option<seq<byte>>    // KeyRequestBody, the older form
    const body: Body
    const contentLength: int
    const stats: Stats
    ghost const original: seq<byte>

    ghost function Repr(): set<object>
      reads this
    {
      {this, body, stats} + if storage.Some? then storage.value.Repr() else {}
    }

    ghost predicate Valid()
      reads this, Repr()
    {
      && (storage.Some? ==>
            && this !in storage.value.Repr() && (stats as object) !in storage.value.Repr()
            && (body as object) !in storage.value.Repr()
            && storage.value.Valid() && storage.value.Stats() == stats && storage.value.Abs().content == original)
      && (cached.Some? ==> cached.value == original)
      && (!body.closed ==> body.rest == original)
    }

    constructor (data: seq<byte>, broken: bool, contentLength: int, stats: Stats)
      ensures Valid() && storage.None? && cached.None? && original == data && fresh(body) && this.stats == stats
      ensures body.rest == data && body.broken == broken && !body.closed && this.contentLength == contentLength
    {
      this.storage, this.cached, this.contentLength := None, None, contentLength;
      this.stats, this.original := stats, data;
      this.body := new Body(data, broken);
    }

    /** GetRequestBody and GetBodyStorage: whatever was done to the storage before, it comes back at offset 0 of the
        whole original body.  A refused body leaves nothing behind. */
    method GetBodyStorage(cfg: Config, maxMB: int, fileOk: bool) returns (r: Result)
      requires Valid()
      modifies Repr()
      ensures Valid() && fresh(Repr() - old(Repr())) && cached == old(cached)
      ensures r.Ok? ==> storage == Some(r.storage) && Stored(r.storage, stats, original)
      ensures !r.Ok? ==> storage == old(storage) && stats.Value() == old(stats.Value())
      ensures old(storage.Some?) ==> storage == old(storage) && stats.Value() == old(stats.Value())
      ensures old(storage.Some?) ==> (r.Ok? <==> !old(storage.value.Abs()).closed)
      ensures r.Ok? && old(storage.None?) ==> stats.Value() == Added(old(stats.Value()), r.storage.Disk?, |original|)
      ensures old(storage.None? && cached.Some?) ==>
        r.Ok? &&
        (r.storage.Disk? <==> && cfg.enabled && |original| >= cfg.threshold
                              && old(stats.diskBytes) + |original| <= cfg.maxBytes && fileOk)
      ensures old(storage.None? && cached.None?) ==>
        var limit := (if maxMB <= 0 then 128 else maxMB) * 1048576;
        var direct := && cfg.enabled && contentLength > 0 && contentLength >= cfg.threshold
                      && old(stats.diskBytes) + contentLength <= cfg.maxBytes;
        && body.closed
        && (r.Failed? <==> old(body.closed) || (direct && !fileOk) || (|original| <= limit && body.broken))
        && (r.TooLarge? <==> |original| > limit && !old(body.closed) && (direct ==> fileOk))
        && (r.Ok? ==>
              (r.storage.Disk? <==>
                || direct
                || (&& cfg.enabled && |original| >= cfg.threshold
                    && old(stats.diskBytes) + |original| <= cfg.maxBytes && fileOk)))
    {
      if storage.Some? {
        var reply := Perform(storage.value, Seek(0, Start));
        if reply.At? { return Ok(storage.value); }
        return Failed;
      }
      if cached.Some? {
        var s := CreateBodyStorage(cfg, stats, cached.value, fileOk);
        storage := Some(s);
        return Ok(s);
      }
      r := CreateFromReader(cfg, stats, body, contentLength, MaxBytes(maxMB), fileOk);
      body.closed := true;
      if r.Ok? { storage := Some(r.storage); }
    }

    /** UnmarshalBodyReusable: a disk-backed JSON body is decoded from the file, of which the decoder takes `wanted`
        bytes, any other body from all its bytes.  After a successful decoding the body can be read again from its
        start. */
    method UnmarshalBodyReusable(cfg: Config, maxMB: int, fileOk: bool, json: bool, wanted: nat, decodes: bool)
      returns (r: Result, seen: seq<byte>)
      requires Valid()
      modifies Repr()
      ensures Valid() && fresh(Repr() - old(Repr())) && cached == old(cached)
      ensures r.Ok? ==> decodes && storage == Some(r.storage) && Stored(r.storage, stats, original)
      ensures old(storage.Some?) ==> (r.Ok? <==> decodes && !old(storage.value.Abs()).closed)
      ensures old(storage.None? && cached.Some?) ==> (r.Ok? <==> decodes)
      ensures old(storage.None? && cached.None? && !body.closed) && !body.broken && fileOk ==>
        var limit := (if maxMB <= 0 then 128 else maxMB) * 1048576;
        (r.TooLarge? <==> |original| > limit) && (r.Ok? <==> decodes && |original| <= limit)
      ensures r.Ok? ==> seen == if r.storage.Disk? && json && wanted < |original| then original[..wanted] else original
      ensures old(storage.Some?) ==> storage == old(storage) && stats.Value() == old(stats.Value())
    {
      seen := [];
      r := GetBodyStorage(cfg, maxMB, fileOk);
      if !r.Ok? { return; }
      seen := ReadForDecoder(r.storage, json, wanted);
      if !decodes { return Failed, seen; }
      var back := Perform(r.storage, Seek(0, Start));
    }

    method CleanupBodyStorage()
      requires Valid()
      modifies Repr()
      ensures Valid() && storage.None? && cached == old(cached)
      ensures stats.Value() ==
        if old(storage.Some?) && !old(storage.value.Abs()).closed
        then Dropped(old(stats.Value()), old(storage).value.Disk?, |original|)
        else old(stats.Value())
    {
      if storage.Some? {
        var reply := Perform(storage.value, Close);
        storage := None;
      }
    }
  }

  method ReadForDecoder(s: Storage, json: bool, wanted: nat) returns (seen: seq<byte>)
    requires s.Valid() && s.Abs().offset == 0 && !s.Abs().closed
    modifies s.Repr(), s.Stats()
    ensures s.Valid() && s.Abs().content == old(s.Abs().content) && !s.Abs().closed
    ensures s.Stats().Value() == old(s.Stats().Value())
    ensures var all := s.Abs().content; seen == if s.Disk? && json && wanted < |all| then all[..wanted] else all
  {
    if s.Disk? && json {
      var home := Perform(s, Seek(0, Start));
      var part := Perform(s, Read(wanted));
      seen := if part.Data? then part.bytes else [];
    } else {
      var all := Perform(s, Bytes);
      seen := all.bytes;
    }
  }

  function MaxBytes(maxMB: int): nat {
    (if maxMB <= 0 then 128 else maxMB) * 1048576
  }

  /** The retry loop: each attempt takes the body from the context and reads and seeks in it at will (the reader it
      passes on hides Close).  The body may have been stored and read before, as the request's validation does;
      otherwise the first attempt stores it.  Once there is a stored body every attempt has it, and reads from it
      what it would have read had it been alone. */
  method RunAttempts(ctx: Context, cfg: Config, maxMB: int, fileOk: bool, attempts: seq<seq<Op>>)
    returns (replies: seq<seq<Reply>>, disk: bool)
    requires ctx.Valid() && (ctx.storage.Some? ==> !ctx.storage.value.Abs().closed)
    requires forall i, j :: 0 <= i < |attempts| && 0 <= j < |attempts[i]| ==> !attempts[i][j].Close?
    modifies ctx.Repr()
    ensures ctx.Valid()
    ensures |replies| == 0 || |replies| == |attempts|
    ensures old(ctx.storage.Some? || ctx.cached.Some?) ==> |replies| == |attempts|
    ensures (&& !ctx.body.broken && !old(ctx.body.closed) && fileOk
             && |ctx.original| <= (if maxMB <= 0 then 128 else maxMB) * 1048576) ==>
      |replies| == |attempts|
    ensures |replies| > 0 && old(ctx.storage.Some?) ==> disk == old(ctx.storage).value.Disk?
    ensures forall i :: 0 <= i < |replies| ==>
      replies[i] == Answers(disk, Abstract(ctx.original, 0, false), attempts[i]).1
    ensures ctx.stats.Value() ==
      if |replies| == 0 || old(ctx.storage.Some?) then old(ctx.stats.Value())
      else Added(old(ctx.stats.Value()), disk, |ctx.original|)
  {
    replies, disk := [], false;
    ghost var stored := ctx.storage.Some?;
    for i := 0 to |attempts|
      invariant ctx.Valid() && fresh(ctx.Repr() - old(ctx.Repr())) && |replies| == i
      invariant ctx.cached == old(ctx.cached) && (stored ==> ctx.storage == old(ctx.storage))
      invariant i == 0 ==> ctx.storage == old(ctx.storage) && ctx.body.closed == old(ctx.body.closed)
      invariant ctx.storage.Some? ==> !ctx.storage.value.Abs().closed
      invariant i > 0 ==> ctx.storage.Some? && ctx.storage.value.Disk? == disk
      invariant ctx.stats.Value() ==
        if i == 0 || stored then old(ctx.stats.Value()) else Added(old(ctx.stats.Value()), disk, |ctx.original|)
      invariant forall k :: 0 <= k < i ==> replies[k] == Answers(disk, Abstract(ctx.original, 0, false), attempts[k]).1
    {
      var r := ctx.GetBodyStorage(cfg, maxMB, fileOk);
      if !r.Ok? { return; }
      disk := r.storage.Disk?;
      StaysOpen(disk, Abstract(ctx.original, 0, false), attempts[i]);
      var reply := PerformAll(r.storage, attempts[i]);
      replies := replies + [reply];
    }
  }

  /** Without a Close the storage stays open and keeps its content. */
  lemma {:induction false} StaysOpen(disk: bool, a: Abstract, ops: seq<Op>)
    requires !a.closed && forall j :: 0 <= j < |ops| ==> !ops[j].Close?
    ensures !Answers(disk, a, ops).0.closed && Answers(disk, a, ops).0.content == a.content
  {
    if ops != [] { StaysOpen(disk, a, ops[..|ops| - 1]); }
  }
}
