/** Request bodies kept for re-reading: the memory and the disk storage behind one interface. */
module BodyStorage {
  import opened Basics

  datatype Whence = Start | Current | End

  datatype Op = Read(n: nat) | Seek(offset: int, whence: Whence) | Bytes | Close

  /** What a call returns: the bytes read, io.EOF, a position, a refused position, ErrStorageClosed, or nil. */
  datatype Reply = Data(bytes: seq<byte>) | EndOfFile | At(pos: nat) | BadPosition | StorageClosed | Nil

  /** The storage the two implementations stand for. */
  datatype Abstract = Abstract(content: seq<byte>, offset: nat, closed: bool)

  function Step(a: Abstract, op: Op): (Abstract, Reply) {
    match op
    case Close => (a.(closed := true), Nil)
    case Read(n) =>
      if a.closed then (a, StorageClosed)
      else if a.offset >= |a.content| then (a, EndOfFile)
      else var bytes := Window(a.content, a.offset, n); (a.(offset := a.offset + |bytes|), Data(bytes))
    case Seek(off, whence) =>
      if a.closed then (a, StorageClosed)
      else if Target(a, off, whence) < 0 then (a, BadPosition)
      else (a.(offset := Target(a, off, whence)), At(Target(a, off, whence)))
    case Bytes => (a, if a.closed then StorageClosed else Data(a.content))
  }

  function Window(content: seq<byte>, offset: nat, n: nat): seq<byte>
    requires offset <= |content|
  {
    content[offset..if offset + n <= |content| then offset + n else |content|]
  }

  function Target(a: Abstract, off: int, whence: Whence): int {
    off + match whence case Start => 0 case Current => a.offset case End => |a.content|
  }

  /** A read answers with the bytes at the position that the seek before it asked for. */
  lemma SeekThenRead(a: Abstract, off: int, whence: Whence, n: nat)
    requires !a.closed
    ensures var pos := match whence case Start => off case Current => a.offset + off case End => |a.content| + off;
      var (b, r) := Step(a, Seek(off, whence)); var (c, bytes) := Step(b, Read(n));
      && (pos < 0 ==> b == a && r == BadPosition)
      && (pos >= 0 ==> b == Abstract(a.content, pos, false) && r == At(pos))
      && (pos >= |a.content| ==> bytes == EndOfFile && c == b)
      && (0 <= pos && pos + n <= |a.content| && pos < |a.content| ==>
            bytes == Data(a.content[pos..pos + n]) && c == Abstract(a.content, pos + n, false))
      && (0 <= pos < |a.content| < pos + n ==>
            bytes == Data(a.content[pos..]) && c == Abstract(a.content, |a.content|, false))
  {
  }

  /** A closed storage answers nothing and stays closed, however often it is closed; Bytes is the whole content,
      wherever the position is, and leaves it there. */
  lemma ClosedAndWhole(a: Abstract, op: Op)
    ensures a.closed && !op.Close? ==> Step(a, op) == (a, StorageClosed)
    ensures Step(a, Close) == (Abstract(a.content, a.offset, true), Nil)
    ensures !a.closed ==> Step(a, Bytes) == (a, Data(a.content))
  {
  }

  /** An empty read at or past the end: bytes.Reader answers io.EOF, os.File answers zero bytes. */
  predicate EmptyReadAtEnd(a: Abstract, op: Op) {
    op == Read(0) && !a.closed && a.offset >= |a.content|
  }

  // ---------------------------------------------------------------- counters

  datatype Counts = Counts(diskFiles: int, diskBytes: int, memoryBuffers: int, memoryBytes: int)

  /** The counters with one more storage. */
  function Added(c: Counts, disk: bool, size: nat): Counts {
    if disk then c.(diskFiles := c.diskFiles + 1, diskBytes := c.diskBytes + size)
    else c.(memoryBuffers := c.memoryBuffers + 1, memoryBytes := c.memoryBytes + size)
  }

  /** The counters with one storage less; the disk counters stop at zero. */
  function Dropped(c: Counts, disk: bool, size: nat): Counts {
    if disk then c.(diskFiles := if c.diskFiles >= 1 then c.diskFiles - 1 else 0,
                    diskBytes := if c.diskBytes >= size then c.diskBytes - size else 0)
    else c.(memoryBuffers := c.memoryBuffers - 1, memoryBytes := c.memoryBytes - size)
  }

  /** Dropping a storage undoes adding it. */
  lemma DroppedAfterAdded(c: Counts, disk: bool, size: nat)
    requires c.diskFiles >= 0 && c.diskBytes >= 0
    ensures Dropped(Added(c, disk, size), disk, size) == c
    ensures disk ==> Added(c, disk, size) == Counts(c.diskFiles + 1, c.diskBytes + size, c.memoryBuffers, c.memoryBytes)
    ensures !disk ==>
      Added(c, disk, size) == Counts(c.diskFiles, c.diskBytes, c.memoryBuffers + 1, c.memoryBytes + size)
  {
  }

  /** diskCacheStats */
  class Stats {
    var diskFiles: int
    var diskBytes: int
    var memoryBuffers: int
    var memoryBytes: int

    function Value(): Counts
      reads this
    {
      Counts(diskFiles, diskBytes, memoryBuffers, memoryBytes)
    }

    method IncrementDiskFiles(size: nat)
      modifies this
      ensures Value() == Added(old(Value()), true, size)
      ensures diskFiles == old(diskFiles) + 1 && diskBytes == old(diskBytes) + size
    {
      diskFiles := diskFiles + 1;
      diskBytes := diskBytes + size;
    }

    method DecrementDiskFiles(size: nat)
      modifies this
      ensures Value() == Dropped(old(Value()), true, size)
      ensures diskFiles == if old(diskFiles) < 1 then 0 else old(diskFiles) - 1
      ensures diskBytes == if old(diskBytes) < size then 0 else old(diskBytes) - size
    {
      diskFiles := diskFiles - 1;
      if diskFiles < 0 { diskFiles := 0; }
      diskBytes := diskBytes - size;
      if diskBytes < 0 { diskBytes := 0; }
    }

    method IncrementMemoryBuffers(size: nat)
      modifies this
      ensures Value() == Added(old(Value()), false, size)
      ensures memoryBuffers == old(memoryBuffers) + 1 && memoryBytes == old(memoryBytes) + size
    {
      memoryBuffers := memoryBuffers + 1;
      memoryBytes := memoryBytes + size;
    }

    method DecrementMemoryBuffers(size: nat)
      modifies this
      ensures Value() == Dropped(old(Value()), false, size)
      ensures memoryBuffers == old(memoryBuffers) - 1 && memoryBytes == old(memoryBytes) - size
    {
      memoryBuffers := memoryBuffers - 1;
      memoryBytes := memoryBytes - size;
    }
  }

  // ---------------------------------------------------------------- memory

  class MemoryStorage {
    const data: seq<byte>
    const stats: Stats
    var index: nat          // the position of bytes.Reader
    var closed: bool

    function Abs(): Abstract
      reads this
    {
      Abstract(data, index, closed)
    }

    constructor (data: seq<byte>, stats: Stats)
      modifies stats
      ensures Abs() == Abstract(data, 0, false) && this.stats == stats
      ensures stats.Value() == Added(old(stats.Value()), false, |data|)
    {
      this.data, this.stats, index, closed := data, stats, 0, false;
      new;
      stats.IncrementMemoryBuffers(|data|);
    }

    method Read(n: nat) returns (r: Reply)
      modifies this
      ensures (Abs(), r) == Step(old(Abs()), Op.Read(n))
    {
      if closed { return StorageClosed; }
      if index >= |data| { return EndOfFile; }
      var bytes := Window(data, index, n);
      index := index + |bytes|;
      return Data(bytes);
    }

    method Seek(offset: int, whence: Whence) returns (r: Reply)
      modifies this
      ensures (Abs(), r) == Step(old(Abs()), Op.Seek(offset, whence))
    {
      if closed { return StorageClosed; }
      var abs := match whence case Start => offset case Current => index + offset case End => |data| + offset;
      if abs < 0 { return BadPosition; }
      index := abs;
      return At(abs);
    }

    method Bytes() returns (r: Reply)
      ensures r == Step(Abs(), Op.Bytes).1
    {
      return if closed then StorageClosed else Data(data);
    }

    method Close() returns (r: Reply)
      modifies this, stats
      ensures (Abs(), r) == Step(old(Abs()), Op.Close)
      ensures stats.Value() == if old(closed) then old(stats.Value()) else Dropped(old(stats.Value()), false, |data|)
    {
      if !closed {
        closed := true;
        stats.DecrementMemoryBuffers(|data|);
      }
      return Nil;
    }
  }

  // ---------------------------------------------------------------- disk

  /** An open regular file: reads deliver all that is asked for and left. */
  class File {
    var content: seq<byte>
    var pos: nat
    var removed: bool

    constructor ()
      ensures content == [] && pos == 0 && !removed
    {
      content, pos, removed := [], 0, false;
    }

    /** Writing at the position the file is at, as a new file is written. */
    method Write(data: seq<byte>)
      requires pos == |content|
      modifies this
      ensures content == old(content) + data && pos == |content| && removed == old(removed)
    {
      content := content + data;
      pos := |content|;
    }

    method Read(n: nat) returns (r: Reply)
      modifies this
      ensures content == old(content) && removed == old(removed)
      ensures n > 0 || old(pos) < |content| ==>
        (Abstract(content, pos, false), r) == Step(old(Abstract(content, pos, false)), Op.Read(n))
      ensures n == 0 ==> r == Data([]) && pos == old(pos)
    {
      if n == 0 { return Data([]); }
      if pos >= |content| { return EndOfFile; }
      var bytes := Window(content, pos, n);
      pos := pos + |bytes|;
      return Data(bytes);
    }

    method Seek(offset: int, whence: Whence) returns (r: Reply)
      modifies this
      ensures content == old(content) && removed == old(removed)
      ensures (Abstract(content, pos, false), r) == Step(old(Abstract(content, pos, false)), Op.Seek(offset, whence))
    {
      var abs := match whence case Start => offset case Current => pos + offset case End => |content| + offset;
      if abs < 0 { return BadPosition; }
      pos := abs;
      return At(abs);
    }
  }

  class DiskStorage {
    const file: File
    const size: nat
    const stats: Stats
    var closed: bool

    ghost predicate Valid()
      reads this, file
    {
      size == |file.content|
    }

    function Abs(): Abstract
      reads this, file
    {
      Abstract(file.content, file.pos, closed)
    }

    constructor (file: File, size: nat, stats: Stats)
      requires size == |file.content|
      modifies stats
      ensures Valid() && this.file == file && this.size == size && this.stats == stats && !closed
      ensures stats.Value() == Added(old(stats.Value()), true, size)
    {
      this.file, this.size, this.stats, closed := file, size, stats, false;
      new;
      stats.IncrementDiskFiles(size);
    }

    method Read(n: nat) returns (r: Reply)
      requires Valid()
      modifies file
      ensures Valid()
      ensures !EmptyReadAtEnd(old(Abs()), Op.Read(n)) ==> (Abs(), r) == Step(old(Abs()), Op.Read(n))
      ensures EmptyReadAtEnd(old(Abs()), Op.Read(n)) ==> Abs() == old(Abs()) && r == Data([])
    {
      if closed { return StorageClosed; }
      r := file.Read(n);
    }

    method Seek(offset: int, whence: Whence) returns (r: Reply)
      requires Valid()
      modifies file
      ensures Valid() && (Abs(), r) == Step(old(Abs()), Op.Seek(offset, whence))
    {
      if closed { return StorageClosed; }
      r := file.Seek(offset, whence);
    }

    /** Reads the whole file from its start and puts the position back. */
    method Bytes() returns (r: Reply)
      requires Valid()
      modifies file
      ensures Valid() && (Abs(), r) == Step(old(Abs()), Op.Bytes)
    {
      if closed { return StorageClosed; }
      var current := file.Seek(0, Current);
      var home := file.Seek(0, Start);
      r := ReadFull(file, size);
      assert file.content[0..size] == file.content;
      var back := file.Seek(current.pos, Start);
    }

    method Close() returns (r: Reply)
      requires Valid()
      modifies this, file, stats
      ensures Valid() && (Abs(), r) == Step(old(Abs()), Op.Close)
      ensures !old(closed) ==> file.removed
      ensures stats.Value() == if old(closed) then old(stats.Value()) else Dropped(old(stats.Value()), true, size)
    {
      if !closed {
        closed := true;
        file.removed := true;
        stats.DecrementDiskFiles(size);
      }
      return Nil;
    }
  }

  /** io.ReadFull into a buffer of n bytes. */
  method ReadFull(file: File, n: nat) returns (r: Reply)
    requires file.pos + n <= |file.content|
    modifies file
    ensures file.content == old(file.content) && file.removed == old(file.removed) && file.pos == old(file.pos) + n
    ensures r == Data(file.content[old(file.pos)..old(file.pos) + n])
  {
    var got: seq<byte> := [];
    while |got| < n
      invariant file.content == old(file.content) && file.removed == old(file.removed)
      invariant |got| <= n && file.pos == old(file.pos) + |got| && got == file.content[old(file.pos)..file.pos]
      decreases n - |got|
    {
      var part := file.Read(n - |got|);
      got := got + part.bytes;
    }
    return Data(got);
  }

  // ---------------------------------------------------------------- one interface

  datatype Storage = Memory(m: MemoryStorage) | Disk(d: DiskStorage) {

    ghost function Repr(): set<object> {
      if Memory? then {m} else {d, d.file}
    }

    function Stats(): Stats {
      if Memory? then m.stats else d.stats
    }

    ghost predicate Valid()
      reads Repr()
    {
      Disk? ==> d.Valid()
    }

    function Abs(): Abstract
      reads Repr()
    {
      if Memory? then m.Abs() else d.Abs()
    }
  }

  /** What a storage answers; the disk storage differs from the abstract one on empty reads at the end only. */
  function Answer(disk: bool, a: Abstract, op: Op): (Abstract, Reply) {
    if disk && EmptyReadAtEnd(a, op) then (a, Data([])) else Step(a, op)
  }

  method Perform(s: Storage, op: Op) returns (r: Reply)
    requires s.Valid()
    modifies s.Repr(), s.Stats()
    ensures s.Valid() && (s.Abs(), r) == Answer(s.Disk?, old(s.Abs()), op)
    ensures s.Stats().Value() ==
      if op.Close? && !old(s.Abs()).closed then Dropped(old(s.Stats().Value()), s.Disk?, |old(s.Abs()).content|)
      else old(s.Stats().Value())
  {
    match (s, op) {
      case (Memory(m), Read(n)) => r := m.Read(n);
      case (Memory(m), Seek(offset, whence)) => r := m.Seek(offset, whence);
      case (Memory(m), Bytes) => r := m.Bytes();
      case (Memory(m), Close) => r := m.Close();
      case (Disk(d), Read(n)) => r := d.Read(n);
      case (Disk(d), Seek(offset, whence)) => r := d.Seek(offset, whence);
      case (Disk(d), Bytes) => r := d.Bytes();
      case (Disk(d), Close) => r := d.Close();
    }
  }

  /** The answers to a sequence of calls. */
  function Answers(disk: bool, a: Abstract, ops: seq<Op>): (Abstract, seq<Reply>) {
    if ops == [] then (a, []) else
    var (a1, replies) := Answers(disk, a, ops[..|ops| - 1]);
    var (a2, r) := Answer(disk, a1, ops[|ops| - 1]);
    (a2, replies + [r])
  }

  method PerformAll(s: Storage, ops: seq<Op>) returns (replies: seq<Reply>)
    requires s.Valid()
    modifies s.Repr(), s.Stats()
    ensures s.Valid() && (s.Abs(), replies) == Answers(s.Disk?, old(s.Abs()), ops)
    ensures (forall k :: 0 <= k < |ops| ==> !ops[k].Close?) ==> s.Stats().Value() == old(s.Stats().Value())
  {
    replies := [];
    for k := 0 to |ops|
      invariant (forall k :: 0 <= k < |ops| ==> !ops[k].Close?) ==> s.Stats().Value() == old(s.Stats().Value())
      invariant s.Valid() && (s.Abs(), replies) == Answers(s.Disk?, old(s.Abs()), ops[..k])
    {
      assert ops[..k + 1][..k] == ops[..k];
      var r := Perform(s, ops[k]);
      replies := replies + [r];
    }
    assert ops[..|ops|] == ops;
  }

  /** The bytes that the answers deliver, one after the other. */
  function Delivered(replies: seq<Reply>): seq<byte> {
    if replies == [] then [] else
    Delivered(replies[..|replies| - 1]) +
    if replies[|replies| - 1].Data? then replies[|replies| - 1].bytes else []
  }

  /** The bytes that reads ask for. */
  function AskedFor(ops: seq<Op>): nat {
    if ops == [] then 0 else AskedFor(ops[..|ops| - 1]) + if ops[|ops| - 1].Read? then ops[|ops| - 1].n else 0
  }

  function Up(content: seq<byte>, end: nat): nat {
    if end <= |content| then end else |content|
  }

  lemma ReadDelivers(disk: bool, a: Abstract, n: nat)
    requires !a.closed && a.offset <= |a.content|
    ensures var (b, r) := Answer(disk, a, Read(n)); var end := Up(a.content, a.offset + n);
      && b == Abstract(a.content, end, false)
      && (if r.Data? then r.bytes else []) == a.content[a.offset..end]
  {
  }

  lemma Consecutive(content: seq<byte>, i: nat, j: nat, k: nat)
    requires i <= j <= k <= |content|
    ensures content[i..j] + content[j..k] == content[i..k]
  {
  }

  ghost predicate DeliversTo(disk: bool, a: Abstract, ops: seq<Op>, end: nat) {
    && a.offset <= end <= |a.content| && Answers(disk, a, ops).0 == Abstract(a.content, end, false)
    && Delivered(Answers(disk, a, ops).1) == a.content[a.offset..end]
  }

  lemma OneMoreRead(disk: bool, a: Abstract, ops: seq<Op>, mid: nat, n: nat)
    requires DeliversTo(disk, a, ops, mid)
    ensures DeliversTo(disk, a, ops + [Read(n)], Up(a.content, mid + n))
  {
    var b, end := Abstract(a.content, mid, false), Up(a.content, mid + n);
    var r := Answer(disk, b, Read(n)).1;
    ReadDelivers(disk, b, n);
    AnswersSnoc(disk, a, ops, Read(n));
    DeliveredSnoc(Answers(disk, a, ops).1, r);
    Consecutive(a.content, a.offset, mid, end);
  }

  lemma AnswersSnoc(disk: bool, a: Abstract, ops: seq<Op>, op: Op)
    ensures var (b, replies) := Answers(disk, a, ops); var (c, r) := Answer(disk, b, op);
      Answers(disk, a, ops + [op]) == (c, replies + [r])
  {
    assert (ops + [op])[..|ops|] == ops;
  }

  /** Reading on and on delivers the body from the position on, byte by byte and in order, however the reads are cut,
      until it ends. */
  lemma {:induction false} ReadsDeliver(disk: bool, a: Abstract, ops: seq<Op>)
    requires !a.closed && a.offset <= |a.content| && forall k | 0 <= k < |ops| :: ops[k].Read?
    ensures a.offset + AskedFor(ops) <= |a.content| ==> DeliversTo(disk, a, ops, a.offset + AskedFor(ops))
    ensures a.offset + AskedFor(ops) > |a.content| ==> DeliversTo(disk, a, ops, |a.content|)
  {
    if ops != [] {
      var init, last := ops[..|ops| - 1], ops[|ops| - 1];
      ReadsDeliver(disk, a, init);
      OneMoreRead(disk, a, init, Up(a.content, a.offset + AskedFor(init)), last.n);
      assert ops == init + [last];
    }
  }

  lemma DeliveredSnoc(replies: seq<Reply>, r: Reply)
    ensures Delivered(replies + [r]) == Delivered(replies) + if r.Data? then r.bytes else []
  {
    assert (replies + [r])[..|replies|] == replies;
  }

  /** Some call of the sequence is an empty read at the end of the data. */
  ghost predicate ReadsNothingAtEnd(a: Abstract, ops: seq<Op>) {
    exists k :: 0 <= k < |ops| && EmptyReadAtEnd(Answers(false, a, ops[..k]).0, ops[k])
  }

  /** For every sequence of calls the two storages go through the same states, and give the same answers exactly when
      none of the calls is an empty read at the end. */
  lemma {:induction false} Indistinguishable(a: Abstract, ops: seq<Op>)
    ensures Answers(true, a, ops).0 == Answers(false, a, ops).0
    ensures |Answers(true, a, ops).1| == |Answers(false, a, ops).1| == |ops|
    ensures Answers(true, a, ops).1 == Answers(false, a, ops).1 <==> !ReadsNothingAtEnd(a, ops)
  {
    if ops != [] {
      var init, last := ops[..|ops| - 1], ops[|ops| - 1];
      Indistinguishable(a, init);
      var b, t, f := Answers(false, a, init).0, Answers(true, a, init).1, Answers(false, a, init).1;
      LastDiffers(t, f, Answer(true, b, last).1, Answer(false, b, last).1);
      ReadsSplit(a, ops);
    }
  }

  lemma LastDiffers(t: seq<Reply>, f: seq<Reply>, x: Reply, y: Reply)
    requires |t| == |f|
    ensures t + [x] == f + [y] <==> t == f && x == y
  {
    assert (t + [x])[..|t|] == t && (f + [y])[..|f|] == f;
    assert (t + [x])[|t|] == x && (f + [y])[|f|] == y;
  }

  lemma ReadsSplit(a: Abstract, ops: seq<Op>)
    requires ops != []
    ensures var init := ops[..|ops| - 1];
      ReadsNothingAtEnd(a, ops) <==>
        ReadsNothingAtEnd(a, init) || EmptyReadAtEnd(Answers(false, a, init).0, ops[|ops| - 1])
  {
    var init := ops[..|ops| - 1];
    forall k | 0 <= k < |init| ensures init[k] == ops[k] && init[..k] == ops[..k] { Prefixes(ops, k); }
  }

  lemma Prefixes(ops: seq<Op>, k: nat)
    requires k < |ops| - 1
    ensures ops[..|ops| - 1][k] == ops[k] && ops[..|ops| - 1][..k] == ops[..k]
  {
  }

  /** An empty read of an empty body tells the two storages apart. */
  lemma EmptyReadTellsApart()
    ensures var a := Abstract([], 0, false);
      && Answers(false, a, [Read(0)]).1 == [EndOfFile] && Answers(true, a, [Read(0)]).1 == [Data([])]
      && ReadsNothingAtEnd(a, [Read(0)])
  {
    var a, ops := Abstract([], 0, false), [Read(0)];
    assert ops[..0] == [];
    assert EmptyReadAtEnd(Answers(false, a, ops[..0]).0, ops[0]);
  }
}
