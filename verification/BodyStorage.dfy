/**
  Request bodies, kept so that they can be read again. A body sits in memory or
  in a file; both forms answer like one machine that has the bytes, a position
  and a closed state.
*/
module BodyStorage {
  import opened Common

  // ---- the machine ----

  datatype Body = Open(data: seq<Byte>, pos: nat) | Shut(size: nat)

  datatype Whence = FromStart | FromHere | FromEnd

  datatype Op = Read(n: nat) | Seek(offset: int, whence: Whence) | All | Close | Size

  datatype Reply = Data(bytes: seq<Byte>) | Eof | At(pos: nat) | BadSeek | Closed | Done | Length(n: nat)

  function SizeOf(b: Body): nat {
    if b.Open? then |b.data| else b.size
  }

  function ReadFrom(data: seq<Byte>, pos: nat, n: nat): (Body, Reply) {
    if pos >= |data| then (Open(data, pos), Eof)
    else
      var k := if n < |data| - pos then n else |data| - pos;
      (Open(data, pos + k), Data(data[pos..pos + k]))
  }

  function Target(data: seq<Byte>, pos: nat, offset: int, whence: Whence): int {
    offset + match whence case FromStart => 0 case FromHere => pos case FromEnd => |data|
  }

  function SeekTo(data: seq<Byte>, pos: nat, target: int): (Body, Reply) {
    if target < 0 then (Open(data, pos), BadSeek) else (Open(data, target), At(target))
  }

  function Step(b: Body, op: Op): (Body, Reply) {
    match op
    case Size => (b, Length(SizeOf(b)))
    case Close => (Shut(SizeOf(b)), Done)
    case Read(n) => if b.Shut? then (b, Closed) else ReadFrom(b.data, b.pos, n)
    case Seek(offset, whence) => if b.Shut? then (b, Closed) else SeekTo(b.data, b.pos, Target(b.data, b.pos, offset, whence))
    case All => if b.Shut? then (b, Closed) else (b, Data(b.data))
  }

  function Run(b: Body, ops: seq<Op>): Body {
    if ops == [] then b else Step(Run(b, ops[..|ops| - 1]), ops[|ops| - 1]).0
  }

  function Replies(b: Body, ops: seq<Op>): seq<Reply> {
    if ops == [] then []
    else Replies(b, ops[..|ops| - 1]) + [Step(Run(b, ops[..|ops| - 1]), ops[|ops| - 1]).1]
  }

  // ---- counters ----

  datatype Stats = Stats(files: int, diskBytes: int, buffers: int, memoryBytes: int)

  function AddFile(s: Stats, size: nat): Stats {
    s.(files := s.files + 1, diskBytes := s.diskBytes + size)
  }

  function Clamp(n: int): int {
    if n < 0 then 0 else n
  }

  function DropFile(s: Stats, size: nat): Stats {
    s.(files := Clamp(s.files - 1), diskBytes := Clamp(s.diskBytes - size))
  }

  function AddBuffer(s: Stats, size: nat): Stats {
    s.(buffers := s.buffers + 1, memoryBytes := s.memoryBytes + size)
  }

  function DropBuffer(s: Stats, size: nat): Stats {
    s.(buffers := s.buffers - 1, memoryBytes := s.memoryBytes - size)
  }

  class Counters {
    var files: int
    var diskBytes: int
    var buffers: int
    var memoryBytes: int

    ghost function Now(): Stats
      reads this
    {
      Stats(files, diskBytes, buffers, memoryBytes)
    }

    constructor ()
      ensures Now() == Stats(0, 0, 0, 0)
    {
      files, diskBytes, buffers, memoryBytes := 0, 0, 0, 0;
    }

    method IncrementDiskFiles(size: nat)
      modifies this
      ensures Now() == AddFile(old(Now()), size)
    {
      files := files + 1;
      diskBytes := diskBytes + size;
    }

    method DecrementDiskFiles(size: nat)
      modifies this
      ensures Now() == DropFile(old(Now()), size)
    {
      files := files - 1;
      if files < 0 { files := 0; }
      diskBytes := diskBytes - size;
      if diskBytes < 0 { diskBytes := 0; }
    }

    method IncrementMemoryBuffers(size: nat)
      modifies this
      ensures Now() == AddBuffer(old(Now()), size)
    {
      buffers := buffers + 1;
      memoryBytes := memoryBytes + size;
    }

    method DecrementMemoryBuffers(size: nat)
      modifies this
      ensures Now() == DropBuffer(old(Now()), size)
    {
      buffers := buffers - 1;
      memoryBytes := memoryBytes - size;
    }
  }

  // ---- the body in memory ----

  class MemoryStorage {
    const data: seq<Byte>
    const size: nat
    const counters: Counters
    var pos: nat
    var closed: bool

    ghost predicate Valid() {
      size == |data|
    }

    ghost function View(): Body
      reads this
    {
      if closed then Shut(size) else Open(data, pos)
    }

    constructor (data: seq<Byte>, counters: Counters)
      modifies counters
      ensures Valid() && View() == Open(data, 0) && this.counters == counters
      ensures counters.Now() == AddBuffer(old(counters.Now()), |data|)
    {
      this.data, this.size, this.counters, pos, closed := data, |data|, counters, 0, false;
      new;
      counters.IncrementMemoryBuffers(|data|);
    }

    method Read(n: nat) returns (reply: Reply)
      requires Valid()
      modifies this
      ensures (View(), reply) == Step(old(View()), Op.Read(n))
    {
      if closed { return Closed; }
      if pos >= |data| { return Eof; }
      var k := if n < |data| - pos then n else |data| - pos;
      reply := Data(data[pos..pos + k]);
      pos := pos + k;
    }

    method Seek(offset: int, whence: Whence) returns (reply: Reply)
      requires Valid()
      modifies this
      ensures (View(), reply) == Step(old(View()), Op.Seek(offset, whence))
    {
      if closed { return Closed; }
      var target := offset + match whence case FromStart => 0 case FromHere => pos case FromEnd => |data|;
      if target < 0 { return BadSeek; }
      pos := target;
      reply := At(target);
    }

    method Bytes() returns (reply: Reply)
      requires Valid()
      ensures (View(), reply) == Step(View(), All)
    {
      if closed { return Closed; }
      reply := Data(data);
    }

    method Close() returns (reply: Reply)
      requires Valid()
      modifies this, counters
      ensures (View(), reply) == Step(old(View()), Op.Close)
      ensures counters.Now() == if old(closed) then old(counters.Now()) else DropBuffer(old(counters.Now()), size)
    {
      if !closed {
        closed := true;
        counters.DecrementMemoryBuffers(size);
      }
      reply := Done;
    }

    method Size() returns (reply: Reply)
      requires Valid()
      ensures (View(), reply) == Step(View(), Op.Size)
    {
      reply := Length(size);
    }
  }

  // ---- the body in a file ----

  /** A regular file opened for reading and writing, while it is open. */
  class OsFile {
    var content: seq<Byte>
    var pos: nat

    ghost function View(): Body
      reads this
    {
      Open(content, pos)
    }

    constructor (content: seq<Byte>)
      ensures View() == Open(content, 0)
    {
      this.content, pos := content, 0;
    }

    /** A read of no bytes succeeds anywhere; any other read at the end reports the end. */
    method Read(n: nat) returns (reply: Reply)
      modifies this
      ensures n > 0 ==> (View(), reply) == ReadFrom(old(content), old(pos), n)
      ensures n == 0 ==> View() == old(View()) && reply == Data([])
    {
      if n == 0 { return Data([]); }
      if pos >= |content| { return Eof; }
      var k := if n < |content| - pos then n else |content| - pos;
      reply := Data(content[pos..pos + k]);
      pos := pos + k;
    }

    method Seek(offset: int, whence: Whence) returns (reply: Reply)
      modifies this
      ensures (View(), reply) == SeekTo(old(content), old(pos), Target(old(content), old(pos), offset, whence))
    {
      var target := offset + match whence case FromStart => 0 case FromHere => pos case FromEnd => |content|;
      if target < 0 { return BadSeek; }
      pos := target;
      reply := At(target);
    }
  }

  class DiskStorage {
    const file: OsFile
    const size: nat
    const counters: Counters
    var closed: bool

    ghost predicate Valid()
      reads this, file
    {
      !closed ==> size == |file.content|
    }

    ghost function View(): Body
      reads this, file
    {
      if closed then Shut(size) else file.View()
    }

    constructor (content: seq<Byte>, counters: Counters)
      modifies counters
      ensures Valid() && View() == Open(content, 0) && this.counters == counters && fresh(file)
      ensures counters.Now() == AddFile(old(counters.Now()), |content|)
    {
      var f := new OsFile(content);
      file, size, this.counters, closed := f, |content|, counters, false;
      new;
      counters.IncrementDiskFiles(|content|);
    }

    /** Answers as the machine does, but for an empty read at the end, which succeeds here. */
    method Read(n: nat) returns (reply: Reply)
      requires Valid()
      modifies file
      ensures Valid()
      ensures n > 0 || closed || old(file.pos < |file.content|) ==> (View(), reply) == Step(old(View()), Op.Read(n))
      ensures n == 0 && !closed ==> View() == old(View()) && reply == Data([])
    {
      if closed { return Closed; }
      assert file.pos < |file.content| ==> file.content[file.pos..file.pos] == [];
      reply := file.Read(n);
    }

    method Seek(offset: int, whence: Whence) returns (reply: Reply)
      requires Valid()
      modifies file
      ensures Valid()
      ensures (View(), reply) == Step(old(View()), Op.Seek(offset, whence))
    {
      if closed { return Closed; }
      reply := file.Seek(offset, whence);
    }

    /** Moves to the start, reads everything and moves back. */
    method Bytes() returns (reply: Reply)
      requires Valid()
      modifies file
      ensures Valid()
      ensures (View(), reply) == Step(old(View()), All)
    {
      if closed { return Closed; }
      var here := file.Seek(0, FromHere);
      var start := file.Seek(0, FromStart);
      var data := ReadFull(file, size);
      assert file.content == old(file.content);
      assert file.content[0..size] == file.content;
      if !data.Data? { return data; }
      var back := file.Seek(here.pos, FromStart);
      reply := data;
    }

    method Close() returns (reply: Reply)
      requires Valid()
      modifies this, counters
      ensures Valid()
      ensures (View(), reply) == Step(old(View()), Op.Close)
      ensures counters.Now() == if old(closed) then old(counters.Now()) else DropFile(old(counters.Now()), size)
    {
      if !closed {
        closed := true;
        counters.DecrementDiskFiles(size);
      }
      reply := Done;
    }

    method Size() returns (reply: Reply)
      requires Valid()
      ensures (View(), reply) == Step(View(), Op.Size)
    {
      reply := Length(size);
    }
  }

  /** Reads until `size` bytes are there or the file ends. */
  method ReadFull(file: OsFile, size: nat) returns (reply: Reply)
    modifies file
    ensures file.content == old(file.content)
    ensures old(file.pos) + size <= |file.content| ==>
              && reply == Data(file.content[old(file.pos)..old(file.pos) + size])
              && file.pos == old(file.pos) + size
    ensures size == 0 ==> reply == Data([]) && file.pos == old(file.pos)
    ensures size > 0 && old(file.pos) + size > |file.content| ==> reply == Eof
  {
    var got: seq<Byte> := [];
    while |got| < size
      invariant file.content == old(file.content) && |got| <= size
      invariant file.pos == old(file.pos) + |got|
      invariant got != [] ==> file.pos <= |file.content|
      invariant file.pos <= |file.content| ==> got == file.content[old(file.pos)..file.pos]
      decreases size - |got|
    {
      var piece := file.Read(size - |got|);
      if piece == Eof { return Eof; }
      got := got + piece.bytes;
    }
    reply := Data(got);
  }

  // ---- the two forms over whole runs ----

  predicate NoEmptyReads(ops: seq<Op>) {
    forall op :: op in ops ==> op != Op.Read(0)
  }

  method DoInMemory(m: MemoryStorage, op: Op) returns (reply: Reply)
    requires m.Valid()
    modifies m, m.counters
    ensures (m.View(), reply) == Step(old(m.View()), op)
  {
    match op {
      case Read(n) => { reply := m.Read(n); }
      case Seek(offset, whence) => { reply := m.Seek(offset, whence); }
      case All => { reply := m.Bytes(); }
      case Close => { reply := m.Close(); }
      case Size => { reply := m.Size(); }
    }
  }

  method DoOnDisk(d: DiskStorage, op: Op) returns (reply: Reply)
    requires d.Valid() && op != Op.Read(0)
    modifies d, d.file, d.counters
    ensures d.Valid()
    ensures (d.View(), reply) == Step(old(d.View()), op)
  {
    match op {
      case Read(n) => { reply := d.Read(n); }
      case Seek(offset, whence) => { reply := d.Seek(offset, whence); }
      case All => { reply := d.Bytes(); }
      case Close => { reply := d.Close(); }
      case Size => { reply := d.Size(); }
    }
  }

  /** Any run without empty reads gets the same answers from a body in memory and the same body on disk. */
  method SameAnswers(m: MemoryStorage, d: DiskStorage, ops: seq<Op>) returns (fromMemory: seq<Reply>, fromDisk: seq<Reply>)
    requires m.Valid() && d.Valid() && m.View() == d.View() && NoEmptyReads(ops)
    modifies m, m.counters, d, d.file, d.counters
    ensures fromMemory == fromDisk == Replies(old(m.View()), ops)
    ensures m.View() == d.View() == Run(old(m.View()), ops)
  {
    hide Step;
    fromMemory, fromDisk := [], [];
    ghost var start := m.View();
    for i := 0 to |ops|
      invariant m.Valid() && d.Valid()
      invariant m.View() == d.View() == Run(start, ops[..i])
      invariant fromMemory == fromDisk == Replies(start, ops[..i])
    {
      assert ops[..i + 1][..i] == ops[..i] && ops[..i + 1][i] == ops[i] && ops[i] in ops;
      var a := DoInMemory(m, ops[i]);
      var b := DoOnDisk(d, ops[i]);
      fromMemory, fromDisk := fromMemory + [a], fromDisk + [b];
    }
    assert ops[..|ops|] == ops;
  }

  /** The one difference: an empty read past the last byte ends the memory reader and not the file. */
  method EmptyReadAtTheEnd(m: MemoryStorage, d: DiskStorage) returns (fromMemory: Reply, fromDisk: Reply)
    requires m.Valid() && d.Valid() && m.View() == d.View() && m.View().Open?
    modifies m, d.file
    ensures fromMemory == fromDisk <==> old(m.View().pos < |m.View().data|)
  {
    assert m.pos < |m.data| ==> m.data[m.pos..m.pos] == [];
    fromMemory := m.Read(0);
    fromDisk := d.Read(0);
  }

  /** A run that does not close keeps every byte and the size; a run that does answers nothing but the size from then on. */
  lemma {:induction false} RunKeepsTheBytes(b: Body, ops: seq<Op>)
    ensures SizeOf(Run(b, ops)) == SizeOf(b)
    ensures b.Open? && Op.Close !in ops ==> Run(b, ops).Open? && Run(b, ops).data == b.data
    ensures b.Shut? || Op.Close in ops ==> Run(b, ops) == Shut(SizeOf(b))
  {
    if ops != [] {
      var n := |ops| - 1;
      assert ops == ops[..n] + [ops[n]];
      RunKeepsTheBytes(b, ops[..n]);
    }
  }

  /** After a close, a read, a seek or a fetch fails, and closing again does not. */
  lemma ClosedAnswersNothing(b: Body, ops: seq<Op>, op: Op)
    requires b.Shut? || Op.Close in ops
    ensures Step(Run(b, ops), op).1 == match op case Close => Done case Size => Length(SizeOf(b)) case _ => Closed
  {
    RunKeepsTheBytes(b, ops);
  }

  ghost function Joined(replies: seq<Reply>): seq<Byte> {
    if replies == [] then []
    else Joined(replies[..|replies| - 1]) + (var last := replies[|replies| - 1]; if last.Data? then last.bytes else [])
  }

  ghost predicate OnlyReads(ops: seq<Op>) {
    forall op :: op in ops ==> op.Read? && op.n > 0
  }

  lemma JoinedAppend(got: seq<Reply>, reply: Reply)
    ensures Joined(got + [reply]) == Joined(got) + (if reply.Data? then reply.bytes else [])
  {
    assert (got + [reply])[..|got|] == got;
  }

  lemma ReadPiece(data: seq<Byte>, pos: nat, n: nat)
    requires pos <= |data| && n > 0
    ensures var (after, reply) := Step(Open(data, pos), Op.Read(n));
            && after.Open? && after.data == data && after.pos <= |data|
            && data[..pos] + (if reply.Data? then reply.bytes else []) == data[..after.pos]
            && (reply == Eof <==> pos == |data|)
            && (pos == |data| ==> after.pos == |data|)
  {
    var (after, reply) := Step(Open(data, pos), Op.Read(n));
    assert data[..after.pos] == data[..pos] + data[pos..after.pos];
  }

  /** Reading from the start in pieces of any size gives the bytes in order, each once, and all of them when the end shows. */
  lemma {:induction false} ReadsGiveTheBytes(data: seq<Byte>, ops: seq<Op>)
    requires OnlyReads(ops)
    ensures var b := Run(Open(data, 0), ops); b.Open? && b.data == data && b.pos <= |data|
    ensures Joined(Replies(Open(data, 0), ops)) == data[..Run(Open(data, 0), ops).pos]
    ensures Eof in Replies(Open(data, 0), ops) ==> Run(Open(data, 0), ops).pos == |data|
  {
    if ops != [] {
      hide Step, Joined;
      var n := |ops| - 1;
      assert ops[n] in ops;
      ReadsGiveTheBytes(data, ops[..n]);
      var before := Run(Open(data, 0), ops[..n]);
      var got := Replies(Open(data, 0), ops[..n]);
      assert Replies(Open(data, 0), ops) == got + [Step(before, ops[n]).1];
      assert Run(Open(data, 0), ops) == Step(before, ops[n]).0;
      hide Run, Replies;
      JoinedAppend(got, Step(before, ops[n]).1);
      ReadPiece(data, before.pos, ops[n].n);
    }
  }

  /** Every attempt at a relay rewinds the body first: whatever earlier attempts read, it starts with all the bytes. */
  lemma {:induction false} EveryAttemptStartsOver(data: seq<Byte>, attempts: seq<seq<Op>>)
    requires forall ops :: ops in attempts ==> Op.Close !in ops
    ensures AfterAttempts(Open(data, 0), attempts).Open?
    ensures Step(AfterAttempts(Open(data, 0), attempts), Op.Seek(0, FromStart)) == (Open(data, 0), At(0))
  {
    hide Run;
    if attempts != [] {
      var n := |attempts| - 1;
      assert attempts[n] in attempts;
      EveryAttemptStartsOver(data, attempts[..n]);
      RunKeepsTheBytes(Open(data, 0), attempts[n]);
      var b := AfterAttempts(Open(data, 0), attempts);
      assert b == Run(Open(data, 0), attempts[n]) && b.data == data;
    }
  }

  ghost function AfterAttempts(b: Body, attempts: seq<seq<Op>>): Body {
    if attempts == [] then b
    else Run(Step(AfterAttempts(b, attempts[..|attempts| - 1]), Op.Seek(0, FromStart)).0, attempts[|attempts| - 1])
  }
}
