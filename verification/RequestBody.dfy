/**
  Taking a request body in: where it is put, when it is refused, how the
  request hands it to every attempt, and what the global counters add up to.
*/
module RequestBody {
  import opened Common
  import opened BodyStorage

  /** The disk cache settings, in bytes. */
  datatype Config = Config(enabled: bool, threshold: int, maxSize: int)

  /** How the file system behaves when asked for a new file. */
  datatype Disk = Works | CreateFails | WriteFails | RewindFails

  /** What the client sends: its bytes, then an end or a broken connection. */
  datatype Stream = Stream(content: seq<Byte>, broken: bool)

  datatype Error = TooLarge | Failed

  datatype Storage = InMemory(m: MemoryStorage) | OnDisk(d: DiskStorage)

  ghost function PartsOf(s: Storage): set<object> {
    match s case InMemory(m) => {m} case OnDisk(d) => {d, d.file}
  }

  ghost function CountersOf(s: Storage): Counters {
    match s case InMemory(m) => m.counters case OnDisk(d) => d.counters
  }

  ghost predicate Sound(s: Storage)
    reads PartsOf(s)
  {
    match s case InMemory(m) => m.Valid() case OnDisk(d) => d.Valid()
  }

  ghost function View(s: Storage): Body
    reads PartsOf(s)
  {
    match s case InMemory(m) => m.View() case OnDisk(d) => d.View()
  }

  // ---- where a body goes ----

  predicate Available(config: Config, usage: int, size: int) {
    config.enabled && usage + size <= config.maxSize
  }

  predicate WantsDisk(config: Config, usage: int, size: int) {
    config.enabled && size >= config.threshold && Available(config, usage, size)
  }

  predicate StreamsToDisk(config: Config, usage: int, declared: int) {
    config.enabled && declared > 0 && declared >= config.threshold && Available(config, usage, declared)
  }

  /** What a reader limited to `limit` bytes gives. */
  function Limited(content: seq<Byte>, limit: int): (r: seq<Byte>)
    ensures r <= content
  {
    if limit <= 0 then [] else if |content| <= limit then content else content[..limit]
  }

  datatype Outcome = ToDisk | ToMemory | Refused(error: Error)

  /** Where a streamed body ends up. */
  function Placed(config: Config, usage: int, stream: Stream, declared: int, maxBytes: int, disk: Disk): Outcome {
    if StreamsToDisk(config, usage, declared) then
      if disk == CreateFails || disk == WriteFails then Refused(Failed)
      else if |stream.content| > maxBytes then Refused(TooLarge)
      else if stream.broken || disk == RewindFails then Refused(Failed)
      else ToDisk
    else if |stream.content| > maxBytes then Refused(TooLarge)
    else if stream.broken then Refused(Failed)
    else if WantsDisk(config, usage, |stream.content|) && disk == Works then ToDisk
    else ToMemory
  }

  function Counted(s: Stats, outcome: Outcome, size: nat): Stats {
    match outcome case ToDisk => AddFile(s, size) case ToMemory => AddBuffer(s, size) case Refused(_) => s
  }

  method NewDiskStorage(counters: Counters, data: seq<Byte>, disk: Disk) returns (d: Option<DiskStorage>)
    modifies counters
    ensures d.Some? <==> disk == Works
    ensures d.Some? ==> fresh(d.value) && fresh(d.value.file) && d.value.Valid() && d.value.View() == Open(data, 0)
    ensures d.Some? ==> d.value.counters == counters
    ensures counters.Now() == if d.Some? then AddFile(old(counters.Now()), |data|) else old(counters.Now())
  {
    if disk != Works { return None; }
    var storage := new DiskStorage(data, counters);
    d := Some(storage);
  }

  /** A body already in memory: to a file if it is large enough and there is room, and to memory when that fails. */
  method CreateBodyStorage(config: Config, counters: Counters, data: seq<Byte>, disk: Disk) returns (s: Storage)
    modifies counters
    ensures s.OnDisk? <==> config.enabled && |data| >= config.threshold && old(counters.diskBytes) + |data| <= config.maxSize && disk == Works
    ensures fresh(PartsOf(s)) && CountersOf(s) == counters
    ensures Sound(s) && View(s) == Open(data, 0)
    ensures counters.Now() == Counted(old(counters.Now()), if s.OnDisk? then ToDisk else ToMemory, |data|)
  {
    if config.enabled && |data| >= config.threshold && Available(config, counters.diskBytes, |data|) {
      var d := NewDiskStorage(counters, data, disk);
      if d.Some? { return OnDisk(d.value); }
    }
    var m := new MemoryStorage(data, counters);
    s := InMemory(m);
  }

  datatype Created = Stored(storage: Storage) | Rejected(error: Error)

  /** The file path of a streamed body. */
  method NewDiskStorageFromReader(counters: Counters, stream: Stream, maxBytes: int, disk: Disk) returns (r: Created)
    modifies counters
    ensures match r
            case Rejected(TooLarge) => |stream.content| > maxBytes && (disk == Works || disk == RewindFails)
            case Rejected(Failed) => disk == CreateFails || disk == WriteFails
                                  || (|stream.content| <= maxBytes && (stream.broken || disk == RewindFails))
            case Stored(s) => && s.OnDisk? && disk == Works && |stream.content| <= maxBytes && !stream.broken
                              && fresh(PartsOf(s)) && CountersOf(s) == counters
                              && Sound(s) && View(s) == Open(stream.content, 0)
    ensures counters.Now() == if r.Stored? then AddFile(old(counters.Now()), |stream.content|) else old(counters.Now())
  {
    if disk == CreateFails || disk == WriteFails { return Rejected(Failed); }
    var written := Limited(stream.content, maxBytes + 1);
    // the copy meets the break unless the limit comes first
    if stream.broken && |stream.content| <= maxBytes { return Rejected(Failed); }
    if |written| > maxBytes { return Rejected(TooLarge); }
    if disk == RewindFails { return Rejected(Failed); }
    var d := new DiskStorage(written, counters);
    r := Stored(OnDisk(d));
  }

  /**
    A body taken from the connection. Whatever length was declared and whatever
    form is chosen, it is kept whole or not at all, and only a body longer than
    the limit is called too large.
  */
  method CreateBodyStorageFromReader(config: Config, counters: Counters, stream: Stream, declared: int, maxBytes: int, disk: Disk)
    returns (r: Created)
    modifies counters
    ensures var outcome := Placed(config, old(counters.diskBytes), stream, declared, maxBytes, disk);
            && (r.Rejected? <==> outcome.Refused?) && (r.Rejected? ==> outcome == Refused(r.error))
            && (r.Stored? ==> (r.storage.OnDisk? <==> outcome.ToDisk?))
            && counters.Now() == Counted(old(counters.Now()), outcome, |stream.content|)
    ensures r.Stored? ==> fresh(PartsOf(r.storage)) && CountersOf(r.storage) == counters
    ensures r.Stored? ==> Sound(r.storage) && View(r.storage) == Open(stream.content, 0)
    ensures r == Rejected(TooLarge) ==> |stream.content| > maxBytes
    ensures stream.broken && |stream.content| <= maxBytes ==> r == Rejected(Failed)
    ensures r.Stored? ==>
              var usage := old(counters.diskBytes);
              r.storage.OnDisk? <==>
                config.enabled && disk == Works
                && ((declared > 0 && declared >= config.threshold && usage + declared <= config.maxSize)
                    || (|stream.content| >= config.threshold && usage + |stream.content| <= config.maxSize))
    ensures disk != Works && !stream.broken && |stream.content| <= maxBytes ==>
              (r.Stored? <==> !(config.enabled && declared > 0 && declared >= config.threshold
                                && old(counters.diskBytes) + declared <= config.maxSize))
    ensures disk == Works && !stream.broken ==>
              (r.Stored? <==> |stream.content| <= maxBytes) && (r == Rejected(TooLarge) <==> |stream.content| > maxBytes)
  {
    if config.enabled && declared > 0 && declared >= config.threshold && Available(config, counters.diskBytes, declared) {
      r := NewDiskStorageFromReader(counters, stream, maxBytes, disk);
      return;
    }
    var data := Limited(stream.content, maxBytes + 1);
    if stream.broken && |stream.content| <= maxBytes { return Rejected(Failed); }
    if |data| > maxBytes { return Rejected(TooLarge); }
    var s := CreateBodyStorage(config, counters, data, disk);
    r := Stored(s);
  }

  // ---- the request ----

  datatype Result = Bytes(bytes: seq<Byte>) | NoBytes(error: Error)

  /** The part of a request that carries its body. */
  class Request {
    const config: Config
    const counters: Counters
    const declared: int
    const maxBytes: int
    var stream: Stream
    var storage: Option<Storage>

    constructor (config: Config, counters: Counters, stream: Stream, declared: int, maxBytes: int)
      ensures this.config == config && this.counters == counters && this.stream == stream
      ensures this.declared == declared && this.maxBytes == maxBytes && storage == None
    {
      this.config, this.counters, this.stream, this.declared, this.maxBytes, storage := config, counters, stream, declared, maxBytes, None;
    }

    ghost function Parts(): set<object>
      reads this
    {
      if storage.None? then {} else PartsOf(storage.value)
    }

    ghost predicate Valid()
      reads this, Parts()
    {
      storage.Some? ==> Sound(storage.value) && CountersOf(storage.value) == counters
    }

    /** The kept body, rewound; the first time, the body taken from the connection, which is then closed. */
    method GetRequestBody(disk: Disk) returns (r: Created)
      requires Valid()
      modifies this, counters, Parts()
      ensures Valid()
      ensures old(storage.None?) ==>
                var outcome := Placed(config, old(counters.diskBytes), old(stream), declared, maxBytes, disk);
                && stream == Stream([], true)
                && (r.Rejected? <==> outcome.Refused?) && (r.Rejected? ==> outcome == Refused(r.error) && storage.None?)
                && (r.Stored? ==> storage == Some(r.storage) && View(r.storage) == Open(old(stream.content), 0))
                && counters.Now() == Counted(old(counters.Now()), outcome, |old(stream.content)|)
      ensures old(storage.None?) && r.Stored? ==> fresh(PartsOf(r.storage))
      ensures old(storage.Some?) ==>
                && storage == old(storage) && stream == old(stream) && counters.Now() == old(counters.Now())
                && View(storage.value) == Step(old(View(storage.value)), Op.Seek(0, FromStart)).0
                && r == if old(View(storage.value)).Open? then Stored(storage.value) else Rejected(Failed)
    {
      if storage.Some? {
        var reply;
        match storage.value {
          case InMemory(m) => { reply := m.Seek(0, FromStart); }
          case OnDisk(d) => { reply := d.Seek(0, FromStart); }
        }
        if !reply.At? { return Rejected(Failed); }
        return Stored(storage.value);
      }
      r := CreateBodyStorageFromReader(config, counters, stream, declared, maxBytes, disk);
      stream := Stream([], true);
      if r.Stored? { storage := Some(r.storage); }
    }

    /**
      Fetches the whole body for decoding and rewinds it, so that the next reader
      starts with all of it; the decoding itself is not modelled.
    */
    method UnmarshalBodyReusable(disk: Disk) returns (r: Result)
      requires Valid()
      modifies this, counters, Parts()
      ensures Valid()
      ensures r.Bytes? ==> storage.Some? && View(storage.value) == Open(r.bytes, 0)
      ensures old(storage.Some?) ==>
                && storage == old(storage) && counters.Now() == old(counters.Now())
                && r == if old(View(storage.value)).Open? then Bytes(old(View(storage.value)).data) else NoBytes(Failed)
      ensures old(storage.None?) ==>
                var outcome := Placed(config, old(counters.diskBytes), old(stream), declared, maxBytes, disk);
                r == if outcome.Refused? then NoBytes(outcome.error) else Bytes(old(stream.content))
    {
      var body := GetRequestBody(disk);
      if body.Rejected? { return NoBytes(body.error); }
      var reply, back;
      match body.storage {
        case InMemory(m) => {
          reply := m.Bytes();
          back := m.Seek(0, FromStart);
        }
        case OnDisk(d) => {
          reply := d.Bytes();
          back := d.Seek(0, FromStart);
        }
      }
      if !reply.Data? || !back.At? { return NoBytes(Failed); }
      r := Bytes(reply.bytes);
    }

    /** The end of the request: the body is closed and let go. */
    method CleanupBodyStorage()
      requires Valid()
      modifies this, counters, Parts()
      ensures storage == None && stream == old(stream)
      ensures old(storage.Some?) ==> View(old(storage.value)) == Shut(SizeOf(old(View(storage.value))))
      ensures counters.Now() == if old(storage.None? || View(storage.value).Shut?) then old(counters.Now())
                                else if old(storage.value.OnDisk?) then DropFile(old(counters.Now()), SizeOf(old(View(storage.value))))
                                else DropBuffer(old(counters.Now()), SizeOf(old(View(storage.value))))
    {
      if storage.Some? {
        match storage.value {
          case InMemory(m) => { var reply := m.Close(); }
          case OnDisk(d) => { var reply := d.Close(); }
        }
        storage := None;
      }
    }
  }
}
