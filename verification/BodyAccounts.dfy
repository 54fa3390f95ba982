/**
  What the counters of the body cache say after any history of bodies taken in
  and closed, some of them more than once.
*/
module BodyAccounts {
  import opened Common
  import opened BodyStorage
  import opened RequestBody

  datatype Entry = Entry(onDisk: bool, size: nat, open: bool)

  datatype World = World(stats: Stats, bodies: seq<Entry>)

  datatype Event =
    | TakeData(size: nat, disk: Disk)
    | TakeStream(stream: Stream, declared: int, maxBytes: int, disk: Disk)
    | CloseBody(id: nat)

  const EMPTY := World(Stats(0, 0, 0, 0), [])

  function Add(w: World, outcome: Outcome, size: nat): World {
    if outcome.Refused? then w
    else World(Counted(w.stats, outcome, size), w.bodies + [Entry(outcome.ToDisk?, size, true)])
  }

  function Drop(s: Stats, e: Entry): Stats {
    if e.onDisk then DropFile(s, e.size) else DropBuffer(s, e.size)
  }

  function Next(config: Config, w: World, event: Event): World {
    match event
    case TakeData(size, disk) =>
      Add(w, if WantsDisk(config, w.stats.diskBytes, size) && disk == Works then ToDisk else ToMemory, size)
    case TakeStream(stream, declared, maxBytes, disk) =>
      Add(w, Placed(config, w.stats.diskBytes, stream, declared, maxBytes, disk), |stream.content|)
    case CloseBody(id) =>
      if id < |w.bodies| && w.bodies[id].open
      then World(Drop(w.stats, w.bodies[id]), w.bodies[id := w.bodies[id].(open := false)])
      else w
  }

  function After(config: Config, events: seq<Event>): World {
    if events == [] then EMPTY else Next(config, After(config, events[..|events| - 1]), events[|events| - 1])
  }

  /** Number and size of the open bodies, by where they are. */
  ghost function Totals(bodies: seq<Entry>): (t: Stats)
    ensures t.files >= 0 && t.diskBytes >= 0 && t.buffers >= 0 && t.memoryBytes >= 0
  {
    if bodies == [] then Stats(0, 0, 0, 0)
    else
      var t, e := Totals(bodies[..|bodies| - 1]), bodies[|bodies| - 1];
      if !e.open then t else if e.onDisk then AddFile(t, e.size) else AddBuffer(t, e.size)
  }

  lemma {:induction false} TotalsAfterClose(bodies: seq<Entry>, id: nat)
    requires id < |bodies| && bodies[id].open
    ensures var e, t := bodies[id], Totals(bodies);
            && (e.onDisk ==> t.files >= 1 && t.diskBytes >= e.size)
            && Totals(bodies[id := e.(open := false)])
            == if e.onDisk then t.(files := t.files - 1, diskBytes := t.diskBytes - e.size)
               else t.(buffers := t.buffers - 1, memoryBytes := t.memoryBytes - e.size)
    decreases |bodies|
  {
    var n := |bodies| - 1;
    var shut := bodies[id := bodies[id].(open := false)];
    if id < n {
      TotalsAfterClose(bodies[..n], id);
      assert shut[..n] == bodies[..n][id := bodies[id].(open := false)];
    } else {
      assert shut[..n] == bodies[..n];
    }
  }

  lemma TotalsAfterAdd(bodies: seq<Entry>, e: Entry)
    ensures Totals(bodies + [e]) == if !e.open then Totals(bodies)
                                    else if e.onDisk then AddFile(Totals(bodies), e.size) else AddBuffer(Totals(bodies), e.size)
  {
    assert (bodies + [e])[..|bodies|] == bodies;
  }

  lemma NextBalances(config: Config, w: World, event: Event)
    requires w.stats == Totals(w.bodies)
    ensures Next(config, w, event).stats == Totals(Next(config, w, event).bodies)
  {
    hide Totals, Placed, WantsDisk;
    match event {
      case TakeData(size, disk) =>
        TotalsAfterAdd(w.bodies, Entry(WantsDisk(config, w.stats.diskBytes, size) && disk == Works, size, true));
      case TakeStream(stream, declared, maxBytes, disk) =>
        var outcome := Placed(config, w.stats.diskBytes, stream, declared, maxBytes, disk);
        TotalsAfterAdd(w.bodies, Entry(outcome.ToDisk?, |stream.content|, true));
      case CloseBody(id) =>
        if id < |w.bodies| && w.bodies[id].open { TotalsAfterClose(w.bodies, id); }
    }
  }

  /** After every history the counters are the number and the total size of the open bodies. */
  lemma {:induction false} CountersAreTheOpenBodies(config: Config, events: seq<Event>)
    ensures After(config, events).stats == Totals(After(config, events).bodies)
  {
    hide Totals, Next;
    if events != [] {
      CountersAreTheOpenBodies(config, events[..|events| - 1]);
      NextBalances(config, After(config, events[..|events| - 1]), events[|events| - 1]);
    } else {
      NoBodies();
    }
  }

  lemma NoBodies()
    ensures Totals([]) == Stats(0, 0, 0, 0)
  {
  }

  /** So the correction of negative counters is never needed: closing always subtracts exactly what was added. */
  lemma ClampNeverFires(config: Config, events: seq<Event>, id: nat)
    requires id < |After(config, events).bodies| && After(config, events).bodies[id].open && After(config, events).bodies[id].onDisk
    ensures var w := After(config, events);
            w.stats.files - 1 >= 0 && w.stats.diskBytes - w.bodies[id].size >= 0
  {
    hide After, Totals;
    CountersAreTheOpenBodies(config, events);
    TotalsAfterClose(After(config, events).bodies, id);
  }

  /** Bodies are no longer than the length declared for them. */
  ghost predicate Honest(events: seq<Event>) {
    forall e :: e in events && e.TakeStream? && e.declared > 0 ==> |e.stream.content| <= e.declared
  }

  /** Then the cache never outgrows its limit. */
  lemma {:induction false} DiskUsageStaysWithinTheLimit(config: Config, events: seq<Event>)
    requires Honest(events)
    ensures var usage := After(config, events).stats.diskBytes; usage == 0 || usage <= config.maxSize
  {
    if events != [] {
      var n := |events| - 1;
      var w, e := After(config, events[..n]), events[n];
      assert e in events;
      DiskUsageStaysWithinTheLimit(config, events[..n]);
      CountersAreTheOpenBodies(config, events[..n]);
      hide After, Totals;
      if e.CloseBody? && e.id < |w.bodies| && w.bodies[e.id].open { TotalsAfterClose(w.bodies, e.id); }
    }
  }

  // ---- exactly when the cache outgrows its limit ----

  ghost predicate OverLimit(config: Config, w: World) {
    w.stats.diskBytes > 0 && w.stats.diskBytes > config.maxSize
  }

  /** A stream let onto the disk by its declared length, kept, and truly too long for the room there was. */
  ghost predicate TooLongForTheRoom(config: Config, w: World, e: Event) {
    && e.TakeStream? && StreamsToDisk(config, w.stats.diskBytes, e.declared) && e.disk == Works && !e.stream.broken
    && |e.stream.content| <= e.maxBytes && w.stats.diskBytes + |e.stream.content| > config.maxSize
  }

  lemma NextOverLimit(config: Config, w: World, e: Event)
    requires w.stats == Totals(w.bodies)
    ensures TooLongForTheRoom(config, w, e) ==> OverLimit(config, Next(config, w, e))
    ensures OverLimit(config, Next(config, w, e)) ==> OverLimit(config, w) || TooLongForTheRoom(config, w, e)
  {
    if e.CloseBody? && e.id < |w.bodies| && w.bodies[e.id].open { TotalsAfterClose(w.bodies, e.id); }
    hide Totals;
  }

  /** Was usage over the limit after any part of the history? */
  ghost predicate EverOverLimit(config: Config, events: seq<Event>) {
    OverLimit(config, After(config, events)) || (events != [] && EverOverLimit(config, events[..|events| - 1]))
  }

  /** Did any event of the history take a stream that was too long for the room? */
  ghost predicate EverTooLong(config: Config, events: seq<Event>) {
    events != [] &&
    var rest, last := events[..|events| - 1], events[|events| - 1];
    TooLongForTheRoom(config, After(config, rest), last) || EverTooLong(config, rest)
  }

  /**
    Over every history: usage exceeds the limit at some point if and only if
    some stream was let onto the disk by its declared length when its true
    length did not fit.
  */
  lemma {:induction false} OvershootsExactly(config: Config, events: seq<Event>)
    ensures EverOverLimit(config, events) <==> EverTooLong(config, events)
  {
    hide OverLimit, TooLongForTheRoom, Totals, Next;
    if events == [] {
      NotOverAtFirst(config);
    } else {
      var rest, last := events[..|events| - 1], events[|events| - 1];
      OvershootsExactly(config, rest);
      CountersAreTheOpenBodies(config, rest);
      NextOverLimit(config, After(config, rest), last);
    }
  }

  lemma NotOverAtFirst(config: Config)
    ensures !OverLimit(config, After(config, []))
  {
  }

  /** Any body longer than the limit, declared short enough to be let in, does it at once. */
  lemma OvershootExample(config: Config, content: seq<Byte>, declared: int)
    requires config.enabled && 0 < declared <= config.maxSize && config.threshold <= declared && |content| > config.maxSize
    ensures OverLimit(config, After(config, [TakeStream(Stream(content, false), declared, |content|, Works)]))
  {
    var events := [TakeStream(Stream(content, false), declared, |content|, Works)];
    assert events[..0] == [] && After(config, events[..0]) == EMPTY;
  }
}
