/**
  The length of an Opus recording, read by scanning its Ogg container page by
  page. The scan is compared with the pages that were written: for every list
  of pages, with bytes between them that are not pages, and for every point at
  which the file may be cut off.
*/
module OggScan {
  import opened Common

  const CAPTURE: seq<Byte> := [79, 103, 103, 83]
  const HEADER := 27
  const RATE := 48000.0

  // ---- numbers in bytes ----

  function Little(s: seq<Byte>): (r: nat)
  {
    if s == [] then 0 else s[0] + 256 * Little(s[1..])
  }

  function WriteLittle(u: nat, n: nat): (r: seq<Byte>)
    ensures |r| == n
  {
    if n == 0 then [] else [u % 256] + WriteLittle(u / 256, n - 1)
  }

  function Pow256(n: nat): nat {
    if n == 0 then 1 else 256 * Pow256(n - 1)
  }

  lemma {:induction false} LittleRoundTrip(u: nat, n: nat)
    requires u < Pow256(n)
    ensures Little(WriteLittle(u, n)) == u
    decreases n
  {
    if n > 0 {
      LittleRoundTrip(u / 256, n - 1);
      assert WriteLittle(u, n)[1..] == WriteLittle(u / 256, n - 1);
    }
  }

  const TWO63 := 0x8000_0000_0000_0000

  function Signed(u: nat): int {
    if u >= TWO63 then u - 2 * TWO63 else u
  }

  function Unsigned(g: int): nat
    requires -TWO63 <= g < TWO63
  {
    if g < 0 then g + 2 * TWO63 else g
  }

  function Sum(s: seq<Byte>): (r: nat)
  {
    if s == [] then 0 else Sum(s[..|s| - 1]) + s[|s| - 1]
  }

  // ---- the scan ----

  predicate CaptureAt(data: seq<Byte>, i: nat) {
    i + 4 <= |data| && data[i..i + 4] == CAPTURE
  }

  function Granule(data: seq<Byte>): int
    requires |data| >= HEADER
  {
    Signed(Little(data[6..14]))
  }

  /** Where the page at the start of `data` says it ends, if its segment table is there. */
  function PageEnd(data: seq<Byte>): (r: nat)
    requires |data| >= HEADER
    ensures r >= HEADER
  {
    var table := HEADER + data[26];
    if table <= |data| then table + Sum(data[HEADER..table]) else table
  }

  /** A page the scan comes to: where it starts and the granule position it gives. */
  datatype Seen = Seen(at: nat, granule: int)

  /** The pages the scan comes to in `data`, which starts `base` bytes into the file. */
  function Found(data: seq<Byte>, base: nat): seq<Seen>
    decreases |data|
  {
    if |data| < HEADER then []
    else if !CaptureAt(data, 0) then Found(data[1..], base + 1)
    else if PageEnd(data) > |data| then [Seen(base, Granule(data))]
    else [Seen(base, Granule(data))] + Found(data[PageEnd(data)..], base + PageEnd(data))
  }

  /** The highest of the granule positions, and not below zero. */
  function Highest(s: seq<Seen>): (r: nat)
    ensures forall x :: x in s ==> x.granule <= r
    ensures r == 0 || exists x :: x in s && x.granule == r
  {
    if s == [] then 0
    else
      assert s == s[..|s| - 1] + [s[|s| - 1]];
      var rest, last := Highest(s[..|s| - 1]), s[|s| - 1];
      assert last in s;
      if last.granule > rest then last.granule else rest
  }

  method SegmentSum(table: seq<Byte>) returns (total: nat)
    ensures total == Sum(table)
  {
    total := 0;
    for i := 0 to |table|
      invariant total == Sum(table[..i])
    {
      assert table[..i + 1][..i] == table[..i];
      total := total + table[i];
    }
    assert table[..|table|] == table;
  }

  /** What is still to be found from a position on. */
  ghost function FoundFrom(data: seq<Byte>, pos: nat, base: nat := 0): seq<Seen> {
    if pos <= |data| then Found(data[pos..], base + pos) else []
  }

  /** The loop of getOpusDuration over a file held in memory. */
  method OpusDuration(data: seq<Byte>) returns (duration: real)
    ensures duration * 48000.0 == Highest(Found(data, 0)) as real
  {
    hide Highest, Sum, Signed, Little, FoundFrom, Found;
    var pos, total := 0, 0;
    ghost var seen: seq<Seen> := [];
    Ends(data, 0);
    assert [] + Found(data, 0) == Found(data, 0);
    while pos + HEADER <= |data|
      invariant 0 <= pos
      invariant seen + FoundFrom(data, pos) == Found(data, 0)
      invariant total == Highest(seen)
      decreases |data| + HEADER - pos
    {
      if data[pos..pos + 4] != CAPTURE {
        NoPageAt(data, pos);
        pos := pos + 1;
        continue;
      }
      var granule := Signed(Little(data[pos + 6..pos + 14]));
      PageAt(data, pos);
      HighestAppend(seen, Seen(pos, granule));
      ghost var page := [Seen(pos, granule)];
      assert seen + (page + FoundFrom(data, NextPage(data, pos))) == (seen + page) + FoundFrom(data, NextPage(data, pos));
      seen := seen + page;
      if granule > total { total := granule; }
      var end := pos + HEADER + data[pos + 26];
      if end > |data| {
        pos := end;
        break;
      }
      var size := SegmentSum(data[pos + HEADER..end]);
      pos := end + size;
    }
    Ends(data, pos);
    assert seen + [] == seen;
    duration := total as real / RATE;
  }

  ghost function NextPage(data: seq<Byte>, pos: nat): nat
    requires pos + HEADER <= |data|
  {
    var end := pos + HEADER + data[pos + 26];
    if end > |data| then end else end + Sum(data[pos + HEADER..end])
  }

  lemma Ends(data: seq<Byte>, pos: nat)
    ensures Highest([]) == 0 && FoundFrom(data, 0) == Found(data, 0)
    ensures pos + HEADER > |data| ==> FoundFrom(data, pos) == []
  {
    assert data[0..] == data;
  }

  lemma NoPageAt(data: seq<Byte>, pos: nat)
    requires pos + HEADER <= |data| && data[pos..pos + 4] != CAPTURE
    ensures FoundFrom(data, pos) == FoundFrom(data, pos + 1)
  {
    var rest := data[pos..];
    assert rest[0..4] == data[pos..pos + 4] && rest[1..] == data[pos + 1..];
  }

  lemma PageAt(data: seq<Byte>, pos: nat)
    requires pos + HEADER <= |data| && data[pos..pos + 4] == CAPTURE
    ensures FoundFrom(data, pos) == [Seen(pos, Signed(Little(data[pos + 6..pos + 14])))] + FoundFrom(data, NextPage(data, pos))
  {
    hide Sum, Signed, Little;
    var rest := data[pos..];
    assert rest[0..4] == data[pos..pos + 4] && rest[6..14] == data[pos + 6..pos + 14];
    var n := HEADER + rest[26];
    if n <= |rest| {
      assert rest[HEADER..n] == data[pos + HEADER..pos + n];
      if PageEnd(rest) <= |rest| { assert rest[PageEnd(rest)..] == data[NextPage(data, pos)..]; }
    }
  }

  lemma HighestAppend(s: seq<Seen>, x: Seen)
    ensures Highest(s + [x]) == if x.granule > Highest(s) then x.granule else Highest(s)
  {
    assert (s + [x])[..|s|] == s;
  }

  // ---- what was written ----

  /** A page: version and flags, granule position, serial and sequence numbers and checksum, segment sizes, contents. */
  datatype Page = Page(flags: seq<Byte>, granule: int, numbers: seq<Byte>, table: seq<Byte>, payload: seq<Byte>)

  ghost predicate WellFormed(p: Page) {
    |p.flags| == 2 && -TWO63 <= p.granule < TWO63 && |p.numbers| == 12 && |p.table| < 256 && |p.payload| == Sum(p.table)
  }

  ghost function Header(p: Page): (r: seq<Byte>)
    requires WellFormed(p)
    ensures |r| == HEADER
  {
    [79, 103, 103, 83] + p.flags + WriteLittle(Unsigned(p.granule), 8) + p.numbers + [|p.table|]
  }

  ghost function Encode(p: Page): (r: seq<Byte>)
    requires WellFormed(p)
    ensures |r| == HEADER + |p.table| + |p.payload|
  {
    Header(p) + p.table + p.payload
  }

  /** Bytes in which no page starts. */
  ghost predicate Junk(s: seq<Byte>) {
    forall i: nat :: !CaptureAt(s, i)
  }

  /** Some bytes that are not a page, then a page. */
  datatype Chunk = Chunk(gap: seq<Byte>, page: Page)

  ghost predicate Fine(chunks: seq<Chunk>) {
    forall c :: c in chunks ==> Junk(c.gap) && WellFormed(c.page)
  }

  ghost function File(chunks: seq<Chunk>, tail: seq<Byte>): seq<Byte>
    requires Fine(chunks)
  {
    if chunks == [] then tail else chunks[0].gap + Encode(chunks[0].page) + File(chunks[1..], tail)
  }

  /** The pages whose header ends within the first `k` bytes, for a file that starts at `base`. */
  ghost function Within(chunks: seq<Chunk>, k: int, base: nat): seq<Seen>
    requires Fine(chunks)
  {
    if chunks == [] || k < |chunks[0].gap| + HEADER then []
    else
      var start, size := |chunks[0].gap|, |Encode(chunks[0].page)|;
      [Seen(base + start, chunks[0].page.granule)] + Within(chunks[1..], k - start - size, base + start + size)
  }

  /** All pages, where they were written. */
  ghost function Pages(chunks: seq<Chunk>, base: nat): seq<Seen>
    requires Fine(chunks)
  {
    if chunks == [] then []
    else
      var start, size := |chunks[0].gap|, |Encode(chunks[0].page)|;
      [Seen(base + start, chunks[0].page.granule)] + Pages(chunks[1..], base + start + size)
  }

  // ---- the scan finds what was written ----

  lemma HeaderFields(p: Page, rest: seq<Byte>)
    requires WellFormed(p)
    ensures var s := Header(p) + rest;
            CaptureAt(s, 0) && s[6..14] == WriteLittle(Unsigned(p.granule), 8) && s[26] == |p.table|
  {
    hide WriteLittle, Sum;
    var s := Header(p) + rest;
    assert s[0..4] == CAPTURE;
    assert s[6..14] == WriteLittle(Unsigned(p.granule), 8);
  }

  lemma HeaderGranule(p: Page, rest: seq<Byte>)
    requires WellFormed(p)
    ensures Granule(Header(p) + rest) == p.granule
  {
    hide Header, WriteLittle, Little, Sum;
    HeaderFields(p, rest);
    EightBytes();
    LittleRoundTrip(Unsigned(p.granule), 8);
  }

  lemma EightBytes()
    ensures Pow256(8) == 2 * TWO63
  {
    assert Pow256(4) == 0x1_0000_0000;
  }

  lemma FoundPage(data: seq<Byte>, base: nat)
    requires |data| >= HEADER && CaptureAt(data, 0)
    ensures Found(data, base) == [Seen(base, Granule(data))] + FoundFrom(data, PageEnd(data), base)
  {
    hide Granule, PageEnd, CaptureAt;
  }

  /** A cut page still says how long it was meant to be, or runs out in its table. */
  lemma EndOfPage(p: Page, rest: seq<Byte>, k: nat)
    requires WellFormed(p) && HEADER <= k <= |Encode(p) + rest|
    ensures var data := (Encode(p) + rest)[..k];
            && data == Header(p) + (p.table + p.payload + rest)[..k - HEADER]
            && (if k < HEADER + |p.table| then PageEnd(data) > k else PageEnd(data) == |Encode(p)|)
  {
    hide Header, Sum;
    var data := (Encode(p) + rest)[..k];
    var after := (p.table + p.payload + rest)[..k - HEADER];
    assert data == Header(p) + after;
    HeaderFields(p, after);
    var n := HEADER + |p.table|;
    if n <= k {
      assert p.table + p.payload + rest == p.table + (p.payload + rest);
      assert data[HEADER..n] == after[..|p.table|] == p.table;
    }
  }

  /** A page whose header is complete is found, wherever the file is cut after it. */
  lemma FindsPage(p: Page, rest: seq<Byte>, k: nat, base: nat)
    requires WellFormed(p) && HEADER <= k <= |Encode(p) + rest|
    ensures Found((Encode(p) + rest)[..k], base)
         == [Seen(base, p.granule)] + (if k <= |Encode(p)| then [] else Found(rest[..k - |Encode(p)|], base + |Encode(p)|))
  {
    var end := |Encode(p)|;
    var data := (Encode(p) + rest)[..k];
    if end == k { assert data[end..] == []; assert FoundFrom(data, end, base) == []; }
    hide Header, Sum, Granule, PageEnd, Found, Encode, CaptureAt;
    var after := (p.table + p.payload + rest)[..k - HEADER];
    EndOfPage(p, rest, k);
    HeaderFields(p, after);
    HeaderGranule(p, after);
    FoundPage(data, base);
    if end < k { assert data[end..] == rest[..k - end]; }
  }

  /** Bytes that are not a page stay bytes that are not a page when a page, or nothing, follows. */
  lemma NothingStraddles(gap: seq<Byte>, p: Page, rest: seq<Byte>, i: nat, k: nat)
    requires Junk(gap) && WellFormed(p) && i < |gap| && k <= |gap + Encode(p) + rest|
    ensures !CaptureAt((gap + Encode(p) + rest)[..k], i)
  {
    hide Sum, WriteLittle;
    var data := (gap + Encode(p) + rest)[..k];
    if i + 4 <= k {
      if i + 4 <= |gap| {
        assert data[i..i + 4] == gap[i..i + 4] && !CaptureAt(gap, i);
      } else {
        assert data[|gap|] == CAPTURE[0] == data[i..i + 4][|gap| - i];
      }
    }
  }

  /** The scan walks over a gap, at most to the cut. */
  lemma {:induction false} SkipsGap(gap: seq<Byte>, p: Page, rest: seq<Byte>, k: nat, base: nat)
    requires Junk(gap) && WellFormed(p) && k <= |gap + Encode(p) + rest|
    ensures k < |gap| + HEADER ==> Found((gap + Encode(p) + rest)[..k], base) == []
    ensures k >= |gap| + HEADER ==> Found((gap + Encode(p) + rest)[..k], base) == Found((Encode(p) + rest)[..k - |gap|], base + |gap|)
    decreases |gap|
  {
    hide Encode, CaptureAt;
    var data := (gap + Encode(p) + rest)[..k];
    if gap == [] {
      assert gap + Encode(p) + rest == Encode(p) + rest;
    } else if k >= HEADER {
      NothingStraddles(gap, p, rest, 0, k);
      assert data[1..] == (gap[1..] + Encode(p) + rest)[..k - 1];
      JunkTail(gap);
      SkipsGap(gap[1..], p, rest, k - 1, base + 1);
    }
  }

  lemma JunkTail(gap: seq<Byte>)
    requires Junk(gap) && gap != []
    ensures Junk(gap[1..])
  {
    forall i: nat ensures !CaptureAt(gap[1..], i) {
      assert !CaptureAt(gap, i + 1);
      if i + 5 <= |gap| { assert gap[1..][i..i + 4] == gap[i + 1..i + 5]; }
    }
  }

  lemma {:induction false} NothingInJunk(s: seq<Byte>, base: nat)
    requires Junk(s)
    ensures Found(s, base) == []
    decreases |s|
  {
    if |s| >= HEADER {
      assert !CaptureAt(s, 0);
      JunkTail(s);
      NothingInJunk(s[1..], base + 1);
    }
  }

  lemma JunkPrefix(s: seq<Byte>, k: nat)
    requires Junk(s) && k <= |s|
    ensures Junk(s[..k])
  {
    forall i: nat ensures !CaptureAt(s[..k], i) {
      assert !CaptureAt(s, i);
      if i + 4 <= k { assert s[..k][i..i + 4] == s[i..i + 4]; }
    }
  }

  /**
    For every list of pages with gaps, and every place to cut the file: the
    scan reads exactly the pages whose header came through, each once and in
    order, whatever their contents hold.
  */
  lemma {:induction false} FindsExactlyThePages(chunks: seq<Chunk>, tail: seq<Byte>, k: nat, base: nat)
    requires Fine(chunks) && Junk(tail) && k <= |File(chunks, tail)|
    ensures Found(File(chunks, tail)[..k], base) == Within(chunks, k, base)
    decreases |chunks|
  {
    hide Found, Encode;
    if chunks == [] {
      JunkPrefix(tail, k);
      NothingInJunk(tail[..k], base);
    } else {
      var c, rest := chunks[0], File(chunks[1..], tail);
      assert Junk(c.gap) && WellFormed(c.page);
      SkipsGap(c.gap, c.page, rest, k, base);
      if k >= |c.gap| + HEADER {
        FindsPage(c.page, rest, k - |c.gap|, base + |c.gap|);
        var left := k - |c.gap| - |Encode(c.page)|;
        if left > 0 { FindsExactlyThePages(chunks[1..], tail, left, base + |c.gap| + |Encode(c.page)|); }
      }
    }
  }

  lemma {:induction false} WholeFile(chunks: seq<Chunk>, tail: seq<Byte>, base: nat)
    requires Fine(chunks)
    ensures Within(chunks, |File(chunks, tail)|, base) == Pages(chunks, base)
  {
    hide Encode;
    if chunks != [] { WholeFile(chunks[1..], tail, base + |chunks[0].gap| + |Encode(chunks[0].page)|); }
  }

  /** A complete file: its length is that of the last position any page gives, whatever negative positions say. */
  lemma DurationIsTheHighestPosition(chunks: seq<Chunk>, tail: seq<Byte>)
    requires Fine(chunks) && Junk(tail)
    ensures Found(File(chunks, tail), 0) == Pages(chunks, 0)
    ensures IsHighest(chunks, Highest(Found(File(chunks, tail), 0)))
  {
    hide Found, File, Highest, IsHighest;
    var data := File(chunks, tail);
    assert data[..|data|] == data;
    FindsExactlyThePages(chunks, tail, |data|, 0);
    WholeFile(chunks, tail, 0);
    HighestGranule(chunks);
  }

  ghost predicate IsHighest(chunks: seq<Chunk>, r: nat) {
    && (forall c :: c in chunks ==> c.page.granule <= r)
    && (r == 0 || exists c :: c in chunks && c.page.granule == r)
  }

  lemma HighestGranule(chunks: seq<Chunk>)
    requires Fine(chunks)
    ensures IsHighest(chunks, Highest(Pages(chunks, 0)))
  {
    var s := Pages(chunks, 0);
    var r := Highest(s);
    PagesAre(chunks, 0);
    hide Highest, Pages;
    forall c | c in chunks ensures c.page.granule <= r {
      var i :| 0 <= i < |chunks| && chunks[i] == c;
      assert s[i] in s;
    }
    if r != 0 {
      var i :| 0 <= i < |s| && s[i].granule == r;
      assert chunks[i] in chunks;
    }
  }

  lemma {:induction false} PagesAre(chunks: seq<Chunk>, base: nat)
    requires Fine(chunks)
    ensures |Pages(chunks, base)| == |chunks|
    ensures forall i :: 0 <= i < |chunks| ==> Pages(chunks, base)[i].granule == chunks[i].page.granule
  {
    hide Encode;
    if chunks != [] { PagesAre(chunks[1..], base + |chunks[0].gap| + |Encode(chunks[0].page)|); }
  }

  /** Cutting a file can only shorten the recording. */
  lemma {:induction false} CutIsNoLonger(chunks: seq<Chunk>, tail: seq<Byte>, k: nat)
    requires Fine(chunks) && Junk(tail) && k <= |File(chunks, tail)|
    ensures Found(File(chunks, tail)[..k], 0) <= Found(File(chunks, tail), 0)
    ensures Highest(Found(File(chunks, tail)[..k], 0)) <= Highest(Found(File(chunks, tail), 0))
  {
    hide Found, File;
    FindsExactlyThePages(chunks, tail, k, 0);
    DurationIsTheHighestPosition(chunks, tail);
    WithinIsPrefix(chunks, k, 0);
    HighestOfPrefix(Within(chunks, k, 0), Pages(chunks, 0));
  }

  lemma HighestOfPrefix(s: seq<Seen>, t: seq<Seen>)
    requires s <= t
    ensures Highest(s) <= Highest(t)
  {
    hide Highest;
    if Highest(s) != 0 {
      var i :| 0 <= i < |s| && s[i].granule == Highest(s);
      assert t[i] in t;
    }
  }

  lemma {:induction false} WithinIsPrefix(chunks: seq<Chunk>, k: int, base: nat)
    requires Fine(chunks)
    ensures Within(chunks, k, base) <= Pages(chunks, base)
    decreases |chunks|
  {
    hide Encode;
    if chunks != [] {
      var start, size := |chunks[0].gap|, |Encode(chunks[0].page)|;
      WithinIsPrefix(chunks[1..], k - start - size, base + start + size);
    }
  }
}
