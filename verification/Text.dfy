/** The parts of Go's `strings` package that the key and model lists go through. */
module Text {

  predicate Lacks(s: string, c: char) {
    c !in s
  }

  ghost predicate AllLack(parts: seq<string>, c: char) {
    forall i :: 0 <= i < |parts| ==> Lacks(parts[i], c)
  }

  /** strings.Split with a one-character separator: the empty string has one empty piece. */
  function Split(s: string, sep: char): (parts: seq<string>)
    ensures |parts| >= 1 && AllLack(parts, sep)
  {
    if s == "" then [""]
    else
      var rest := Split(s[1..], sep);
      if s[0] == sep then [""] + rest else [[s[0]] + rest[0]] + rest[1..]
  }

  function Join(parts: seq<string>, sep: char): string {
    if |parts| == 0 then "" else if |parts| == 1 then parts[0] else parts[0] + [sep] + Join(parts[1..], sep)
  }

  function TrimLeft(s: string, c: char): string {
    if s != "" && s[0] == c then TrimLeft(s[1..], c) else s
  }

  function TrimRight(s: string, c: char): string {
    if s != "" && s[|s| - 1] == c then TrimRight(s[..|s| - 1], c) else s
  }

  /** strings.Trim with a one-character cutset. */
  function Trim(s: string, c: char): string {
    TrimRight(TrimLeft(s, c), c)
  }

  /** unicode.IsSpace. */
  predicate IsSpace(c: char) {
    c == '\t' || c == '\n' || c == '\U{000B}' || c == '\U{000C}' || c == '\r' || c == ' '
    || c == '\U{0085}' || c == '\U{00A0}' || c == '\U{1680}' || '\U{2000}' <= c <= '\U{200A}'
    || c == '\U{2028}' || c == '\U{2029}' || c == '\U{202F}' || c == '\U{205F}' || c == '\U{3000}'
  }

  function DropSpaceLeft(s: string): (r: string)
    ensures |r| <= |s| && (r != "" ==> !IsSpace(r[0]))
  {
    if s != "" && IsSpace(s[0]) then DropSpaceLeft(s[1..]) else s
  }

  function DropSpaceRight(s: string): (r: string)
    ensures r <= s && (r != "" ==> !IsSpace(r[|r| - 1]))
  {
    if s != "" && IsSpace(s[|s| - 1]) then DropSpaceRight(s[..|s| - 1]) else s
  }

  function TrimSpace(s: string): string {
    DropSpaceRight(DropSpaceLeft(s))
  }

  /** A separated list as the channel record stores it. */
  function ReadList(s: string, sep: char): seq<string> {
    Split(Trim(s, sep), sep)
  }

  // ---- splitting and joining ----

  lemma {:induction false} SplitLacking(s: string, sep: char)
    requires Lacks(s, sep)
    ensures Split(s, sep) == [s]
    decreases |s|
  {
    if s != "" {
      SplitLacking(s[1..], sep);
      assert s == [s[0]] + s[1..];
    }
  }

  lemma {:induction false} SplitAtFirst(a: string, b: string, sep: char)
    requires Lacks(a, sep)
    ensures Split(a + [sep] + b, sep) == [a] + Split(b, sep)
    decreases |a|
  {
    var s := a + [sep] + b;
    if a == "" {
      assert s[1..] == b;
    } else {
      assert s[1..] == a[1..] + [sep] + b;
      SplitAtFirst(a[1..], b, sep);
      assert [a[0]] + a[1..] == a;
      assert ([a[1..]] + Split(b, sep))[1..] == Split(b, sep);
    }
  }

  /** Splitting undoes joining for pieces without the separator. */
  lemma {:induction false} SplitJoin(parts: seq<string>, sep: char)
    requires |parts| >= 1 && AllLack(parts, sep)
    ensures Split(Join(parts, sep), sep) == parts
    decreases |parts|
  {
    if |parts| == 1 {
      SplitLacking(parts[0], sep);
    } else {
      SplitJoin(parts[1..], sep);
      SplitAtFirst(parts[0], Join(parts[1..], sep), sep);
    }
  }

  /** One more character in front of a split text. */
  function Push(c: char, pieces: seq<string>, sep: char): seq<string>
    requires pieces != []
  {
    if c == sep then [""] + pieces else [[c] + pieces[0]] + pieces[1..]
  }

  lemma JoinPush(c: char, pieces: seq<string>, sep: char)
    requires pieces != []
    ensures Join(Push(c, pieces, sep), sep) == [c] + Join(pieces, sep)
  {
    if c == sep {
      assert ([""] + pieces)[1..] == pieces;
      assert "" + [sep] + Join(pieces, sep) == [c] + Join(pieces, sep);
    } else {
      var rest := pieces[1..];
      assert ([[c] + pieces[0]] + rest)[1..] == rest;
      if rest != [] { assert ([c] + pieces[0]) + [sep] + Join(rest, sep) == [c] + (pieces[0] + [sep] + Join(rest, sep)); }
    }
  }

  /** Joining undoes splitting. */
  lemma {:induction false} JoinSplit(s: string, sep: char)
    ensures Join(Split(s, sep), sep) == s
    decreases |s|
  {
    if s != "" {
      assert Split(s, sep) == Push(s[0], Split(s[1..], sep), sep);
      hide Split, Join, Push;
      JoinSplit(s[1..], sep);
      JoinPush(s[0], Split(s[1..], sep), sep);
    }
  }

  // ---- reading back a joined list ----

  lemma {:induction false} JoinLast(parts: seq<string>, sep: char)
    requires |parts| >= 1 && parts[|parts| - 1] != ""
    ensures var s, last := Join(parts, sep), parts[|parts| - 1];
            s != "" && s[|s| - 1] == last[|last| - 1]
    decreases |parts|
  {
    if |parts| > 1 { JoinLast(parts[1..], sep); }
  }

  lemma {:induction false} SplitAppended(s: string, sep: char)
    ensures Split(s + [sep], sep) == Split(s, sep) + [""]
    decreases |s|
  {
    if s == "" {
      assert [sep][1..] == "";
    } else {
      assert (s + [sep])[1..] == s[1..] + [sep];
      SplitAppended(s[1..], sep);
    }
  }

  /** The lines of several pieces, one after another. */
  function Lines(parts: seq<string>, sep: char): (r: seq<string>)
    ensures |r| >= |parts| && AllLack(r, sep)
  {
    if parts == [] then [] else Split(parts[0], sep) + Lines(parts[1..], sep)
  }

  lemma PushBoth(c: char, a: seq<string>, b: seq<string>, sep: char)
    requires a != []
    ensures Push(c, a + b, sep) == Push(c, a, sep) + b
  {
    assert (a + b)[1..] == a[1..] + b;
  }

  lemma {:induction false} SplitBoth(a: string, b: string, sep: char)
    ensures Split(a + [sep] + b, sep) == Split(a, sep) + Split(b, sep)
    decreases |a|
  {
    var s := a + [sep] + b;
    if a == "" {
      assert s[1..] == b;
    } else {
      assert s[1..] == a[1..] + [sep] + b && s[0] == a[0];
      assert Split(s, sep) == Push(s[0], Split(s[1..], sep), sep) && Split(a, sep) == Push(a[0], Split(a[1..], sep), sep);
      hide Split, Push;
      SplitBoth(a[1..], b, sep);
      PushBoth(a[0], Split(a[1..], sep), Split(b, sep), sep);
    }
  }

  /** A joined text has the lines of its pieces. */
  lemma {:induction false} SplitJoinLines(parts: seq<string>, sep: char)
    requires parts != []
    ensures Split(Join(parts, sep), sep) == Lines(parts, sep)
    decreases |parts|
  {
    if |parts| == 1 {
      assert Lines(parts[1..], sep) == [];
    } else {
      SplitJoinLines(parts[1..], sep);
      SplitBoth(parts[0], Join(parts[1..], sep), sep);
    }
  }

  lemma {:induction false} LinesLacking(parts: seq<string>, sep: char)
    requires AllLack(parts, sep)
    ensures Lines(parts, sep) == parts
    decreases |parts|
  {
    if parts != [] {
      SplitLacking(parts[0], sep);
      LinesLacking(parts[1..], sep);
      assert parts == [parts[0]] + parts[1..];
    }
  }

  /** How many empty pieces there are at the front and at the back, leaving one piece in any case. */
  function Front(l: seq<string>): (n: nat)
    requires l != []
    ensures n < |l|
    ensures forall i :: 0 <= i < n ==> l[i] == ""
    ensures n > 0 <==> |l| > 1 && l[0] == ""
    ensures n + 1 < |l| ==> l[n] != ""
  {
    if |l| > 1 && l[0] == "" then 1 + Front(l[1..]) else 0
  }

  function Back(l: seq<string>): (n: nat)
    requires l != []
    ensures n < |l|
    ensures forall i :: |l| - n <= i < |l| ==> l[i] == ""
    ensures n > 0 <==> |l| > 1 && l[|l| - 1] == ""
    ensures n + 1 < |l| ==> l[|l| - n - 1] != ""
  {
    if |l| > 1 && l[|l| - 1] == "" then 1 + Back(l[..|l| - 1]) else 0
  }

  /** Without the empty pieces at both ends. */
  function Bare(l: seq<string>): (r: seq<string>)
    requires l != []
    ensures r != [] && |r| <= |l| - Front(l)
    ensures forall i :: 0 <= i < |r| ==> r[i] == l[Front(l) + i]
  {
    var r := l[Front(l)..];
    r[..|r| - Back(r)]
  }

  lemma {:induction false} TrimLeftSplit(s: string, c: char)
    ensures var l := Split(s, c); Split(TrimLeft(s, c), c) == l[Front(l)..]
    decreases |s|
  {
    if s != "" && s[0] == c {
      TrimLeftSplit(s[1..], c);
      var l := Split(s[1..], c);
      assert ([""] + l)[1..] == l;
    }
  }

  lemma {:induction false} TrimRightSplit(s: string, c: char)
    ensures var l := Split(s, c); Split(TrimRight(s, c), c) == l[..|l| - Back(l)]
    decreases |s|
  {
    if s != "" {
      var rest := s[..|s| - 1];
      assert s == rest + [s[|s| - 1]];
      if s[|s| - 1] == c {
        TrimRightSplit(rest, c);
        SplitAppended(rest, c);
        assert (Split(rest, c) + [""])[..|Split(rest, c)|] == Split(rest, c);
      } else {
        SplitLast(s, c);
      }
    }
  }

  /** Reading a list gives its pieces without the empty ones at both ends. */
  lemma ReadListIsBare(s: string, sep: char)
    ensures ReadList(s, sep) == Bare(Split(s, sep))
  {
    TrimLeftSplit(s, sep);
    TrimRightSplit(TrimLeft(s, sep), sep);
    hide Split, TrimLeft, TrimRight, Front, Back;
  }

  /** So a joined list reads as the lines of its pieces, without the empty ones at both ends. */
  lemma ReadJoined(parts: seq<string>, sep: char)
    requires parts != []
    ensures ReadList(Join(parts, sep), sep) == Bare(Lines(parts, sep))
  {
    hide ReadList, Split, Join, Bare;
    SplitJoinLines(parts, sep);
    ReadListIsBare(Join(parts, sep), sep);
  }

  /**
    A list of pieces without the separator survives being joined, stored and
    read back exactly when it has one piece or neither end piece is empty.
  */
  lemma ReadBack(parts: seq<string>, sep: char)
    requires |parts| >= 1 && AllLack(parts, sep)
    ensures ReadList(Join(parts, sep), sep) == parts <==> |parts| == 1 || (parts[0] != "" && parts[|parts| - 1] != "")
    ensures |ReadList(Join(parts, sep), sep)| < |parts| || ReadList(Join(parts, sep), sep) == parts
  {
    hide ReadList, Join, Bare;
    ReadJoined(parts, sep);
    LinesLacking(parts, sep);
    BareIsWhole(parts);
  }

  lemma BareIsWhole(l: seq<string>)
    requires l != []
    ensures Bare(l) == l <==> |l| == 1 || (l[0] != "" && l[|l| - 1] != "")
    ensures |Bare(l)| < |l| || Bare(l) == l
  {
    var f := Front(l);
    var r := l[f..];
    var k := Back(r);
    assert r[|r| - 1] == l[|l| - 1];
    hide Front, Back;
    if f == 0 && k == 0 { assert r == l && Bare(l) == l; } else { assert |Bare(l)| < |l|; }
  }

  // ---- leading space ----

  lemma {:induction false} DropSpaceLeftAppend(a: string, b: string)
    requires DropSpaceLeft(a) != ""
    ensures DropSpaceLeft(a + b) == DropSpaceLeft(a) + b
    decreases |a|
  {
    hide IsSpace;
    if IsSpace(a[0]) {
      DropSpaceLeftAppend(a[1..], b);
      assert (a + b)[1..] == a[1..] + b;
    }
  }

  lemma {:induction false} DropSpaceRightKeepsFirst(s: string)
    requires s != "" && !IsSpace(s[0])
    ensures DropSpaceRight(s) != "" && DropSpaceRight(s)[0] == s[0]
    decreases |s|
  {
    if IsSpace(s[|s| - 1]) { DropSpaceRightKeepsFirst(s[..|s| - 1]); }
  }

  /** The first visible character of a text does not change when more text follows. */
  lemma TrimSpaceAppend(a: string, b: string)
    requires TrimSpace(a) != ""
    ensures TrimSpace(a + b) != "" && TrimSpace(a + b)[0] == TrimSpace(a)[0]
  {
    DropSpaceLeftAppend(a, b);
    DropSpaceRightKeepsFirst(DropSpaceLeft(a));
    DropSpaceRightKeepsFirst(DropSpaceLeft(a) + b);
  }

  lemma SpaceInFront(c: char, s: string)
    requires IsSpace(c)
    ensures TrimSpace([c] + s) == TrimSpace(s)
  {
    assert ([c] + s)[1..] == s;
  }

  lemma TrimInFront(c: char, s: string)
    requires Lacks(s, c)
    ensures Trim([c] + s, c) == s
  {
    assert ([c] + s)[1..] == s;
    assert s != "" ==> s[0] in s && s[|s| - 1] in s;
    assert TrimLeft(s, c) == s && TrimRight(s, c) == s;
  }

  lemma JoinTwo(a: string, b: string, sep: char)
    ensures Join([a, b], sep) == a + [sep] + b
  {
    assert [a, b][1..] == [b];
  }

  lemma {:induction false} JoinAppend(a: seq<string>, b: seq<string>, sep: char)
    requires |a| > 0 && |b| > 0
    ensures Join(a + b, sep) == Join(a, sep) + [sep] + Join(b, sep)
    decreases |a|
  {
    assert (a + b)[1..] == a[1..] + b;
    if |a| == 1 {
      assert a[1..] + b == b;
    } else {
      JoinAppend(a[1..], b, sep);
      assert a[0] + [sep] + (Join(a[1..], sep) + [sep] + Join(b, sep)) == (a[0] + [sep] + Join(a[1..], sep)) + [sep] + Join(b, sep);
    }
  }

  // ---- trimming separators that are spaces ----

  lemma {:induction false} DropSpaceTrimLeft(s: string, c: char)
    requires IsSpace(c)
    ensures DropSpaceLeft(TrimLeft(s, c)) == DropSpaceLeft(s)
    decreases |s|
  {
    hide IsSpace;
    if s != "" && s[0] == c { DropSpaceTrimLeft(s[1..], c); }
  }

  lemma {:induction false} DropSpaceTrimRight(s: string, c: char)
    requires IsSpace(c) && DropSpaceLeft(s) != ""
    ensures DropSpaceLeft(TrimRight(s, c)) != "" && DropSpaceLeft(TrimRight(s, c))[0] == DropSpaceLeft(s)[0]
    decreases |s|
  {
    hide IsSpace, DropSpaceLeft;
    if s[|s| - 1] == c {
      var r := s[..|s| - 1];
      assert s == r + [c];
      VisibleBefore(r, c);
      DropSpaceTrimRight(r, c);
    }
  }

  lemma VisibleBefore(r: string, c: char)
    requires IsSpace(c) && DropSpaceLeft(r + [c]) != ""
    ensures DropSpaceLeft(r) != "" && DropSpaceLeft(r)[0] == DropSpaceLeft(r + [c])[0]
  {
    if DropSpaceLeft(r) == "" { AllSpace(r, c); } else { DropSpaceLeftAppend(r, [c]); }
  }

  lemma {:induction false} AllSpace(s: string, c: char)
    requires DropSpaceLeft(s) == "" && IsSpace(c)
    ensures DropSpaceLeft(s + [c]) == ""
    decreases |s|
  {
    hide IsSpace;
    if s == "" {
      assert [c][1..] == "";
    } else {
      AllSpace(s[1..], c);
      assert (s + [c])[1..] == s[1..] + [c];
    }
  }

  lemma VisibleIsDropped(s: string)
    ensures TrimSpace(s) != "" <==> DropSpaceLeft(s) != ""
    ensures TrimSpace(s) != "" ==> TrimSpace(s)[0] == DropSpaceLeft(s)[0]
  {
    if DropSpaceLeft(s) != "" { DropSpaceRightKeepsFirst(DropSpaceLeft(s)); }
  }

  /** Trimming newlines keeps the first visible character. */
  lemma TrimKeepsFirstVisible(s: string, c: char)
    requires IsSpace(c) && TrimSpace(s) != ""
    ensures TrimSpace(Trim(s, c)) != "" && TrimSpace(Trim(s, c))[0] == TrimSpace(s)[0]
  {
    VisibleIsDropped(s);
    DropSpaceTrimLeft(s, c);
    DropSpaceTrimRight(TrimLeft(s, c), c);
    VisibleIsDropped(Trim(s, c));
  }

  lemma {:induction false} TrimRightEnds(s: string, c: char)
    ensures var r := TrimRight(s, c); r <= s && (r != "" ==> r[|r| - 1] != c)
    decreases |s|
  {
    if s != "" && s[|s| - 1] == c { TrimRightEnds(s[..|s| - 1], c); }
  }

  lemma {:induction false} TrimLeftStarts(s: string, c: char)
    ensures var r := TrimLeft(s, c); r != "" ==> r[0] != c
    decreases |s|
  {
    if s != "" && s[0] == c { TrimLeftStarts(s[1..], c); }
  }

  /** A list read from a text with anything but separators in it has no empty end. */
  lemma ReadListEnds(s: string, sep: char)
    requires Trim(s, sep) != ""
    ensures var parts := ReadList(s, sep); parts[0] != "" && parts[|parts| - 1] != ""
  {
    var t := Trim(s, sep);
    TrimLeftStarts(s, sep);
    TrimRightEnds(TrimLeft(s, sep), sep);
    SplitFirst(t, sep);
    SplitLast(t, sep);
  }

  lemma SplitFirst(s: string, sep: char)
    requires s != "" && s[0] != sep
    ensures Split(s, sep)[0] != ""
  {
  }

  lemma {:induction false} SplitLast(s: string, sep: char)
    requires s != "" && s[|s| - 1] != sep
    ensures var parts := Split(s, sep); parts[|parts| - 1] != ""
    decreases |s|
  {
    if |s| > 1 {
      SplitLast(s[1..], sep);
      var rest := Split(s[1..], sep);
      assert Split(s, sep) == Push(s[0], rest, sep);
      hide Split;
      assert |rest| == 1 || Push(s[0], rest, sep)[|Push(s[0], rest, sep)| - 1] == rest[|rest| - 1];
    } else {
      SplitLacking(s, sep);
    }
  }

  // ---- TrimSpace leaves nothing to trim ----

  lemma TrimSpaceTwice(s: string)
    ensures TrimSpace(TrimSpace(s)) == TrimSpace(s)
  {
    var l := DropSpaceLeft(s);
    if l != "" { DropSpaceRightKeepsFirst(l); }
  }

  lemma {:induction false} DropSpaceLeftLacks(s: string, c: char)
    requires Lacks(s, c)
    ensures Lacks(DropSpaceLeft(s), c)
    decreases |s|
  {
    hide IsSpace;
    if s != "" && IsSpace(s[0]) { DropSpaceLeftLacks(s[1..], c); }
  }

  lemma TrimSpaceLacks(s: string, c: char)
    requires Lacks(s, c)
    ensures Lacks(TrimSpace(s), c)
  {
    DropSpaceLeftLacks(s, c);
  }

  lemma {:induction false} TrimLeftKeepsLast(s: string, c: char)
    requires s != "" && s[|s| - 1] != c
    ensures var r := TrimLeft(s, c); r != "" && r[|r| - 1] == s[|s| - 1]
    decreases |s|
  {
    if s[0] == c { TrimLeftKeepsLast(s[1..], c); }
  }

  /** A list that ends in something visible does not vanish when it is trimmed. */
  lemma TrimKeepsSomething(s: string, c: char)
    requires s != "" && s[|s| - 1] != c
    ensures Trim(s, c) != ""
  {
    TrimLeftKeepsLast(s, c);
  }

  lemma TrimTwice(s: string, c: char)
    ensures Trim(Trim(s, c), c) == Trim(s, c)
  {
    var l := TrimLeft(s, c);
    TrimLeftStarts(s, c);
    TrimRightEnds(l, c);
  }

  // ---- trimming around a separator ----

  lemma {:induction false} BlankInFront(a: string, x: string)
    requires DropSpaceLeft(a) == ""
    ensures DropSpaceLeft(a + x) == DropSpaceLeft(x)
    decreases |a|
  {
    if a == "" {
      assert a + x == x;
    } else {
      assert IsSpace(a[0]) && (a + x)[1..] == a[1..] + x;
      hide IsSpace;
      BlankInFront(a[1..], x);
    }
  }

  lemma {:induction false} BlankBehind(y: string, b: string)
    requires DropSpaceRight(b) == ""
    ensures DropSpaceRight(y + b) == DropSpaceRight(y)
    decreases |b|
  {
    if b == "" {
      assert y + b == y;
    } else {
      var n := |b| - 1;
      assert IsSpace(b[n]) && (y + b)[..|y| + n] == y + b[..n] && (y + b)[|y| + n] == b[n];
      hide IsSpace;
      BlankBehind(y, b[..n]);
    }
  }

  lemma {:induction false} VisibleBehind(y: string, b: string)
    requires DropSpaceRight(b) != ""
    ensures DropSpaceRight(y + b) == y + DropSpaceRight(b)
    decreases |b|
  {
    var n := |b| - 1;
    assert (y + b)[..|y| + n] == y + b[..n] && (y + b)[|y| + n] == b[n];
    if IsSpace(b[n]) {
      hide IsSpace;
      VisibleBehind(y, b[..n]);
    }
  }

  lemma {:induction false} BlankFromTheRight(s: string)
    ensures DropSpaceRight(s) == "" <==> DropSpaceLeft(s) == ""
    decreases |s|
  {
    if s != "" {
      var rest, c := s[..|s| - 1], s[|s| - 1];
      assert s == rest + [c];
      BlankFromTheRight(rest);
      if IsSpace(c) {
        hide IsSpace;
        if DropSpaceLeft(rest) == "" { AllSpace(rest, c); } else { DropSpaceLeftAppend(rest, [c]); }
      } else if DropSpaceLeft(rest) == "" {
        BlankInFront(rest, [c]);
      } else {
        DropSpaceLeftAppend(rest, [c]);
      }
    }
  }

  lemma {:induction false} BlankPrefix(s: string, r: string)
    requires DropSpaceLeft(s) == "" && r <= s
    ensures DropSpaceLeft(r) == ""
    decreases |r|
  {
    if r != "" {
      assert r[0] == s[0] && r[1..] <= s[1..];
      BlankPrefix(s[1..], r[1..]);
    }
  }

  /** Visible text on one line comes from one piece of a text. */
  lemma {:induction false} VisiblePiece(e: string, sep: char) returns (i: nat)
    requires IsSpace(sep) && TrimSpace(e) != "" && Lacks(TrimSpace(e), sep)
    ensures i < |Split(e, sep)| && TrimSpace(Split(e, sep)[i]) == TrimSpace(e)
    decreases |e|
  {
    if Lacks(e, sep) {
      SplitLacking(e, sep);
      i := 0;
    } else {
      var a, b := CutAt(e, sep);
      SplitAtFirst(a, b, sep);
      AroundSeparator(a, b, sep);
      hide Split, TrimSpace, IsSpace;
      if TrimSpace(a) == "" {
        i := VisiblePiece(b, sep);
        i := i + 1;
      } else {
        i := 0;
      }
    }
  }

  lemma {:induction false} CutAt(e: string, sep: char) returns (a: string, b: string)
    requires !Lacks(e, sep)
    ensures e == a + [sep] + b && Lacks(a, sep)
    decreases |e|
  {
    assert e == [e[0]] + e[1..];
    if e[0] == sep {
      a, b := "", e[1..];
    } else {
      a, b := CutAt(e[1..], sep);
      a := [e[0]] + a;
    }
  }

  lemma AroundSeparator(a: string, b: string, sep: char)
    requires IsSpace(sep)
    ensures var t := TrimSpace(a + [sep] + b);
            if TrimSpace(a) == "" then t == TrimSpace(b) else if TrimSpace(b) == "" then t == TrimSpace(a) else !Lacks(t, sep)
  {
    VisibleIsDropped(a);
    VisibleIsDropped(b);
    assert a + [sep] + b == a + ([sep] + b);
    var y := DropSpaceLeft(a);
    if y == "" {
      BlankInFront(a, [sep] + b);
      BlankInFront([sep], b);
    } else {
      DropSpaceLeftAppend(a, [sep] + b);
      BlankFromTheRight(b);
      assert y + ([sep] + b) == (y + [sep]) + b;
      hide DropSpaceLeft, IsSpace;
      if DropSpaceRight(b) == "" {
        BlankBehind(y + [sep], b);
        assert (y + [sep])[..|y|] == y;
      } else {
        VisibleBehind(y + [sep], b);
        assert (y + [sep] + DropSpaceRight(b))[|y|] == sep;
      }
    }
  }
}
