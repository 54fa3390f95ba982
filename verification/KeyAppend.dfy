/**
  Appending keys to a multi-key channel: parse the stored list, split and trim
  the submitted lines, drop the ones already there, and store the joined list.
*/
module KeyAppend {
  import opened Common
  import opened Text
  import opened MultiKey

  /**
    The list the append branch starts from. Unlike `GetKeys`, it does not fall
    back to lines when the text starts like an array and is not one.
  */
  function ExistingKeys(origin: string, json: JsonArray): seq<string> {
    if LooksLikeArray(origin)
    then if json(TrimSpace(origin)).Some? then json(TrimSpace(origin)).value else []
    else ReadList(origin, '\n')
  }

  /** The submitted lines, trimmed, without blank ones. */
  function TrimmedLines(lines: seq<string>): seq<string> {
    if lines == [] then []
    else
      var last := TrimSpace(lines[|lines| - 1]);
      TrimmedLines(lines[..|lines| - 1]) + if last == "" then [] else [last]
  }

  /** The visible texts of a list of keys. */
  function Normalized(keys: seq<string>): set<string> {
    if keys == [] then {}
    else
      var last := TrimSpace(keys[|keys| - 1]);
      Normalized(keys[..|keys| - 1]) + if last == "" then {} else {last}
  }

  /** The keys to add: trimmed, in order, each once, none already present. */
  function Additions(present: set<string>, keys: seq<string>): seq<string> {
    if keys == [] then []
    else
      var done := Additions(present, keys[..|keys| - 1]);
      var k := TrimSpace(keys[|keys| - 1]);
      if k == "" || k in present || k in done then done else done + [k]
  }

  function Added(origin: string, input: string, json: JsonArray): seq<string> {
    Additions(Normalized(ExistingKeys(origin, json)), TrimmedLines(Split(input, '\n')))
  }

  /** The key text stored by append; a channel without keys just takes the input. */
  function Appended(origin: string, input: string, json: JsonArray): string {
    if origin == "" then input
    else Join(ExistingKeys(origin, json) + Added(origin, input, json), '\n')
  }

  method TrimLines(lines: seq<string>) returns (newKeys: seq<string>)
    ensures newKeys == TrimmedLines(lines)
  {
    newKeys := [];
    for i := 0 to |lines|
      invariant newKeys == TrimmedLines(lines[..i])
    {
      assert lines[..i + 1][..i] == lines[..i];
      var k := TrimSpace(lines[i]);
      if k != "" { newKeys := newKeys + [k]; }
    }
    assert lines[..|lines|] == lines;
  }

  method MarkSeen(keys: seq<string>) returns (seen: set<string>)
    ensures seen == Normalized(keys)
  {
    seen := {};
    for i := 0 to |keys|
      invariant seen == Normalized(keys[..i])
    {
      assert keys[..i + 1][..i] == keys[..i];
      var normalized := TrimSpace(keys[i]);
      if normalized == "" { continue; }
      seen := seen + {normalized};
    }
    assert keys[..|keys|] == keys;
  }

  method Dedupe(present: set<string>, newKeys: seq<string>) returns (deduped: seq<string>)
    ensures deduped == Additions(present, newKeys)
  {
    deduped := [];
    var seen := present;
    for i := 0 to |newKeys|
      invariant deduped == Additions(present, newKeys[..i])
      invariant forall k :: k in seen <==> k in present || k in deduped
    {
      assert newKeys[..i + 1][..i] == newKeys[..i];
      var normalized := TrimSpace(newKeys[i]);
      if normalized == "" { continue; }
      if normalized in seen { continue; }
      seen := seen + {normalized};
      deduped := deduped + [normalized];
    }
    assert newKeys[..|newKeys|] == newKeys;
  }

  method AppendKeys(origin: string, input: string, json: JsonArray) returns (key: string)
    ensures key == Appended(origin, input, json)
  {
    if origin == "" { return input; }
    var existingKeys := ExistingKeys(origin, json);
    var newKeys := TrimLines(Split(input, '\n'));
    var seen := MarkSeen(existingKeys);
    var deduped := Dedupe(seen, newKeys);
    key := Join(existingKeys + deduped, '\n');
  }

  // ---- what is added ----

  ghost predicate Trimmed(k: string) {
    k != "" && TrimSpace(k) == k && Lacks(k, '\n')
  }

  ghost predicate AllTrimmed(keys: seq<string>) {
    forall i :: 0 <= i < |keys| ==> Trimmed(keys[i])
  }

  ghost predicate Distinct(keys: seq<string>) {
    forall i, j :: 0 <= i < j < |keys| ==> keys[i] != keys[j]
  }

  lemma {:induction false} TrimmedLinesAre(lines: seq<string>)
    requires AllLack(lines, '\n')
    ensures AllTrimmed(TrimmedLines(lines))
    ensures forall i :: 0 <= i < |lines| && TrimSpace(lines[i]) != "" ==> TrimSpace(lines[i]) in TrimmedLines(lines)
    decreases |lines|
  {
    if lines != [] {
      var rest, last := lines[..|lines| - 1], lines[|lines| - 1];
      TrimmedLinesAre(rest);
      TrimSpaceTwice(last);
      TrimSpaceLacks(last, '\n');
      assert TrimmedLines(lines) == TrimmedLines(rest) + if TrimSpace(last) == "" then [] else [TrimSpace(last)];
      hide TrimSpace, TrimmedLines, Lacks;
      forall i | 0 <= i < |lines| && TrimSpace(lines[i]) != "" ensures TrimSpace(lines[i]) in TrimmedLines(lines) {
        if i < |rest| { assert rest[i] == lines[i]; }
      }
    }
  }

  lemma {:induction false} AdditionsAre(present: set<string>, keys: seq<string>)
    requires AllTrimmed(keys)
    ensures var f := Additions(present, keys);
            && AllTrimmed(f) && Distinct(f)
            && (forall k :: k in f ==> k !in present)
            && (forall k :: k in keys ==> k in present || k in f)
    decreases |keys|
  {
    hide TrimSpace;
    if keys != [] {
      AdditionsAre(present, keys[..|keys| - 1]);
      assert Trimmed(keys[|keys| - 1]);
      assert forall k :: k in keys ==> k in keys[..|keys| - 1] || k == keys[|keys| - 1];
    }
  }

  /**
    Appending adds only trimmed, non-empty, pairwise distinct keys that were not
    there, and every submitted line is afterwards there.
  */
  lemma AddedKeys(origin: string, input: string, json: JsonArray)
    ensures var f, present := Added(origin, input, json), Normalized(ExistingKeys(origin, json));
            && AllTrimmed(f) && Distinct(f)
            && (forall k :: k in f ==> k !in present)
            && (forall i :: 0 <= i < |Split(input, '\n')| && TrimSpace(Split(input, '\n')[i]) != "" ==>
                  TrimSpace(Split(input, '\n')[i]) in present || TrimSpace(Split(input, '\n')[i]) in f)
  {
    hide TrimSpace;
    TrimmedLinesAre(Split(input, '\n'));
    AdditionsAre(Normalized(ExistingKeys(origin, json)), TrimmedLines(Split(input, '\n')));
  }

  /** Each of `keys` is the trimmed line at its place. */
  ghost predicate Places(keys: seq<string>, lines: seq<string>, at: seq<nat>) {
    |at| == |keys| && Increasing(at, |lines|) && forall i :: 0 <= i < |at| ==> TrimSpace(lines[at[i]]) == keys[i]
  }

  lemma PlacesGrow(keys: seq<string>, lines: seq<string>, at: seq<nat>)
    requires lines != [] && Places(keys, lines[..|lines| - 1], at)
    ensures Places(keys, lines, at) && Places(keys + [TrimSpace(lines[|lines| - 1])], lines, at + [|lines| - 1])
  {
    hide TrimSpace;
  }

  lemma {:induction false} TrimmedPlaces(lines: seq<string>) returns (at: seq<nat>)
    ensures Places(TrimmedLines(lines), lines, at)
    decreases |lines|
  {
    hide TrimSpace;
    if lines == [] {
      at := [];
    } else {
      at := TrimmedPlaces(lines[..|lines| - 1]);
      PlacesGrow(TrimmedLines(lines[..|lines| - 1]), lines, at);
      hide Places;
      if TrimSpace(lines[|lines| - 1]) != "" { at := at + [|lines| - 1]; }
    }
  }

  lemma {:induction false} AdditionPlaces(present: set<string>, keys: seq<string>) returns (at: seq<nat>)
    ensures Places(Additions(present, keys), keys, at)
    decreases |keys|
  {
    hide TrimSpace;
    if keys == [] {
      at := [];
    } else {
      var rest := keys[..|keys| - 1];
      at := AdditionPlaces(present, rest);
      PlacesGrow(Additions(present, rest), keys, at);
      hide Places;
      if Additions(present, keys) != Additions(present, rest) { at := at + [|keys| - 1]; }
    }
  }

  lemma PlacesCompose(keys: seq<string>, mid: seq<string>, lines: seq<string>, inMid: seq<nat>, inLines: seq<nat>) returns (at: seq<nat>)
    requires Places(keys, mid, inMid) && Places(mid, lines, inLines) && AllTrimmed(mid)
    ensures Places(keys, lines, at)
  {
    hide TrimSpace;
    at := seq(|inMid|, i requires 0 <= i < |inMid| => inLines[inMid[i]]);
    forall i | 0 <= i < |at| ensures TrimSpace(lines[at[i]]) == keys[i] {
      assert Trimmed(mid[inMid[i]]);
    }
  }

  /** The added keys are submitted lines, in the order they were submitted. */
  lemma AddedInOrder(origin: string, input: string, json: JsonArray) returns (at: seq<nat>)
    ensures Places(Added(origin, input, json), Split(input, '\n'), at)
  {
    var lines := Split(input, '\n');
    var trimmed, present := TrimmedLines(lines), Normalized(ExistingKeys(origin, json));
    TrimmedLinesAre(lines);
    assert Added(origin, input, json) == Additions(present, trimmed);
    hide *;
    var inLines := TrimmedPlaces(lines);
    var inTrimmed := AdditionPlaces(present, trimmed);
    at := PlacesCompose(Additions(present, trimmed), trimmed, lines, inTrimmed, inLines);
  }

  // ---- the stored list ----

  /** Visible text that does not start like an array. */
  predicate PlainList(key: string) {
    TrimSpace(key) != "" && !LooksLikeArray(key)
  }

  lemma PlainIsNotEmpty(key: string)
    requires PlainList(key)
    ensures key != ""
  {
  }

  lemma {:induction false} TrimNonEmpty(s: string)
    requires TrimSpace(s) != ""
    ensures Trim(s, '\n') != ""
  {
    TrimKeepsFirstVisible(s, '\n');
  }

  lemma AppendedEnds(origin: string, f: seq<string>)
    requires PlainList(origin) && AllTrimmed(f)
    ensures var all := ReadList(origin, '\n') + f; AllLack(all, '\n') && all[0] != "" && all[|all| - 1] != ""
  {
    TrimNonEmpty(origin);
    ReadListEnds(origin, '\n');
    if f != [] { assert Trimmed(f[|f| - 1]); }
    forall i | 0 <= i < |f| ensures Lacks(f[i], '\n') { assert Trimmed(f[i]); }
  }

  lemma AppendedStaysPlain(origin: string, f: seq<string>)
    requires PlainList(origin)
    ensures PlainList(Join(ReadList(origin, '\n') + f, '\n'))
  {
    hide TrimSpace;
    var e, t := ReadList(origin, '\n'), Trim(origin, '\n');
    TrimKeepsFirstVisible(origin, '\n');
    JoinSplit(t, '\n');
    if f == [] {
      assert e + f == e;
    } else {
      JoinAppend(e, f, '\n');
      assert t + ['\n'] + Join(f, '\n') == t + (['\n'] + Join(f, '\n'));
      TrimSpaceAppend(t, ['\n'] + Join(f, '\n'));
    }
  }

  /**
    For a line-separated list the stored keys afterwards are the old keys, in
    place and unchanged, followed by the added ones.
  */
  lemma AppendKeepsPrefix(origin: string, input: string, json: JsonArray)
    requires PlainList(origin)
    ensures GetKeys(Appended(origin, input, json), json) == GetKeys(origin, json) + Added(origin, input, json)
    ensures PlainList(Appended(origin, input, json)) && origin != ""
  {
    hide TrimSpace, Join, Added, Split, Trim, Normalized;
    AddedKeys(origin, input, json);
    var f := Added(origin, input, json);
    AppendedEnds(origin, f);
    ReadBack(ReadList(origin, '\n') + f, '\n');
    AppendedStaysPlain(origin, f);
    PlainIsNotEmpty(origin);
    PlainIsNotEmpty(Join(ReadList(origin, '\n') + f, '\n'));
  }

  // ---- exactly when the old keys stay ----

  /** Keys that stay in front when `add` follows them: none holds a newline, the first is not empty, nor is the last if nothing follows. */
  ghost predicate StayInFront(keys: seq<string>, add: seq<string>) {
    keys != [] ==> AllLack(keys, '\n') && keys[0] != "" && (add == [] ==> keys[|keys| - 1] != "")
  }

  lemma AddedEnds(add: seq<string>)
    requires AllTrimmed(add)
    ensures AllLack(add, '\n') && (add != [] ==> add[0] != "" && add[|add| - 1] != "")
  {
    forall i | 0 <= i < |add| ensures Lacks(add[i], '\n') { assert Trimmed(add[i]); }
    if add != [] { assert Trimmed(add[0]) && Trimmed(add[|add| - 1]); }
  }

  lemma OldThenNew(keys: seq<string>, add: seq<string>)
    requires AllTrimmed(add) && keys + add != [] && StayInFront(keys, add)
    ensures ReadList(Join(keys + add, '\n'), '\n') == keys + add
  {
    hide Join, ReadList, Trimmed;
    AddedEnds(add);
    ReadBack(keys + add, '\n');
  }

  lemma AllAreEmpty(keys: seq<string>, add: seq<string>, text: string)
    requires keys != [] && AllLack(keys, '\n') && AllTrimmed(add) && text == Join(keys + add, '\n') != "" && Trim(text, '\n') == ""
    ensures |keys| > 1 && ReadList(text, '\n') == [""]
  {
    AddedEnds(add);
    var all := keys + add;
    var last := all[|all| - 1];
    SmallJoins(all);
    hide Trim, Trimmed;
    if last != "" {
      JoinLast(all, '\n');
      assert last[|last| - 1] in last;
      assert last[|last| - 1] != '\n' by { if add == [] { assert Lacks(keys[|keys| - 1], '\n'); } else { assert Lacks(add[|add| - 1], '\n'); } }
      TrimKeepsSomething(text, '\n');
    }
  }

  /** Old keys are still in front of what lines read as, if and only if they are such keys. */
  lemma FrontOfLines(keys: seq<string>, add: seq<string>)
    requires keys != [] && AllTrimmed(add) && Join(keys + add, '\n') != ""
    ensures keys <= ReadList(Join(keys + add, '\n'), '\n') <==> StayInFront(keys, add)
  {
    var all, text := keys + add, Join(keys + add, '\n');
    var back := ReadList(text, '\n');
    AddedEnds(add);
    if StayInFront(keys, add) {
      OldThenNew(keys, add);
    } else if keys <= back {
      forall i | 0 <= i < |keys| ensures Lacks(keys[i], '\n') { assert keys[i] == back[i]; }
      if Trim(text, '\n') == "" {
        AllAreEmpty(keys, add, text);
      } else {
        ReadListEnds(text, '\n');
      }
      hide Join, ReadList, Trim;
      ReadBack(all, '\n');
    }
  }

  predicate IsBroken(origin: string, json: JsonArray) {
    LooksLikeArray(origin) && json(TrimSpace(origin)).None?
  }

  /**
    When an append keeps the old keys: nothing is stored; or the new text opens
    an array, and that array starts with them; or the old text opened an array
    that it is not, and the input repeats them; or they are keys that stay in
    front.
  */
  ghost predicate AppendKeeps(origin: string, input: string, json: JsonArray) {
    var keys, add, text := GetKeys(origin, json), Added(origin, input, json), Appended(origin, input, json);
    if text == "" then true
    else if IsArray(text, json) then keys <= json(TrimSpace(text)).value
    else if IsBroken(origin, json) then keys <= add
    else StayInFront(keys, add)
  }

  /** The stored text: an empty one is not written. */
  function StoredKey(origin: string, input: string, json: JsonArray): string {
    if Appended(origin, input, json) == "" then origin else Appended(origin, input, json)
  }

  lemma KeysBefore(origin: string, json: JsonArray)
    requires origin != ""
    ensures IsBroken(origin, json) ==> ExistingKeys(origin, json) == []
    ensures !IsBroken(origin, json) ==> ExistingKeys(origin, json) == GetKeys(origin, json)
  {
  }

  /** For every stored list, of lines or an array, whole or broken, and every input: the old keys stay in front exactly then. */
  lemma AppendKeepsKeysExactly(origin: string, input: string, json: JsonArray)
    ensures GetKeys(origin, json) <= GetKeys(StoredKey(origin, input, json), json) <==> AppendKeeps(origin, input, json)
  {
    var keys, add, text := GetKeys(origin, json), Added(origin, input, json), Appended(origin, input, json);
    AddedKeys(origin, input, json);
    if origin != "" && text != "" && !IsArray(text, json) {
      KeysBefore(origin, json);
      assert GetKeys(text, json) == ReadList(text, '\n');
      hide Added, ReadList, TrimSpace, ExistingKeys, GetKeys;
      if IsBroken(origin, json) {
        assert [] + add == add;
        SmallJoins(add);
        OldThenNew([], add);
      } else if keys != [] {
        hide Join;
        FrontOfLines(keys, add);
      }
    } else if text != "" && !IsArray(text, json) {
      assert keys == [] && !IsBroken(origin, json);
    }
  }

  /** When the keys afterwards are exactly the old ones and then the added ones. */
  ghost predicate AppendsExactly(origin: string, input: string, json: JsonArray) {
    var keys, add, text := GetKeys(origin, json), Added(origin, input, json), Appended(origin, input, json);
    if text == "" then true
    else if IsArray(text, json) then json(TrimSpace(text)).value == keys + add
    else !IsBroken(origin, json) && StayInFront(keys, add)
  }

  lemma NothingStored(origin: string, input: string, json: JsonArray)
    requires origin != "" && Appended(origin, input, json) == ""
    ensures Added(origin, input, json) == [] && (ExistingKeys(origin, json) == [] || ExistingKeys(origin, json) == [""])
  {
    var keys, add := ExistingKeys(origin, json), Added(origin, input, json);
    AddedKeys(origin, input, json);
    hide AllTrimmed, Added, ExistingKeys, Join;
    AddedEnds(add);
    assert add != [] ==> (keys + add)[|keys + add| - 1] == add[|add| - 1];
    assert add == [] ==> keys + add == keys;
    JoinedIsEmpty(keys + add);
  }

  /** Lines read as the keys and then the added ones if and only if the keys stay in front. */
  lemma LinesReadAs(keys: seq<string>, add: seq<string>)
    requires AllTrimmed(add) && Join(keys + add, '\n') != ""
    ensures ReadList(Join(keys + add, '\n'), '\n') == keys + add <==> StayInFront(keys, add)
  {
    SmallJoins(keys + add);
    hide Join, ReadList, AllTrimmed;
    if StayInFront(keys, add) {
      OldThenNew(keys, add);
    } else {
      FrontOfLines(keys, add);
      assert keys <= keys + add;
    }
  }

  /** For every stored list and every input: exactly then. */
  lemma AppendGivesOldThenNew(origin: string, input: string, json: JsonArray)
    requires origin != ""
    ensures GetKeys(StoredKey(origin, input, json), json) == GetKeys(origin, json) + Added(origin, input, json)
            <==> AppendsExactly(origin, input, json)
  {
    var keys, add, text := GetKeys(origin, json), Added(origin, input, json), Appended(origin, input, json);
    AddedKeys(origin, input, json);
    if text == "" {
      NothingStored(origin, input, json);
      assert keys + [] == keys;
    } else if !IsArray(text, json) {
      KeysBefore(origin, json);
      assert GetKeys(text, json) == ReadList(text, '\n');
      assert IsBroken(origin, json) ==> keys != [];
      hide Added, ReadList, TrimSpace, ExistingKeys, GetKeys, Join, AllTrimmed, StayInFront;
      if IsBroken(origin, json) {
        assert [] + add == add;
        BrokenReads(add, text);
      } else {
        LinesReadAs(keys, add);
      }
    }
  }

  lemma BrokenReads(add: seq<string>, text: string)
    requires AllTrimmed(add) && text == Join(add, '\n') != ""
    ensures ReadList(text, '\n') == add
  {
    SmallJoins(add);
    assert [] + add == add;
    OldThenNew([], add);
  }

  /** A list whose text opens an array that it is not, is replaced by the added keys: any other key it had is gone. */
  lemma BrokenArrayIsLost(row: Row, input: string, json: JsonArray, lost: string)
    requires IsBroken(row.key, json) && lost in GetKeys(row.key, json) && lost !in Added(row.key, input, json)
    requires Added(row.key, input, json) != [] && !IsArray(Appended(row.key, input, json), json)
    ensures var keys := GetKeys(Save(row, row.(key := Appended(row.key, input, json)), json).key, json);
            keys == Added(row.key, input, json) && lost !in keys
  {
    var add, text := Added(row.key, input, json), Appended(row.key, input, json);
    AddedKeys(row.key, input, json);
    assert TrimSpace("") == "";
    hide TrimSpace, Added, Split, Normalized;
    assert [] + add == add;
    AddedEnds(add);
    JoinLast(add, '\n');
    OldThenNew([], add);
  }

  /** The old entries of the view stay, with their marks, exactly when the old keys do, and then the row stays in order and new keys are enabled. */
  lemma AppendKeepsViewExactly(row: Row, input: string, json: JsonArray)
    requires RowOk(row, json)
    ensures var row' := Save(row, row.(key := Appended(row.key, input, json)), json);
            && (View(row, json) <= View(row', json) <==> AppendKeeps(row.key, input, json))
            && (AppendKeeps(row.key, input, json) ==>
                  && RowOk(row', json)
                  && forall i :: |View(row, json)| <= i < |View(row', json)| ==> View(row', json)[i].status == ENABLED)
  {
    var row' := Save(row, row.(key := Appended(row.key, input, json)), json);
    AppendKeepsKeysExactly(row.key, input, json);
    CountIsLength(row'.key, json);
    NoKeysInEmptyArray(row'.key, json);
    hide TrimSpace, Appended, AppendKeeps, GetKeys, EmptyArray, CountKeys;
    assert row'.key == StoredKey(row.key, input, json);
    var keys, keys' := GetKeys(row.key, json), GetKeys(row'.key, json);
    if keys <= keys' {
      assert row'.status == row.status;
      forall i | 0 <= i < |keys| ensures View(row', json)[i] == View(row, json)[i] { }
    } else if View(row, json) <= View(row', json) {
      forall i | 0 <= i < |keys| ensures keys[i] == keys'[i] {
        assert View(row', json)[i] == View(row, json)[i];
        assert View(row', json)[i].key == keys'[i] && View(row, json)[i].key == keys[i];
      }
    }
  }

  lemma SameKeysFromView(row: Row, row': Row, add: seq<string>, json: JsonArray)
    requires View(row', json) == View(row, json) + ViewOf(add, map[], map[], map[])
    ensures GetKeys(row'.key, json) == GetKeys(row.key, json) + add
  {
    hide GetKeys;
    var keys, keys' := GetKeys(row.key, json), GetKeys(row'.key, json);
    forall i | 0 <= i < |keys'| ensures keys'[i] == (keys + add)[i] {
      var v := View(row, json) + ViewOf(add, map[], map[], map[]);
      assert View(row', json)[i].key == keys'[i] && v[i].key == (keys + add)[i];
    }
  }

  lemma ViewGrows(row: Row, row': Row, add: seq<string>, json: JsonArray)
    requires RowOk(row, json) && GetKeys(row'.key, json) == GetKeys(row.key, json) + add
    requires row'.status == row.status && row'.time == row.time && row'.reason == row.reason
    ensures View(row', json) == View(row, json) + ViewOf(add, map[], map[], map[])
  {
    hide GetKeys;
    var v := View(row, json) + ViewOf(add, map[], map[], map[]);
    forall i | 0 <= i < |v| ensures View(row', json)[i] == v[i] { }
  }

  /** For every row in order the view afterwards is the old one and then the added keys, enabled, exactly when the keys are so. */
  lemma AppendedViewExactly(row: Row, input: string, json: JsonArray)
    requires RowOk(row, json)
    ensures var row' := Save(row, row.(key := Appended(row.key, input, json)), json);
            View(row', json) == View(row, json) + ViewOf(Added(row.key, input, json), map[], map[], map[])
            <==> AppendsExactly(row.key, input, json)
  {
    var row', add := Save(row, row.(key := Appended(row.key, input, json)), json), Added(row.key, input, json);
    AppendGivesOldThenNew(row.key, input, json);
    CountIsLength(row'.key, json);
    NoKeysInEmptyArray(row'.key, json);
    assert row'.key == StoredKey(row.key, input, json);
    hide TrimSpace, Appended, AppendsExactly, GetKeys, EmptyArray, CountKeys, Added, ViewAt, ViewOf, View, StoredKey;
    if GetKeys(row'.key, json) == GetKeys(row.key, json) + add {
      assert row'.status == row.status;
      ViewGrows(row, row', add, json);
    } else if View(row', json) == View(row, json) + ViewOf(add, map[], map[], map[]) {
      SameKeysFromView(row, row', add, json);
    }
  }

  // ---- appending the same input again ----

  lemma {:induction false} NormalizedHas(keys: seq<string>, i: nat)
    requires i < |keys| && TrimSpace(keys[i]) != ""
    ensures TrimSpace(keys[i]) in Normalized(keys)
    decreases |keys|
  {
    hide TrimSpace;
    if i < |keys| - 1 { NormalizedHas(keys[..|keys| - 1], i); }
  }

  lemma {:induction false} NormalizedFrom(keys: seq<string>, k: string) returns (i: nat)
    requires k in Normalized(keys)
    ensures i < |keys| && TrimSpace(keys[i]) == k != ""
    decreases |keys|
  {
    hide TrimSpace;
    if k in Normalized(keys[..|keys| - 1]) { i := NormalizedFrom(keys[..|keys| - 1], k); } else { i := |keys| - 1; }
  }

  lemma {:induction false} NothingToAdd(present: set<string>, keys: seq<string>)
    requires AllTrimmed(keys) && forall k :: k in keys ==> k in present
    ensures Additions(present, keys) == []
    decreases |keys|
  {
    hide TrimSpace, Lacks;
    if keys != [] {
      NothingToAdd(present, keys[..|keys| - 1]);
      assert Trimmed(keys[|keys| - 1]) && keys[|keys| - 1] in keys;
    }
  }

  lemma {:induction false} LinesHave(parts: seq<string>, i: nat, p: string)
    requires i < |parts| && p in Split(parts[i], '\n')
    ensures p in Lines(parts, '\n')
    decreases i
  {
    if i > 0 { LinesHave(parts[1..], i - 1, p); }
  }

  lemma BareKeeps(l: seq<string>, p: string)
    requires p in l && p != ""
    ensures p in Bare(l)
  {
    var i :| 0 <= i < |l| && l[i] == p;
    var f := Front(l);
    var r := l[f..];
    assert i >= f && r[i - f] == p;
    assert i - f < |r| - Back(r);
    assert Bare(l)[i - f] == p;
  }

  /** A visible key, or a visible piece of one, is among the keys read from the stored text. */
  lemma ReadsPiece(parts: seq<string>, i: nat, k: string)
    requires i < |parts| && TrimSpace(parts[i]) == k != "" && Lacks(k, '\n')
    ensures k in Normalized(ReadList(Join(parts, '\n'), '\n'))
  {
    var j := VisiblePiece(parts[i], '\n');
    var p := Split(parts[i], '\n')[j];
    assert TrimSpace("") == "";
    ReadJoined(parts, '\n');
    hide TrimSpace, Split, ReadList, Join;
    LinesHave(parts, i, p);
    BareKeeps(Lines(parts, '\n'), p);
    var read := ReadList(Join(parts, '\n'), '\n');
    var n :| 0 <= n < |read| && read[n] == p;
    NormalizedHas(read, n);
  }

  /** A visible piece of a joined list makes it a list that is stored. */
  lemma PieceIsStored(parts: seq<string>, i: nat, k: string)
    requires i < |parts| && TrimSpace(parts[i]) == k != "" && Lacks(k, '\n')
    ensures Join(parts, '\n') != "" && k in Normalized(ReadList(Join(parts, '\n'), '\n'))
  {
    assert TrimSpace("") == "";
    hide TrimSpace, Join, Normalized, ReadList;
    JoinedIsEmpty(parts);
    ReadsPiece(parts, i, k);
  }

  lemma AppendedText(origin: string, input: string, json: JsonArray)
    requires origin != ""
    ensures Appended(origin, input, json) == Join(ExistingKeys(origin, json) + Added(origin, input, json), '\n')
  {
  }

  lemma AppendedIsThere(origin: string, input: string, json: JsonArray, k: string)
    requires origin != "" && Lacks(k, '\n') && k != ""
    requires k in Normalized(ExistingKeys(origin, json)) || (k in Added(origin, input, json) && TrimSpace(k) == k)
    ensures Appended(origin, input, json) != "" && k in Normalized(ReadList(Appended(origin, input, json), '\n'))
  {
    hide *;
    var keys, add := ExistingKeys(origin, json), Added(origin, input, json);
    AppendedText(origin, input, json);
    if k in Normalized(keys) {
      var j := NormalizedFrom(keys, k);
      assert (keys + add)[j] == keys[j];
      PieceIsStored(keys + add, j, k);
    } else {
      var j :| 0 <= j < |add| && add[j] == k;
      assert (keys + add)[|keys| + j] == k;
      PieceIsStored(keys + add, |keys| + j, k);
    }
  }

  /** Every visible line of the input is among the keys read from the text that was stored. */
  lemma InputIsThere(origin: string, input: string, json: JsonArray, k: string)
    requires k in TrimmedLines(Split(input, '\n')) && StoredKey(origin, input, json) != ""
    ensures k in Normalized(ReadList(StoredKey(origin, input, json), '\n'))
  {
    var lines := Split(input, '\n');
    TrimmedLinesAre(lines);
    var i := TrimmedLineFrom(lines, k);
    var n :| 0 <= n < |TrimmedLines(lines)| && TrimmedLines(lines)[n] == k;
    assert Trimmed(TrimmedLines(lines)[n]);
    AddedKeys(origin, input, json);
    JoinSplit(input, '\n');
    hide TrimSpace, Split, ReadList, Join, Normalized, Added, ExistingKeys, TrimmedLines;
    if origin == "" { ReadsPiece(lines, i, k); } else { AppendedIsThere(origin, input, json, k); }
  }

  lemma {:induction false} TrimmedLineFrom(lines: seq<string>, k: string) returns (i: nat)
    requires k in TrimmedLines(lines)
    ensures i < |lines| && TrimSpace(lines[i]) == k != ""
    decreases |lines|
  {
    hide TrimSpace;
    if k in TrimmedLines(lines[..|lines| - 1]) { i := TrimmedLineFrom(lines[..|lines| - 1], k); } else { i := |lines| - 1; }
  }

  lemma SecondAppend(origin: string, input: string, json: JsonArray)
    requires StoredKey(origin, input, json) != "" && !LooksLikeArray(StoredKey(origin, input, json))
    ensures Appended(StoredKey(origin, input, json), input, json) == Trim(StoredKey(origin, input, json), '\n')
  {
    var t, lines := StoredKey(origin, input, json), TrimmedLines(Split(input, '\n'));
    TrimmedLinesAre(Split(input, '\n'));
    JoinSplit(Trim(t, '\n'), '\n');
    hide TrimSpace, Join, Additions, Normalized, TrimmedLines, LooksLikeArray, StoredKey, AllTrimmed, Split, Trim;
    forall k | k in lines ensures k in Normalized(ReadList(t, '\n')) { InputIsThere(origin, input, json, k); }
    NothingToAdd(Normalized(ReadList(t, '\n')), lines);
    assert ExistingKeys(t, json) == ReadList(t, '\n') && Added(t, input, json) == [];
    assert ReadList(t, '\n') + [] == ReadList(t, '\n');
  }

  lemma TrimmedReadsTheSame(t: string, json: JsonArray)
    requires !LooksLikeArray(t) && Trim(t, '\n') != ""
    ensures GetKeys(Trim(t, '\n'), json) == GetKeys(t, json)
  {
    TrimTwice(t, '\n');
    assert Trim("", '\n') == "";
    if TrimSpace(t) != "" {
      TrimKeepsFirstVisible(t, '\n');
    } else {
      BlankStaysBlank(t);
    }
    hide TrimSpace, Trim, Split;
  }

  lemma BlankStaysBlank(t: string)
    requires TrimSpace(t) == ""
    ensures TrimSpace(Trim(t, '\n')) == ""
  {
    VisibleIsDropped(t);
    DropSpaceTrimLeft(t, '\n');
    var l := TrimLeft(t, '\n');
    BlankFromTheRight(l);
    TrimRightEnds(l, '\n');
    BlankPrefix(l, TrimRight(l, '\n'));
    VisibleIsDropped(Trim(t, '\n'));
  }

  /**
    Appending the same input a second time, for every list and input whose
    stored text opens no array: the keys read stay the same, and the text stays
    the same if and only if it has no newlines at its ends or consists of them.
  */
  lemma AppendIsIdempotent(origin: string, input: string, json: JsonArray)
    requires !LooksLikeArray(StoredKey(origin, input, json))
    ensures var once := StoredKey(origin, input, json);
            var twice := StoredKey(once, input, json);
            && GetKeys(twice, json) == GetKeys(once, json)
            && (twice == once <==> Trim(once, '\n') == once || Trim(once, '\n') == "")
  {
    var once := StoredKey(origin, input, json);
    if once != "" {
      SecondAppend(origin, input, json);
      hide LooksLikeArray, Trim, GetKeys, Appended;
      if Trim(once, '\n') != "" { TrimmedReadsTheSame(once, json); }
    }
  }

  /** Lists of lines with visible text that does not open an array get exactly the added keys, and then stay. */
  lemma PlainListsAppend(origin: string, input: string, json: JsonArray)
    requires PlainList(origin)
    ensures AppendsExactly(origin, input, json)
    ensures StoredKey(StoredKey(origin, input, json), input, json) == StoredKey(origin, input, json)
  {
    AppendKeepsPrefix(origin, input, json);
    var once := Appended(origin, input, json);
    var keys := ReadList(origin, '\n') + Added(origin, input, json);
    PlainIsNotEmpty(once);
    assert once == Join(keys, '\n') && ReadList(once, '\n') == keys;
    JoinSplit(Trim(once, '\n'), '\n');
    AppendGivesOldThenNew(origin, input, json);
    hide AppendsExactly, Trim, Join, Appended, Added, TrimSpace, GetKeys, Split;
    AppendIsIdempotent(origin, input, json);
  }
}
