/**
  Multi-key channels: a list of API keys stored as one string, and three sparse
  maps from key index to status, disabled time and disabled reason. Deleting
  keys rebuilds the list and re-indexes the maps; saving re-derives the size
  from the stored string and keeps the stored string when the new one is empty.
*/
module MultiKey {
  import opened Common
  import opened Text

  /** Decoding a JSON array into the raw text of its elements. */
  type JsonArray = string -> Option<seq<string>>

  const ENABLED := 1
  const MANUALLY_DISABLED := 2
  const AUTO_DISABLED := 3

  /** The persisted part of a channel. Absent and empty maps behave alike. */
  datatype Row = Row(key: string, size: int, status: map<int, int>, time: map<int, int>, reason: map<int, string>)

  predicate LooksLikeArray(key: string) {
    var t := TrimSpace(key);
    t != "" && t[0] == '['
  }

  function GetKeys(key: string, json: JsonArray): seq<string> {
    if key == "" then []
    else if LooksLikeArray(key) && json(TrimSpace(key)).Some? then json(TrimSpace(key)).value
    else ReadList(key, '\n')
  }

  /** The key count taken when a channel is saved; an empty array falls back to lines. */
  function CountKeys(key: string, json: JsonArray): nat {
    if key == "" then 0
    else if LooksLikeArray(key) && json(TrimSpace(key)).Some? && json(TrimSpace(key)).value != []
    then |json(TrimSpace(key)).value|
    else |ReadList(key, '\n')|
  }

  /** Saving: an empty key string leaves the stored one, and only statuses are cut to the new size. */
  function Save(stored: Row, wanted: Row, json: JsonArray): Row {
    var key := if wanted.key != "" then wanted.key else stored.key;
    var n := CountKeys(key, json);
    Row(key, n, map i | i in wanted.status && i < n :: wanted.status[i], wanted.time, wanted.reason)
  }

  // ---- what get_key_status shows ----

  datatype KeyView = KeyView(key: string, status: int, disabledTime: int, reason: string)

  function StatusAt(status: map<int, int>, i: int): int {
    if i in status then status[i] else ENABLED
  }

  function ViewAt(key: string, i: int, status: map<int, int>, time: map<int, int>, reason: map<int, string>): KeyView {
    var s := StatusAt(status, i);
    if s == ENABLED then KeyView(key, s, 0, "")
    else KeyView(key, s, if i in time then time[i] else 0, if i in reason then reason[i] else "")
  }

  function ViewOf(keys: seq<string>, status: map<int, int>, time: map<int, int>, reason: map<int, string>): (v: seq<KeyView>)
    ensures |v| == |keys|
  {
    seq(|keys|, i requires 0 <= i < |keys| => ViewAt(keys[i], i, status, time, reason))
  }

  function View(row: Row, json: JsonArray): seq<KeyView> {
    ViewOf(GetKeys(row.key, json), row.status, row.time, row.reason)
  }

  function CountStatus(v: seq<KeyView>, status: int): nat {
    if v == [] then 0 else CountStatus(v[..|v| - 1], status) + if v[|v| - 1].status == status then 1 else 0
  }

  // ---- deleting keys ----

  /** The list and maps under construction. */
  datatype Draft = Draft(keys: seq<string>, status: map<int, int>, time: map<int, int>, reason: map<int, string>)

  const NO_KEYS := Draft([], map[], map[], map[])

  /** Keep key `i` as the next one. Times and reasons of enabled keys are kept only if `all`. */
  function Keep(d: Draft, key: string, i: int, row: Row, all: bool): Draft {
    var j := |d.keys|;
    var carry := all || StatusAt(row.status, i) != ENABLED;
    Draft(d.keys + [key],
          if StatusAt(row.status, i) != ENABLED then d.status[j := row.status[i]] else d.status,
          if carry && i in row.time then d.time[j := row.time[i]] else d.time,
          if carry && i in row.reason then d.reason[j := row.reason[i]] else d.reason)
  }

  /** The draft after the first `n` keys, leaving out the indices in `drop`. */
  function Rebuilt(row: Row, keys: seq<string>, drop: int -> bool, all: bool, n: nat): Draft
    requires n <= |keys|
  {
    if n == 0 then NO_KEYS
    else
      var d := Rebuilt(row, keys, drop, all, n - 1);
      if drop(n - 1) then d else Keep(d, keys[n - 1], n - 1, row, all)
  }

  function IsIndex(k: int): int -> bool {
    i => i == k
  }

  function IsAutoDisabled(status: map<int, int>): int -> bool {
    i => StatusAt(status, i) == AUTO_DISABLED
  }

  function WithoutKey(row: Row, k: int, json: JsonArray): Draft {
    Rebuilt(row, GetKeys(row.key, json), IsIndex(k), true, |GetKeys(row.key, json)|)
  }

  function WithoutAutoDisabled(row: Row, json: JsonArray): Draft {
    Rebuilt(row, GetKeys(row.key, json), IsAutoDisabled(row.status), false, |GetKeys(row.key, json)|)
  }

  function DraftRow(d: Draft): Row {
    Row(Join(d.keys, '\n'), |d.keys|, d.status, d.time, d.reason)
  }

  datatype Action =
    | DisableKey(index: Option<int>)
    | EnableKey(index: Option<int>)
    | EnableAllKeys
    | DisableAllKeys
    | DeleteKey(index: Option<int>)
    | DeleteDisabledKeys

  predicate GoodIndex(row: Row, index: Option<int>) {
    index.Some? && 0 <= index.value < row.size
  }

  function DisableAll(status: map<int, int>, n: nat): map<int, int> {
    if n == 0 then status
    else
      var m := DisableAll(status, n - 1);
      if StatusAt(status, n - 1) == ENABLED then m[n - 1 := MANUALLY_DISABLED] else m
  }

  predicate NoneEnabled(status: map<int, int>, n: int) {
    forall i :: 0 <= i < n ==> StatusAt(status, i) != ENABLED
  }

  /** The row an action wants saved, or None if it is refused. */
  function Wanted(row: Row, a: Action, json: JsonArray): Option<Row> {
    match a
    case DisableKey(index) =>
      if GoodIndex(row, index) then Some(row.(status := row.status[index.value := MANUALLY_DISABLED])) else None
    case EnableKey(index) =>
      if GoodIndex(row, index)
      then Some(row.(status := row.status - {index.value}, time := row.time - {index.value}, reason := row.reason - {index.value}))
      else None
    case EnableAllKeys => Some(row.(status := map[], time := map[], reason := map[]))
    case DisableAllKeys =>
      if row.size <= 0 || NoneEnabled(row.status, row.size) then None
      else Some(row.(status := DisableAll(row.status, row.size)))
    case DeleteKey(index) =>
      if !GoodIndex(row, index) then None
      else
        var d := WithoutKey(row, index.value, json);
        if d.keys == [] then None else Some(DraftRow(d))
    case DeleteDisabledKeys =>
      var d := WithoutAutoDisabled(row, json);
      if |d.keys| == |GetKeys(row.key, json)| then None else Some(DraftRow(d))
  }

  /** The stored row after an action whose database write works or fails. */
  function Perform(row: Row, a: Action, json: JsonArray, writeOk: bool): Row {
    var wanted := Wanted(row, a, json);
    if wanted.Some? && writeOk then Save(row, wanted.value, json) else row
  }

  function PerformAll(row: Row, actions: seq<(Action, bool)>, json: JsonArray): Row {
    if actions == [] then row
    else Perform(PerformAll(row, actions[..|actions| - 1], json), actions[|actions| - 1].0, json, actions[|actions| - 1].1)
  }

  // ---- the request handler ----

  method ListKeys(keys: seq<string>, statusList: map<int, int>, time: map<int, int>, reasons: map<int, string>)
    returns (list: seq<KeyView>, enabled: nat, manual: nat, auto: nat)
    ensures list == ViewOf(keys, statusList, time, reasons)
    ensures enabled == CountStatus(list, 1) && manual == CountStatus(list, 2)
            && auto == CountStatus(list, 3)
  {
    list, enabled, manual, auto := [], 0, 0, 0;
    for i := 0 to |keys|
      invariant |list| == i && forall k :: 0 <= k < i ==> list[k] == ViewAt(keys[k], k, statusList, time, reasons)
      invariant enabled == CountStatus(list, ENABLED)
      invariant manual == CountStatus(list, MANUALLY_DISABLED)
      invariant auto == CountStatus(list, AUTO_DISABLED)
    {
      var status, disabledTime, reason := ENABLED, 0, "";
      if i in statusList { status := statusList[i]; }
      if status == 1 {
        enabled := enabled + 1;
      } else if status == 2 {
        manual := manual + 1;
      } else if status == 3 {
        auto := auto + 1;
      }
      if status != 1 {
        if i in time { disabledTime := time[i]; }
        if i in reasons { reason := reasons[i]; }
      }
      var entry := KeyView(keys[i], status, disabledTime, reason);
      assert (list + [entry])[..i] == list;
      list := list + [entry];
    }
  }

  method DisableEnabled(statusList: map<int, int>, size: int) returns (status: map<int, int>, disabledCount: nat)
    ensures size > 0 ==> status == DisableAll(statusList, size)
    ensures disabledCount == 0 <==> size <= 0 || NoneEnabled(statusList, size)
  {
    status, disabledCount := statusList, 0;
    var i := 0;
    while i < size
      invariant 0 <= i && (i <= size || i == 0)
      invariant status == DisableAll(statusList, i)
      invariant forall k :: k >= i ==> StatusAt(status, k) == StatusAt(statusList, k)
      invariant disabledCount == 0 <==> NoneEnabled(statusList, i)
    {
      if StatusAt(status, i) == ENABLED {
        status := status[i := MANUALLY_DISABLED];
        disabledCount := disabledCount + 1;
      }
      i := i + 1;
    }
  }

  method RebuildWithout(row: Row, keys: seq<string>, keyIndex: int) returns (d: Draft)
    ensures d == Rebuilt(row, keys, IsIndex(keyIndex), true, |keys|)
  {
    var remaining: seq<string>, newStatus: map<int, int>, newTime: map<int, int>, newReason: map<int, string> := [], map[], map[], map[];
    var newIndex := 0;
    for i := 0 to |keys|
      invariant newIndex == |remaining|
      invariant Draft(remaining, newStatus, newTime, newReason) == Rebuilt(row, keys, IsIndex(keyIndex), true, i)
    {
      if i == keyIndex { continue; }
      remaining := remaining + [keys[i]];
      if i in row.status && row.status[i] != 1 { newStatus := newStatus[newIndex := row.status[i]]; }
      if i in row.time { newTime := newTime[newIndex := row.time[i]]; }
      if i in row.reason { newReason := newReason[newIndex := row.reason[i]]; }
      newIndex := newIndex + 1;
    }
    d := Draft(remaining, newStatus, newTime, newReason);
  }

  method RebuildWithoutAutoDisabled(row: Row, keys: seq<string>) returns (d: Draft, deletedCount: nat)
    ensures d == Rebuilt(row, keys, IsAutoDisabled(row.status), false, |keys|)
    ensures deletedCount == |keys| - |d.keys|
  {
    var remaining: seq<string>, newStatus: map<int, int>, newTime: map<int, int>, newReason: map<int, string> := [], map[], map[], map[];
    var newIndex := 0;
    deletedCount := 0;
    for i := 0 to |keys|
      invariant newIndex == |remaining| && deletedCount == i - |remaining|
      invariant Draft(remaining, newStatus, newTime, newReason) == Rebuilt(row, keys, IsAutoDisabled(row.status), false, i)
    {
      var status := ENABLED;
      if i in row.status { status := row.status[i]; }
      if status == 3 {
        deletedCount := deletedCount + 1;
      } else {
        remaining := remaining + [keys[i]];
        if status != 1 {
          newStatus := newStatus[newIndex := status];
          if i in row.time { newTime := newTime[newIndex := row.time[i]]; }
          if i in row.reason { newReason := newReason[newIndex := row.reason[i]]; }
        }
        newIndex := newIndex + 1;
      }
    }
    d := Draft(remaining, newStatus, newTime, newReason);
  }

  class Channel {
    var row: Row
    const json: JsonArray

    constructor (row: Row, json: JsonArray)
      ensures this.row == row && this.json == json
    {
      this.row, this.json := row, json;
    }

    /** channel.Update(): a failing write leaves the stored row. */
    method Update(wanted: Row, writeOk: bool)
      modifies this`row
      ensures row == if writeOk then Save(old(row), wanted, json) else old(row)
    {
      if writeOk { row := Save(row, wanted, json); }
    }

    method GetKeyStatus() returns (list: seq<KeyView>, enabled: nat, manual: nat, auto: nat)
      ensures list == View(row, json)
      ensures enabled == CountStatus(list, 1) && manual == CountStatus(list, 2)
              && auto == CountStatus(list, 3)
    {
      list, enabled, manual, auto := ListKeys(GetKeys(row.key, json), row.status, row.time, row.reason);
    }

    method DisableKey(index: Option<int>, writeOk: bool)
      modifies this`row
      ensures row == Perform(old(row), Action.DisableKey(index), json, writeOk)
    {
      if index.None? || index.value < 0 || index.value >= row.size { return; }
      Update(row.(status := row.status[index.value := MANUALLY_DISABLED]), writeOk);
    }

    method EnableKey(index: Option<int>, writeOk: bool)
      modifies this`row
      ensures row == Perform(old(row), Action.EnableKey(index), json, writeOk)
    {
      if index.None? || index.value < 0 || index.value >= row.size { return; }
      var k := index.value;
      Update(row.(status := row.status - {k}, time := row.time - {k}, reason := row.reason - {k}), writeOk);
    }

    method EnableAllKeys(writeOk: bool)
      modifies this`row
      ensures row == Perform(old(row), Action.EnableAllKeys, json, writeOk)
    {
      Update(row.(status := map[], time := map[], reason := map[]), writeOk);
    }

    method DisableAllKeys(writeOk: bool)
      modifies this`row
      ensures row == Perform(old(row), Action.DisableAllKeys, json, writeOk)
    {
      var status, disabledCount := DisableEnabled(row.status, row.size);
      if disabledCount == 0 { return; }
      Update(row.(status := status), writeOk);
    }

    method DeleteKey(index: Option<int>, writeOk: bool)
      modifies this`row
      ensures row == Perform(old(row), Action.DeleteKey(index), json, writeOk)
    {
      if index.None? || index.value < 0 || index.value >= row.size { return; }
      var d := RebuildWithout(row, GetKeys(row.key, json), index.value);
      if |d.keys| == 0 { return; }
      Update(DraftRow(d), writeOk);
    }

    method DeleteDisabledKeys(writeOk: bool)
      modifies this`row
      ensures row == Perform(old(row), Action.DeleteDisabledKeys, json, writeOk)
    {
      var keys := GetKeys(row.key, json);
      var d, deletedCount := RebuildWithoutAutoDisabled(row, keys);
      assert Wanted(row, Action.DeleteDisabledKeys, json) == if deletedCount == 0 then None else Some(DraftRow(d));
      if deletedCount == 0 { return; }
      Update(DraftRow(d), writeOk);
    }
  }

  // ---- deletion and the view ----

  /** The entries of a view whose index is not dropped. */
  function KeptViews(v: seq<KeyView>, drop: int -> bool, n: nat): seq<KeyView>
    requires n <= |v|
  {
    if n == 0 then [] else KeptViews(v, drop, n - 1) + if drop(n - 1) then [] else [v[n - 1]]
  }

  ghost predicate KeysBelow<T>(m: map<int, T>, n: nat) {
    forall i :: i in m ==> 0 <= i < n
  }

  ghost predicate DraftInRange(d: Draft) {
    KeysBelow(d.status, |d.keys|) && KeysBelow(d.time, |d.keys|) && KeysBelow(d.reason, |d.keys|)
  }

  function DraftView(d: Draft): (v: seq<KeyView>)
    ensures |v| == |d.keys|
  {
    ViewOf(d.keys, d.status, d.time, d.reason)
  }

  lemma KeepView(d: Draft, key: string, i: int, row: Row, all: bool)
    requires DraftInRange(d)
    ensures DraftInRange(Keep(d, key, i, row, all)) && Keep(d, key, i, row, all).keys == d.keys + [key]
    ensures DraftView(Keep(d, key, i, row, all)) == DraftView(d) + [ViewAt(key, i, row.status, row.time, row.reason)]
  {
    var d' := Keep(d, key, i, row, all);
    forall j | 0 <= j < |d.keys| ensures DraftView(d')[j] == DraftView(d)[j] { }
  }

  /** Re-indexing keeps every surviving key's status, time and reason attached to it. */
  lemma {:induction false} RebuiltView(row: Row, keys: seq<string>, drop: int -> bool, all: bool, n: nat)
    requires n <= |keys|
    ensures var d := Rebuilt(row, keys, drop, all, n);
            && DraftInRange(d) && |d.keys| <= n && (forall k :: k in d.keys ==> k in keys)
            && DraftView(d) == KeptViews(ViewOf(keys, row.status, row.time, row.reason), drop, n)
    decreases n
  {
    hide Keep, ViewAt;
    if n > 0 {
      RebuiltView(row, keys, drop, all, n - 1);
      if !drop(n - 1) { KeepView(Rebuilt(row, keys, drop, all, n - 1), keys[n - 1], n - 1, row, all); }
    }
  }

  function WithoutIndex(v: seq<KeyView>, k: nat): seq<KeyView>
    requires k < |v|
  {
    v[..k] + v[k + 1..]
  }

  lemma {:induction false} KeptIsWithoutIndex(v: seq<KeyView>, k: nat, n: nat)
    requires n <= |v|
    ensures KeptViews(v, IsIndex(k), n) == if n <= k then v[..n] else v[..k] + v[k + 1..n]
    decreases n
  {
    if n > 0 {
      KeptIsWithoutIndex(v, k, n - 1);
      assert KeptViews(v, IsIndex(k), n) == KeptViews(v, IsIndex(k), n - 1) + if n - 1 == k then [] else [v[n - 1]];
      hide KeptViews, IsIndex;
      assert v[..n] == v[..n - 1] + [v[n - 1]];
      if n > k + 1 { assert v[k + 1..n] == v[k + 1..n - 1] + [v[n - 1]]; }
    }
  }

  function NotAutoDisabled(v: seq<KeyView>): seq<KeyView> {
    if v == [] then []
    else NotAutoDisabled(v[..|v| - 1]) + if v[|v| - 1].status == AUTO_DISABLED then [] else [v[|v| - 1]]
  }

  lemma {:induction false} KeptIsNotAutoDisabled(keys: seq<string>, row: Row, n: nat)
    requires n <= |keys|
    ensures var v := ViewOf(keys, row.status, row.time, row.reason);
            KeptViews(v, IsAutoDisabled(row.status), n) == NotAutoDisabled(v[..n])
    decreases n
  {
    if n > 0 {
      var v := ViewOf(keys, row.status, row.time, row.reason);
      KeptIsNotAutoDisabled(keys, row, n - 1);
      assert v[..n][..n - 1] == v[..n - 1];
    }
  }

  // ---- storing the rebuilt list ----

  /** A key that reads back from a line: visible text on one line, not the start of an array. */
  predicate PlainKey(k: string) {
    Lacks(k, '\n') && TrimSpace(k) != "" && TrimSpace(k)[0] != '['
  }

  ghost predicate PlainKeys(keys: seq<string>) {
    forall i :: 0 <= i < |keys| ==> PlainKey(keys[i])
  }

  lemma PlainKeysAreNoArray(keys: seq<string>)
    requires |keys| > 0 && PlainKeys(keys)
    ensures !LooksLikeArray(Join(keys, '\n')) && keys[0] != "" && keys[|keys| - 1] != "" && AllLack(keys, '\n')
  {
    if |keys| > 1 {
      assert Join(keys, '\n') == keys[0] + (['\n'] + Join(keys[1..], '\n'));
      TrimSpaceAppend(keys[0], ['\n'] + Join(keys[1..], '\n'));
    }
  }

  ghost predicate EndsVisible(keys: seq<string>) {
    |keys| > 0 && keys[0] != "" && keys[|keys| - 1] != ""
  }

  /** Does a stored text read as a JSON array? */
  predicate IsArray(text: string, json: JsonArray) {
    LooksLikeArray(text) && json(TrimSpace(text)).Some?
  }

  /**
    Keys that survive being joined with newlines: text that opens an array has
    to be that array, and otherwise no key may hold a newline or be empty at
    either end of the list.
  */
  ghost predicate ReadsBack(keys: seq<string>, json: JsonArray) {
    var text := Join(keys, '\n');
    if IsArray(text, json) then json(TrimSpace(text)).value == keys else AllLack(keys, '\n') && EndsVisible(keys)
  }

  lemma StoredKeys(keys: seq<string>, json: JsonArray)
    ensures Join(keys, '\n') != "" && GetKeys(Join(keys, '\n'), json) == keys <==> ReadsBack(keys, json)
  {
    var text := Join(keys, '\n');
    assert TrimSpace("") == "";
    hide Join, TrimSpace;
    if !IsArray(text, json) {
      if AllLack(keys, '\n') && keys != [] { ReadBack(keys, '\n'); }
      if EndsVisible(keys) { JoinLast(keys, '\n'); }
      SmallJoins(keys);
    }
  }

  lemma SmallJoins(keys: seq<string>)
    ensures keys == [] ==> Join(keys, '\n') == ""
    ensures |keys| == 1 ==> Join(keys, '\n') == keys[0]
  {
  }

  lemma SaveReadBack(row: Row, d: Draft, json: JsonArray)
    requires DraftInRange(d) && ReadsBack(d.keys, json)
    ensures Save(row, DraftRow(d), json) == DraftRow(d)
    ensures GetKeys(DraftRow(d).key, json) == d.keys && d.keys != []
  {
    StoredKeys(d.keys, json);
    SmallJoins(d.keys);
    hide Join, TrimSpace, ReadList;
    assert (map i | i in d.status && i < |d.keys| :: d.status[i]) == d.status;
  }

  ghost function KeysOf(v: seq<KeyView>): seq<string> {
    seq(|v|, i requires 0 <= i < |v| => v[i].key)
  }

  lemma DraftKeys(d: Draft)
    ensures KeysOf(DraftView(d)) == d.keys
  {
  }

  /**
    Saving a rebuilt list that is shorter than the stored one shows exactly the
    rebuilt view if and only if its keys read back.
  */
  lemma SaveDraft(row: Row, d: Draft, json: JsonArray)
    requires DraftInRange(d) && |d.keys| < |GetKeys(row.key, json)|
    ensures View(Save(row, DraftRow(d), json), json) == DraftView(d) <==> ReadsBack(d.keys, json)
  {
    hide GetKeys, CountKeys, ViewAt, Join, ReadsBack;
    if ReadsBack(d.keys, json) {
      SaveReadBack(row, d, json);
    } else {
      var row' := Save(row, DraftRow(d), json);
      StoredKeys(d.keys, json);
      if View(row', json) == DraftView(d) { SameViewSameKeys(row', d, json); }
    }
  }

  lemma SameViewSameKeys(row: Row, d: Draft, json: JsonArray)
    requires View(row, json) == DraftView(d)
    ensures GetKeys(row.key, json) == d.keys
  {
    hide GetKeys;
    var keys := GetKeys(row.key, json);
    forall i | 0 <= i < |keys| ensures keys[i] == d.keys[i] {
      assert View(row, json)[i].key == keys[i] && DraftView(d)[i].key == d.keys[i];
    }
  }

  lemma DraftIsRest(row: Row, drop: int -> bool, all: bool, json: JsonArray, rest: seq<KeyView>)
    requires rest == KeptViews(View(row, json), drop, |View(row, json)|)
    ensures var keys := GetKeys(row.key, json);
            var d := Rebuilt(row, keys, drop, all, |keys|);
            DraftInRange(d) && DraftView(d) == rest && d.keys == KeysOf(rest)
  {
    var keys := GetKeys(row.key, json);
    RebuiltView(row, keys, drop, all, |keys|);
    DraftKeys(Rebuilt(row, keys, drop, all, |keys|));
  }

  /**
    delete_key: the view afterwards is the old view without that entry, exactly
    when the remaining keys read back.
  */
  lemma DeleteKeyCommutes(row: Row, k: nat, json: JsonArray)
    requires k < row.size && k < |GetKeys(row.key, json)| && |GetKeys(row.key, json)| > 1
    ensures var rest := WithoutIndex(View(row, json), k);
            View(Perform(row, Action.DeleteKey(Some(k)), json, true), json) == rest <==> ReadsBack(KeysOf(rest), json)
  {
    hide GetKeys, CountKeys, Save, ReadsBack;
    var keys, v := GetKeys(row.key, json), View(row, json);
    var d := Rebuilt(row, keys, IsIndex(k), true, |keys|);
    KeptIsWithoutIndex(v, k, |keys|);
    assert v[..k] + v[k + 1..|keys|] == WithoutIndex(v, k);
    DraftIsRest(row, IsIndex(k), true, json, WithoutIndex(v, k));
    SaveDraft(row, d, json);
    PerformDeleteKey(row, k, json, d);
  }

  lemma PerformDeleteKey(row: Row, k: nat, json: JsonArray, d: Draft)
    requires k < row.size && d == WithoutKey(row, k, json) && d.keys != []
    ensures Perform(row, Action.DeleteKey(Some(k)), json, true) == Save(row, DraftRow(d), json)
  {
    assert Wanted(row, Action.DeleteKey(Some(k)), json) == Some(DraftRow(d));
  }

  lemma PerformDeleteDisabled(row: Row, json: JsonArray, d: Draft)
    requires d == WithoutAutoDisabled(row, json)
    requires |d.keys| != |GetKeys(row.key, json)|
    ensures Perform(row, DeleteDisabledKeys, json, true) == Save(row, DraftRow(d), json)
  {
    assert Wanted(row, DeleteDisabledKeys, json) == Some(DraftRow(d));
  }

  lemma {:induction false} NothingFiltered(v: seq<KeyView>)
    ensures |NotAutoDisabled(v)| <= |v|
    ensures |NotAutoDisabled(v)| == |v| ==> NotAutoDisabled(v) == v
  {
    if v != [] {
      var rest, last := v[..|v| - 1], v[|v| - 1];
      assert v == rest + [last];
      NothingFiltered(rest);
      assert NotAutoDisabled(v) == NotAutoDisabled(rest) + if last.status == AUTO_DISABLED then [] else [last];
      hide NotAutoDisabled;
    }
  }

  /**
    delete_disabled_keys: the view afterwards is the old view without the
    auto-disabled entries, exactly when there was none or the remaining keys
    read back.
  */
  lemma DeleteDisabledCommutes(row: Row, json: JsonArray)
    ensures var rest := NotAutoDisabled(View(row, json));
            View(Perform(row, DeleteDisabledKeys, json, true), json) == rest <==>
              |rest| == |View(row, json)| || ReadsBack(KeysOf(rest), json)
  {
    hide GetKeys, CountKeys, Save, ReadsBack;
    var keys, v := GetKeys(row.key, json), View(row, json);
    var d := Rebuilt(row, keys, IsAutoDisabled(row.status), false, |keys|);
    KeptIsNotAutoDisabled(keys, row, |keys|);
    assert v[..|keys|] == v;
    DraftIsRest(row, IsAutoDisabled(row.status), false, json, NotAutoDisabled(v));
    NothingFiltered(v);
    if |d.keys| < |keys| {
      SaveDraft(row, d, json);
      PerformDeleteDisabled(row, json, d);
    }
  }

  /** An array element on two lines becomes two keys when the other element is deleted. */
  lemma MultiLineElementIsSplit(row: Row, x: string, p: string, q: string, json: JsonArray)
    requires GetKeys(row.key, json) == [x, p + ['\n'] + q] && row.size == 2 && PlainKey(p) && PlainKey(q)
    ensures GetKeys(Perform(row, Action.DeleteKey(Some(0)), json, true).key, json) == [p, q]
  {
    var d := WithoutKey(row, 0, json);
    FirstOfTwo(row, x, p + ['\n'] + q);
    assert d.keys == [p + ['\n'] + q];
    hide GetKeys, CountKeys, Rebuilt;
    PerformDeleteKey(row, 0, json, d);
    SmallJoins(d.keys);
    TwoLines(p, q, json);
  }

  lemma FirstOfTwo(row: Row, x: string, y: string)
    ensures Rebuilt(row, [x, y], IsIndex(0), true, 2).keys == [y]
  {
    assert Rebuilt(row, [x, y], IsIndex(0), true, 1) == NO_KEYS;
  }

  lemma TwoLines(p: string, q: string, json: JsonArray)
    requires PlainKey(p) && PlainKey(q)
    ensures GetKeys(p + ['\n'] + q, json) == [p, q]
  {
    ReadBack([p, q], '\n');
    JoinTwo(p, q, '\n');
    TrimSpaceAppend(p, ['\n'] + q);
    assert p + (['\n'] + q) == p + ['\n'] + q;
  }

  /** A blank line between two keys is a third, empty key. */
  lemma BlankLineInside(a: string, b: string, json: JsonArray)
    requires PlainKey(a) && PlainKey(b)
    ensures GetKeys(Join([a, "", b], '\n'), json) == [a, "", b]
  {
    ReadBack([a, "", b], '\n');
    var rest := ['\n'] + Join([a, "", b][1..], '\n');
    assert Join([a, "", b], '\n') == a + rest;
    TrimSpaceAppend(a, rest);
  }

  /** A blank line above the first key is trimmed away. */
  lemma BlankLineAbove(b: string, json: JsonArray)
    requires PlainKey(b)
    ensures GetKeys(['\n'] + b, json) == [b] && CountKeys(['\n'] + b, json) == 1
  {
    SpaceInFront('\n', b);
    TrimInFront('\n', b);
    SplitLacking(b, '\n');
  }

  lemma BlankLineDraft(a: string, b: string, row: Row)
    requires row.status == map[1 := MANUALLY_DISABLED] && row.time == map[] && row.reason == map[]
    ensures Rebuilt(row, [a, "", b], IsIndex(0), true, 3) == Draft(["", b], map[0 := MANUALLY_DISABLED], map[], map[])
  {
    var keys := [a, "", b];
    assert Rebuilt(row, keys, IsIndex(0), true, 1) == NO_KEYS;
    assert Rebuilt(row, keys, IsIndex(0), true, 2) == Draft([""], map[0 := MANUALLY_DISABLED], map[], map[]);
  }

  /** With a blank line in the list, deleting the key above it moves the blank line's mark to the key below it. */
  lemma BlankLineMovesMark(a: string, b: string, json: JsonArray)
    requires PlainKey(a) && PlainKey(b)
    ensures var row := Row(Join([a, "", b], '\n'), 3, map[1 := MANUALLY_DISABLED], map[], map[]);
            && |View(row, json)| == 3 && View(row, json)[2] == KeyView(b, ENABLED, 0, "")
            && View(Perform(row, Action.DeleteKey(Some(0)), json, true), json) == [KeyView(b, MANUALLY_DISABLED, 0, "")]
  {
    var row := Row(Join([a, "", b], '\n'), 3, map[1 := MANUALLY_DISABLED], map[], map[]);
    var d := Draft(["", b], map[0 := MANUALLY_DISABLED], map[], map[]);
    BlankLineInside(a, b, json);
    BlankLineDraft(a, b, row);
    PerformDeleteKey(row, 0, json, d);
    BlankLineSaved(row, b, json, d);
  }

  lemma BlankLineSaved(row: Row, b: string, json: JsonArray, d: Draft)
    requires PlainKey(b) && d == Draft(["", b], map[0 := MANUALLY_DISABLED], map[], map[])
    ensures View(Save(row, DraftRow(d), json), json) == [KeyView(b, MANUALLY_DISABLED, 0, "")]
  {
    hide TrimSpace, ReadList, LooksLikeArray, Join, GetKeys, CountKeys;
    JoinTwo("", b, '\n');
    assert "" + ['\n'] + b == ['\n'] + b;
    BlankLineAbove(b, json);
    assert Save(row, DraftRow(d), json) == Row(['\n'] + b, 1, map[0 := MANUALLY_DISABLED], map[], map[]);
  }

  /** When every key is auto-disabled, deleting them deletes none and enables all of them. */
  lemma DeletingAllEnablesAll(row: Row, json: JsonArray)
    requires |GetKeys(row.key, json)| > 0
    requires forall i :: 0 <= i < |GetKeys(row.key, json)| ==> StatusAt(row.status, i) == AUTO_DISABLED
    ensures View(Perform(row, DeleteDisabledKeys, json, true), json) == ViewOf(GetKeys(row.key, json), map[], map[], map[])
    ensures NotAutoDisabled(View(row, json)) == []
  {
    var keys, v := GetKeys(row.key, json), View(row, json);
    AllDropped(row, keys, |keys|);
    RebuiltView(row, keys, IsAutoDisabled(row.status), false, |keys|);
    KeptIsNotAutoDisabled(keys, row, |keys|);
    assert v[..|keys|] == v;
    PerformDeleteDisabled(row, json, NO_KEYS);
    assert Save(row, DraftRow(NO_KEYS), json).key == row.key;
    assert Save(row, DraftRow(NO_KEYS), json).status == map[];
  }

  lemma {:induction false} AllDropped(row: Row, keys: seq<string>, n: nat)
    requires n <= |keys| && forall i :: 0 <= i < |keys| ==> StatusAt(row.status, i) == AUTO_DISABLED
    ensures Rebuilt(row, keys, IsAutoDisabled(row.status), false, n) == NO_KEYS
    decreases n
  {
    if n > 0 { AllDropped(row, keys, n - 1); }
  }

  // ---- every sequence of actions ----

  /** The size is the number of keys and no map speaks of a key that is not there. */
  ghost predicate RowOk(row: Row, json: JsonArray) {
    var n := |GetKeys(row.key, json)|;
    n > 0 && row.size == n && KeysBelow(row.status, n) && KeysBelow(row.time, n) && KeysBelow(row.reason, n)
  }

  lemma SaveSameKey(row: Row, wanted: Row, json: JsonArray)
    requires |GetKeys(row.key, json)| > 0 && (wanted.key == row.key || wanted.key == "")
    requires var n := |GetKeys(row.key, json)|; KeysBelow(wanted.status, n) && KeysBelow(wanted.time, n) && KeysBelow(wanted.reason, n)
    ensures RowOk(Save(row, wanted, json), json) && Save(row, wanted, json).key == row.key
    ensures var row' := Save(row, wanted, json); row'.status == wanted.status && row'.time == wanted.time && row'.reason == wanted.reason
  {
  }

  lemma {:induction false} DisableAllBelow(status: map<int, int>, n: nat, i: nat)
    requires KeysBelow(status, n) && i <= n
    ensures KeysBelow(DisableAll(status, i), n)
    decreases i
  {
    if i > 0 { DisableAllBelow(status, n, i - 1); }
  }

  // the size

  /** An array without elements: it has no keys, but is counted as one line. */
  predicate EmptyArray(key: string, json: JsonArray) {
    IsArray(key, json) && json(TrimSpace(key)).value == []
  }

  lemma CountIsLength(key: string, json: JsonArray)
    ensures CountKeys(key, json) == |GetKeys(key, json)| <==> !EmptyArray(key, json)
  {
    assert TrimSpace("") == "";
    hide TrimSpace;
  }

  /**
    After any actions on any row whose size was counted from its key text, with
    any writes failing, the size is the number of keys if and only if the key
    text is not an empty array.
  */
  lemma {:induction false} SizeIsTheNumberOfKeys(row: Row, actions: seq<(Action, bool)>, json: JsonArray)
    requires row.size == CountKeys(row.key, json)
    ensures var row' := PerformAll(row, actions, json);
            && row'.size == CountKeys(row'.key, json)
            && (row'.size == |GetKeys(row'.key, json)| <==> !EmptyArray(row'.key, json))
    decreases |actions|
  {
    hide CountKeys, GetKeys, EmptyArray, Wanted;
    CountIsLength(PerformAll(row, actions, json).key, json);
    if actions != [] { SizeIsTheNumberOfKeys(row, actions[..|actions| - 1], json); }
  }

  /** Deleting everything but an element that is itself an empty array leaves a row of size one without a key. */
  lemma EmptyArrayExample(row: Row, x: string, json: JsonArray)
    requires GetKeys(row.key, json) == [x, "[]"] && row.size == 2 && json("[]") == Some([])
    ensures var row' := Perform(row, Action.DeleteKey(Some(0)), json, true);
            row'.key == "[]" && EmptyArray("[]", json) && row'.size == 1 && GetKeys(row'.key, json) == []
  {
    var d := WithoutKey(row, 0, json);
    FirstOfTwo(row, x, "[]");
    SmallJoins(d.keys);
    BracketsAreTrimmed();
    hide Rebuilt, TrimSpace, Join;
    PerformDeleteKey(row, 0, json, d);
    SplitLacking("[]", '\n');
  }

  lemma BracketsAreTrimmed()
    ensures TrimSpace("[]") == "[]" && Trim("[]", '\n') == "[]"
  {
    assert DropSpaceLeft("[]") == "[]" && DropSpaceRight("[]") == "[]";
  }

  // the maps

  function KeptKeys(keys: seq<string>, drop: int -> bool, n: nat): seq<string>
    requires n <= |keys|
  {
    if n == 0 then [] else KeptKeys(keys, drop, n - 1) + if drop(n - 1) then [] else [keys[n - 1]]
  }

  /** The new position of key `n`: how many keys before it stay. */
  function Rank(drop: int -> bool, n: nat): nat {
    if n == 0 then 0 else Rank(drop, n - 1) + if drop(n - 1) then 0 else 1
  }

  /** The positions an action deletes. */
  function Drops(row: Row, a: Action): int -> bool {
    if a.DeleteKey? && a.index.Some? then IsIndex(a.index.value) else IsAutoDisabled(row.status)
  }

  function Kept(row: Row, a: Action, json: JsonArray): seq<string> {
    KeptKeys(GetKeys(row.key, json), Drops(row, a), |GetKeys(row.key, json)|)
  }

  /** Is this a deletion that is not refused? */
  predicate Deletes(row: Row, a: Action, json: JsonArray) {
    match a
    case DeleteKey(index) => GoodIndex(row, index) && Kept(row, a, json) != []
    case DeleteDisabledKeys => |Kept(row, a, json)| < |GetKeys(row.key, json)|
    case _ => false
  }

  /** How many keys a joined list reads as: the elements of an array, or its lines without the blank ones at both ends. */
  function ReadCount(keys: seq<string>, json: JsonArray): nat
    requires keys != []
  {
    var text := Join(keys, '\n');
    if IsArray(text, json) then |json(TrimSpace(text)).value| else |Bare(Lines(keys, '\n'))|
  }

  /** Every key that stays and whose time or reason is carried over gets a position below `limit`. */
  ghost predicate MarksFit(row: Row, drop: int -> bool, all: bool, n: nat, limit: nat) {
    forall i :: 0 <= i < n && !drop(i) && (all || StatusAt(row.status, i) != ENABLED) && (i in row.time || i in row.reason) ==>
      Rank(drop, i) < limit
  }

  /**
    Saving cuts the status map to the new number of keys, and not the times and
    reasons. So a deletion keeps the maps in range when the keys that stay read
    as at least one key, and every key among them that has a time or a reason
    comes before the place the blank keys at both ends leave missing.
  */
  ghost predicate KeepsMarks(row: Row, a: Action, json: JsonArray, writeOk: bool) {
    var kept := Kept(row, a, json);
    Deletes(row, a, json) && writeOk && kept != [] && kept != [""] ==>
      ReadCount(kept, json) > 0 && MarksFit(row, Drops(row, a), a.DeleteKey?, |GetKeys(row.key, json)|, ReadCount(kept, json))
  }

  /** What a deletion is about to store, if it is not refused. */
  function Remainder(row: Row, a: Action, json: JsonArray): Option<Draft> {
    match a
    case DeleteKey(index) =>
      if GoodIndex(row, index) && WithoutKey(row, index.value, json).keys != [] then Some(WithoutKey(row, index.value, json)) else None
    case DeleteDisabledKeys =>
      var d := WithoutAutoDisabled(row, json); if |d.keys| == |GetKeys(row.key, json)| then None else Some(d)
    case _ => None
  }

  /** The same about the lists a deletion has rebuilt. */
  ghost predicate DraftFits(row: Row, a: Action, json: JsonArray, writeOk: bool) {
    var d := Remainder(row, a, json);
    d.Some? && writeOk && Join(d.value.keys, '\n') != "" ==>
      var n := |GetKeys(Join(d.value.keys, '\n'), json)|;
      n > 0 && KeysBelow(d.value.time, n) && KeysBelow(d.value.reason, n)
  }

  lemma {:induction false} RebuiltKeys(row: Row, keys: seq<string>, drop: int -> bool, all: bool, n: nat)
    requires n <= |keys|
    ensures var d := Rebuilt(row, keys, drop, all, n); d.keys == KeptKeys(keys, drop, n) && |d.keys| == Rank(drop, n)
    decreases n
  {
    if n > 0 { RebuiltKeys(row, keys, drop, all, n - 1); }
  }

  ghost predicate MarksBelow(d: Draft, limit: nat) {
    KeysBelow(d.time, limit) && KeysBelow(d.reason, limit)
  }

  lemma RebuiltStep(row: Row, keys: seq<string>, drop: int -> bool, all: bool, n: nat)
    requires n < |keys|
    ensures Rebuilt(row, keys, drop, all, 0) == NO_KEYS
    ensures Rebuilt(row, keys, drop, all, n + 1)
         == if drop(n) then Rebuilt(row, keys, drop, all, n) else Keep(Rebuilt(row, keys, drop, all, n), keys[n], n, row, all)
  {
    hide Keep;
  }

  lemma NoMarks(row: Row, keys: seq<string>, drop: int -> bool, all: bool, limit: nat)
    ensures MarksBelow(Rebuilt(row, keys, drop, all, 0), limit) && MarksFit(row, drop, all, 0, limit)
  {
  }

  lemma {:induction false} RebuiltMarks(row: Row, keys: seq<string>, drop: int -> bool, all: bool, n: nat, limit: nat)
    requires n <= |keys|
    ensures MarksBelow(Rebuilt(row, keys, drop, all, n), limit) <==> MarksFit(row, drop, all, n, limit)
    decreases n
  {
    hide *;
    if n == 0 {
      NoMarks(row, keys, drop, all, limit);
    } else {
      RebuiltStep(row, keys, drop, all, n - 1);
      RebuiltMarks(row, keys, drop, all, n - 1, limit);
      RebuiltKeys(row, keys, drop, all, n - 1);
      MarksFitStep(row, drop, all, n - 1, limit);
      KeepBelow(Rebuilt(row, keys, drop, all, n - 1), keys[n - 1], n - 1, row, all, limit);
    }
  }

  lemma MarksFitStep(row: Row, drop: int -> bool, all: bool, n: nat, limit: nat)
    ensures MarksFit(row, drop, all, n + 1, limit) <==>
              && MarksFit(row, drop, all, n, limit)
              && (!drop(n) && (all || StatusAt(row.status, n) != ENABLED) && (n in row.time || n in row.reason) ==> Rank(drop, n) < limit)
  {
    hide Rank;
  }

  lemma KeepBelow(d: Draft, key: string, i: int, row: Row, all: bool, limit: nat)
    ensures var d' := Keep(d, key, i, row, all);
            MarksBelow(d', limit) <==>
              && MarksBelow(d, limit)
              && ((all || StatusAt(row.status, i) != ENABLED) && (i in row.time || i in row.reason) ==> |d.keys| < limit)
  {
    if i in row.time { UpdateBelow(d.time, |d.keys|, row.time[i], limit); }
    if i in row.reason { UpdateBelow(d.reason, |d.keys|, row.reason[i], limit); }
    hide KeysBelow;
  }

  lemma UpdateBelow<T>(m: map<int, T>, j: nat, v: T, limit: nat)
    ensures KeysBelow(m[j := v], limit) <==> KeysBelow(m, limit) && j < limit
  {
    var m' := m[j := v];
    assert j in m';
    forall i | i in m ensures i in m' { }
  }

  lemma JoinedIsEmpty(keys: seq<string>)
    ensures Join(keys, '\n') == "" <==> keys == [] || keys == [""]
  {
  }

  lemma ReadCountIs(keys: seq<string>, json: JsonArray)
    requires Join(keys, '\n') != ""
    ensures keys != [] && |GetKeys(Join(keys, '\n'), json)| == ReadCount(keys, json)
    ensures !IsArray(Join(keys, '\n'), json) ==> GetKeys(Join(keys, '\n'), json) == Bare(Lines(keys, '\n'))
  {
    JoinedIsEmpty(keys);
    ReadJoined(keys, '\n');
  }

  lemma RemainderIs(row: Row, a: Action, json: JsonArray)
    ensures Remainder(row, a, json).Some? <==> Deletes(row, a, json)
    ensures Deletes(row, a, json) ==>
              var keys := GetKeys(row.key, json);
              Remainder(row, a, json) == Some(Rebuilt(row, keys, Drops(row, a), a.DeleteKey?, |keys|))
              && Remainder(row, a, json).value.keys == Kept(row, a, json)
  {
    var keys := GetKeys(row.key, json);
    hide GetKeys, Rebuilt, KeptKeys, MarksFit, IsIndex, IsAutoDisabled;
    RebuiltKeys(row, keys, Drops(row, a), a.DeleteKey?, |keys|);
    KeptAtMost(keys, Drops(row, a), |keys|);
  }

  lemma {:induction false} KeptAtMost(keys: seq<string>, drop: int -> bool, n: nat)
    requires n <= |keys|
    ensures |KeptKeys(keys, drop, n)| <= n
  {
    if n > 0 { KeptAtMost(keys, drop, n - 1); }
  }

  lemma FitsInBothTerms(row: Row, a: Action, json: JsonArray, writeOk: bool)
    ensures KeepsMarks(row, a, json, writeOk) <==> DraftFits(row, a, json, writeOk)
  {
    RemainderIs(row, a, json);
    hide Remainder, Deletes, Rebuilt, GetKeys, Join, MarksFit, KeysBelow, ReadCount, KeptKeys;
    if Deletes(row, a, json) {
      var keys, kept := GetKeys(row.key, json), Kept(row, a, json);
      JoinedIsEmpty(kept);
      if Join(kept, '\n') != "" {
        ReadCountIs(kept, json);
        RebuiltMarks(row, keys, Drops(row, a), a.DeleteKey?, |keys|, ReadCount(kept, json));
      }
    }
  }

  lemma SaveKeepsRange(row: Row, d: Draft, json: JsonArray)
    requires |GetKeys(row.key, json)| > 0 && DraftInRange(d) && |d.keys| <= |GetKeys(row.key, json)|
    ensures RowOk(Save(row, DraftRow(d), json), json) <==>
              (Join(d.keys, '\n') != "" ==>
                 var n := |GetKeys(Join(d.keys, '\n'), json)|; n > 0 && KeysBelow(d.time, n) && KeysBelow(d.reason, n))
  {
    var row' := Save(row, DraftRow(d), json);
    CountIsLength(row'.key, json);
    hide CountKeys, TrimSpace, ReadList, Join;
    NoKeysInEmptyArray(row'.key, json);
    hide GetKeys, EmptyArray;
    assert KeysBelow(row'.status, CountKeys(row'.key, json));
  }

  lemma NoKeysInEmptyArray(key: string, json: JsonArray)
    ensures EmptyArray(key, json) ==> GetKeys(key, json) == []
  {
  }

  lemma RemainderInRange(row: Row, a: Action, json: JsonArray, writeOk: bool)
    requires Remainder(row, a, json).Some?
    ensures var d := Remainder(row, a, json).value;
            && DraftInRange(d) && |d.keys| <= |GetKeys(row.key, json)|
            && Perform(row, a, json, writeOk) == if writeOk then Save(row, DraftRow(d), json) else row
  {
    var keys := GetKeys(row.key, json);
    hide GetKeys, Save, Rebuilt;
    if a.DeleteKey? { RebuiltView(row, keys, IsIndex(a.index.value), true, |keys|); }
    RebuiltView(row, keys, IsAutoDisabled(row.status), false, |keys|);
  }

  lemma RefusedOrSameKey(row: Row, a: Action, json: JsonArray, writeOk: bool)
    requires RowOk(row, json) && Remainder(row, a, json).None?
    ensures RowOk(Perform(row, a, json, writeOk), json) && Perform(row, a, json, writeOk).key == row.key
  {
    hide CountKeys, GetKeys, Rebuilt, DisableAll, Save;
    DisableAllBelow(row.status, row.size, row.size);
    var wanted := Wanted(row, a, json);
    if wanted.Some? { SaveSameKey(row, wanted.value, json); }
  }

  /** One action on a row in order leaves it in order if and only if the marks it carries over fit. */
  lemma ActionKeepsRowOk(row: Row, a: Action, json: JsonArray, writeOk: bool)
    requires RowOk(row, json)
    ensures RowOk(Perform(row, a, json, writeOk), json) <==> KeepsMarks(row, a, json, writeOk)
  {
    FitsInBothTerms(row, a, json, writeOk);
    hide KeepsMarks;
    if Remainder(row, a, json).Some? {
      hide Save, Perform, GetKeys, Rebuilt, Join, Remainder;
      RemainderInRange(row, a, json, writeOk);
      SaveKeepsRange(row, Remainder(row, a, json).value, json);
    } else {
      RefusedOrSameKey(row, a, json, writeOk);
    }
  }

  /** Entry `j` of a view: line `j` after the blank ones at the front, with the mark of entry `j` of `rest`, if there is one. */
  function ShownAt(rest: seq<KeyView>, lines: seq<string>, j: nat): KeyView
    requires lines != [] && j < |Bare(lines)|
  {
    if j < |rest| then rest[j].(key := Bare(lines)[j]) else KeyView(Bare(lines)[j], ENABLED, 0, "")
  }

  ghost predicate IsShown(v: seq<KeyView>, rest: seq<KeyView>, lines: seq<string>)
    requires lines != []
  {
    |v| == |Bare(lines)| && forall j :: 0 <= j < |v| ==> v[j] == ShownAt(rest, lines, j)
  }

  /**
    What a stored deletion shows when the text opens no array: the lines of the
    remaining keys without the blank ones at both ends, and the marks of the
    remaining keys in their order. So every mark moves on by as many keys as
    there are blank ones at the front.
  */
  lemma DeletionShiftsMarks(row: Row, a: Action, json: JsonArray)
    requires Deletes(row, a, json) && Kept(row, a, json) != [] && Kept(row, a, json) != [""]
    requires !IsArray(Join(Kept(row, a, json), '\n'), json)
    ensures IsShown(View(Perform(row, a, json, true), json), KeptViews(View(row, json), Drops(row, a), |View(row, json)|),
                    Lines(Kept(row, a, json), '\n'))
  {
    var d := Remainder(row, a, json);
    DeletionSaves(row, a, json);
    hide *;
    SavedView(row, d.value, json);
  }

  /** On one-line keys the mark of the j-th remaining key is shown on the one as many places further as there are blank ones in front. */
  lemma MarkMovesBy(v: seq<KeyView>, rest: seq<KeyView>, keys: seq<string>, j: nat)
    requires keys != [] && AllLack(keys, '\n') && IsShown(v, rest, Lines(keys, '\n')) && j < |v| && j < |rest|
    ensures Front(keys) + j < |keys| && v[j] == rest[j].(key := keys[Front(keys) + j])
  {
    LinesLacking(keys, '\n');
    hide Lines, Front, Back, Bare, Lacks;
    assert v[j] == ShownAt(rest, keys, j) && Bare(keys)[j] == keys[Front(keys) + j];
  }

  lemma DeletionSaves(row: Row, a: Action, json: JsonArray)
    requires Deletes(row, a, json)
    ensures Remainder(row, a, json).Some?
    ensures var d := Remainder(row, a, json).value;
            && d.keys == Kept(row, a, json) && DraftInRange(d)
            && DraftView(d) == KeptViews(View(row, json), Drops(row, a), |View(row, json)|)
            && Perform(row, a, json, true) == Save(row, DraftRow(d), json)
  {
    var keys := GetKeys(row.key, json);
    hide GetKeys, Save, Rebuilt, KeptKeys, KeptViews, ViewAt, Remainder, Deletes, Perform, IsIndex, IsAutoDisabled;
    RemainderIs(row, a, json);
    RemainderInRange(row, a, json, true);
    RebuiltView(row, keys, Drops(row, a), a.DeleteKey?, |keys|);
  }

  lemma SavedView(row: Row, d: Draft, json: JsonArray)
    requires DraftInRange(d) && d.keys != [] && d.keys != [""] && !IsArray(Join(d.keys, '\n'), json)
    ensures IsShown(View(Save(row, DraftRow(d), json), json), DraftView(d), Lines(d.keys, '\n'))
  {
    var text, lines := Join(d.keys, '\n'), Lines(d.keys, '\n');
    JoinedIsEmpty(d.keys);
    ReadCountIs(d.keys, json);
    assert CountKeys(text, json) == |GetKeys(text, json)|;
    var row' := Save(row, DraftRow(d), json);
    hide Join, ReadList, GetKeys, CountKeys, TrimSpace, Bare, Lines, Front, ReadCount;
    assert row'.key == text && row'.time == d.time && row'.reason == d.reason;
    forall j | 0 <= j < |Bare(lines)| ensures StatusAt(row'.status, j) == StatusAt(d.status, j) { }
    hide Save;
    forall j | 0 <= j < |Bare(lines)| ensures View(row', json)[j] == ShownAt(DraftView(d), lines, j) {
      MarkAt(d, row', Bare(lines)[j], j);
    }
  }

  lemma MarkAt(d: Draft, row: Row, key: string, j: nat)
    requires DraftInRange(d) && StatusAt(row.status, j) == StatusAt(d.status, j) && row.time == d.time && row.reason == d.reason
    ensures ViewAt(key, j, row.status, row.time, row.reason)
         == if j < |d.keys| then DraftView(d)[j].(key := key) else KeyView(key, ENABLED, 0, "")
  {
  }

  /** Over every sequence of actions: all rows are in order if and only if the marks fit at every step. */
  lemma {:induction false} ActionsKeepRowOk(row: Row, actions: seq<(Action, bool)>, json: JsonArray)
    requires RowOk(row, json)
    ensures AllRowsOk(row, actions, json) <==> AllMarksFit(row, actions, json)
    decreases |actions|
  {
    hide RowOk, KeepsMarks, Perform;
    if actions != [] {
      var rest, last := actions[..|actions| - 1], actions[|actions| - 1];
      ActionsKeepRowOk(row, rest, json);
      if AllRowsOk(row, rest, json) {
        LastRowOk(row, rest, json);
        ActionKeepsRowOk(PerformAll(row, rest, json), last.0, json, last.1);
      }
    }
  }

  /** Every row on the way is in order. */
  ghost predicate AllRowsOk(row: Row, actions: seq<(Action, bool)>, json: JsonArray) {
    RowOk(PerformAll(row, actions, json), json) && (actions != [] ==> AllRowsOk(row, actions[..|actions| - 1], json))
  }

  ghost predicate AllMarksFit(row: Row, actions: seq<(Action, bool)>, json: JsonArray) {
    actions != [] ==>
      var rest, last := actions[..|actions| - 1], actions[|actions| - 1];
      AllMarksFit(row, rest, json) && KeepsMarks(PerformAll(row, rest, json), last.0, json, last.1)
  }

  lemma LastRowOk(row: Row, actions: seq<(Action, bool)>, json: JsonArray)
    requires AllRowsOk(row, actions, json)
    ensures RowOk(PerformAll(row, actions, json), json)
  {
  }

  /** With a blank line in the list, deleting the key above it leaves the last key's time behind as one of a key that is not there. */
  lemma BlankLineStrandsTime(a: string, b: string, json: JsonArray)
    requires PlainKey(a) && PlainKey(b)
    ensures var row := Row(Join([a, "", b], '\n'), 3, map[], map[2 := 7], map[]);
            && RowOk(row, json)
            && Perform(row, Action.DeleteKey(Some(0)), json, true) == Row(['\n'] + b, 1, map[], map[1 := 7], map[])
            && !RowOk(Perform(row, Action.DeleteKey(Some(0)), json, true), json)
  {
    var row := Row(Join([a, "", b], '\n'), 3, map[], map[2 := 7], map[]);
    var d := Draft(["", b], map[], map[1 := 7], map[]);
    BlankLineInside(a, b, json);
    StrandedDraft(a, b, row);
    BlankLineAbove(b, json);
    hide TrimSpace, ReadList, LooksLikeArray, Join, GetKeys, CountKeys, Rebuilt, Perform, Save, PlainKey;
    PerformDeleteKey(row, 0, json, d);
    StrandedSaved(row, b, json, d);
  }

  lemma StrandedSaved(row: Row, b: string, json: JsonArray, d: Draft)
    requires PlainKey(b) && d == Draft(["", b], map[], map[1 := 7], map[])
    ensures Save(row, DraftRow(d), json) == Row(['\n'] + b, 1, map[], map[1 := 7], map[])
  {
    BlankLineAbove(b, json);
    hide TrimSpace, ReadList, LooksLikeArray, Join, GetKeys, CountKeys, PlainKey;
    JoinTwo("", b, '\n');
    assert "" + ['\n'] + b == ['\n'] + b;
    assert Save(row, DraftRow(d), json).status == map[];
  }

  lemma StrandedDraft(a: string, b: string, row: Row)
    requires row.status == map[] && row.time == map[2 := 7] && row.reason == map[]
    ensures Rebuilt(row, [a, "", b], IsIndex(0), true, 3) == Draft(["", b], map[], map[1 := 7], map[])
  {
    var keys := [a, "", b];
    assert Rebuilt(row, keys, IsIndex(0), true, 1) == NO_KEYS;
    assert Rebuilt(row, keys, IsIndex(0), true, 2) == Draft([""], map[], map[], map[]);
  }

  /** Lists of visible one-line keys that open no array stay such lists, and their rows stay in order. */
  lemma PlainRemainder(row: Row, a: Action, json: JsonArray, writeOk: bool)
    requires RowOk(row, json) && PlainKeys(GetKeys(row.key, json))
    ensures KeepsMarks(row, a, json, writeOk) && PlainKeys(GetKeys(Perform(row, a, json, writeOk).key, json))
  {
    FitsInBothTerms(row, a, json, writeOk);
    hide KeepsMarks;
    var keys := GetKeys(row.key, json);
    var d := Remainder(row, a, json);
    if d.Some? {
      RemainderInRange(row, a, json, writeOk);
      RemainderOfThese(row, a, json);
      SmallJoins(d.value.keys);
      hide GetKeys, Save, Perform, Rebuilt, Join, Remainder, PlainKey;
      if d.value.keys != [] {
        forall i | 0 <= i < |d.value.keys| ensures PlainKey(d.value.keys[i]) { assert d.value.keys[i] in keys; }
        PlainKeysAreNoArray(d.value.keys);
        SaveReadBack(row, d.value, json);
      }
    } else {
      RefusedOrSameKey(row, a, json, writeOk);
    }
  }

  lemma RemainderOfThese(row: Row, a: Action, json: JsonArray)
    requires Remainder(row, a, json).Some?
    ensures forall k :: k in Remainder(row, a, json).value.keys ==> k in GetKeys(row.key, json)
  {
    var keys := GetKeys(row.key, json);
    hide GetKeys, Rebuilt;
    if a.DeleteKey? { RebuiltView(row, keys, IsIndex(a.index.value), true, |keys|); }
    RebuiltView(row, keys, IsAutoDisabled(row.status), false, |keys|);
  }

  lemma {:induction false} PlainKeysStayInOrder(row: Row, actions: seq<(Action, bool)>, json: JsonArray)
    requires RowOk(row, json) && PlainKeys(GetKeys(row.key, json))
    ensures var row' := PerformAll(row, actions, json); RowOk(row', json) && PlainKeys(GetKeys(row'.key, json))
    decreases |actions|
  {
    hide RowOk, PlainKeys, KeepsMarks, Perform, GetKeys;
    if actions != [] {
      var rest, last := actions[..|actions| - 1], actions[|actions| - 1];
      PlainKeysStayInOrder(row, rest, json);
      PlainRemainder(PerformAll(row, rest, json), last.0, json, last.1);
      ActionKeepsRowOk(PerformAll(row, rest, json), last.0, json, last.1);
    }
  }

  /** The entry a manually disabled key shows: whatever time and reason were left for it. */
  function Disabled(row: Row, key: string, i: int): KeyView {
    KeyView(key, MANUALLY_DISABLED, if i in row.time then row.time[i] else 0, if i in row.reason then row.reason[i] else "")
  }

  /** Disabling a key changes its entry and no other. */
  lemma DisableKeyView(row: Row, k: nat, json: JsonArray)
    requires RowOk(row, json) && k < row.size
    ensures View(Perform(row, Action.DisableKey(Some(k)), json, true), json)
         == View(row, json)[k := Disabled(row, GetKeys(row.key, json)[k], k)]
  {
    hide Save, GetKeys;
    SaveSameKey(row, Wanted(row, Action.DisableKey(Some(k)), json).value, json);
  }

  /** Enabling a key wipes its time and reason, and changes no other entry. */
  lemma EnableKeyView(row: Row, k: nat, json: JsonArray)
    requires RowOk(row, json) && k < row.size
    ensures View(Perform(row, Action.EnableKey(Some(k)), json, true), json)
         == View(row, json)[k := KeyView(GetKeys(row.key, json)[k], ENABLED, 0, "")]
  {
    hide Save, GetKeys;
    SaveSameKey(row, Wanted(row, Action.EnableKey(Some(k)), json).value, json);
  }

  lemma EnableAllView(row: Row, json: JsonArray)
    requires RowOk(row, json)
    ensures View(Perform(row, EnableAllKeys, json, true), json) == ViewOf(GetKeys(row.key, json), map[], map[], map[])
  {
    hide Save, GetKeys;
    SaveSameKey(row, Wanted(row, EnableAllKeys, json).value, json);
  }

  lemma {:induction false} DisableAllAt(status: map<int, int>, n: nat, i: int)
    ensures StatusAt(DisableAll(status, n), i)
         == if 0 <= i < n && StatusAt(status, i) == ENABLED then MANUALLY_DISABLED else StatusAt(status, i)
    decreases n
  {
    if n > 0 { DisableAllAt(status, n - 1, i); }
  }

  /** Disabling all keys turns exactly the enabled entries, and leaves none enabled. */
  lemma DisableAllView(row: Row, json: JsonArray, i: nat)
    requires RowOk(row, json) && i < row.size
    ensures var row' := Perform(row, DisableAllKeys, json, true);
            && |View(row', json)| == |View(row, json)|
            && View(row', json)[i] == if View(row, json)[i].status == ENABLED then Disabled(row, GetKeys(row.key, json)[i], i)
                                      else View(row, json)[i]
  {
    hide Save, GetKeys, DisableAll;
    DisableAllAt(row.status, row.size, i);
    DisableAllBelow(row.status, row.size, row.size);
    var wanted := Wanted(row, DisableAllKeys, json);
    if wanted.Some? { SaveSameKey(row, wanted.value, json); } else { assert StatusAt(row.status, i) != ENABLED; }
  }
}
