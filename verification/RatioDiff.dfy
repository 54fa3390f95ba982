/**
  Comparing local prices with the prices of several upstream channels. A first
  pass collects every (model, field) pair that differs somewhere; a second one
  drops the channels that never differ and the pairs that are left without a
  difference. An upstream value equal to the local one is shown as the text
  "same", a missing one as nothing.
*/
module RatioDiff {

  /** A decoded JSON value: a float, an integer kind, a text, a flag, or null. */
  datatype Value = Num(r: real) | Integer(n: int) | Str(s: string) | Flag(b: bool) | Null

  const EPSILON: real := 0.000000001

  predicate NearlyEqual(a: real, b: real) {
    if a > b then a - b < EPSILON else b - a < EPSILON
  }

  predicate ValuesEqual(a: Value, b: Value) {
    if a.Num? && b.Num? then NearlyEqual(a.r, b.r) else a == b
  }

  const NUMERIC_FIELDS: seq<string> :=
    ["model_ratio", "completion_ratio", "cache_ratio", "create_cache_ratio", "image_ratio", "audio_ratio",
     "audio_completion_ratio", "model_price"]

  const FIELDS: seq<string> := NUMERIC_FIELDS + ["billing_mode", "billing_expr"]

  /** Numbers of the numeric fields are compared as floats whatever their kind. */
  function NormalizeValue(field: string, v: Value): Value {
    if field in NUMERIC_FIELDS && v.Integer? then Num(v.n as real) else v
  }

  /** Prices by field and model. */
  type Table = map<string, map<string, Value>>

  datatype Channel = Channel(name: string, data: Table)

  predicate Has(data: Table, field: string, model: string) {
    field in data && model in data[field]
  }

  function Lookup(data: Table, field: string, model: string): Value {
    if Has(data, field, model) then NormalizeValue(field, data[field][model]) else Null
  }

  const SAME := Str("same")

  /** What is shown for one channel beside the local value. */
  function Shown(local: Value, c: Channel, field: string, model: string): Value {
    var v := Lookup(c.data, field, model);
    if Has(c.data, field, model) && ValuesEqual(local, v) then SAME
    else if v.Null? && local.Null? then SAME
    else v
  }

  /** What raises the difference flag of a pair. */
  predicate Flags(local: Value, c: Channel, field: string, model: string) {
    || (Has(c.data, field, model) && !local.Null? && !ValuesEqual(local, Lookup(c.data, field, model)))
    || (local.Null? && !Shown(local, c, field, model).Null? && Shown(local, c, field, model) != SAME)
  }

  datatype Item = Item(current: Value, upstreams: map<string, Value>)

  /** One item: the values of the first `n` channels by name. */
  function Upstreams(channels: seq<Channel>, n: nat, local: Value, field: string, model: string): map<string, Value>
    requires n <= |channels|
  {
    if n == 0 then map[]
    else Upstreams(channels, n - 1, local, field, model)[channels[n - 1].name := Shown(local, channels[n - 1], field, model)]
  }

  ghost predicate Included(local: Value, channels: seq<Channel>, field: string, model: string) {
    if local.Null? then exists i :: 0 <= i < |channels| && Has(channels[i].data, field, model)
    else exists i :: 0 <= i < |channels| && Flags(local, channels[i], field, model)
  }

  type Differences = map<string, map<string, Item>>

  predicate IsDifference(v: Value) {
    !v.Null? && v != SAME
  }

  predicate Interesting(item: Item) {
    exists name :: name in item.upstreams && item.upstreams[name] != SAME
  }

  function Restricted(item: Item, keep: set<string>): Item {
    item.(upstreams := map name | name in item.upstreams && name in keep :: item.upstreams[name])
  }

  /** The first pass for one pair. */
  method CompareField(localData: Table, channels: seq<Channel>, field: string, model: string) returns (item: Item, listed: bool)
    ensures item == Item(Lookup(localData, field, model), Upstreams(channels, |channels|, Lookup(localData, field, model), field, model))
    ensures listed <==> Included(Lookup(localData, field, model), channels, field, model)
  {
    var localValue := Lookup(localData, field, model);
    var upstreamValues: map<string, Value> := map[];
    var hasUpstreamValue, hasDifference := false, false;
    for i := 0 to |channels|
      invariant upstreamValues == Upstreams(channels, i, localValue, field, model)
      invariant hasUpstreamValue <==> exists k :: 0 <= k < i && Has(channels[k].data, field, model)
      invariant hasDifference <==> exists k :: 0 <= k < i && Flags(localValue, channels[k], field, model)
    {
      var channel, upstreamValue := channels[i], Null;
      if Has(channel.data, field, model) {
        upstreamValue := NormalizeValue(field, channel.data[field][model]);
        hasUpstreamValue := true;
        if !localValue.Null? && !ValuesEqual(localValue, upstreamValue) {
          hasDifference := true;
        } else if ValuesEqual(localValue, upstreamValue) {
          upstreamValue := SAME;
        }
      }
      if upstreamValue.Null? && localValue.Null? {
        upstreamValue := SAME;
      }
      if localValue.Null? && !upstreamValue.Null? && upstreamValue != SAME {
        hasDifference := true;
      }
      upstreamValues := upstreamValues[channel.name := upstreamValue];
    }
    item := Item(localValue, upstreamValues);
    listed := if !localValue.Null? then hasDifference else hasUpstreamValue;
  }

  ghost function ItemOf(localData: Table, channels: seq<Channel>, field: string, model: string): Item {
    var local := Lookup(localData, field, model);
    Item(local, Upstreams(channels, |channels|, local, field, model))
  }

  ghost predicate Listed(localData: Table, channels: seq<Channel>, field: string, model: string) {
    field in FIELDS && Included(Lookup(localData, field, model), channels, field, model)
  }

  ghost predicate NoEmptyRow(d: Differences) {
    forall m :: m in d ==> d[m] != map[]
  }

  /** The fields of one model that are listed. */
  method CompareModel(localData: Table, channels: seq<Channel>, model: string) returns (row: map<string, Item>)
    ensures forall f :: f in row <==> Listed(localData, channels, f, model)
    ensures forall f :: f in row ==> row[f] == ItemOf(localData, channels, f, model)
  {
    row := map[];
    for i := 0 to |FIELDS|
      invariant forall f :: f in row <==> f in FIELDS[..i] && Listed(localData, channels, f, model)
      invariant forall f :: f in row ==> row[f] == ItemOf(localData, channels, f, model)
    {
      hide Included, Upstreams, Lookup;
      var field := FIELDS[i];
      assert FIELDS[..i + 1] == FIELDS[..i] + [field];
      var item, listed := CompareField(localData, channels, field, model);
      if listed { row := row[field := item]; }
    }
    assert FIELDS[..|FIELDS|] == FIELDS;
  }

  /** The first pass over all models. */
  method CompareModels(localData: Table, channels: seq<Channel>, models: set<string>) returns (d: Differences)
    ensures forall m, f :: (m in d && f in d[m]) <==> m in models && Listed(localData, channels, f, m)
    ensures forall m, f :: m in d && f in d[m] ==> d[m][f] == ItemOf(localData, channels, f, m)
    ensures NoEmptyRow(d)
  {
    d := map[];
    var todo := models;
    while todo != {}
      invariant todo <= models && NoEmptyRow(d)
      invariant forall m, f :: (m in d && f in d[m]) <==> m in models - todo && Listed(localData, channels, f, m)
      invariant forall m, f :: m in d && f in d[m] ==> d[m][f] == ItemOf(localData, channels, f, m)
      decreases |todo|
    {
      hide Listed, ItemOf;
      var model :| model in todo;
      todo := todo - {model};
      var row := CompareModel(localData, channels, model);
      if row != map[] { d := d[model := row]; }
    }
  }

  /** A channel that differs in some listed pair. */
  ghost predicate DiffersIn(d: Differences, name: string, m: string, f: string) {
    m in d && f in d[m] && name in d[m][f].upstreams && IsDifference(d[m][f].upstreams[name])
  }

  method DifferingInItem(item: Item) returns (names: set<string>)
    ensures forall name :: name in names <==> name in item.upstreams && IsDifference(item.upstreams[name])
  {
    names := {};
    var todo := item.upstreams.Keys;
    while todo != {}
      invariant todo <= item.upstreams.Keys
      invariant forall name :: name in names <==> name in item.upstreams && name !in todo && IsDifference(item.upstreams[name])
      decreases |todo|
    {
      var name :| name in todo;
      todo := todo - {name};
      if !item.upstreams[name].Null? && item.upstreams[name] != SAME { names := names + {name}; }
    }
  }

  method DifferingInRow(row: map<string, Item>) returns (names: set<string>)
    ensures forall name :: name in names <==>
              exists f :: f in row && name in row[f].upstreams && IsDifference(row[f].upstreams[name])
  {
    names := {};
    var todo := row.Keys;
    while todo != {}
      invariant todo <= row.Keys
      invariant forall name :: name in names <==>
                  exists f :: f in row && f !in todo && name in row[f].upstreams && IsDifference(row[f].upstreams[name])
      decreases |todo|
    {
      var f :| f in todo;
      todo := todo - {f};
      var more := DifferingInItem(row[f]);
      names := names + more;
    }
  }

  /** channelHasDiff. */
  method DifferingChannels(d: Differences) returns (names: set<string>)
    ensures forall name :: name in names <==> exists m, f :: DiffersIn(d, name, m, f)
  {
    names := {};
    var todo := d.Keys;
    while todo != {}
      invariant todo <= d.Keys
      invariant forall name :: name in names <==> exists m, f :: m !in todo && DiffersIn(d, name, m, f)
      decreases |todo|
    {
      var m :| m in todo;
      ghost var before := todo;
      todo := todo - {m};
      var more := DifferingInRow(d[m]);
      forall name ensures name in names + more <==> exists m, f :: m !in todo && DiffersIn(d, name, m, f) {
        if name in more {
          var f :| f in d[m] && name in d[m][f].upstreams && IsDifference(d[m][f].upstreams[name]);
          assert DiffersIn(d, name, m, f);
        } else if name in names {
          var m', f :| m' !in before && DiffersIn(d, name, m', f);
        }
      }
      names := names + more;
    }
  }

  /** The second pass over one model. */
  method PruneRow(row: map<string, Item>, keep: set<string>) returns (pruned: map<string, Item>)
    ensures forall f :: f in pruned <==> f in row && Interesting(Restricted(row[f], keep))
    ensures forall f :: f in pruned ==> pruned[f] == Restricted(row[f], keep)
  {
    pruned := row;
    var todo := row.Keys;
    while todo != {}
      invariant todo <= row.Keys && pruned.Keys <= row.Keys
      invariant forall f :: f in todo ==> f in pruned && pruned[f] == row[f]
      invariant forall f :: f in row && f !in todo ==> (f in pruned <==> Interesting(Restricted(row[f], keep)))
      invariant forall f :: f in pruned && f !in todo ==> pruned[f] == Restricted(row[f], keep)
      decreases |todo|
    {
      var f :| f in todo;
      todo := todo - {f};
      var item := PruneItem(row[f], keep);
      var different := AnyDifferent(item.upstreams);
      if |item.upstreams| == 0 || !different {
        pruned := pruned - {f};
      } else {
        pruned := pruned[f := item];
      }
    }
  }

  method PruneItem(item: Item, keep: set<string>) returns (pruned: Item)
    ensures pruned == Restricted(item, keep)
  {
    var upstreams, todo := item.upstreams, item.upstreams.Keys;
    while todo != {}
      invariant todo <= item.upstreams.Keys && upstreams.Keys <= item.upstreams.Keys
      invariant forall name :: name in upstreams ==> upstreams[name] == item.upstreams[name]
      invariant forall name :: name in item.upstreams ==> (name in upstreams <==> name in todo || name in keep)
      decreases |todo|
    {
      var name :| name in todo;
      todo := todo - {name};
      if name !in keep { upstreams := upstreams - {name}; }
    }
    pruned := item.(upstreams := upstreams);
  }

  method AnyDifferent(upstreams: map<string, Value>) returns (found: bool)
    ensures found <==> exists name :: name in upstreams && upstreams[name] != SAME
  {
    found := false;
    var todo := upstreams.Keys;
    while todo != {} && !found
      invariant todo <= upstreams.Keys
      invariant found ==> exists name :: name in upstreams && upstreams[name] != SAME
      invariant !found ==> forall name :: name in upstreams && name !in todo ==> upstreams[name] == SAME
      decreases |todo|
    {
      var name :| name in todo;
      todo := todo - {name};
      if upstreams[name] != SAME { found := true; }
    }
  }

  /** The second pass. */
  method Prune(d: Differences, keep: set<string>) returns (pruned: Differences)
    ensures forall m, f :: (m in pruned && f in pruned[m]) <==> m in d && f in d[m] && Interesting(Restricted(d[m][f], keep))
    ensures forall m, f :: m in pruned && f in pruned[m] ==> pruned[m][f] == Restricted(d[m][f], keep)
    ensures NoEmptyRow(pruned)
  {
    pruned := map[];
    var todo := d.Keys;
    while todo != {}
      invariant todo <= d.Keys && NoEmptyRow(pruned)
      invariant forall m, f :: (m in pruned && f in pruned[m]) <==> m in d && m !in todo && f in d[m] && Interesting(Restricted(d[m][f], keep))
      invariant forall m, f :: m in pruned && f in pruned[m] ==> pruned[m][f] == Restricted(d[m][f], keep)
      decreases |todo|
    {
      hide Interesting, Restricted;
      var m :| m in todo;
      todo := todo - {m};
      var row := PruneRow(d[m], keep);
      if |row| != 0 { pruned := pruned[m := row]; }
    }
  }

  // ---- what the result means ----

  /** The channel whose values are kept under its name: a later one of the same name replaces an earlier one. */
  ghost predicate IsLast(channels: seq<Channel>, i: nat, n: nat)
    requires n <= |channels|
  {
    i < n && forall j :: i < j < n ==> channels[j].name != channels[i].name
  }

  ghost predicate DistinctNames(channels: seq<Channel>) {
    forall i, j :: 0 <= i < j < |channels| ==> channels[i].name != channels[j].name
  }

  /** The channel supplies a proper value, and there is no local one or it is another. */
  ghost predicate Differs(localData: Table, c: Channel, field: string, model: string) {
    var local, v := Lookup(localData, field, model), Lookup(c.data, field, model);
    Has(c.data, field, model) && !v.Null? && v != SAME && (local.Null? || !ValuesEqual(local, v))
  }

  ghost predicate DiffersAnywhere(localData: Table, c: Channel) {
    exists f, m :: f in FIELDS && Differs(localData, c, f, m)
  }

  /** The channel supplies null, or literally the text "same", against another local value. */
  ghost predicate SuppliesOddly(localData: Table, c: Channel, field: string, model: string) {
    var local, v := Lookup(localData, field, model), Lookup(c.data, field, model);
    Has(c.data, field, model) && !local.Null? && !ValuesEqual(local, v) && (v.Null? || v == SAME)
  }

  /**
    When a pair is reported: some channel that is shown differs on it; or there
    is a local value, some channel raises the flag by another value, by null or
    by "same", and a channel that is shown and differs elsewhere has nothing
    here.
  */
  ghost predicate Survives(localData: Table, channels: seq<Channel>, field: string, model: string) {
    field in FIELDS &&
    ((exists i :: 0 <= i < |channels| && IsLast(channels, i, |channels|) && Differs(localData, channels[i], field, model))
     || (!Lookup(localData, field, model).Null?
         && (exists i :: 0 <= i < |channels|
               && (Differs(localData, channels[i], field, model) || SuppliesOddly(localData, channels[i], field, model)))
         && (exists i :: 0 <= i < |channels| && IsLast(channels, i, |channels|)
               && DiffersAnywhere(localData, channels[i]) && Lookup(channels[i].data, field, model).Null?)))
  }

  lemma ShownIs(localData: Table, c: Channel, f: string, m: string)
    ensures var local := Lookup(localData, f, m);
            && (IsDifference(Shown(local, c, f, m)) <==> Differs(localData, c, f, m))
            && (Flags(local, c, f, m) <==> Differs(localData, c, f, m) || SuppliesOddly(localData, c, f, m))
            && (Shown(local, c, f, m) != SAME <==>
                  Differs(localData, c, f, m) || (!local.Null? && Lookup(c.data, f, m).Null?))
  {
    hide NormalizeValue;
  }

  /** What a table says about a pair, as a number of whatever kind. */
  ghost predicate SaysNumber(data: Table, field: string, model: string, x: real) {
    Has(data, field, model) && (data[field][model] == Num(x) || exists n :: n as real == x && data[field][model] == Integer(n))
  }

  /** Two numbers of a price field differ exactly if they are a billionth apart, whatever their kinds. */
  lemma NumbersAreCompared(localData: Table, c: Channel, field: string, model: string, x: real, y: real)
    requires field in NUMERIC_FIELDS && SaysNumber(localData, field, model, x) && SaysNumber(c.data, field, model, y)
    ensures Differs(localData, c, field, model) <==> x - y >= 0.000000001 || y - x >= 0.000000001
  {
    hide NUMERIC_FIELDS;
    if n :| n as real == x && localData[field][model] == Integer(n) {
      assert Lookup(localData, field, model) == Num(x);
    }
    if n :| n as real == y && c.data[field][model] == Integer(n) {
      assert Lookup(c.data, field, model) == Num(y);
    }
    assert Lookup(localData, field, model) == Num(x) && Lookup(c.data, field, model) == Num(y);
  }

  /** In the fields that hold no prices a whole number is never the same as a float. */
  lemma KindsMatterElsewhere(localData: Table, c: Channel, field: string, model: string, n: int, x: real)
    requires field !in NUMERIC_FIELDS && Has(localData, field, model) && Has(c.data, field, model)
    requires {localData[field][model], c.data[field][model]} == {Integer(n), Num(x)}
    ensures Differs(localData, c, field, model)
  {
    hide NUMERIC_FIELDS;
    assert localData[field][model] in {Integer(n), Num(x)} && c.data[field][model] in {Integer(n), Num(x)};
    assert Integer(n) in {localData[field][model], c.data[field][model]} && Num(x) in {localData[field][model], c.data[field][model]};
  }

  /** Two texts differ exactly if they are different, but for the text that stands for no difference. */
  lemma TextsAreCompared(localData: Table, c: Channel, field: string, model: string, a: string, b: string)
    requires Has(localData, field, model) && localData[field][model] == Str(a)
    requires Has(c.data, field, model) && c.data[field][model] == Str(b)
    ensures Differs(localData, c, field, model) <==> a != b && b != "same"
  {
  }

  /** A value nobody has here differs, unless it is null or that text. */
  lemma NewValuesDiffer(localData: Table, c: Channel, field: string, model: string)
    requires !Has(localData, field, model) && Has(c.data, field, model)
    ensures Differs(localData, c, field, model) <==> c.data[field][model] != Null && c.data[field][model] != Str("same")
  {
  }

  lemma {:induction false} UpstreamsAt(channels: seq<Channel>, n: nat, local: Value, field: string, model: string, i: nat)
    requires n <= |channels| && IsLast(channels, i, n)
    ensures var u := Upstreams(channels, n, local, field, model);
            channels[i].name in u && u[channels[i].name] == Shown(local, channels[i], field, model)
    decreases n
  {
    hide Shown;
    if i < n - 1 {
      assert channels[n - 1].name != channels[i].name;
      UpstreamsAt(channels, n - 1, local, field, model, i);
    }
  }

  lemma {:induction false} UpstreamsFrom(channels: seq<Channel>, n: nat, local: Value, field: string, model: string, name: string)
    requires n <= |channels| && name in Upstreams(channels, n, local, field, model)
    ensures exists i :: 0 <= i < n && IsLast(channels, i, n) && channels[i].name == name
    decreases n
  {
    hide Shown;
    if name == channels[n - 1].name {
      assert IsLast(channels, n - 1, n);
    } else {
      UpstreamsFrom(channels, n - 1, local, field, model, name);
      var i :| 0 <= i < n - 1 && IsLast(channels, i, n - 1) && channels[i].name == name;
      assert IsLast(channels, i, n);
    }
  }

  /** A pair with a difference is listed in the first pass. */
  lemma DiffersIsListed(localData: Table, channels: seq<Channel>, f: string, m: string, i: nat)
    requires i < |channels| && f in FIELDS
    requires Differs(localData, channels[i], f, m) || SuppliesOddly(localData, channels[i], f, m)
    ensures Listed(localData, channels, f, m)
  {
    hide Shown, Lookup, Has, FIELDS;
    ShownIs(localData, channels[i], f, m);
    assert Has(channels[i].data, f, m) by { HasIt(localData, channels[i], f, m); }
  }

  lemma HasIt(localData: Table, c: Channel, f: string, m: string)
    requires Differs(localData, c, f, m) || SuppliesOddly(localData, c, f, m)
    ensures Has(c.data, f, m)
  {
  }

  /** Every model any table mentions in one of the compared fields. */
  function ModelsIn(data: Table): set<string> {
    set f, m | f in FIELDS && f in data && m in data[f] :: m
  }

  function AllModels(localData: Table, channels: seq<Channel>): set<string> {
    ModelsIn(localData) + set i, m | 0 <= i < |channels| && m in ModelsIn(channels[i].data) :: m
  }

  lemma ListedModelIsKnown(localData: Table, channels: seq<Channel>, f: string, m: string)
    requires Listed(localData, channels, f, m)
    ensures m in AllModels(localData, channels)
  {
    hide Shown, Lookup;
    var local := Lookup(localData, f, m);
    if local.Null? {
      var i :| 0 <= i < |channels| && Has(channels[i].data, f, m);
      assert m in ModelsIn(channels[i].data);
    } else {
      var i :| 0 <= i < |channels| && Flags(local, channels[i], f, m);
      ShownIs(localData, channels[i], f, m);
      HasIt(localData, channels[i], f, m);
      assert m in ModelsIn(channels[i].data);
    }
  }

  /** The first pass as a fact about its result. */
  ghost predicate FirstPass(d: Differences, localData: Table, channels: seq<Channel>) {
    && (forall m, f :: (m in d && f in d[m]) <==> Listed(localData, channels, f, m))
    && (forall m, f :: m in d && f in d[m] ==> d[m][f] == ItemOf(localData, channels, f, m))
  }

  lemma ItemIs(localData: Table, channels: seq<Channel>, f: string, m: string)
    ensures var item := ItemOf(localData, channels, f, m);
            && (forall i :: 0 <= i < |channels| && IsLast(channels, i, |channels|) ==>
                  channels[i].name in item.upstreams
                  && item.upstreams[channels[i].name] == Shown(Lookup(localData, f, m), channels[i], f, m))
            && (forall name :: name in item.upstreams ==>
                  exists i :: 0 <= i < |channels| && IsLast(channels, i, |channels|) && channels[i].name == name)
  {
    var item, local := ItemOf(localData, channels, f, m), Lookup(localData, f, m);
    hide Upstreams, Shown, IsLast, Lookup;
    forall i | 0 <= i < |channels| && IsLast(channels, i, |channels|)
      ensures channels[i].name in item.upstreams && item.upstreams[channels[i].name] == Shown(local, channels[i], f, m)
    {
      UpstreamsAt(channels, |channels|, local, f, m, i);
    }
    forall name | name in item.upstreams
      ensures exists i :: 0 <= i < |channels| && IsLast(channels, i, |channels|) && channels[i].name == name
    {
      UpstreamsFrom(channels, |channels|, local, f, m, name);
    }
  }

  /** The channels kept by the second pass are those that differ somewhere. */
  lemma KeptChannel(d: Differences, localData: Table, channels: seq<Channel>, i: nat)
    requires FirstPass(d, localData, channels) && i < |channels| && IsLast(channels, i, |channels|)
    ensures (exists m, f :: DiffersIn(d, channels[i].name, m, f)) <==> DiffersAnywhere(localData, channels[i])
  {
    hide ItemOf, Listed, Differs, Shown, Lookup, IsLast;
    var c := channels[i];
    if m, f :| DiffersIn(d, c.name, m, f) {
      ItemIs(localData, channels, f, m);
      ShownIs(localData, c, f, m);
      assert f in FIELDS by { ListedField(localData, channels, f, m); }
    }
    if DiffersAnywhere(localData, c) {
      var f, m :| f in FIELDS && Differs(localData, c, f, m);
      DiffersIsListed(localData, channels, f, m, i);
      ItemIs(localData, channels, f, m);
      ShownIs(localData, c, f, m);
      assert DiffersIn(d, c.name, m, f);
    }
  }

  lemma ListedField(localData: Table, channels: seq<Channel>, f: string, m: string)
    requires Listed(localData, channels, f, m)
    ensures f in FIELDS
  {
  }

  /** Which listed pairs the second pass leaves. */
  lemma LeftAfterPruning(localData: Table, channels: seq<Channel>, keep: set<string>, f: string, m: string)
    requires forall i :: 0 <= i < |channels| && IsLast(channels, i, |channels|) ==>
               (channels[i].name in keep <==> DiffersAnywhere(localData, channels[i]))
    ensures Listed(localData, channels, f, m) && Interesting(Restricted(ItemOf(localData, channels, f, m), keep))
            <==> Survives(localData, channels, f, m)
  {
    var item := ItemOf(localData, channels, f, m);
    ItemIs(localData, channels, f, m);
    if Listed(localData, channels, f, m) && Interesting(Restricted(item, keep)) {
      InterestingSurvives(localData, channels, keep, f, m);
    }
    if Survives(localData, channels, f, m) {
      SurvivorIsInteresting(localData, channels, keep, f, m);
    }
  }

  lemma InterestingSurvives(localData: Table, channels: seq<Channel>, keep: set<string>, f: string, m: string)
    requires forall i :: 0 <= i < |channels| && IsLast(channels, i, |channels|) ==>
               (channels[i].name in keep <==> DiffersAnywhere(localData, channels[i]))
    requires Listed(localData, channels, f, m) && Interesting(Restricted(ItemOf(localData, channels, f, m), keep))
    ensures Survives(localData, channels, f, m)
  {
    hide Differs, SuppliesOddly, DiffersAnywhere, Shown, Lookup, Has, FIELDS, IsLast;
    var item, local := ItemOf(localData, channels, f, m), Lookup(localData, f, m);
    ItemIs(localData, channels, f, m);
    var name :| name in Restricted(item, keep).upstreams && Restricted(item, keep).upstreams[name] != SAME;
    var i :| 0 <= i < |channels| && IsLast(channels, i, |channels|) && channels[i].name == name;
    ShownIs(localData, channels[i], f, m);
    if !Differs(localData, channels[i], f, m) {
      var j :| 0 <= j < |channels| && Flags(local, channels[j], f, m);
      ShownIs(localData, channels[j], f, m);
    }
  }

  lemma SurvivorIsInteresting(localData: Table, channels: seq<Channel>, keep: set<string>, f: string, m: string)
    requires forall i :: 0 <= i < |channels| && IsLast(channels, i, |channels|) ==>
               (channels[i].name in keep <==> DiffersAnywhere(localData, channels[i]))
    requires Survives(localData, channels, f, m)
    ensures Listed(localData, channels, f, m) && Interesting(Restricted(ItemOf(localData, channels, f, m), keep))
  {
    hide Differs, SuppliesOddly, Shown, Lookup, Has, FIELDS, ItemOf, Listed, IsLast;
    var item := ItemOf(localData, channels, f, m);
    ItemIs(localData, channels, f, m);
    if i :| 0 <= i < |channels| && IsLast(channels, i, |channels|) && Differs(localData, channels[i], f, m) {
      DiffersIsListed(localData, channels, f, m, i);
      ShownIs(localData, channels[i], f, m);
      assert DiffersAnywhere(localData, channels[i]);
      assert Restricted(item, keep).upstreams[channels[i].name] != SAME;
    } else {
      var i :| 0 <= i < |channels| && (Differs(localData, channels[i], f, m) || SuppliesOddly(localData, channels[i], f, m));
      DiffersIsListed(localData, channels, f, m, i);
      var j :| 0 <= j < |channels| && IsLast(channels, j, |channels|) && DiffersAnywhere(localData, channels[j]) && Lookup(channels[j].data, f, m).Null?;
      ShownIs(localData, channels[j], f, m);
      assert Restricted(item, keep).upstreams[channels[j].name] != SAME;
    }
  }

  /**
    The whole comparison: a pair is reported exactly when it survives, each
    report shows the local value and, for exactly the channels that differ
    anywhere, what they have, and no model is left with an empty report.
  */
  method BuildDifferences(localData: Table, channels: seq<Channel>) returns (d: Differences)
    ensures forall m, f :: (m in d && f in d[m]) <==> Survives(localData, channels, f, m)
    ensures forall m, f, i :: m in d && f in d[m] && 0 <= i < |channels| && IsLast(channels, i, |channels|) ==>
              (channels[i].name in d[m][f].upstreams <==> DiffersAnywhere(localData, channels[i]))
    ensures forall m, f, i :: m in d && f in d[m] && 0 <= i < |channels| && IsLast(channels, i, |channels|) ==>
              channels[i].name in d[m][f].upstreams ==> d[m][f].upstreams[channels[i].name] == Shown(Lookup(localData, f, m), channels[i], f, m)
    ensures forall m, f, name :: m in d && f in d[m] && name in d[m][f].upstreams ==> exists i :: 0 <= i < |channels| && channels[i].name == name
    ensures forall m, f :: m in d && f in d[m] ==> d[m][f].current == Lookup(localData, f, m)
    ensures NoEmptyRow(d)
  {
    hide Survives, DiffersAnywhere, Shown, Lookup, Interesting, FIELDS, Listed, IsLast;
    var first := CompareModels(localData, channels, AllModels(localData, channels));
    forall m, f ensures (m in first && f in first[m]) <==> Listed(localData, channels, f, m) {
      if Listed(localData, channels, f, m) { ListedModelIsKnown(localData, channels, f, m); }
    }
    var keep := DifferingChannels(first);
    forall i | 0 <= i < |channels| && IsLast(channels, i, |channels|)
      ensures channels[i].name in keep <==> DiffersAnywhere(localData, channels[i])
    {
      KeptChannel(first, localData, channels, i);
    }
    d := Prune(first, keep);
    forall m, f ensures (m in d && f in d[m]) <==> Survives(localData, channels, f, m) {
      LeftAfterPruning(localData, channels, keep, f, m);
    }
    forall m, f | m in d && f in d[m] ensures d[m][f] == Restricted(ItemOf(localData, channels, f, m), keep) { }
    forall m, f, i | m in d && f in d[m] && 0 <= i < |channels| && IsLast(channels, i, |channels|)
      ensures channels[i].name in d[m][f].upstreams <==> DiffersAnywhere(localData, channels[i])
      ensures channels[i].name in d[m][f].upstreams ==>
                d[m][f].upstreams[channels[i].name] == Shown(Lookup(localData, f, m), channels[i], f, m)
    {
      ItemIs(localData, channels, f, m);
    }
    forall m, f, name | m in d && f in d[m] && name in d[m][f].upstreams ensures exists i :: 0 <= i < |channels| && channels[i].name == name {
      ItemIs(localData, channels, f, m);
      assert name in ItemOf(localData, channels, f, m).upstreams;
      var i :| 0 <= i < |channels| && IsLast(channels, i, |channels|) && channels[i].name == name;
    }
  }

  /** With distinct names, no null values and no literal text "same", a pair is reported exactly when some channel differs. */
  lemma ReportedIffSomeChannelDiffers(localData: Table, channels: seq<Channel>, field: string, model: string)
    requires field in FIELDS && DistinctNames(channels)
    requires forall i :: 0 <= i < |channels| && Has(channels[i].data, field, model) ==>
               !Lookup(channels[i].data, field, model).Null? && Lookup(channels[i].data, field, model) != SAME
    ensures Survives(localData, channels, field, model) <==>
              exists i :: 0 <= i < |channels| && Differs(localData, channels[i], field, model)
  {
    hide Lookup, FIELDS, ValuesEqual;
    forall i | 0 <= i < |channels| ensures IsLast(channels, i, |channels|) { }
  }

  /** Of two channels with one name only the later is looked at: a difference of the earlier one is not reported. */
  lemma SameNameHides(localData: Table, a: Channel, b: Channel, field: string, model: string)
    requires field in FIELDS && a.name == b.name && !DiffersAnywhere(localData, b)
    ensures !Survives(localData, [a, b], field, model)
  {
    var channels := [a, b];
    assert !IsLast(channels, 0, 2) by { assert channels[1].name == channels[0].name; }
    hide Lookup, FIELDS, Differs, SuppliesOddly;
    forall i | 0 <= i < |channels| && IsLast(channels, i, |channels|) ensures channels[i] == b { }
  }

  function OnePrice(model: string, v: Value): Table {
    map["model_ratio" := map[model := v]]
  }

  /** With a null value the report is not about a difference: nobody offers another price for "m", yet it is reported. */
  lemma NullExample()
    ensures var local := OnePrice("m", Num(5.0));
            var channels := [Channel("a", OnePrice("m", Null)), Channel("b", OnePrice("k", Num(7.0)))];
            && DistinctNames(channels) && Survives(local, channels, "model_ratio", "m")
            && forall i :: 0 <= i < |channels| ==> !Differs(local, channels[i], "model_ratio", "m")
  {
    var local := OnePrice("m", Num(5.0));
    var channels := [Channel("a", OnePrice("m", Null)), Channel("b", OnePrice("k", Num(7.0)))];
    assert "model_ratio" in FIELDS by { assert FIELDS[0] == "model_ratio"; }
    assert SuppliesOddly(local, channels[0], "model_ratio", "m");
    assert Differs(local, channels[1], "model_ratio", "k");
    assert DiffersAnywhere(local, channels[1]) && Lookup(channels[1].data, "model_ratio", "m").Null?;
  }
}
