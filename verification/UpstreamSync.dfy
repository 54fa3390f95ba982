/**
  Keeping a channel's model list in step with its upstream: detect what is
  missing or gone, let an administrator apply it, detect again. Model lists are
  ordered, trimmed and free of repetitions; a channel stores its list as one
  comma-separated text.
*/
module UpstreamSync {
  import opened Common
  import opened Text

  function Elems(names: seq<string>): set<string> {
    set x | x in names
  }

  /** Trimmed, without empty names, each once at its first position. */
  function Normalize(names: seq<string>): seq<string> {
    if names == [] then []
    else
      var done, last := Normalize(names[..|names| - 1]), TrimSpace(names[|names| - 1]);
      if last == "" || last in done then done else done + [last]
  }

  function Without(names: seq<string>, removed: set<string>): seq<string> {
    if names == [] then []
    else Without(names[..|names| - 1], removed) + if names[|names| - 1] in removed then [] else [names[|names| - 1]]
  }

  function Within(names: seq<string>, allowed: set<string>): seq<string> {
    if names == [] then []
    else Within(names[..|names| - 1], allowed) + if names[|names| - 1] in allowed then [names[|names| - 1]] else []
  }

  function Merge(base: seq<string>, appended: seq<string>): seq<string> {
    Normalize(base) + Without(Normalize(appended), Elems(Normalize(base)))
  }

  function Subtract(base: seq<string>, removed: seq<string>): seq<string> {
    Without(Normalize(base), Elems(Normalize(removed)))
  }

  function Intersect(base: seq<string>, allowed: seq<string>): seq<string> {
    Within(Normalize(base), Elems(Normalize(allowed)))
  }

  /** Add wins when the same model is selected for both. */
  function ApplySelected(origin: seq<string>, add: seq<string>, remove: seq<string>): seq<string> {
    var normalizedAdd := Normalize(add);
    var normalizedRemove := Subtract(Normalize(remove), normalizedAdd);
    Subtract(Merge(origin, normalizedAdd), normalizedRemove)
  }

  /** Whether a regular expression matches a name; one that does not compile matches nothing. */
  type Matcher = (string, string) -> bool

  const REGEX_PREFIX := "regex:"

  predicate RuleHits(rule: string, name: string, regex: Matcher) {
    if REGEX_PREFIX <= rule then regex(TrimSpace(rule[|REGEX_PREFIX|..]), name) else rule == name
  }

  predicate Ignored(rules: set<string>, name: string, regex: Matcher) {
    exists rule :: rule in rules && RuleHits(rule, name, regex)
  }

  function NotIgnored(names: seq<string>, rules: set<string>, regex: Matcher): seq<string> {
    if names == [] then []
    else NotIgnored(names[..|names| - 1], rules, regex) +
         if Ignored(rules, names[|names| - 1], regex) then [] else [names[|names| - 1]]
  }

  /** Upstream names that are neither listed, nor targets of a redirect, nor ignored. */
  function PendingAdd(local: seq<string>, upstream: seq<string>, ignored: seq<string>, mapping: map<string, string>, regex: Matcher): seq<string> {
    Normalize(NotIgnored(Without(Normalize(upstream), Elems(Normalize(local)) + mapping.Values), Elems(Normalize(ignored)), regex))
  }

  /** Listed names that upstream does not have and that are not sources of a redirect. */
  function PendingRemove(local: seq<string>, upstream: seq<string>, mapping: map<string, string>): seq<string> {
    Normalize(Without(Normalize(local), mapping.Keys + Elems(Normalize(upstream))))
  }

  // ---- the channel record ----

  function GetModels(models: string): seq<string> {
    if models == "" then [] else ReadList(models, ',')
  }

  datatype Settings = Settings(models: string, ignored: seq<string>, detected: seq<string>, removed: seq<string>, lastCheck: int, autoSync: bool)

  /** One detection with the list upstream returned. */
  function Detected(s: Settings, upstream: seq<string>, mapping: map<string, string>, regex: Matcher, now: int, allowAutoApply: bool): Settings {
    var add := PendingAdd(GetModels(s.models), upstream, s.ignored, mapping, regex);
    var remove := PendingRemove(GetModels(s.models), upstream, mapping);
    if allowAutoApply && s.autoSync && |add| > 0 then
      var origin := Normalize(GetModels(s.models));
      var merged := Merge(origin, add);
      s.(models := if |merged| > |origin| then Join(merged, ',') else s.models, detected := [], removed := remove, lastCheck := now)
    else s.(detected := add, removed := remove, lastCheck := now)
  }

  /** Applying the selected part of the pending changes. */
  function Applied(s: Settings, addInput: seq<string>, ignoreInput: seq<string>, removeInput: seq<string>, now: int): Settings {
    var pendingAdd, pendingRemove := Normalize(s.detected), Normalize(s.removed);
    var add, ignore := Intersect(addInput, pendingAdd), Intersect(ignoreInput, pendingAdd);
    var remove := Subtract(Intersect(removeInput, pendingRemove), add);
    var origin := Normalize(GetModels(s.models));
    var next := ApplySelected(origin, add, remove);
    var ignored := Merge(s.ignored, ignore);
    Settings(if next == origin then s.models else Join(next, ','),
             if |add| > 0 then Subtract(ignored, add) else ignored,
             Subtract(pendingAdd, add + ignore),
             Subtract(pendingRemove, remove),
             now, s.autoSync)
  }

  lemma MergeStep(base: seq<string>, rest: seq<string>, i: nat)
    requires Normal(rest) && i < |rest|
    ensures Without(rest[..i + 1], Elems(base)) == Without(rest[..i], Elems(base)) + (if rest[i] in Elems(base) then [] else [rest[i]])
    ensures rest[i] in base + Without(rest[..i], Elems(base)) <==> rest[i] in Elems(base)
  {
    assert rest[i] !in rest[..i];
    hide TrimSpace, Normal;
    assert rest[..i + 1][..i] == rest[..i];
    WithoutElems(rest[..i], Elems(base));
  }

  /** The loop of mergeModelNames. */
  method MergeModelNames(base: seq<string>, appended: seq<string>) returns (merged: seq<string>)
    ensures merged == Merge(base, appended)
  {
    var first, rest := Normalize(base), Normalize(appended);
    NormalizeIsNormal(appended);
    assert Without(rest[..0], Elems(first)) == [];
    hide Normalize, Normal, Without;
    merged := first;
    var seen := Elems(merged);
    for i := 0 to |rest|
      invariant merged == first + Without(rest[..i], Elems(first))
      invariant seen == Elems(merged)
    {
      MergeStep(first, rest, i);
      if rest[i] in seen { continue; }
      seen := seen + {rest[i]};
      merged := merged + [rest[i]];
    }
    assert rest[..|rest|] == rest;
  }

  // ---- normal lists ----

  ghost predicate Normal(names: seq<string>) {
    && (forall i :: 0 <= i < |names| ==> names[i] != "" && TrimSpace(names[i]) == names[i])
    && (forall i, j :: 0 <= i < j < |names| ==> names[i] != names[j])
  }

  lemma {:induction false} NormalizeIsNormal(names: seq<string>)
    ensures Normal(Normalize(names))
    ensures forall x :: x in Normalize(names) ==> exists i :: 0 <= i < |names| && TrimSpace(names[i]) == x
    decreases |names|
  {
    hide TrimSpace;
    if names != [] {
      NormalizeIsNormal(names[..|names| - 1]);
      TrimSpaceTwice(names[|names| - 1]);
      forall x | x in Normalize(names) ensures exists i :: 0 <= i < |names| && TrimSpace(names[i]) == x {
        if x in Normalize(names[..|names| - 1]) {
          var i :| 0 <= i < |names| - 1 && TrimSpace(names[..|names| - 1][i]) == x;
          assert TrimSpace(names[i]) == x;
        } else {
          assert TrimSpace(names[|names| - 1]) == x;
        }
      }
    }
  }

  lemma {:induction false} NormalStays(names: seq<string>)
    requires Normal(names)
    ensures Normalize(names) == names
    decreases |names|
  {
    hide TrimSpace;
    if names != [] {
      NormalStays(names[..|names| - 1]);
      assert names == names[..|names| - 1] + [names[|names| - 1]];
    }
  }

  lemma {:induction false} WithoutElems(names: seq<string>, removed: set<string>)
    ensures forall x :: x in Without(names, removed) <==> x in names && x !in removed
    decreases |names|
  {
    if names != [] {
      WithoutElems(names[..|names| - 1], removed);
      assert names == names[..|names| - 1] + [names[|names| - 1]];
    }
  }

  lemma {:induction false} WithinElems(names: seq<string>, allowed: set<string>)
    ensures forall x :: x in Within(names, allowed) <==> x in names && x in allowed
    decreases |names|
  {
    if names != [] {
      WithinElems(names[..|names| - 1], allowed);
      assert names == names[..|names| - 1] + [names[|names| - 1]];
    }
  }

  lemma {:induction false} NotIgnoredElems(names: seq<string>, rules: set<string>, regex: Matcher)
    ensures forall x :: x in NotIgnored(names, rules, regex) <==> x in names && !Ignored(rules, x, regex)
    decreases |names|
  {
    hide Ignored;
    if names != [] {
      NotIgnoredElems(names[..|names| - 1], rules, regex);
      assert names == names[..|names| - 1] + [names[|names| - 1]];
    }
  }

  lemma NormalAppend(names: seq<string>, last: string)
    requires Normal(names) && last != "" && TrimSpace(last) == last && last !in names
    ensures Normal(names + [last])
  {
    hide TrimSpace;
  }

  lemma NormalPrefix(names: seq<string>)
    requires Normal(names) && names != []
    ensures var rest, last := names[..|names| - 1], names[|names| - 1];
            Normal(rest) && last != "" && TrimSpace(last) == last && last !in rest
  {
    hide TrimSpace;
  }

  /** Filtering keeps lists normal. */
  lemma {:induction false} WithoutNormal(names: seq<string>, removed: set<string>)
    requires Normal(names)
    ensures Normal(Without(names, removed))
    decreases |names|
  {
    if names != [] {
      hide Normal, TrimSpace;
      var rest, last := names[..|names| - 1], names[|names| - 1];
      NormalPrefix(names);
      WithoutNormal(rest, removed);
      WithoutElems(rest, removed);
      if last !in removed { NormalAppend(Without(rest, removed), last); }
    }
  }

  lemma {:induction false} WithinNormal(names: seq<string>, allowed: set<string>)
    requires Normal(names)
    ensures Normal(Within(names, allowed))
    decreases |names|
  {
    if names != [] {
      hide Normal, TrimSpace;
      var rest, last := names[..|names| - 1], names[|names| - 1];
      NormalPrefix(names);
      WithinNormal(rest, allowed);
      WithinElems(rest, allowed);
      if last in allowed { NormalAppend(Within(rest, allowed), last); }
    }
  }

  lemma {:induction false} NotIgnoredNormal(names: seq<string>, rules: set<string>, regex: Matcher)
    requires Normal(names)
    ensures Normal(NotIgnored(names, rules, regex))
    decreases |names|
  {
    if names != [] {
      hide Normal, TrimSpace, Ignored;
      var rest, last := names[..|names| - 1], names[|names| - 1];
      NormalPrefix(names);
      NotIgnoredNormal(rest, rules, regex);
      NotIgnoredElems(rest, rules, regex);
      if !Ignored(rules, last, regex) { NormalAppend(NotIgnored(rest, rules, regex), last); }
    }
  }

  // ---- the list operations as sets ----

  lemma NormalConcat(a: seq<string>, b: seq<string>)
    requires Normal(a) && Normal(b) && forall x :: x in a ==> x !in b
    ensures Normal(a + b)
  {
    hide TrimSpace;
    var c := a + b;
    forall i, j | 0 <= i < j < |c| ensures c[i] != c[j] {
      if i < |a| <= j { assert a[i] in a && b[j - |a|] in b; }
    }
  }

  lemma MergeIs(base: seq<string>, appended: seq<string>)
    ensures Normal(Merge(base, appended))
    ensures forall x :: x in Merge(base, appended) <==> x in Normalize(base) || x in Normalize(appended)
  {
    hide Normalize, Normal;
    NormalizeIsNormal(base);
    NormalizeIsNormal(appended);
    var more := Without(Normalize(appended), Elems(Normalize(base)));
    WithoutElems(Normalize(appended), Elems(Normalize(base)));
    WithoutNormal(Normalize(appended), Elems(Normalize(base)));
    NormalConcat(Normalize(base), more);
  }

  lemma SubtractIs(base: seq<string>, removed: seq<string>)
    ensures Normal(Subtract(base, removed))
    ensures forall x :: x in Subtract(base, removed) <==> x in Normalize(base) && x !in Normalize(removed)
  {
    hide Normalize, Normal;
    NormalizeIsNormal(base);
    WithoutElems(Normalize(base), Elems(Normalize(removed)));
    WithoutNormal(Normalize(base), Elems(Normalize(removed)));
  }

  lemma IntersectIs(base: seq<string>, allowed: seq<string>)
    ensures Normal(Intersect(base, allowed))
    ensures forall x :: x in Intersect(base, allowed) <==> x in Normalize(base) && x in Normalize(allowed)
  {
    hide Normalize, Normal;
    NormalizeIsNormal(base);
    WithinElems(Normalize(base), Elems(Normalize(allowed)));
    WithinNormal(Normalize(base), Elems(Normalize(allowed)));
  }

  /** Applying a selection keeps what is listed and not removed, and everything added: add wins over remove. */
  lemma ApplySelectedIs(origin: seq<string>, add: seq<string>, remove: seq<string>)
    ensures Normal(ApplySelected(origin, add, remove))
    ensures forall x :: x in ApplySelected(origin, add, remove) <==>
              x in Normalize(add) || (x in Normalize(origin) && x !in Normalize(remove))
  {
    hide Normalize, Normal, Merge, Subtract;
    var a := Normalize(add);
    var r := Subtract(Normalize(remove), a);
    NormalizeIsNormal(add);
    NormalizeIsNormal(remove);
    NormalStays(a);
    NormalStays(Normalize(remove));
    SubtractIs(Normalize(remove), a);
    NormalStays(r);
    MergeIs(origin, a);
    NormalStays(Merge(origin, a));
    SubtractIs(Merge(origin, a), r);
  }

  /** Exactly the unlisted, uncovered, not ignored upstream names become pending; an ignored one never does. */
  lemma PendingAddIs(local: seq<string>, upstream: seq<string>, ignored: seq<string>, mapping: map<string, string>, regex: Matcher)
    ensures var add := PendingAdd(local, upstream, ignored, mapping, regex);
            && Normal(add)
            && forall x :: x in add <==>
                 && x in Normalize(upstream) && x !in Normalize(local) && x !in mapping.Values
                 && !Ignored(Elems(Normalize(ignored)), x, regex)
  {
    hide Normalize, Normal, Ignored;
    var covered, rules := Elems(Normalize(local)) + mapping.Values, Elems(Normalize(ignored));
    var w := Without(Normalize(upstream), covered);
    NormalizeIsNormal(upstream);
    WithoutElems(Normalize(upstream), covered);
    WithoutNormal(Normalize(upstream), covered);
    NotIgnoredElems(w, rules, regex);
    NotIgnoredNormal(w, rules, regex);
    NormalStays(NotIgnored(w, rules, regex));
  }

  /** Exactly the listed names upstream lacks become pending for removal; the source of a redirect never does. */
  lemma PendingRemoveIs(local: seq<string>, upstream: seq<string>, mapping: map<string, string>)
    ensures var remove := PendingRemove(local, upstream, mapping);
            && Normal(remove)
            && forall x :: x in remove <==> x in Normalize(local) && x !in mapping.Keys && x !in Normalize(upstream)
  {
    hide Normalize, Normal;
    var kept := mapping.Keys + Elems(Normalize(upstream));
    NormalizeIsNormal(local);
    WithoutElems(Normalize(local), kept);
    WithoutNormal(Normalize(local), kept);
    NormalStays(Without(Normalize(local), kept));
  }

  // ---- the stored text ----

  ghost predicate NoComma(names: seq<string>) {
    forall i :: 0 <= i < |names| ==> Lacks(names[i], ',')
  }

  lemma ModelsHaveNoComma(models: string)
    ensures NoComma(Normalize(GetModels(models)))
  {
    hide Normalize, TrimSpace, ReadList;
    var list := GetModels(models);
    NormalizeIsNormal(list);
    assert AllLack(list, ',') by { ReadListLacks(models); }
    forall i | 0 <= i < |Normalize(list)| ensures Lacks(Normalize(list)[i], ',') {
      assert Normalize(list)[i] in Normalize(list);
      var j :| 0 <= j < |list| && TrimSpace(list[j]) == Normalize(list)[i];
      TrimSpaceLacks(list[j], ',');
    }
  }

  lemma ReadListLacks(models: string)
    ensures AllLack(ReadList(models, ','), ',')
  {
  }

  lemma ModelsReadBack(names: seq<string>)
    requires Normal(names) && NoComma(names)
    ensures Normalize(GetModels(Join(names, ','))) == names
  {
    hide Normalize, TrimSpace;
    NormalStays(names);
    if names != [] {
      ReadBack(names, ',');
      JoinLast(names, ',');
    }
  }

  // ---- what ignore rules hide ----

  lemma IgnoredIs(rules: set<string>, x: string, regex: Matcher)
    ensures Ignored(rules, x, regex) <==>
              (x in rules && !("regex:" <= x)) || exists p :: "regex:" + p in rules && regex(TrimSpace(p), x)
  {
    hide TrimSpace;
    if rule :| rule in rules && RuleHits(rule, x, regex) {
      if "regex:" <= rule {
        var p := rule[6..];
        assert rule == "regex:" + p;
      }
    }
    if x in rules && !("regex:" <= x) { assert RuleHits(x, x, regex); }
    if p :| "regex:" + p in rules && regex(TrimSpace(p), x) {
      assert ("regex:" + p)[6..] == p;
      assert RuleHits("regex:" + p, x, regex);
    }
  }

  /**
    An upstream name is offered exactly if it is new here, is no redirect
    target, is not itself a plain ignore rule, and is matched by no pattern of
    a rule "regex:" followed by it.
  */
  lemma OfferedExactly(local: seq<string>, upstream: seq<string>, ignored: seq<string>, mapping: map<string, string>, regex: Matcher, x: string)
    ensures x in PendingAdd(local, upstream, ignored, mapping, regex) <==>
              && x in Normalize(upstream) && x !in Normalize(local) && x !in mapping.Values
              && (x in Normalize(ignored) ==> "regex:" <= x)
              && (forall p :: "regex:" + p in Normalize(ignored) ==> !regex(TrimSpace(p), x))
  {
    hide Normalize, Normal, PendingAdd, Ignored, TrimSpace;
    PendingAddIs(local, upstream, ignored, mapping, regex);
    IgnoredIs(Elems(Normalize(ignored)), x, regex);
  }

  /** Without patterns among the rules, exactly the ignored names themselves are hidden. */
  lemma PlainRulesHideThemselves(local: seq<string>, upstream: seq<string>, ignored: seq<string>, mapping: map<string, string>, regex: Matcher, x: string)
    requires forall rule :: rule in Normalize(ignored) ==> !("regex:" <= rule)
    ensures x in PendingAdd(local, upstream, ignored, mapping, regex) <==>
              x in Normalize(upstream) && x !in Normalize(local) && x !in mapping.Values && x !in Normalize(ignored)
  {
    OfferedExactly(local, upstream, ignored, mapping, regex, x);
    hide Normalize, PendingAdd, TrimSpace;
    forall p ensures "regex:" + p !in Normalize(ignored) {
      assert "regex:" <= "regex:" + p;
    }
  }

  // ---- what the list operations keep, and in which order ----

  lemma IncreasingGrows(at: seq<nat>, n: nat)
    requires Increasing(at, n)
    ensures Increasing(at, n + 1) && Increasing(at + [n], n + 1)
  {
  }

  /** Place `n` is where the name `x` comes first. */
  ghost predicate ComesFirst(names: seq<string>, x: string, n: nat) {
    n < |names| && TrimSpace(names[n]) == x && forall j :: 0 <= j < n ==> TrimSpace(names[j]) != x
  }

  lemma {:induction false} NormalizeHas(names: seq<string>, i: nat)
    requires i < |names| && TrimSpace(names[i]) != ""
    ensures TrimSpace(names[i]) in Normalize(names)
    decreases |names|
  {
    hide TrimSpace;
    if i < |names| - 1 { NormalizeHas(names[..|names| - 1], i); }
  }

  lemma StillComesFirst(names: seq<string>, x: string, n: nat)
    requires names != [] && ComesFirst(names[..|names| - 1], x, n)
    ensures ComesFirst(names, x, n)
  {
    hide TrimSpace;
    assert forall j :: 0 <= j <= n ==> names[..|names| - 1][j] == names[j];
  }

  lemma LastComesFirst(names: seq<string>)
    requires names != [] && TrimSpace(names[|names| - 1]) != "" && TrimSpace(names[|names| - 1]) !in Normalize(names[..|names| - 1])
    ensures ComesFirst(names, TrimSpace(names[|names| - 1]), |names| - 1)
  {
    hide TrimSpace, Normalize;
    var n := |names| - 1;
    forall j | 0 <= j < n ensures TrimSpace(names[j]) != TrimSpace(names[n]) {
      assert names[..n][j] == names[j];
      if TrimSpace(names[j]) == TrimSpace(names[n]) { NormalizeHas(names[..n], j); }
    }
  }

  /** Normalising keeps every visible name, trimmed, at the place where it comes first. */
  lemma {:induction false} NormalizeKeeps(names: seq<string>) returns (at: seq<nat>)
    ensures |at| == |Normalize(names)| && Increasing(at, |names|)
    ensures forall i :: 0 <= i < |at| ==> ComesFirst(names, Normalize(names)[i], at[i])
    ensures forall i :: 0 <= i < |names| && TrimSpace(names[i]) != "" ==> TrimSpace(names[i]) in Normalize(names)
    decreases |names|
  {
    hide TrimSpace, ComesFirst;
    forall i | 0 <= i < |names| && TrimSpace(names[i]) != "" ensures TrimSpace(names[i]) in Normalize(names) { NormalizeHas(names, i); }
    if names == [] {
      at := [];
    } else {
      var n := |names| - 1;
      var done, last := Normalize(names[..n]), TrimSpace(names[n]);
      at := NormalizeKeeps(names[..n]);
      assert Normalize(names) == if last == "" || last in done then done else done + [last];
      hide Normalize, Increasing;
      IncreasingGrows(at, n);
      forall i | 0 <= i < |at| ensures ComesFirst(names, done[i], at[i]) { StillComesFirst(names, done[i], at[i]); }
      if last != "" && last !in done {
        LastComesFirst(names);
        at := at + [n];
      }
    }
  }

  lemma {:induction false} WithoutKeepsOrder(names: seq<string>, removed: set<string>) returns (at: seq<nat>)
    ensures |at| == |Without(names, removed)| && Increasing(at, |names|)
    ensures forall i :: 0 <= i < |at| ==> names[at[i]] == Without(names, removed)[i]
    decreases |names|
  {
    if names == [] {
      at := [];
    } else {
      var n := |names| - 1;
      at := WithoutKeepsOrder(names[..n], removed);
      IncreasingGrows(at, n);
      if names[n] !in removed { at := at + [n]; }
    }
  }

  lemma {:induction false} WithinKeepsOrder(names: seq<string>, allowed: set<string>) returns (at: seq<nat>)
    ensures |at| == |Within(names, allowed)| && Increasing(at, |names|)
    ensures forall i :: 0 <= i < |at| ==> names[at[i]] == Within(names, allowed)[i]
    decreases |names|
  {
    if names == [] {
      at := [];
    } else {
      var n := |names| - 1;
      at := WithinKeepsOrder(names[..n], allowed);
      IncreasingGrows(at, n);
      if names[n] in allowed { at := at + [n]; }
    }
  }

  /** Merging appends: the first list, and then what is new of the second, in its order. */
  lemma MergeKeepsOrder(base: seq<string>, appended: seq<string>) returns (at: seq<nat>)
    ensures Normalize(base) <= Merge(base, appended)
    ensures |at| == |Merge(base, appended)| - |Normalize(base)| && Increasing(at, |Normalize(appended)|)
    ensures forall i :: 0 <= i < |at| ==> Normalize(appended)[at[i]] == Merge(base, appended)[|Normalize(base)| + i]
  {
    hide Normalize, Without;
    at := WithoutKeepsOrder(Normalize(appended), Elems(Normalize(base)));
  }

  /** Subtracting and intersecting keep the order of the first list. */
  lemma SubtractKeepsOrder(base: seq<string>, removed: seq<string>) returns (at: seq<nat>)
    ensures |at| == |Subtract(base, removed)| && Increasing(at, |Normalize(base)|)
    ensures forall i :: 0 <= i < |at| ==> Normalize(base)[at[i]] == Subtract(base, removed)[i]
  {
    hide Normalize, Without;
    at := WithoutKeepsOrder(Normalize(base), Elems(Normalize(removed)));
  }

  lemma IntersectKeepsOrder(base: seq<string>, allowed: seq<string>) returns (at: seq<nat>)
    ensures |at| == |Intersect(base, allowed)| && Increasing(at, |Normalize(base)|)
    ensures forall i :: 0 <= i < |at| ==> Normalize(base)[at[i]] == Intersect(base, allowed)[i]
  {
    hide Normalize, Within;
    at := WithinKeepsOrder(Normalize(base), Elems(Normalize(allowed)));
  }

  /**
    A detection never touches the rules or the switch, records its time and the
    names to remove, and leaves the models alone and the names to add pending
    unless adding is both asked for and switched on.
  */
  lemma DetectedIs(s: Settings, upstream: seq<string>, mapping: map<string, string>, regex: Matcher, now: int, allowAutoApply: bool)
    ensures var s' := Detected(s, upstream, mapping, regex, now, allowAutoApply);
            && s'.ignored == s.ignored && s'.autoSync == s.autoSync && s'.lastCheck == now
            && s'.removed == PendingRemove(GetModels(s.models), upstream, mapping)
            && (allowAutoApply && s.autoSync ==> s'.detected == [])
            && (!allowAutoApply || !s.autoSync ==>
                  s'.models == s.models && s'.detected == PendingAdd(GetModels(s.models), upstream, s.ignored, mapping, regex))
  {
    hide PendingAdd, PendingRemove, GetModels, Merge, Join, Normalize;
  }

  // ---- detect, apply everything, detect again ----

  function ApplyAll(s: Settings, now: int): Settings {
    Applied(s, Normalize(s.detected), [], Normalize(s.removed), now)
  }

  function Names(names: seq<string>): set<string> {
    Elems(Normalize(names))
  }

  /** What a settings record says, as sets. */
  function Models(s: Settings): set<string> {
    Names(GetModels(s.models))
  }

  function Rules(s: Settings): set<string> {
    Names(s.ignored)
  }

  lemma NothingIn(names: seq<string>)
    ensures |names| == 0 <==> forall x :: x !in names
  {
    if |names| > 0 { assert names[0] in names; }
  }

  // ---- what applying a selection does ----

  /** What is taken of a selection: only pending names, and a name to be added is not removed. */
  ghost function AddedBy(s: Settings, addInput: seq<string>): set<string> {
    Names(addInput) * Names(s.detected)
  }

  ghost function IgnoredBy(s: Settings, ignoreInput: seq<string>): set<string> {
    Names(ignoreInput) * Names(s.detected)
  }

  ghost function RemovedBy(s: Settings, addInput: seq<string>, removeInput: seq<string>): set<string> {
    Names(removeInput) * Names(s.removed) - AddedBy(s, addInput)
  }

  lemma IntersectNames(base: seq<string>, allowed: seq<string>)
    ensures Elems(Intersect(base, Normalize(allowed))) == Names(base) * Names(allowed) == Names(Intersect(base, Normalize(allowed)))
    ensures Normal(Intersect(base, Normalize(allowed)))
  {
    hide Normalize, Normal, Intersect;
    NormalizeIsNormal(allowed);
    NormalStays(Normalize(allowed));
    IntersectIs(base, Normalize(allowed));
    NormalStays(Intersect(base, Normalize(allowed)));
  }

  lemma SubtractNames(base: seq<string>, removed: seq<string>)
    ensures Elems(Subtract(base, removed)) == Names(base) - Names(removed) == Names(Subtract(base, removed))
    ensures Normal(Subtract(base, removed))
  {
    hide Normalize, Normal, Subtract;
    SubtractIs(base, removed);
    NormalStays(Subtract(base, removed));
  }

  lemma MergeNames(base: seq<string>, appended: seq<string>)
    ensures Names(Merge(base, appended)) == Names(base) + Names(appended)
  {
    hide Normalize, Normal, Merge;
    MergeIs(base, appended);
    NormalStays(Merge(base, appended));
  }

  lemma NamesGrow(names: seq<string>, last: string)
    ensures Names(names + [last]) == Names(names) + if TrimSpace(last) == "" then {} else {TrimSpace(last)}
  {
    hide TrimSpace;
    assert (names + [last])[..|names|] == names;
  }

  lemma {:induction false} NamesOfBoth(a: seq<string>, b: seq<string>)
    ensures Names(a + b) == Names(a) + Names(b)
    decreases |b|
  {
    if b == [] {
      assert a + b == a;
    } else {
      hide Names, TrimSpace;
      var rest, last := b[..|b| - 1], b[|b| - 1];
      NamesOfBoth(a, rest);
      assert b == rest + [last] && a + b == a + rest + [last];
      NamesGrow(rest, last);
      NamesGrow(a + rest, last);
    }
  }

  lemma NamesTwice(names: seq<string>)
    ensures Names(Normalize(names)) == Names(names)
  {
    hide Normalize, Normal;
    NormalizeIsNormal(names);
    NormalStays(Normalize(names));
  }

  /**
    Applying any selection: ignored names become rules and added ones stop
    being rules, what was dealt with is no longer pending, and the rest is.
  */
  lemma AppliedSettings(s: Settings, addInput: seq<string>, ignoreInput: seq<string>, removeInput: seq<string>, now: int)
    ensures var s' := Applied(s, addInput, ignoreInput, removeInput, now);
            var add, ignore := AddedBy(s, addInput), IgnoredBy(s, ignoreInput);
            && Rules(s') == Rules(s) + ignore - add
            && Names(s'.detected) == Names(s.detected) - add - ignore
            && Names(s'.removed) == Names(s.removed) - RemovedBy(s, addInput, removeInput)
            && s'.lastCheck == now && s'.autoSync == s.autoSync
  {
    var pendingAdd, pendingRemove := Normalize(s.detected), Normalize(s.removed);
    var add, ignore := Intersect(addInput, pendingAdd), Intersect(ignoreInput, pendingAdd);
    var picked := Intersect(removeInput, pendingRemove);
    var remove := Subtract(picked, add);
    var ignored := Merge(s.ignored, ignore);
    hide Normalize, Normal, Merge, Subtract, Intersect, ApplySelected, GetModels, Names;
    IntersectNames(addInput, s.detected);
    IntersectNames(ignoreInput, s.detected);
    IntersectNames(removeInput, s.removed);
    MergeNames(s.ignored, ignore);
    SubtractNames(ignored, add);
    SubtractNames(picked, add);
    NamesOfBoth(add, ignore);
    SubtractNames(pendingAdd, add + ignore);
    SubtractNames(pendingRemove, remove);
    NamesTwice(s.detected);
    NamesTwice(s.removed);
    NothingIn(add);
    assert |add| == 0 ==> Elems(add) == {};
  }

  lemma ListOf(names: seq<string>, x: string)
    requires x in Elems(names)
    ensures exists i :: 0 <= i < |names| && names[i] == x
  {
  }

  /** The new list, before it is stored. */
  lemma NextModels(origin: seq<string>, add: seq<string>, remove: seq<string>)
    requires NoComma(Normalize(origin)) && forall x :: x in Names(add) ==> Lacks(x, ',')
    ensures var next := ApplySelected(origin, add, remove);
            Normal(next) && NoComma(next) && Elems(next) == Names(add) + (Names(origin) - Names(remove))
  {
    hide Normalize, Normal, ApplySelected;
    var next := ApplySelected(origin, add, remove);
    ApplySelectedIs(origin, add, remove);
    forall i | 0 <= i < |next| ensures Lacks(next[i], ',') {
      assert next[i] in next;
      if next[i] !in Normalize(add) { ListOf(Normalize(origin), next[i]); }
    }
  }

  lemma AppliedPlainModels(s: Settings, addInput: seq<string>, ignoreInput: seq<string>, removeInput: seq<string>, now: int)
    requires forall x :: x in AddedBy(s, addInput) ==> Lacks(x, ',')
    ensures Models(Applied(s, addInput, ignoreInput, removeInput, now))
         == AddedBy(s, addInput) + (Models(s) - RemovedBy(s, addInput, removeInput))
  {
    var add := Intersect(addInput, Normalize(s.detected));
    var picked := Intersect(removeInput, Normalize(s.removed));
    var remove := Subtract(picked, add);
    var origin := Normalize(GetModels(s.models));
    var next := ApplySelected(origin, add, remove);
    var s' := Applied(s, addInput, ignoreInput, removeInput, now);
    assert s'.models == if next == origin then s.models else Join(next, ',');
    ModelsHaveNoComma(s.models);
    NormalizeIsNormal(GetModels(s.models));
    hide Normal, Subtract, Intersect, ApplySelected, GetModels, Applied, Join, Names, Normalize, NoComma;
    NormalStays(origin);
    NamesTwice(GetModels(s.models));
    IntersectNames(addInput, s.detected);
    IntersectNames(removeInput, s.removed);
    SubtractNames(picked, add);
    NextModels(origin, add, remove);
    ModelsReadBack(next);
    StoredNames(s.models, next);
  }

  lemma StoredModelsLackComma(s: Settings, x: string)
    requires x in Models(s)
    ensures Lacks(x, ',')
  {
    hide Normalize, GetModels;
    ModelsHaveNoComma(s.models);
    ListOf(Normalize(GetModels(s.models)), x);
  }

  /** And the models are the old ones without the removed and with the added, if and only if no added name has a comma. */
  lemma AppliedModels(s: Settings, addInput: seq<string>, ignoreInput: seq<string>, removeInput: seq<string>, now: int)
    ensures var expected := AddedBy(s, addInput) + (Models(s) - RemovedBy(s, addInput, removeInput));
            Models(Applied(s, addInput, ignoreInput, removeInput, now)) == expected <==>
              forall x :: x in AddedBy(s, addInput) ==> Lacks(x, ',')
  {
    hide Models, Applied, AddedBy, RemovedBy;
    var s' := Applied(s, addInput, ignoreInput, removeInput, now);
    if forall x :: x in AddedBy(s, addInput) ==> Lacks(x, ',') {
      AppliedPlainModels(s, addInput, ignoreInput, removeInput, now);
    } else {
      var x :| x in AddedBy(s, addInput) && !Lacks(x, ',');
      if x in Models(s') { StoredModelsLackComma(s', x); }
    }
  }

  lemma StoredNames(models: string, next: seq<string>)
    requires Normalize(GetModels(Join(next, ','))) == next
    ensures Names(GetModels(Join(next, ','))) == Elems(next)
    ensures next == Normalize(GetModels(models)) ==> Names(GetModels(models)) == Elems(next)
  {
  }

  lemma ApplyAllIs(s: Settings, now: int)
    ensures Rules(ApplyAll(s, now)) == Rules(s) - Names(s.detected)
    ensures NoComma(Normalize(s.detected)) ==> Models(ApplyAll(s, now)) == Names(s.detected) + (Models(s) - Names(s.removed))
  {
    var add, remove := Normalize(s.detected), Normalize(s.removed);
    AppliedSettings(s, add, [], remove, now);
    NamesTwice(s.detected);
    NamesTwice(s.removed);
    hide Normalize, Applied, Rules, Models;
    if NoComma(add) {
      forall x | x in AddedBy(s, add) ensures Lacks(x, ',') {
        var j :| 0 <= j < |add| && add[j] == x;
      }
      AppliedModels(s, add, [], remove, now);
    }
  }

  /** An upstream name that is ignored only by rules which are themselves about to be added as models. */
  ghost predicate Unignored(x: string, s: Settings, upstream: seq<string>, mapping: map<string, string>, regex: Matcher, add: set<string>) {
    && x in Normalize(upstream) && x !in Models(s) && x !in mapping.Values
    && Ignored(Rules(s), x, regex) && !Ignored(Rules(s) - add, x, regex)
  }

  /** Nothing left to offer after applying what was detected. */
  ghost predicate Converges(s: Settings, upstream: seq<string>, mapping: map<string, string>, regex: Matcher, now: int) {
    var s' := ApplyAll(Detected(s, upstream, mapping, regex, now, false), now);
    && PendingAdd(GetModels(s'.models), upstream, s'.ignored, mapping, regex) == []
    && PendingRemove(GetModels(s'.models), upstream, mapping) == []
  }

  lemma FewerRules(more: set<string>, fewer: set<string>, x: string, regex: Matcher)
    requires fewer <= more && Ignored(fewer, x, regex)
    ensures Ignored(more, x, regex)
  {
  }

  /** With no comma in the added names, what detection offers next is what has come out from under an ignore rule. */
  lemma NextOffers(s: Settings, s': Settings, upstream: seq<string>, mapping: map<string, string>, regex: Matcher, add: seq<string>, remove: seq<string>)
    requires add == PendingAdd(GetModels(s.models), upstream, s.ignored, mapping, regex)
    requires remove == PendingRemove(GetModels(s.models), upstream, mapping)
    requires Models(s') == Elems(add) + (Models(s) - Elems(remove)) && Rules(s') == Rules(s) - Elems(add)
    ensures forall x :: x in PendingAdd(GetModels(s'.models), upstream, s'.ignored, mapping, regex) <==>
                        Unignored(x, s, upstream, mapping, regex, Elems(add))
    ensures PendingRemove(GetModels(s'.models), upstream, mapping) == []
  {
    hide Normalize, Normal, PendingAdd, PendingRemove, Ignored, GetModels;
    PendingAddIs(GetModels(s.models), upstream, s.ignored, mapping, regex);
    PendingRemoveIs(GetModels(s.models), upstream, mapping);
    PendingAddIs(GetModels(s'.models), upstream, s'.ignored, mapping, regex);
    PendingRemoveIs(GetModels(s'.models), upstream, mapping);
    var add', remove' := PendingAdd(GetModels(s'.models), upstream, s'.ignored, mapping, regex), PendingRemove(GetModels(s'.models), upstream, mapping);
    forall x ensures x in add' <==> Unignored(x, s, upstream, mapping, regex, Elems(add)) {
      assert x in Normalize(GetModels(s'.models)) <==> x in Models(s');
      assert x in Normalize(GetModels(s.models)) <==> x in Models(s);
      assert x in remove ==> x !in Normalize(upstream);
    }
    forall x ensures x !in remove' {
      assert x in Normalize(GetModels(s'.models)) <==> x in Models(s');
      assert x in Normalize(GetModels(s.models)) <==> x in Models(s);
    }
    NothingIn(remove');
  }

  /** An added name with a comma cannot be stored as one name, so it is offered again. */
  lemma CommaIsOfferedAgain(s: Settings, s': Settings, upstream: seq<string>, mapping: map<string, string>, regex: Matcher, add: seq<string>)
    requires add == PendingAdd(GetModels(s.models), upstream, s.ignored, mapping, regex) && !NoComma(add)
    requires Rules(s') <= Rules(s)
    ensures PendingAdd(GetModels(s'.models), upstream, s'.ignored, mapping, regex) != []
  {
    hide Normalize, Normal, PendingAdd, Ignored, GetModels;
    PendingAddIs(GetModels(s.models), upstream, s.ignored, mapping, regex);
    PendingAddIs(GetModels(s'.models), upstream, s'.ignored, mapping, regex);
    var i :| 0 <= i < |add| && !Lacks(add[i], ',');
    assert add[i] in add;
    ModelsHaveNoComma(s'.models);
    assert add[i] !in Normalize(GetModels(s'.models));
    if Ignored(Rules(s'), add[i], regex) { FewerRules(Rules(s), Rules(s'), add[i], regex); }
    assert add[i] in PendingAdd(GetModels(s'.models), upstream, s'.ignored, mapping, regex);
  }

  /**
    Detecting, applying everything and detecting again leaves nothing pending,
    for an unchanged upstream, exactly when no detected name contains a comma
    and none of them is an ignore rule that alone hides another upstream name.
  */
  lemma ConvergesExactly(s: Settings, upstream: seq<string>, mapping: map<string, string>, regex: Matcher, now: int)
    ensures var add := PendingAdd(GetModels(s.models), upstream, s.ignored, mapping, regex);
            Converges(s, upstream, mapping, regex, now) <==>
              NoComma(add) && forall x :: !Unignored(x, s, upstream, mapping, regex, Elems(add))
  {
    hide Normalize, Normal, PendingAdd, PendingRemove, Ignored, GetModels, Applied;
    var add := PendingAdd(GetModels(s.models), upstream, s.ignored, mapping, regex);
    var remove := PendingRemove(GetModels(s.models), upstream, mapping);
    PendingAddIs(GetModels(s.models), upstream, s.ignored, mapping, regex);
    PendingRemoveIs(GetModels(s.models), upstream, mapping);
    NormalStays(add);
    NormalStays(remove);
    var s1 := Detected(s, upstream, mapping, regex, now, false);
    assert s1.detected == add && s1.removed == remove && s1.models == s.models && s1.ignored == s.ignored;
    var s2 := ApplyAll(s1, now);
    ApplyAllIs(s1, now);
    if NoComma(add) {
      NextOffers(s, s2, upstream, mapping, regex, add, remove);
      NothingIn(PendingAdd(GetModels(s2.models), upstream, s2.ignored, mapping, regex));
    } else {
      CommaIsOfferedAgain(s, s2, upstream, mapping, regex, add);
    }
  }

  /** In particular it converges when no upstream name contains a comma or starts with the regex prefix. */
  lemma ConvergesOnPlainNames(s: Settings, upstream: seq<string>, mapping: map<string, string>, regex: Matcher, now: int)
    requires forall x :: x in Normalize(upstream) ==> Lacks(x, ',') && !(REGEX_PREFIX <= x)
    ensures Converges(s, upstream, mapping, regex, now)
  {
    hide Normalize, Normal, PendingAdd, GetModels, Converges;
    var add := PendingAdd(GetModels(s.models), upstream, s.ignored, mapping, regex);
    PendingAddIs(GetModels(s.models), upstream, s.ignored, mapping, regex);
    forall i | 0 <= i < |add| ensures Lacks(add[i], ',') { assert add[i] in add; }
    forall x | x in add ensures x !in Rules(s) { assert RuleHits(x, x, regex); }
    assert Rules(s) - Elems(add) == Rules(s);
    ConvergesExactly(s, upstream, mapping, regex, now);
  }

  // ---- inputs on which it does not converge ----

  lemma NormalizeOne(name: string)
    requires name != "" && TrimSpace(name) == name
    ensures Normalize([name]) == [name] && Normalize([]) == []
  {
    hide TrimSpace;
    assert [name][..0] == [];
  }

  /** A channel without models whose upstream lists one name with a comma. */
  lemma CommaExample(name: string, mapping: map<string, string>, regex: Matcher)
    requires name != "" && TrimSpace(name) == name && ',' in name && name !in mapping.Values
    ensures !Converges(Settings("", [], [], [], 0, false), [name], mapping, regex, 0)
  {
    hide Normalize, Normal, PendingAdd, Converges;
    var s := Settings("", [], [], [], 0, false);
    NormalizeOne(name);
    PendingAddIs(GetModels(s.models), [name], s.ignored, mapping, regex);
    var add := PendingAdd(GetModels(s.models), [name], s.ignored, mapping, regex);
    assert name in add;
    var i :| 0 <= i < |add| && add[i] == name;
    assert !Lacks(add[i], ',');
    ConvergesExactly(s, [name], mapping, regex, 0);
  }

  /** An upstream that lists the text of the rule hiding another of its names: adding it drops the rule. */
  lemma RegexExample(rule: string, name: string, regex: Matcher)
    requires Normal([rule, name]) && REGEX_PREFIX <= rule && Lacks(rule, ',')
    requires RuleHits(rule, name, regex) && !RuleHits(rule, rule, regex)
    ensures !Converges(Settings("", [rule], [], [], 0, false), [rule, name], map[], regex, 0)
  {
    var s, up := Settings("", [rule], [], [], 0, false), [rule, name];
    assert up[0] == rule && up[1] == name;
    hide Normalize, PendingAdd, Converges, RuleHits, TrimSpace;
    NormalizeOne(rule);
    NormalStays(up);
    PendingAddIs(GetModels(s.models), up, s.ignored, map[], regex);
    var add := PendingAdd(GetModels(s.models), up, s.ignored, map[], regex);
    assert Rules(s) == {rule};
    assert rule in add;
    assert Rules(s) - Elems(add) == {};
    assert Unignored(name, s, up, map[], regex, Elems(add));
    ConvergesExactly(s, up, map[], regex, 0);
  }

  // ---- automatic synchronisation ----

  /**
    With automatic synchronisation a detection adds the new names itself. The
    next one finds none to add exactly when none of them contains a comma, and
    then finds the same names to remove.
  */
  lemma AutoSyncSettles(s: Settings, upstream: seq<string>, mapping: map<string, string>, regex: Matcher, now: int)
    requires s.autoSync
    ensures var add := PendingAdd(GetModels(s.models), upstream, s.ignored, mapping, regex);
            var s' := Detected(s, upstream, mapping, regex, now, true);
            && s'.ignored == s.ignored
            && (PendingAdd(GetModels(s'.models), upstream, s'.ignored, mapping, regex) == [] <==> NoComma(add))
            && (NoComma(add) ==> forall x :: x in PendingRemove(GetModels(s'.models), upstream, mapping) <==> x in s'.removed)
  {
    hide Normalize, Normal, PendingAdd, PendingRemove, Ignored, GetModels, Merge;
    var add := PendingAdd(GetModels(s.models), upstream, s.ignored, mapping, regex);
    var s' := Detected(s, upstream, mapping, regex, now, true);
    PendingAddIs(GetModels(s.models), upstream, s.ignored, mapping, regex);
    PendingAddIs(GetModels(s'.models), upstream, s'.ignored, mapping, regex);
    PendingRemoveIs(GetModels(s.models), upstream, mapping);
    PendingRemoveIs(GetModels(s'.models), upstream, mapping);
    if !NoComma(add) {
      CommaIsOfferedAgain(s, s', upstream, mapping, regex, add);
    } else if add != [] {
      AutoSyncModels(s, add);
      NothingIn(PendingAdd(GetModels(s'.models), upstream, s'.ignored, mapping, regex));
    }
  }

  lemma AutoSyncModels(s: Settings, add: seq<string>)
    requires Normal(add) && NoComma(add) && add != [] && forall x :: x in add ==> x !in Normalize(GetModels(s.models))
    ensures var origin := Normalize(GetModels(s.models));
            var merged := Merge(origin, add);
            && |merged| > |origin|
            && forall x :: x in Normalize(GetModels(Join(merged, ','))) <==> x in origin || x in add
  {
    hide Normalize, Normal, GetModels, TrimSpace, Join;
    var origin := Normalize(GetModels(s.models));
    var merged := Merge(origin, add);
    NormalizeIsNormal(GetModels(s.models));
    NormalStays(origin);
    NormalStays(add);
    MergeIs(origin, add);
    WithoutElems(add, Elems(origin));
    assert add[0] in add;
    assert merged == origin + Without(add, Elems(origin));
    ModelsHaveNoComma(s.models);
    forall i | 0 <= i < |merged| ensures Lacks(merged[i], ',') { assert merged[i] in merged; }
    ModelsReadBack(merged);
  }

  // ---- the handlers ----

  class ModelSync {
    var settings: Settings
    const mapping: map<string, string>
    const regex: Matcher

    constructor (settings: Settings, mapping: map<string, string>, regex: Matcher)
      ensures this.settings == settings && this.mapping == mapping && this.regex == regex
    {
      this.settings, this.mapping, this.regex := settings, mapping, regex;
    }

    /** checkAndPersistChannelUpstreamModelUpdates: `fetched` is None when upstream cannot be read. */
    method Check(force: bool, allowAutoApply: bool, now: int, minInterval: int, fetched: Option<seq<string>>, writeOk: bool)
      returns (modelsChanged: bool, autoAdded: nat)
      modifies this`settings
      ensures var was := old(settings);
              if (!force && was.lastCheck > 0 && now - was.lastCheck < minInterval) || !writeOk then settings == was
              else if fetched.None? then settings == was.(lastCheck := now)
              else settings == Detected(was, fetched.value, mapping, regex, now, allowAutoApply)
      ensures modelsChanged ==> autoAdded > 0
      ensures !modelsChanged ==> settings.models == old(settings).models
    {
      modelsChanged, autoAdded := false, 0;
      var s := settings;
      if !force && s.lastCheck > 0 && now - s.lastCheck < minInterval { return; }
      s := s.(lastCheck := now);
      if fetched.None? {
        if writeOk { settings := s; }
        return;
      }
      var add := PendingAdd(GetModels(s.models), fetched.value, s.ignored, mapping, regex);
      var remove := PendingRemove(GetModels(s.models), fetched.value, mapping);
      if allowAutoApply && s.autoSync && |add| > 0 {
        var origin := Normalize(GetModels(s.models));
        var merged := MergeModelNames(origin, add);
        if |merged| > |origin| {
          s := s.(models := Join(merged, ','));
          autoAdded := |merged| - |origin|;
          modelsChanged := true;
        }
        s := s.(detected := []);
      } else {
        s := s.(detected := add);
      }
      s := s.(removed := remove);
      if writeOk { settings := s; } else { modelsChanged := false; }
    }

    /** applyChannelUpstreamModelUpdates. */
    method Apply(addInput: seq<string>, ignoreInput: seq<string>, removeInput: seq<string>, now: int, writeOk: bool)
      returns (added: seq<string>, removed: seq<string>, modelsChanged: bool)
      modifies this`settings
      ensures settings == if writeOk then Applied(old(settings), addInput, ignoreInput, removeInput, now) else old(settings)
      ensures writeOk ==> (modelsChanged <==> Normalize(GetModels(old(settings).models)) != ApplySelected(Normalize(GetModels(old(settings).models)), added, removed))
    {
      var s := settings;
      var pendingAdd, pendingRemove := Normalize(s.detected), Normalize(s.removed);
      added := Intersect(addInput, pendingAdd);
      var ignore := Intersect(ignoreInput, pendingAdd);
      removed := Subtract(Intersect(removeInput, pendingRemove), added);
      var origin := Normalize(GetModels(s.models));
      var next := ApplySelected(origin, added, removed);
      modelsChanged := origin != next;
      if modelsChanged { s := s.(models := Join(next, ',')); }
      s := s.(ignored := Merge(s.ignored, ignore));
      if |added| > 0 { s := s.(ignored := Subtract(s.ignored, added)); }
      s := s.(detected := Subtract(pendingAdd, added + ignore), removed := Subtract(pendingRemove, removed), lastCheck := now);
      if writeOk { settings := s; }
    }
  }
}
