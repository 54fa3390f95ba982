/**
  Choosing one price per model from the models.dev catalogue, where several
  providers list the same model: the cheapest non-zero one, with prices closer
  than 1e-9 treated as equal. That comparison is not transitive; going through
  the providers in name order is what keeps the error from adding up.
*/
module ModelsDev {
  import opened Common
  import opened RatioDiff

  /** A decoded cost: a number, or a float that is not finite. */
  datatype Price = Finite(r: real) | NotFinite

  datatype Cost = Cost(input: Option<Price>, output: Option<Price>, cacheRead: Option<Price>)

  datatype Candidate = Candidate(provider: string, input: real, output: Option<real>, cacheRead: Option<real>)

  predicate ValidCost(p: Price) {
    p.Finite? && p.r >= 0.0
  }

  function Amount(p: Option<Price>): Option<real> {
    if p.Some? && p.value.Finite? then Some(p.value.r) else None
  }

  function BuildCandidate(provider: string, cost: Cost): Option<Candidate> {
    if cost.input.None? || !ValidCost(cost.input.value) then None
    else if cost.output.Some? && !ValidCost(cost.output.value) then None
    else if cost.input.value.r == 0.0 && cost.output.Some? && cost.output.value.r > 0.0 then None
    else Some(Candidate(provider, cost.input.value.r, Amount(cost.output),
                        if cost.cacheRead.Some? && ValidCost(cost.cacheRead.value) then Amount(cost.cacheRead) else None))
  }

  /** Go's order on strings. */
  predicate Less(a: string, b: string) {
    b != "" && (a == "" || a[0] < b[0] || (a[0] == b[0] && Less(a[1..], b[1..])))
  }

  predicate ShouldReplace(current: Candidate, next: Candidate) {
    if (current.input > 0.0) != (next.input > 0.0) then next.input > 0.0
    else if next.input > 0.0 && !NearlyEqual(next.input, current.input) then next.input < current.input
    else Less(next.provider, current.provider)
  }

  /** Costs by provider and model. */
  type Catalogue = map<string, map<string, Cost>>

  /** What one provider offers for a model. */
  function OfferIn(models: map<string, Cost>, provider: string, model: string): Option<Candidate> {
    if model in models then BuildCandidate(provider, models[model]) else None
  }

  function Offer(data: Catalogue, provider: string, model: string): Option<Candidate> {
    if provider in data then OfferIn(data[provider], provider, model) else None
  }

  function Better(current: Option<Candidate>, next: Option<Candidate>): Option<Candidate> {
    if next.Some? && (current.None? || ShouldReplace(current.value, next.value)) then next else current
  }

  /** The candidate held for a model after the first `n` providers. */
  function Chosen(data: Catalogue, providers: seq<string>, n: nat, model: string): Option<Candidate>
    requires n <= |providers|
  {
    if n == 0 then None else Better(Chosen(data, providers, n - 1, model), Offer(data, providers[n - 1], model))
  }

  function Held(selected: map<string, Candidate>, model: string): Option<Candidate> {
    if model in selected then Some(selected[model]) else None
  }

  /** The inner loop: one provider's models. */
  method AddProvider(selected: map<string, Candidate>, provider: string, models: map<string, Cost>)
    returns (next: map<string, Candidate>)
    ensures forall m :: Held(next, m) == Better(Held(selected, m), OfferIn(models, provider, m))
  {
    hide ShouldReplace, BuildCandidate;
    next := selected;
    var todo := models.Keys;
    while todo != {}
      invariant todo <= models.Keys
      invariant forall m :: Held(next, m) == if m in todo then Held(selected, m)
                                             else Better(Held(selected, m), OfferIn(models, provider, m))
      decreases |todo|
    {
      var model :| model in todo;
      todo := todo - {model};
      var candidate := BuildCandidate(provider, models[model]);
      assert Held(next, model) == Held(selected, model);
      if candidate.None? { continue; }
      if model !in next || ShouldReplace(next[model], candidate.value) {
        next := next[model := candidate.value];
      }
    }
  }

  /** The selection loop over the providers. */
  method SelectCandidates(data: Catalogue, providers: seq<string>) returns (selected: map<string, Candidate>)
    requires forall p :: p in providers ==> p in data
    ensures forall m :: Held(selected, m) == Chosen(data, providers, |providers|, m)
  {
    hide Better, BuildCandidate;
    selected := map[];
    for i := 0 to |providers|
      invariant forall m :: Held(selected, m) == Chosen(data, providers, i, m)
    {
      var before := selected;
      selected := AddProvider(selected, providers[i], data[providers[i]]);
      forall m ensures Held(selected, m) == Chosen(data, providers, i + 1, m) {
        assert Held(before, m) == Chosen(data, providers, i, m);
      }
    }
  }

  // ---- what is chosen ----

  ghost predicate SortedNames(names: seq<string>) {
    forall i, j :: 0 <= i < j < |names| ==> Less(names[i], names[j])
  }

  lemma {:induction false} LessIsAsymmetric(a: string, b: string)
    requires Less(a, b)
    ensures !Less(b, a)
    decreases |a|
  {
    if a != "" && a[0] == b[0] { LessIsAsymmetric(a[1..], b[1..]); }
  }

  lemma OfferIs(data: Catalogue, provider: string, model: string)
    ensures var c := Offer(data, provider, model); c.Some? ==> c.value.provider == provider && c.value.input >= 0.0
  {
  }

  /** A price that is given as a number and is not negative. */
  predicate Given(p: Option<Price>) {
    p.Some? && p.value.Finite? && p.value.r >= 0.0
  }

  /** A provider prices a model in a way that can be turned into ratios. */
  predicate Lists(data: Catalogue, provider: string, model: string) {
    provider in data && model in data[provider] &&
    var cost := data[provider][model];
    Given(cost.input) && (cost.output.None? || Given(cost.output))
    && !(cost.input.value.r == 0.0 && cost.output.Some? && cost.output.value.r > 0.0)
  }

  /** Exactly then it makes an offer. */
  lemma OfferExactly(data: Catalogue, provider: string, model: string)
    ensures Offer(data, provider, model).Some? <==> Lists(data, provider, model)
    ensures Lists(data, provider, model) ==> Offer(data, provider, model).value.input == data[provider][model].input.value.r
  {
  }

  /**
    An offer carries the provider's own prices, none of them negative, and can
    be turned into ratios of its input price: if that is zero, so is the output.
  */
  lemma OfferIsUsable(provider: string, cost: Cost, c: Candidate)
    requires BuildCandidate(provider, cost) == Some(c)
    ensures cost.input == Some(Finite(c.input)) && c.input >= 0.0
    ensures c.output.Some? <==> cost.output.Some?
    ensures c.output.Some? ==> cost.output == Some(Finite(c.output.value)) && c.output.value >= 0.0 && (c.input == 0.0 ==> c.output.value == 0.0)
    ensures c.cacheRead.Some? ==> cost.cacheRead == Some(Finite(c.cacheRead.value)) && c.cacheRead.value >= 0.0
    ensures c.cacheRead.None? && cost.cacheRead.Some? ==> cost.cacheRead.value.NotFinite? || cost.cacheRead.value.r < 0.0
  {
  }

  /** Of the offers seen, the held one is there, non-zero if possible, and within one epsilon of every non-zero one. */
  ghost predicate GoodChoice(data: Catalogue, providers: seq<string>, n: nat, model: string, c: Option<Candidate>)
    requires n <= |providers|
  {
    && (c.None? ==> forall i :: 0 <= i < n ==> Offer(data, providers[i], model).None?)
    && (c.Some? ==> exists i :: 0 <= i < n && Offer(data, providers[i], model) == c)
    && (c.Some? ==> forall i :: 0 <= i < n && Offer(data, providers[i], model).Some? && Offer(data, providers[i], model).value.input > 0.0 ==>
                      c.value.input > 0.0 && c.value.input < Offer(data, providers[i], model).value.input + EPSILON)
    && (c.Some? && c.value.input == 0.0 ==> forall i :: 0 <= i < n && Offer(data, providers[i], model).Some? ==>
                      !Less(providers[i], c.value.provider))
  }

  lemma BetterIsGood(data: Catalogue, providers: seq<string>, n: nat, model: string, c: Option<Candidate>)
    requires SortedNames(providers) && n < |providers| && GoodChoice(data, providers, n, model, c)
    ensures GoodChoice(data, providers, n + 1, model, Better(c, Offer(data, providers[n], model)))
  {
    hide Offer, Less;
    var next := Offer(data, providers[n], model);
    OfferIs(data, providers[n], model);
    if next.Some? && c.Some? {
      var i :| 0 <= i < n && Offer(data, providers[i], model) == c;
      OfferIs(data, providers[i], model);
      LessIsAsymmetric(providers[i], providers[n]);
    }
    if next.Some? && c.None? { LessIsIrreflexive(providers[n]); }
  }

  lemma LessIsIrreflexive(a: string)
    ensures !Less(a, a)
  {
    if Less(a, a) { LessIsAsymmetric(a, a); }
  }

  lemma {:induction false} ChosenIsGood(data: Catalogue, providers: seq<string>, n: nat, model: string)
    requires SortedNames(providers) && n <= |providers|
    ensures GoodChoice(data, providers, n, model, Chosen(data, providers, n, model))
    decreases n
  {
    hide GoodChoice, Offer, Better;
    if n > 0 {
      ChosenIsGood(data, providers, n - 1, model);
      BetterIsGood(data, providers, n - 1, model, Chosen(data, providers, n - 1, model));
    } else {
      NothingSeen(data, providers, model);
    }
  }

  lemma NothingSeen(data: Catalogue, providers: seq<string>, model: string)
    ensures GoodChoice(data, providers, 0, model, None)
  {
  }

  function InputPrice(data: Catalogue, provider: string, model: string): real
    requires Lists(data, provider, model)
  {
    data[provider][model].input.value.r
  }

  lemma OffersAre(data: Catalogue, providers: seq<string>, model: string)
    ensures forall i :: 0 <= i < |providers| ==> (Offer(data, providers[i], model).Some? <==> Lists(data, providers[i], model))
    ensures forall i :: 0 <= i < |providers| && Lists(data, providers[i], model) ==>
              var c := Offer(data, providers[i], model).value;
              c.provider == providers[i] && c.input == InputPrice(data, providers[i], model) >= 0.0
  {
    hide Offer, Lists, InputPrice;
    forall i | 0 <= i < |providers|
      ensures Offer(data, providers[i], model).Some? <==> Lists(data, providers[i], model)
      ensures Lists(data, providers[i], model) ==>
                var c := Offer(data, providers[i], model).value;
                c.provider == providers[i] && c.input == InputPrice(data, providers[i], model) >= 0.0
    {
      PriceOfOffer(data, providers[i], model);
    }
  }

  lemma PriceOfOffer(data: Catalogue, provider: string, model: string)
    ensures Offer(data, provider, model).Some? <==> Lists(data, provider, model)
    ensures Lists(data, provider, model) ==>
              var c := Offer(data, provider, model).value;
              c.provider == provider && c.input == InputPrice(data, provider, model) >= 0.0
  {
    OfferExactly(data, provider, model);
    OfferIs(data, provider, model);
    hide Offer;
  }

  /**
    Over any number of providers in name order: a model is selected exactly if
    somebody lists it; the selected price is the listed one of its provider; if
    any listed price is non-zero it is non-zero and below every non-zero one
    plus a single 1e-9; otherwise the zero price of the first provider is kept.
  */
  lemma CheapestWithinOneEpsilon(data: Catalogue, providers: seq<string>, model: string)
    requires SortedNames(providers)
    ensures var c := Chosen(data, providers, |providers|, model);
            && (c.Some? <==> exists i :: 0 <= i < |providers| && Lists(data, providers[i], model))
            && (c.Some? ==> c.value.provider in providers && Lists(data, c.value.provider, model)
                            && c.value.input == InputPrice(data, c.value.provider, model))
            && (forall i :: 0 <= i < |providers| && Lists(data, providers[i], model) && InputPrice(data, providers[i], model) > 0.0 ==>
                  c.Some? && 0.0 < c.value.input < InputPrice(data, providers[i], model) + 0.000000001)
            && (c.Some? && c.value.input == 0.0 ==> forall i :: 0 <= i < |providers| && Lists(data, providers[i], model) ==>
                  InputPrice(data, providers[i], model) == 0.0 && !Less(providers[i], c.value.provider))
  {
    hide Offer, Less, Chosen, Lists, InputPrice;
    ChosenIsGood(data, providers, |providers|, model);
    OffersAre(data, providers, model);
    var c := Chosen(data, providers, |providers|, model);
    if c.Some? {
      var i :| 0 <= i < |providers| && Offer(data, providers[i], model) == c;
      assert providers[i] in providers;
    }
  }

  // ---- the order of names ----

  /** Names are ordered by their first different character, and a name comes before its continuations. */
  lemma {:induction false} LessIsLexicographic(a: string, b: string)
    ensures Less(a, b) <==> a < b || exists i :: 0 <= i < |a| && i < |b| && a[..i] == b[..i] && a[i] < b[i]
    decreases |a|
  {
    if a != "" && b != "" && a[0] == b[0] {
      var a', b' := a[1..], b[1..];
      LessIsLexicographic(a', b');
      assert a == [a[0]] + a' && b == [b[0]] + b';
      hide Less;
      if i :| 0 <= i < |a'| && i < |b'| && a'[..i] == b'[..i] && a'[i] < b'[i] {
        assert a[..i + 1] == [a[0]] + a'[..i] && b[..i + 1] == [b[0]] + b'[..i] && a[i + 1] < b[i + 1];
      }
      if i :| 0 <= i < |a| && i < |b| && a[..i] == b[..i] && a[i] < b[i] {
        assert i > 0 && a'[..i - 1] == a[..i][1..] && b'[..i - 1] == b[..i][1..] && a'[i - 1] < b'[i - 1];
      }
    } else if a != "" && b != "" {
      forall i | 0 < i < |a| && i < |b| ensures a[..i] != b[..i] { assert a[..i][0] == a[0] && b[..i][0] == b[0]; }
      if a[0] < b[0] { assert a[..0] == b[..0]; }
    }
  }

  // ---- out of name order ----

  const STEP := 0.0000000009

  function Letters(n: nat): (name: string)
    ensures |name| == n
  {
    seq(n, _ => 'a')
  }

  lemma {:induction false} ShorterIsLess(n: nat)
    ensures Less(Letters(n), Letters(n + 1))
  {
    if n > 0 {
      assert Letters(n)[1..] == Letters(n - 1) && Letters(n + 1)[1..] == Letters(n);
      ShorterIsLess(n - 1);
    }
  }

  function StairPrice(price: real, i: nat): real {
    price + i as real * STEP
  }

  /** The i-th of n + 1 providers of a model, with names that get shorter and prices that get higher. */
  function StairOffer(price: real, n: nat, i: nat): Candidate
    requires i <= n
  {
    Candidate(Letters(n - i), StairPrice(price, i), None, None)
  }

  function Stair(model: string, price: real, n: nat, i: nat): Catalogue
    requires i <= n
  {
    (if i == 0 then map[] else Stair(model, price, n, i - 1))
    [Letters(n - i) := map[model := Cost(Some(Finite(StairPrice(price, i))), None, None)]]
  }

  function StairNames(n: nat): seq<string> {
    seq(n + 1, i requires 0 <= i <= n => Letters(n - i))
  }

  lemma {:induction false} StairOffers(model: string, price: real, n: nat, top: nat, i: nat)
    requires i <= top <= n && price > 0.0
    ensures Offer(Stair(model, price, n, top), Letters(n - i), model) == Some(StairOffer(price, n, i))
    decreases top
  {
    if i == top {
      assert StairPrice(price, i) > 0.0;
    } else {
      StairOffers(model, price, n, top - 1, i);
      assert |Letters(n - i)| != |Letters(n - top)|;
    }
  }

  lemma StairReplaces(price: real, n: nat, i: nat)
    requires i < n && price > 0.0
    ensures Better(Some(StairOffer(price, n, i)), Some(StairOffer(price, n, i + 1))) == Some(StairOffer(price, n, i + 1))
  {
    ShorterIsLess(n - i - 1);
    assert StairPrice(price, i + 1) == StairPrice(price, i) + STEP && StairPrice(price, i) > 0.0;
    hide Less, Letters;
  }

  lemma {:induction false} StairChosen(model: string, price: real, n: nat, i: nat)
    requires i <= n && price > 0.0
    ensures Chosen(Stair(model, price, n, n), StairNames(n), i + 1, model) == Some(StairOffer(price, n, i))
    decreases i
  {
    var data := Stair(model, price, n, n);
    StairOffers(model, price, n, n, i);
    assert StairNames(n)[i] == Letters(n - i);
    hide Stair, Offer, StairOffer;
    if i > 0 {
      StairChosen(model, price, n, i - 1);
      StairReplaces(price, n, i - 1);
    } else {
      assert Chosen(data, StairNames(n), 0, model) == None;
    }
  }

  /**
    Without the name order the error adds up: for every n there are n + 1
    providers whose selection is dearer than the cheapest by n times 0.9e-9.
  */
  lemma ErrorAddsUp(model: string, price: real, n: nat)
    requires price > 0.0
    ensures var data, names := Stair(model, price, n, n), StairNames(n);
            var cheapest, chosen := Offer(data, names[0], model), Chosen(data, names, n + 1, model);
            cheapest.Some? && chosen.Some? && cheapest.value.input == price && chosen.value.input == price + n as real * STEP
  {
    StairOffers(model, price, n, n, 0);
    StairChosen(model, price, n, n);
    hide Stair, Offer, Chosen;
    assert StairPrice(price, 0) == price;
  }
}
