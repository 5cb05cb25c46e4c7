/** The selection of one price per model from models.dev, where many providers list the same model. */
module ModelsDev {
  import opened Basics
  import opened NearEquality

  /** Costs in USD per million tokens; JSON has no NaN or infinity. */
  datatype Cost = Cost(input: Option<real>, output: Option<real>, cacheRead: Option<real>)

  datatype Candidate = Candidate(provider: string, input: real, output: Option<real>, cacheRead: Option<real>)

  /** Provider to model to cost. */
  type Catalogue = map<string, map<string, Cost>>

  // ---------------------------------------------------------------- Go's string order

  predicate Less(a: string, b: string) {
    b != "" && (a == "" || a[0] < b[0] || (a[0] == b[0] && Less(a[1..], b[1..])))
  }

  lemma {:induction false} LessAsymmetric(a: string, b: string)
    requires Less(a, b)
    ensures !Less(b, a) && a != b
  {
    if a != "" && a[0] == b[0] { LessAsymmetric(a[1..], b[1..]); }
  }

  lemma {:induction false} LessTotal(a: string, b: string)
    ensures Less(a, b) || Less(b, a) || a == b
  {
    if a != "" && b != "" && a[0] == b[0] {
      LessTotal(a[1..], b[1..]);
      assert a == [a[0]] + a[1..] && b == [b[0]] + b[1..];
    }
  }

  lemma {:induction false} LessTransitive(a: string, b: string, c: string)
    requires Less(a, b) && Less(b, c)
    ensures Less(a, c)
  {
    if a != "" && a[0] == b[0] && b[0] == c[0] { LessTransitive(a[1..], b[1..], c[1..]); }
  }

  /** A text comes before another one when it is its beginning, or has the smaller character where they first differ. */
  lemma {:induction false} LessIs(a: string, b: string) returns (k: nat)
    ensures k <= |a| && k <= |b| && a[..k] == b[..k] && (k < |a| && k < |b| ==> a[k] != b[k])
    ensures Less(a, b) <==> k < |b| && (k == |a| || a[k] < b[k])
  {
    k := 0;
    if a != "" && b != "" && a[0] == b[0] {
      k := LessIs(a[1..], b[1..]);
      assert a[..k + 1] == [a[0]] + a[1..][..k] && b[..k + 1] == [b[0]] + b[1..][..k];
      k := k + 1;
    }
  }

  ghost predicate Ascending(names: seq<string>) {
    forall i, j | 0 <= i < j < |names| :: Less(names[i], names[j])
  }

  /** sort.Strings on the keys of a map. */
  method SortedKeys(keys: set<string>) returns (names: seq<string>)
    ensures Ascending(names)
    ensures forall name :: name in names <==> name in keys
  {
    names := [];
    var todo := keys;
    while todo != {}
      invariant todo <= keys && Ascending(names)
      invariant forall name :: name in names <==> name in keys - todo
      decreases todo
    {
      var key :| key in todo;
      names := InsertSorted(names, key);
      todo := todo - {key};
    }
  }

  method InsertSorted(names: seq<string>, key: string) returns (longer: seq<string>)
    requires Ascending(names) && key !in names
    ensures Ascending(longer)
    ensures forall name :: name in longer <==> name in names || name == key
  {
    var k := 0;
    while k < |names| && Less(names[k], key)
      invariant k <= |names| && forall i | 0 <= i < k :: Less(names[i], key)
    {
      k := k + 1;
    }
    longer := names[..k] + [key] + names[k..];
    InsertedSorted(names, key, k);
    assert names == names[..k] + names[k..];
  }

  lemma InsertedSorted(names: seq<string>, key: string, k: nat)
    requires Ascending(names) && key !in names && k <= |names|
    requires (forall i | 0 <= i < k :: Less(names[i], key)) && (k < |names| ==> !Less(names[k], key))
    ensures Ascending(names[..k] + [key] + names[k..])
  {
    if k < |names| {
      LessTotal(names[k], key);
      assert names[k] in names;
      forall j | k < j < |names| ensures Less(key, names[j]) { LessTransitive(key, names[k], names[j]); }
    }
  }

  // ---------------------------------------------------------------- candidates

  function BuildCandidate(provider: string, cost: Cost): (c: Option<Candidate>)
    ensures c.Some? ==> c.value.provider == provider && c.value.input >= 0.0 && cost.input == Some(c.value.input)
    ensures c.Some? && c.value.input == 0.0 ==> c.value.output.None? || c.value.output == Some(0.0)
    ensures c.Some? ==> c.value.output == cost.output && (cost.output.Some? ==> cost.output.value >= 0.0)
    ensures c.Some? && c.value.cacheRead.Some? ==> c.value.cacheRead == cost.cacheRead && cost.cacheRead.value >= 0.0
    ensures c.Some? && c.value.cacheRead.None? && cost.cacheRead.Some? ==> cost.cacheRead.value < 0.0
    ensures c.None? && cost.input.Some? && cost.input.value >= 0.0 ==>
      cost.output.Some? && (cost.output.value < 0.0 || (cost.input.value == 0.0 && cost.output.value > 0.0))
  {
    if cost.input.None? || cost.input.value < 0.0 then None
    else if cost.output.Some? && cost.output.value < 0.0 then None
    else if cost.input.value == 0.0 && cost.output.Some? && cost.output.value > 0.0 then None
    else Some(Candidate(provider, cost.input.value, cost.output,
                        if cost.cacheRead.Some? && cost.cacheRead.value < 0.0 then None else cost.cacheRead))
  }

  predicate ShouldReplace(current: Candidate, next: Candidate) {
    var currentNonZero, nextNonZero := current.input > 0.0, next.input > 0.0;
    if currentNonZero != nextNonZero then nextNonZero
    else if nextNonZero && !NearlyEqual(next.input, current.input) then next.input < current.input
    else Less(next.provider, current.provider)
  }

  /** The fold over the candidates of one model, in the order in which they are visited. */
  function Pick(cs: seq<Candidate>): Candidate
    requires cs != []
  {
    var last := cs[|cs| - 1];
    if |cs| == 1 then last else
    var current := Pick(cs[..|cs| - 1]);
    if ShouldReplace(current, last) then last else current
  }

  /** What the providers offer for a model, in their order. */
  function Offers(cat: Catalogue, providers: seq<string>, model: string): seq<Candidate> {
    if providers == [] then [] else
    var p := providers[|providers| - 1];
    Offers(cat, providers[..|providers| - 1], model) +
    if p in cat && model in cat[p] && BuildCandidate(p, cat[p][model]).Some?
    then [BuildCandidate(p, cat[p][model]).value]
    else []
  }

  /** The models with an offer are chosen, each with the fold over its offers. */
  ghost predicate AllChosen(cat: Catalogue, providers: seq<string>, chosen: map<string, Candidate>) {
    forall model :: Chosen(cat, providers, chosen, model)
  }

  ghost predicate Chosen(cat: Catalogue, providers: seq<string>, chosen: map<string, Candidate>, model: string) {
    var offers := Offers(cat, providers, model);
    (model in chosen <==> offers != []) && (model in chosen ==> chosen[model] == Pick(offers))
  }

  /** The selection.  It fails exactly when the catalogue is empty or holds no usable price. */
  method SelectCandidates(cat: Catalogue)
    returns (selected: Option<map<string, Candidate>>, ghost providers: seq<string>)
    ensures Ascending(providers) && forall p :: p in providers <==> p in cat
    ensures AllChosen(cat, providers, if selected.Some? then selected.value else map[])
    ensures selected.Some? ==> selected.value != map[]
  {
    var names := SortedKeys(cat.Keys);
    providers := names;
    if |cat| == 0 {
      assert forall name :: name !in names;
      return None, providers;
    }
    var chosen := VisitAll(cat, names);
    return if chosen == map[] then None else Some(chosen), providers;
  }

  method VisitAll(cat: Catalogue, names: seq<string>) returns (chosen: map<string, Candidate>)
    requires forall name | name in names :: name in cat
    ensures AllChosen(cat, names, chosen)
  {
    chosen := map[];
    for k := 0 to |names|
      invariant AllChosen(cat, names[..k], chosen)
    {
      chosen := VisitProvider(cat, names[..k], names[k], chosen);
      assert names[..k + 1] == names[..k] + [names[k]];
    }
    assert names[..|names|] == names;
  }

  method VisitProvider(cat: Catalogue, ghost before: seq<string>, provider: string, chosen: map<string, Candidate>)
    returns (chosen': map<string, Candidate>)
    requires provider in cat && AllChosen(cat, before, chosen)
    ensures AllChosen(cat, before + [provider], chosen')
  {
    chosen' := chosen;
    var todo := cat[provider].Keys;
    ghost var after := before + [provider];
    while todo != {}
      invariant todo <= cat[provider].Keys && Visiting(cat, before, provider, chosen', todo)
      decreases todo
    {
      var model :| model in todo;
      var candidate := BuildCandidate(provider, cat[provider][model]);
      ChosenStep(cat, before, provider, chosen', model);
      ghost var was := chosen';
      if candidate.Some? {
        if model !in chosen' || ShouldReplace(chosen'[model], candidate.value) {
          chosen' := chosen'[model := candidate.value];
        }
      }
      VisitStep(cat, before, provider, was, chosen', todo, model);
      todo := todo - {model};
    }
    forall model | model !in cat[provider] ensures Chosen(cat, after, chosen', model) {
      assert Chosen(cat, before, chosen', model);
      OffersSnoc(cat, before, provider, model);
    }
  }

  /** Half way through a provider: its models still to do are as they were before it, the others as after it. */
  ghost predicate Visiting(cat: Catalogue, before: seq<string>, p: string, chosen: map<string, Candidate>,
                           todo: set<string>)
    requires p in cat
  {
    && (forall model | model in todo || model !in cat[p] :: Chosen(cat, before, chosen, model))
    && (forall model | model !in todo && model in cat[p] :: Chosen(cat, before + [p], chosen, model))
  }

  lemma ChosenSame(cat: Catalogue, providers: seq<string>, chosen: map<string, Candidate>, next: map<string, Candidate>,
                   x: string)
    requires Chosen(cat, providers, chosen, x)
    requires (x in next <==> x in chosen) && (x in chosen ==> next[x] == chosen[x])
    ensures Chosen(cat, providers, next, x)
  {
  }

  lemma VisitStep(cat: Catalogue, before: seq<string>, p: string, chosen: map<string, Candidate>,
                  next: map<string, Candidate>, todo: set<string>, model: string)
    requires p in cat && model in cat[p] && Visiting(cat, before, p, chosen, todo)
    requires Chosen(cat, before + [p], next, model)
    requires next == chosen || (model in next && next == chosen[model := next[model]])
    ensures Visiting(cat, before, p, next, todo - {model})
  {
    var after := before + [p];
    forall x | x in todo - {model} || x !in cat[p] ensures Chosen(cat, before, next, x) {
      ChosenSame(cat, before, chosen, next, x);
    }
    forall x | x !in todo - {model} && x in cat[p] ensures Chosen(cat, after, next, x) {
      if x != model { ChosenSame(cat, after, chosen, next, x); }
    }
  }

  lemma ChosenStep(cat: Catalogue, before: seq<string>, p: string, chosen: map<string, Candidate>, model: string)
    requires p in cat && model in cat[p] && Chosen(cat, before, chosen, model)
    ensures var c := BuildCandidate(p, cat[p][model]);
      Chosen(cat, before + [p],
             if c.Some? && (model !in chosen || ShouldReplace(chosen[model], c.value)) then chosen[model := c.value]
             else chosen, model)
  {
    OffersSnoc(cat, before, p, model);
  }

  lemma OffersSnoc(cat: Catalogue, before: seq<string>, p: string, model: string)
    requires p in cat
    ensures var offers := Offers(cat, before, model);
      var c := BuildCandidate(p, if model in cat[p] then cat[p][model] else Cost(None, None, None));
      && Offers(cat, before + [p], model) == (if c.Some? then offers + [c.value] else offers)
      && (c.Some? ==>
            Pick(offers + [c.value]) ==
              if offers == [] || ShouldReplace(Pick(offers), c.value) then c.value else Pick(offers))
  {
    OffersLast(cat, before, p, model);
    var c := BuildCandidate(p, if model in cat[p] then cat[p][model] else Cost(None, None, None));
    if c.Some? { PickSnoc(Offers(cat, before, model), c.value); }
  }

  lemma OffersLast(cat: Catalogue, before: seq<string>, p: string, model: string)
    requires p in cat
    ensures var offers := Offers(cat, before, model);
      var c := BuildCandidate(p, if model in cat[p] then cat[p][model] else Cost(None, None, None));
      Offers(cat, before + [p], model) == if c.Some? then offers + [c.value] else offers
  {
    assert (before + [p])[..|before|] == before;
    assert Offers(cat, before, model) + [] == Offers(cat, before, model);
  }

  lemma PickSnoc(offers: seq<Candidate>, c: Candidate)
    ensures Pick(offers + [c]) == if offers == [] || ShouldReplace(Pick(offers), c) then c else Pick(offers)
  {
    assert (offers + [c])[..|offers|] == offers;
  }

  // ---------------------------------------------------------------- the choice is the cheapest non-zero price

  ghost predicate ProvidersAscend(cs: seq<Candidate>) {
    forall i, j | 0 <= i < j < |cs| :: Less(cs[i].provider, cs[j].provider)
  }

  ghost predicate AnyNonZero(cs: seq<Candidate>) {
    exists i :: 0 <= i < |cs| && cs[i].input > 0.0
  }

  /** The chosen candidate is non-zero whenever one is; no non-zero candidate undercuts it by epsilon or more; and it is
      strictly cheaper than every non-zero candidate that was visited before it. */
  lemma {:induction false} PickIsCheapest(cs: seq<Candidate>) returns (k: nat)
    requires cs != [] && ProvidersAscend(cs) && forall i | 0 <= i < |cs| :: cs[i].input >= 0.0
    ensures k < |cs| && Pick(cs) == cs[k]
    ensures AnyNonZero(cs) <==> cs[k].input > 0.0
    ensures forall i | 0 <= i < |cs| && cs[i].input > 0.0 :: cs[k].input - cs[i].input < EPSILON
    ensures forall i | 0 <= i < k && cs[i].input > 0.0 :: cs[k].input < cs[i].input
    ensures !AnyNonZero(cs) ==> k == 0
  {
    k := 0;
    if |cs| > 1 {
      var init, last := cs[..|cs| - 1], cs[|cs| - 1];
      k := PickIsCheapest(init);
      assert forall i | 0 <= i < |init| :: init[i] == cs[i];
      LessAsymmetric(cs[k].provider, last.provider);
      if ShouldReplace(cs[k], last) { k := |cs| - 1; }
    }
  }

  lemma {:induction false} OffersAscend(cat: Catalogue, providers: seq<string>, model: string)
    requires Ascending(providers)
    ensures ProvidersAscend(Offers(cat, providers, model))
    ensures forall i | 0 <= i < |Offers(cat, providers, model)| ::
      Offers(cat, providers, model)[i].input >= 0.0 && Offers(cat, providers, model)[i].provider in providers
  {
    if providers != [] {
      var init, p := providers[..|providers| - 1], providers[|providers| - 1];
      OffersAscend(cat, init, model);
      assert forall q | q in init :: Less(q, p);
    }
  }

  /** The selection of every model of every catalogue, in the order the providers are visited. */
  lemma SelectionIsCheapest(cat: Catalogue, providers: seq<string>, model: string)
    requires Ascending(providers) && Offers(cat, providers, model) != []
    ensures var offers, best := Offers(cat, providers, model), Pick(Offers(cat, providers, model));
      && best in offers
      && (AnyNonZero(offers) <==> best.input > 0.0)
      && forall c | c in offers && c.input > 0.0 :: best.input - c.input < EPSILON
  {
    OffersAscend(cat, providers, model);
    var k := PickIsCheapest(Offers(cat, providers, model));
  }

  /** A price that can be used: neither part is negative, and what is free is free altogether. */
  predicate Usable(cost: Cost) {
    && cost.input.Some? && cost.input.value >= 0.0
    && (cost.output.Some? ==> cost.output.value >= 0.0 && (cost.input.value == 0.0 ==> cost.output.value == 0.0))
  }

  predicate Sells(cat: Catalogue, p: string, model: string) {
    p in cat && model in cat[p] && Usable(cat[p][model])
  }

  /** The offers are the usable prices of the providers. */
  lemma {:induction false} OffersAre(cat: Catalogue, providers: seq<string>, model: string)
    ensures forall p | p in providers && Sells(cat, p, model) ::
      exists c :: c in Offers(cat, providers, model) && c.provider == p && Some(c.input) == cat[p][model].input
    ensures forall c | c in Offers(cat, providers, model) ::
      && c.provider in providers && Sells(cat, c.provider, model)
      && var cost := cat[c.provider][model];
         && Some(c.input) == cost.input && c.output == cost.output
         && (c.cacheRead == if cost.cacheRead.Some? && cost.cacheRead.value < 0.0 then None else cost.cacheRead)
  {
    if providers != [] {
      var init, p := providers[..|providers| - 1], providers[|providers| - 1];
      OffersAre(cat, init, model);
      var before, offers := Offers(cat, init, model), Offers(cat, providers, model);
      if Sells(cat, p, model) {
        assert offers[|before|] == BuildCandidate(p, cat[p][model]).value;
      }
      forall q | q in providers && Sells(cat, q, model)
        ensures exists c :: c in offers && c.provider == q && Some(c.input) == cat[q][model].input
      {
        if q in init {
          var c :| c in before && c.provider == q && Some(c.input) == cat[q][model].input;
          assert c in offers;
        } else {
          assert offers[|before|] in offers;
        }
      }
    }
  }

  /** Every provider that sells the model has an offer at its price. */
  lemma OfferOf(cat: Catalogue, providers: seq<string>, model: string, p: string) returns (i: nat)
    requires p in providers && Sells(cat, p, model)
    ensures i < |Offers(cat, providers, model)|
    ensures Offers(cat, providers, model)[i].provider == p
    ensures Some(Offers(cat, providers, model)[i].input) == cat[p][model].input
  {
    var offers := Offers(cat, providers, model);
    OffersAre(cat, providers, model);
    var c :| c in offers && c.provider == p && Some(c.input) == cat[p][model].input;
    i :| i < |offers| && offers[i] == c;
  }

  /** The candidate is the price at which its provider sells the model. */
  ghost predicate PricedAs(cat: Catalogue, model: string, c: Candidate) {
    && Sells(cat, c.provider, model)
    && var cost := cat[c.provider][model];
       && Some(c.input) == cost.input && c.output == cost.output
       && (c.cacheRead == if cost.cacheRead.Some? && cost.cacheRead.value < 0.0 then None else cost.cacheRead)
  }

  /** What is selected from a catalogue: exactly the models that some provider sells, each with the price of a provider
      that sells it. */
  lemma SelectedModels(cat: Catalogue, providers: seq<string>, chosen: map<string, Candidate>, model: string)
    requires Ascending(providers) && (forall p :: p in providers <==> p in cat) && AllChosen(cat, providers, chosen)
    ensures model in chosen <==> exists p :: Sells(cat, p, model)
    ensures model in chosen ==> PricedAs(cat, model, chosen[model])
  {
    assert Chosen(cat, providers, chosen, model);
    var offers := Offers(cat, providers, model);
    OffersAre(cat, providers, model);
    if offers != [] {
      assert offers[0] in offers;
      SelectionIsCheapest(cat, providers, model);
    }
    if p :| Sells(cat, p, model) { var i := OfferOf(cat, providers, model, p); }
  }

  /** It costs something if any provider takes something for it, and then none sells it for a billionth less or
      cheaper. */
  lemma SelectedPrice(cat: Catalogue, providers: seq<string>, chosen: map<string, Candidate>, model: string, p: string)
    requires Ascending(providers) && (forall q :: q in providers <==> q in cat) && AllChosen(cat, providers, chosen)
    requires Sells(cat, p, model) && cat[p][model].input.value > 0.0
    ensures model in chosen
    ensures chosen[model].input > 0.0 && chosen[model].input - cat[p][model].input.value < 0.000000001
  {
    assert Chosen(cat, providers, chosen, model);
    var i := OfferOf(cat, providers, model, p);
    var offers := Offers(cat, providers, model);
    assert offers[i] in offers && AnyNonZero(offers);
    SelectionIsCheapest(cat, providers, model);
  }

  /** A model that everybody gives away is taken from the first provider in order. */
  lemma FreeFromTheFirst(cat: Catalogue, providers: seq<string>, chosen: map<string, Candidate>, model: string)
    requires Ascending(providers) && (forall p :: p in providers <==> p in cat) && AllChosen(cat, providers, chosen)
    requires model in chosen && forall p | Sells(cat, p, model) :: cat[p][model].input == Some(0.0)
    ensures forall p | Sells(cat, p, model) :: p == chosen[model].provider || Less(chosen[model].provider, p)
  {
    assert Chosen(cat, providers, chosen, model);
    var offers := Offers(cat, providers, model);
    OffersAre(cat, providers, model);
    OffersAscend(cat, providers, model);
    var k := PickIsCheapest(offers);
    forall i | 0 <= i < |offers| ensures offers[i].input == 0.0 { assert offers[i] in offers; }
    forall p | Sells(cat, p, model) ensures p == chosen[model].provider || Less(chosen[model].provider, p) {
      var c :| c in offers && c.provider == p && Some(c.input) == cat[p][model].input;
      var i :| 0 <= i < |offers| && offers[i] == c;
    }
  }

  // ---------------------------------------------------------------- the order matters

  function Letters(n: nat): (s: string)
    ensures |s| == n && forall i | 0 <= i < n :: s[i] == 'a'
  {
    seq(n, _ => 'a')
  }

  lemma {:induction false} LettersLess(m: nat, n: nat)
    requires m < n
    ensures Less(Letters(m), Letters(n))
  {
    if m > 0 {
      assert Letters(m)[1..] == Letters(m - 1) && Letters(n)[1..] == Letters(n - 1);
      LettersLess(m - 1, n - 1);
    }
  }

  /** Prices that creep up by half an epsilon, from providers in descending order. */
  function Creeping(n: nat): (cs: seq<Candidate>)
    ensures |cs| == n + 1
    ensures forall i | 0 <= i <= n :: cs[i] == Candidate(Letters(n - i), 1.0 + i as real * EPSILON / 2.0, None, None)
  {
    seq(n + 1, i requires 0 <= i <= n => Candidate(Letters(n - i), 1.0 + i as real * EPSILON / 2.0, None, None))
  }

  /** Visiting providers in another order lets the error accumulate without bound. */
  lemma UnsortedErrorAccumulates(n: nat)
    ensures Pick(Creeping(n)).input - Creeping(n)[0].input == n as real * EPSILON / 2.0
  {
    CreepingPick(n, n);
    assert Creeping(n)[..n + 1] == Creeping(n);
  }

  lemma {:induction false} CreepingPick(n: nat, k: nat)
    requires k <= n
    ensures Pick(Creeping(n)[..k + 1]) == Creeping(n)[k]
  {
    if k > 0 {
      CreepingPick(n, k - 1);
      assert Creeping(n)[..k + 1][..k] == Creeping(n)[..k];
      LettersLess(n - k, n - k + 1);
    }
  }
}
