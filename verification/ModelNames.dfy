/** Lists of model names: normalization and the order-preserving set algebra on normalized lists. */
module ModelNames {
  import opened Basics
  import opened Text

  // ---------------------------------------------------------------- lists of model names

  /** normalizeModelNames: trimmed, non-empty, first occurrences only. */
  function Normalize(models: seq<string>): seq<string> {
    if models == [] then [] else
    var names, name := Normalize(models[..|models| - 1]), TrimSpace(models[|models| - 1]);
    if name == "" || name in names then names else names + [name]
  }

  ghost predicate IsNormal(names: seq<string>) {
    && (forall i | 0 <= i < |names| :: names[i] != "" && Trimmed(names[i], IsSpace))
    && (forall i, j | 0 <= i < j < |names| :: names[i] != names[j])
  }

  /** lo.Filter */
  function Filter(names: seq<string>, keep: string -> bool): seq<string> {
    if names == [] then [] else
    var rest, name := Filter(names[..|names| - 1], keep), names[|names| - 1];
    if keep(name) then rest + [name] else rest
  }

  function Subtract(names: seq<string>, removed: seq<string>): seq<string> {
    var gone := Normalize(removed);
    Filter(Normalize(names), name => name !in gone)
  }

  function Intersect(names: seq<string>, allowed: seq<string>): seq<string> {
    var good := Normalize(allowed);
    Filter(Normalize(names), name => name in good)
  }

  /** applySelectedModelChanges, with mergeModelNames written as what it computes. */
  function ApplySelected(origin: seq<string>, add: seq<string>, remove: seq<string>): seq<string> {
    var added := Normalize(add);
    Subtract(Normalize(origin + added), Subtract(Normalize(remove), added))
  }

  lemma {:induction false} NormalizeIsNormal(models: seq<string>)
    ensures IsNormal(Normalize(models))
  {
    if models != [] {
      NormalizeIsNormal(models[..|models| - 1]);
      TrimFixed(models[|models| - 1], IsSpace);
    }
  }

  lemma {:induction false} NormalizeSource(models: seq<string>, name: string)
    requires name in Normalize(models)
    ensures exists i :: 0 <= i < |models| && TrimSpace(models[i]) == name
  {
    var init := models[..|models| - 1];
    if name in Normalize(init) {
      NormalizeSource(init, name);
      var i :| 0 <= i < |init| && TrimSpace(init[i]) == name;
      assert models[i] == init[i];
    } else {
      assert TrimSpace(models[|models| - 1]) == name;
    }
  }

  /** A model name that is not empty, trimmed, and that no earlier one equals. */
  ghost predicate FirstOfItsName(models: seq<string>, k: nat) {
    && k < |models| && TrimSpace(models[k]) != ""
    && forall j | 0 <= j < k :: TrimSpace(models[j]) != TrimSpace(models[k])
  }

  /** The trimmed first occurrences, in their order; `idx` says where they stand. */
  ghost predicate FirstNames(models: seq<string>, names: seq<string>, idx: seq<nat>) {
    && |names| == |idx|
    && (forall i | 0 <= i < |idx| :: FirstOfItsName(models, idx[i]) && names[i] == TrimSpace(models[idx[i]]))
    && (forall i, j | 0 <= i < j < |idx| :: idx[i] < idx[j])
    && (forall k: nat | FirstOfItsName(models, k) :: k in idx)
  }

  /** Normalization keeps exactly these. */
  lemma {:induction false} NormalizeIs(models: seq<string>) returns (idx: seq<nat>)
    ensures FirstNames(models, Normalize(models), idx)
  {
    idx := [];
    if models != [] {
      var init, last := models[..|models| - 1], models[|models| - 1];
      idx := NormalizeIs(init);
      NewName(models);
      assert models == init + [last];
      if FirstOfItsName(models, |init|) {
        FirstNameTaken(init, last, Normalize(init), idx);
        idx := idx + [|init|];
      } else {
        FirstNamePassed(init, last, Normalize(init), idx);
      }
    }
  }

  lemma SameFirst(init: seq<string>, x: string, k: nat)
    requires k < |init|
    ensures FirstOfItsName(init + [x], k) <==> FirstOfItsName(init, k)
  {
    assert forall j | 0 <= j <= k :: (init + [x])[j] == init[j];
  }

  lemma FirstNamePassed(init: seq<string>, x: string, names: seq<string>, idx: seq<nat>)
    requires FirstNames(init, names, idx) && !FirstOfItsName(init + [x], |init|)
    ensures FirstNames(init + [x], names, idx)
  {
    forall i | 0 <= i < |idx| ensures FirstOfItsName(init + [x], idx[i]) { SameFirst(init, x, idx[i]); }
    forall k: nat | FirstOfItsName(init + [x], k) ensures k in idx { SameFirst(init, x, k); }
  }

  lemma FirstNameTaken(init: seq<string>, x: string, names: seq<string>, idx: seq<nat>)
    requires FirstNames(init, names, idx) && FirstOfItsName(init + [x], |init|)
    ensures FirstNames(init + [x], names + [TrimSpace(x)], idx + [|init|])
  {
    forall i | 0 <= i < |idx| ensures FirstOfItsName(init + [x], idx[i]) { SameFirst(init, x, idx[i]); }
    forall k: nat | FirstOfItsName(init + [x], k) ensures k in idx + [|init|] {
      if k < |init| { SameFirst(init, x, k); }
    }
  }

  lemma NewName(models: seq<string>)
    requires models != []
    ensures var n := |models| - 1; var name := TrimSpace(models[n]);
      FirstOfItsName(models, n) <==> name != "" && name !in Normalize(models[..n])
  {
    var n := |models| - 1;
    var init, name := models[..n], TrimSpace(models[n]);
    NormalizeHas(init, name);
    assert forall j | 0 <= j < n :: init[j] == models[j];
    if i :| 0 <= i < |init| && TrimSpace(init[i]) == name { assert TrimSpace(models[i]) == name; }
  }

  /** The members: the names that are not empty after trimming. */
  lemma {:induction false} NormalizeHas(models: seq<string>, name: string)
    ensures name in Normalize(models) <==> name != "" && exists i :: 0 <= i < |models| && TrimSpace(models[i]) == name
  {
    if models != [] {
      var init := models[..|models| - 1];
      NormalizeHas(init, name);
      if i :| 0 <= i < |init| && TrimSpace(init[i]) == name { assert models[i] == init[i]; }
      if i :| 0 <= i < |models| && TrimSpace(models[i]) == name { assert i < |init| ==> init[i] == models[i]; }
    }
  }

  lemma {:induction false} NormalFixed(names: seq<string>)
    requires IsNormal(names)
    ensures Normalize(names) == names
  {
    if names != [] {
      NormalFixed(names[..|names| - 1]);
      TrimFixed(names[|names| - 1], IsSpace);
      assert names == names[..|names| - 1] + [names[|names| - 1]];
    }
  }

  lemma {:induction false} FilterMembers(names: seq<string>, keep: string -> bool)
    ensures forall name :: name in Filter(names, keep) <==> name in names && keep(name)
    ensures IsNormal(names) ==> IsNormal(Filter(names, keep))
  {
    if names != [] {
      var init := names[..|names| - 1];
      FilterMembers(init, keep);
      assert names == init + [names[|names| - 1]];
    }
  }

  /** A filter keeps the wanted names, in their order. */
  lemma {:induction false} FilterIs(names: seq<string>, keep: string -> bool) returns (idx: seq<nat>)
    ensures KeptInOrder(names, keep, (name: string) => name, Filter(names, keep), idx)
  {
    idx := [];
    if names != [] {
      var init, last := names[..|names| - 1], names[|names| - 1];
      idx := FilterIs(init, keep);
      assert names == init + [last];
      if keep(last) {
        InOrderTakes(init, last, keep, (name: string) => name, Filter(init, keep), idx);
        idx := idx + [|init|];
      } else {
        InOrderPasses(init, last, keep, (name: string) => name, Filter(init, keep), idx);
      }
    }
  }

  /** The same in terms of what is kept. */
  lemma FilterInOrder(names: seq<string>, keep: string -> bool, kept: seq<string>) returns (idx: seq<nat>)
    requires kept == Filter(names, keep)
    ensures KeptInOrder(names, (name: string) => name in kept, (name: string) => name, kept, idx)
  {
    idx := FilterIs(names, keep);
    FilterMembers(names, keep);
    SameInOrder(names, keep, (name: string) => name in kept, (name: string) => name, kept, idx);
  }

  /** What subtracting, intersecting and applying a selection leave; a name that is both added and removed is added. */
  lemma SelectedMembers(origin: seq<string>, add: seq<string>, remove: seq<string>, name: string)
    ensures name in Subtract(origin, remove) <==> name in Normalize(origin) && name !in Normalize(remove)
    ensures name in Intersect(origin, remove) <==> name in Normalize(origin) && name in Normalize(remove)
    ensures name in ApplySelected(origin, add, remove) <==>
      name in Normalize(add) || (name in Normalize(origin) && name !in Normalize(remove))
  {
    FilterMembers(Normalize(origin), n => n !in Normalize(remove));
    FilterMembers(Normalize(origin), n => n in Normalize(remove));
    var added, gone := Normalize(add), Subtract(Normalize(remove), Normalize(add));
    var merged := Normalize(origin + added);
    Twice(add);
    Twice(remove);
    Twice(origin + added);
    FilterMembers(Normalize(Normalize(remove)), n => n !in Normalize(added));
    FilterNormal(Normalize(remove), n => n !in added);
    FilterMembers(Normalize(merged), n => n !in Normalize(gone));
    NormalizeHas(origin, name);
    NormalizeHas(added, name);
    NormalizeHas(origin + added, name);
    if i :| 0 <= i < |origin| && TrimSpace(origin[i]) == name { assert (origin + added)[i] == origin[i]; }
    if i :| 0 <= i < |added| && TrimSpace(added[i]) == name { assert (origin + added)[|origin| + i] == added[i]; }
  }

  lemma Twice(models: seq<string>)
    ensures Normalize(Normalize(models)) == Normalize(models)
  {
    NormalizeIsNormal(models);
    NormalFixed(Normalize(models));
  }

  lemma FilterNormal(names: seq<string>, keep: string -> bool)
    requires Normalize(names) == names
    ensures Normalize(Filter(names, keep)) == Filter(names, keep)
  {
    NormalizeIsNormal(names);
    FilterMembers(names, keep);
    NormalFixed(Filter(names, keep));
  }

  lemma {:induction false} FilterSame(names: seq<string>, p: string -> bool, q: string -> bool)
    requires forall name | name in names :: p(name) == q(name)
    ensures Filter(names, p) == Filter(names, q)
  {
    if names != [] { FilterSame(names[..|names| - 1], p, q); }
  }

  lemma {:induction false} FilterTwice(names: seq<string>, p: string -> bool, q: string -> bool)
    ensures Filter(Filter(names, p), q) == Filter(names, name => p(name) && q(name))
  {
    if names != [] {
      var init, last := names[..|names| - 1], names[|names| - 1];
      FilterTwice(init, p, q);
      if p(last) { assert (Filter(init, p) + [last])[..|Filter(init, p)|] == Filter(init, p); }
    }
  }

  lemma {:induction false} FilterConcat(a: seq<string>, b: seq<string>, keep: string -> bool)
    ensures Filter(a + b, keep) == Filter(a, keep) + Filter(b, keep)
  {
    if b == [] {
      assert a + b == a;
    } else {
      assert (a + b)[..|a + b| - 1] == a + b[..|b| - 1];
      FilterConcat(a, b[..|b| - 1], keep);
    }
  }

  lemma {:induction false} FilterAll(names: seq<string>, keep: string -> bool)
    ensures (forall name | name in names :: keep(name)) ==> Filter(names, keep) == names
    ensures (forall name | name in names :: !keep(name)) ==> Filter(names, keep) == []
  {
    if names != [] {
      FilterAll(names[..|names| - 1], keep);
      assert names == names[..|names| - 1] + [names[|names| - 1]];
    }
  }

  /** Lists without a common name normalize to their concatenation. */
  lemma NormalizeDisjoint(a: seq<string>, b: seq<string>)
    requires IsNormal(a) && IsNormal(b) && forall name | name in b :: name !in a
    ensures IsNormal(a + b) && Normalize(a + b) == a + b
  {
    forall i, j | 0 <= i < j < |a + b| ensures (a + b)[i] != (a + b)[j] {
      if i < |a| <= j { assert b[j - |a|] in b; }
    }
    NormalFixed(a + b);
  }

  /** mergeModelNames: the base list followed by the appended names it lacks. */
  method MergeModelNames(base: seq<string>, appended: seq<string>) returns (merged: seq<string>)
    ensures merged == Normalize(base + appended)
  {
    merged := Normalize(base);
    var seen := set name | name in merged;
    var names := Normalize(appended);
    assert base + names[..0] == base;
    NormalizeIsNormal(appended);
    for k := 0 to |names|
      invariant seen == set name | name in merged
      invariant merged == Normalize(base + names[..k])
    {
      MergeStep(base, names, k);
      if names[k] in seen { continue; }
      seen := seen + {names[k]};
      SeenSnoc(merged, names[k]);
      merged := merged + [names[k]];
    }
    NormalizeAppended(base, appended);
    assert names[..|names|] == names;
  }

  lemma SeenSnoc(names: seq<string>, last: string)
    ensures (set name | name in names + [last]) == (set name | name in names) + {last}
  {
  }

  lemma MergeStep(base: seq<string>, names: seq<string>, k: nat)
    requires IsNormal(names) && k < |names|
    ensures Normalize(base + names[..k + 1]) ==
      if names[k] in Normalize(base + names[..k]) then Normalize(base + names[..k])
      else Normalize(base + names[..k]) + [names[k]]
  {
    NormalizeSnoc(base + names[..k], names[k]);
    assert base + names[..k + 1] == (base + names[..k]) + [names[k]];
    TrimFixed(names[k], IsSpace);
  }

  lemma NormalizeSnoc(models: seq<string>, m: string)
    ensures Normalize(models + [m]) ==
      if TrimSpace(m) == "" || TrimSpace(m) in Normalize(models) then Normalize(models)
      else Normalize(models) + [TrimSpace(m)]
  {
    assert (models + [m])[..|models|] == models;
  }

  lemma {:induction false} NormalizeKeeps(models: seq<string>, more: seq<string>)
    ensures forall name | name in Normalize(models) :: name in Normalize(models + more)
    ensures forall name | name in Normalize(more) :: name in Normalize(models + more)
  {
    if more == [] {
      assert models + more == models;
    } else {
      var init, last := more[..|more| - 1], more[|more| - 1];
      NormalizeKeeps(models, init);
      NormalizeSnoc(models + init, last);
      assert models + more == (models + init) + [last];
    }
  }

  lemma AppendedKnown(base: seq<string>, init: seq<string>, last: string)
    requires TrimSpace(last) == "" || TrimSpace(last) in Normalize(init)
    ensures Normalize(base + (init + [last])) == Normalize(base + init)
  {
    NormalizeKeeps(base, init);
    assert base + (init + [last]) == (base + init) + [last];
    NormalizeSnoc(base + init, last);
  }

  lemma AppendedNew(base: seq<string>, names: seq<string>, init: seq<string>, last: string)
    requires Normalize(base + names) == Normalize(base + init)
    ensures Normalize(base + (names + [TrimSpace(last)])) == Normalize(base + (init + [last]))
  {
    var t := TrimSpace(last);
    TrimFixed(last, IsSpace);
    TrimFixed(t, IsSpace);
    assert base + (init + [last]) == (base + init) + [last];
    assert base + (names + [t]) == (base + names) + [t];
    NormalizeSnoc(base + init, last);
    NormalizeSnoc(base + names, t);
  }

  /** Normalizing the appended list first makes no difference. */
  lemma {:induction false} NormalizeAppended(base: seq<string>, appended: seq<string>)
    ensures Normalize(base + Normalize(appended)) == Normalize(base + appended)
  {
    if appended != [] {
      var init, last := appended[..|appended| - 1], appended[|appended| - 1];
      assert appended == init + [last];
      NormalizeAppended(base, init);
      if TrimSpace(last) == "" || TrimSpace(last) in Normalize(init) {
        AppendedKnown(base, init, last);
      } else {
        AppendedNew(base, Normalize(init), init, last);
      }
    }
  }
}
