/** Reconciling a channel's model list with its upstream: detecting what to add and remove, and applying a
    selection of the pending changes. */
module UpstreamUpdate {
  import opened Basics
  import opened Text
  import opened ModelNames

  /** The stored fields of a channel that reconciliation reads and writes: the comma-separated model list, the
      ignore list, and the pending adds and removes of the last detection. */
  datatype Channel = Channel(models: string, ignored: seq<string>, detected: seq<string>, removed: seq<string>)

  /** What detection reads besides the channel: the redirect map and Go's regular expressions, as a function from
      a pattern and a name to whether the pattern compiles and matches. */
  datatype Env = Env(mapping: map<string, string>, matches: (string, string) -> bool)

  function GetModels(models: string): seq<string> {
    if models == "" then [] else Split(Trim(models, c => c == ','), ',')
  }

  function Local(ch: Channel): seq<string> {
    Normalize(GetModels(ch.models))
  }

  const REGEX := "regex:"

  predicate IgnoreEntryMatches(env: Env, entry: string, name: string) {
    if REGEX <= entry then env.matches(TrimSpace(entry[|REGEX|..]), name) else entry == name
  }

  predicate Ignored(env: Env, ignored: seq<string>, name: string) {
    exists entry :: entry in Normalize(ignored) && IgnoreEntryMatches(env, entry, name)
  }

  /** An upstream model that the channel serves already: by name, or as the target of a redirect. */
  predicate Covered(env: Env, local: seq<string>, name: string) {
    name in local || name in env.mapping.Values
  }

  function PendingAdds(env: Env, local: seq<string>, upstream: seq<string>, ignored: seq<string>): seq<string> {
    Filter(Normalize(upstream), name => !Covered(env, local, name) && !Ignored(env, ignored, name))
  }

  function PendingRemoves(env: Env, local: seq<string>, upstream: seq<string>): seq<string> {
    var up := Normalize(upstream);
    Filter(local, name => name !in env.mapping.Keys && name !in up)
  }

  /** collectPendingUpstreamModelChangesFromModels */
  method CollectPending(env: Env, localModels: seq<string>, upstreamModels: seq<string>, ignoredModels: seq<string>)
    returns (adds: seq<string>, removes: seq<string>)
    ensures adds == PendingAdds(env, Normalize(localModels), upstreamModels, ignoredModels)
    ensures removes == PendingRemoves(env, Normalize(localModels), upstreamModels)
  {
    var local := Normalize(localModels);
    adds := CollectAdds(env, local, Normalize(upstreamModels), ignoredModels);
    removes := CollectRemoves(env, local, Normalize(upstreamModels));
    NormalizeIsNormal(upstreamModels);
    NormalizeIsNormal(localModels);
    FilterMembers(Normalize(upstreamModels), name => !Covered(env, local, name) && !Ignored(env, ignoredModels, name));
    FilterMembers(local, name => name !in env.mapping.Keys && name !in Normalize(upstreamModels));
    NormalFixed(adds);
    NormalFixed(removes);
    adds, removes := Normalize(adds), Normalize(removes);
  }

  /** The names the channel covers: its own and the targets of its redirects. */
  method CoveredNames(env: Env, local: seq<string>) returns (covered: set<string>)
    ensures forall name :: name in covered <==> Covered(env, local, name)
  {
    covered := SetOf(local);
    var targets := env.mapping.Values;
    while targets != {}
      invariant targets <= env.mapping.Values
      invariant forall name :: name in covered <==> name in local || name in env.mapping.Values - targets
      decreases targets
    {
      var target :| target in targets;
      covered := covered + {target};
      targets := targets - {target};
    }
  }

  method CollectAdds(env: Env, local: seq<string>, upstream: seq<string>, ignoredModels: seq<string>)
    returns (adds: seq<string>)
    ensures adds == Filter(upstream, name => !Covered(env, local, name) && !Ignored(env, ignoredModels, name))
  {
    var covered := CoveredNames(env, local);
    var ignored := Normalize(ignoredModels);
    adds := [];
    for k := 0 to |upstream|
      invariant adds == Filter(upstream[..k], name => !Covered(env, local, name) && !Ignored(env, ignoredModels, name))
    {
      assert upstream[..k + 1][..k] == upstream[..k];
      var hit := AnyMatches(env, ignored, upstream[k]);
      if upstream[k] !in covered && !hit { adds := adds + [upstream[k]]; }
    }
    assert upstream[..|upstream|] == upstream;
  }

  method CollectRemoves(env: Env, local: seq<string>, upstream: seq<string>) returns (removes: seq<string>)
    ensures removes == Filter(local, name => name !in env.mapping.Keys && name !in upstream)
  {
    var upstreamSet := SetOf(upstream);
    removes := [];
    for k := 0 to |local|
      invariant removes == Filter(local[..k], name => name !in env.mapping.Keys && name !in upstream)
    {
      assert local[..k + 1][..k] == local[..k];
      if local[k] !in env.mapping.Keys && local[k] !in upstreamSet { removes := removes + [local[k]]; }
    }
    assert local[..|local|] == local;
  }

  method SetOf(names: seq<string>) returns (s: set<string>)
    ensures forall name :: name in s <==> name in names
  {
    s := {};
    for k := 0 to |names|
      invariant forall name :: name in s <==> name in names[..k]
    {
      s := s + {names[k]};
    }
  }

  /** lo.ContainsBy over the ignore list. */
  method AnyMatches(env: Env, entries: seq<string>, name: string) returns (hit: bool)
    ensures hit == exists entry :: entry in entries && IgnoreEntryMatches(env, entry, name)
  {
    for k := 0 to |entries|
      invariant forall i | 0 <= i < k :: !IgnoreEntryMatches(env, entries[i], name)
    {
      if IgnoreEntryMatches(env, entries[k], name) { return true; }
    }
    return false;
  }

  // ---------------------------------------------------------------- the stored channel

  /** One detection; with `auto` (auto-sync) the detected models are added at once. */
  function Detect(env: Env, ch: Channel, upstream: seq<string>, auto: bool): Channel {
    var adds := PendingAdds(env, Local(ch), upstream, ch.ignored);
    var removes := PendingRemoves(env, Local(ch), upstream);
    if auto && adds != [] then
      ch.(models := Join(Normalize(Local(ch) + adds), ','), detected := [], removed := removes)
    else ch.(detected := adds, removed := removes)
  }

  /** What a selection comes down to after it is cut to the pending changes. */
  datatype Selection = Selection(add: seq<string>, ignore: seq<string>, remove: seq<string>)

  function Select(ch: Channel, add: seq<string>, ignore: seq<string>, remove: seq<string>): Selection {
    var adds := Intersect(add, ch.detected);
    Selection(adds, Intersect(ignore, ch.detected), Subtract(Intersect(remove, ch.removed), adds))
  }

  /** applyChannelUpstreamModelUpdates, when the database accepts the update. */
  function Apply(ch: Channel, sel: Selection): Channel {
    var next := ApplySelected(Local(ch), sel.add, sel.remove);
    var ignored := Normalize(ch.ignored + sel.ignore);
    Channel(
      if next == Local(ch) then ch.models else Join(next, ','),
      if |sel.add| > 0 then Subtract(ignored, sel.add) else ignored,
      Subtract(Normalize(ch.detected), sel.add + sel.ignore),
      Subtract(Normalize(ch.removed), sel.remove))
  }

  lemma IntersectNormalized(names: seq<string>, allowed: seq<string>)
    ensures Intersect(names, Normalize(allowed)) == Intersect(names, allowed)
  {
    NormalizeIsNormal(allowed);
    NormalFixed(Normalize(allowed));
  }

  /** applySelectedModelChanges */
  method ApplySelectedChanges(origin: seq<string>, add: seq<string>, remove: seq<string>) returns (next: seq<string>)
    ensures next == ApplySelected(origin, add, remove)
  {
    var added := Normalize(add);
    var merged := MergeModelNames(origin, added);
    next := Subtract(merged, Subtract(Normalize(remove), added));
  }

  /** The channel record that the two handlers update in place. */
  class ChannelRecord {
    var models: string
    var ignored: seq<string>
    var detected: seq<string>
    var removed: seq<string>

    function Value(): Channel
      reads this
    {
      Channel(models, ignored, detected, removed)
    }

    method CheckAndPersist(env: Env, upstream: seq<string>, auto: bool) returns (autoAdded: int)
      modifies this
      ensures Value() == Detect(env, old(Value()), upstream, auto)
      ensures autoAdded == if auto then |PendingAdds(env, Local(old(Value())), upstream, old(ignored))| else 0
    {
      var local := GetModels(models);
      var adds, removes := CollectPending(env, local, upstream, ignored);
      PendingIsNew(env, Value(), upstream);
      autoAdded := 0;
      if auto && adds != [] {
        var origin := Normalize(local);
        var merged := MergeModelNames(origin, adds);
        NormalizeIsNormal(local);
        NormalizeDisjoint(origin, adds);
        if |merged| > |origin| {
          models := Join(merged, ',');
          autoAdded := |merged| - |origin|;
        }
        detected := [];
      } else {
        detected := adds;
      }
      removed := removes;
    }

    method ApplyUpdates(addInput: seq<string>, ignoreInput: seq<string>, removeInput: seq<string>)
      returns (modelsChanged: bool)
      modifies this
      ensures Value() == Apply(old(Value()), Select(old(Value()), addInput, ignoreInput, removeInput))
      ensures !modelsChanged ==> models == old(models)
    {
      var adds := Intersect(addInput, Normalize(detected));
      var ignores := Intersect(ignoreInput, Normalize(detected));
      var removes := Subtract(Intersect(removeInput, Normalize(removed)), adds);
      IntersectNormalized(addInput, detected);
      IntersectNormalized(ignoreInput, detected);
      IntersectNormalized(removeInput, removed);
      var origin := Normalize(GetModels(models));
      var next := ApplySelectedChanges(origin, adds, removes);
      modelsChanged := origin != next;
      if modelsChanged { models := Join(next, ','); }
      var pendingAdds, pendingRemoves := Normalize(detected), Normalize(removed);
      ignored := MergeModelNames(ignored, ignores);
      if |adds| > 0 { ignored := Subtract(ignored, adds); }
      detected := Subtract(pendingAdds, adds + ignores);
      removed := Subtract(pendingRemoves, removes);
    }
  }

  // ---------------------------------------------------------------- what is stored comes back

  lemma LocalCommaFree(ch: Channel)
    ensures forall name | name in Local(ch) :: ',' !in name
  {
    forall name | name in Local(ch) ensures ',' !in name {
      var parts := GetModels(ch.models);
      NormalizeSource(parts, name);
      var i :| 0 <= i < |parts| && TrimSpace(parts[i]) == name;
      TrimWithin(parts[i], IsSpace, ',');
    }
  }

  /** A normalized list without commas survives being stored. */
  lemma StoredModels(names: seq<string>)
    requires IsNormal(names) && forall name | name in names :: ',' !in name
    ensures Normalize(GetModels(Join(names, ','))) == names
  {
    NormalFixed(names);
    if names != [] {
      JoinSplits(names, ',');
      JoinTrimmed(names, ',');
      TrimFixed(Join(names, ','), c => c == ',');
      JoinNotEmpty(names);
    }
  }

  lemma JoinNotEmpty(names: seq<string>)
    requires names != [] && names[0] != ""
    ensures Join(names, ',') != ""
  {
  }

  /** Pending adds are new upstream models and pending removes are local models the upstream lacks. */
  lemma PendingIsNew(env: Env, ch: Channel, upstream: seq<string>)
    ensures var adds := PendingAdds(env, Local(ch), upstream, ch.ignored);
      && IsNormal(adds)
      && forall name ::
           name in adds <==>
             name in Normalize(upstream) && !Covered(env, Local(ch), name) && !Ignored(env, ch.ignored, name)
    ensures var removes := PendingRemoves(env, Local(ch), upstream);
      && IsNormal(removes)
      && forall name ::
           name in removes <==> name in Local(ch) && name !in env.mapping.Keys && name !in Normalize(upstream)
  {
    NormalizeIsNormal(upstream);
    NormalizeIsNormal(GetModels(ch.models));
    FilterMembers(Normalize(upstream), name => !Covered(env, Local(ch), name) && !Ignored(env, ch.ignored, name));
    var up := Normalize(upstream);
    FilterMembers(Local(ch), name => name !in env.mapping.Keys && name !in up);
  }

  /** The pending adds, from the lists alone: the upstream's names that are neither local nor the target of a redirect,
      and that no entry of the ignore list names or, as a pattern after "regex:", matches. */
  lemma PendingAddsAre(env: Env, local: seq<string>, upstream: seq<string>, ignored: seq<string>, name: string)
    ensures name in PendingAdds(env, local, upstream, ignored) <==>
      && name in Normalize(upstream) && name !in local
      && (forall source | source in env.mapping :: env.mapping[source] != name)
      && (forall entry | entry in Normalize(ignored) ::
            if "regex:" <= entry then !env.matches(TrimSpace(entry[6..]), name) else entry != name)
  {
    FilterMembers(Normalize(upstream), n => !Covered(env, local, n) && !Ignored(env, ignored, n));
    if source :| source in env.mapping && env.mapping[source] == name { assert name in env.mapping.Values; }
    if !Ignored(env, ignored, name) {
      forall entry | entry in Normalize(ignored)
        ensures if "regex:" <= entry then !env.matches(TrimSpace(entry[6..]), name) else entry != name
      {
        assert !IgnoreEntryMatches(env, entry, name);
      }
    }
  }

  /** The pending removes: the local names that are gone upstream and are no redirect of the channel. */
  lemma PendingRemovesAre(env: Env, local: seq<string>, upstream: seq<string>, name: string)
    ensures name in PendingRemoves(env, local, upstream) <==>
      name in local && name !in Normalize(upstream) && name !in env.mapping
  {
    var up := Normalize(upstream);
    FilterMembers(local, n => n !in env.mapping.Keys && n !in up);
  }

  /** Both keep the order of the list they are taken from. */
  lemma PendingInOrder(env: Env, local: seq<string>, upstream: seq<string>, ignored: seq<string>)
    returns (adds: seq<nat>, removes: seq<nat>)
    ensures var names := PendingAdds(env, local, upstream, ignored);
      KeptInOrder(Normalize(upstream), (name: string) => name in names, (name: string) => name, names, adds)
    ensures var names := PendingRemoves(env, local, upstream);
      KeptInOrder(local, (name: string) => name in names, (name: string) => name, names, removes)
  {
    var up := Normalize(upstream);
    adds := FilterInOrder(up, n => !Covered(env, local, n) && !Ignored(env, ignored, n),
                          PendingAdds(env, local, upstream, ignored));
    removes := FilterInOrder(local, n => n !in env.mapping.Keys && n !in up, PendingRemoves(env, local, upstream));
  }

  /** What detection stores: without auto-sync the pending changes, with it the added names, behind the local ones, and
      the pending removes. */
  lemma DetectedIs(env: Env, ch: Channel, upstream: seq<string>, auto: bool)
    ensures var ch' := Detect(env, ch, upstream, auto); var adds := PendingAdds(env, Local(ch), upstream, ch.ignored);
      && ch'.ignored == ch.ignored && ch'.removed == PendingRemoves(env, Local(ch), upstream)
      && (!auto ==> ch'.models == ch.models && ch'.detected == adds)
      && (auto ==> ch'.detected == [] && (adds == [] ==> ch'.models == ch.models))
      && (auto && adds != [] && (forall name | name in adds :: ',' !in name) ==> Local(ch') == Local(ch) + adds)
  {
    var adds := PendingAdds(env, Local(ch), upstream, ch.ignored);
    if auto && adds != [] && forall name | name in adds :: ',' !in name {
      PendingIsNew(env, ch, upstream);
      NormalizeIsNormal(GetModels(ch.models));
      NormalizeDisjoint(Local(ch), adds);
      LocalCommaFree(ch);
      StoredModels(Local(ch) + adds);
    }
  }

  /** The stored text is the list, without commas at its ends. */
  lemma GetModelsIs(models: string)
    ensures models == "" ==> GetModels(models) == []
    ensures models != "" ==> Join(GetModels(models), ',') == Trim(models, c => c == ',')
    ensures forall i | 0 <= i < |GetModels(models)| :: ',' !in GetModels(models)[i]
  {
    if models != "" { SplitJoins(Trim(models, c => c == ','), ','); }
  }

  // ---------------------------------------------------------------- one round

  /** The selection names pending changes only, and what is added is not removed. */
  lemma SelectionMembers(ch: Channel, add: seq<string>, ignore: seq<string>, remove: seq<string>)
    requires IsNormal(ch.detected) && IsNormal(ch.removed)
    ensures var sel := Select(ch, add, ignore, remove);
      && IsNormal(sel.add) && IsNormal(sel.ignore) && IsNormal(sel.remove)
      && (forall name :: name in sel.add <==> name in Normalize(add) && name in ch.detected)
      && (forall name :: name in sel.ignore <==> name in Normalize(ignore) && name in ch.detected)
      && (forall name :: name in sel.remove <==> name in Normalize(remove) && name in ch.removed && name !in sel.add)
  {
    NormalFixed(ch.detected);
    NormalFixed(ch.removed);
    NormalizeIsNormal(add);
    NormalizeIsNormal(ignore);
    NormalizeIsNormal(remove);
    FilterMembers(Normalize(add), name => name in ch.detected);
    FilterMembers(Normalize(ignore), name => name in ch.detected);
    FilterMembers(Normalize(remove), name => name in ch.removed);
    var adds, removes := Intersect(add, ch.detected), Intersect(remove, ch.removed);
    NormalFixed(adds);
    NormalFixed(removes);
    FilterMembers(removes, name => name !in adds);
  }

  /** Applying a selection keeps the order of the list, drops the removed names and appends the added ones. */
  lemma NextModels(local: seq<string>, add: seq<string>, remove: seq<string>)
    requires IsNormal(local) && IsNormal(add) && IsNormal(remove)
    requires forall name | name in add :: name !in local && name !in remove
    ensures ApplySelected(local, add, remove) == Filter(local, name => name !in remove) + add
    ensures IsNormal(ApplySelected(local, add, remove))
  {
    NormalFixed(add);
    NormalFixed(remove);
    NormalizeDisjoint(local, add);
    NormalFixed(local + add);
    FilterAll(remove, name => name !in add);
    FilterConcat(local, add, name => name !in remove);
    FilterAll(add, name => name !in remove);
    FilterMembers(local + add, name => name !in remove);
  }

  /** The state after detecting, applying a selection, and detecting again against the same upstream. */
  ghost function Round(env: Env, ch: Channel, upstream: seq<string>, add: seq<string>, ignore: seq<string>,
                       remove: seq<string>)
    : (Channel, Selection, Channel, Channel)
  {
    var ch1 := Detect(env, ch, upstream, false);
    var sel := Select(ch1, add, ignore, remove);
    var ch2 := Apply(ch1, sel);
    (ch1, sel, ch2, Detect(env, ch2, upstream, false))
  }

  /** The model list that a round leaves behind. */
  lemma RoundModels(env: Env, ch: Channel, upstream: seq<string>, add: seq<string>, ignore: seq<string>,
                    remove: seq<string>)
    requires var (_, sel, _, _) := Round(env, ch, upstream, add, ignore, remove);
      forall name | name in sel.add :: ',' !in name
    ensures var (_, sel, ch2, _) := Round(env, ch, upstream, add, ignore, remove);
      Local(ch2) == Filter(Local(ch), name => name !in sel.remove) + sel.add
  {
    var (ch1, sel, ch2, _) := Round(env, ch, upstream, add, ignore, remove);
    PendingIsNew(env, ch, upstream);
    SelectionMembers(ch1, add, ignore, remove);
    NormalizeIsNormal(GetModels(ch.models));
    NextModels(Local(ch), sel.add, sel.remove);
    LocalCommaFree(ch);
    FilterMembers(Local(ch), name => name !in sel.remove);
    StoredModels(ApplySelected(Local(ch), sel.add, sel.remove));
  }

  /** What stays pending after the selection is applied. */
  lemma RoundRemaining(env: Env, ch: Channel, upstream: seq<string>, add: seq<string>, ignore: seq<string>,
                       remove: seq<string>)
    ensures var (ch1, sel, ch2, _) := Round(env, ch, upstream, add, ignore, remove);
      && ch2.detected == Filter(ch1.detected, name => name !in sel.add && name !in sel.ignore)
      && ch2.removed == Filter(ch1.removed, name => name !in sel.remove)
  {
    var (ch1, sel, ch2, _) := Round(env, ch, upstream, add, ignore, remove);
    PendingIsNew(env, ch, upstream);
    SelectionMembers(ch1, add, ignore, remove);
    NormalFixed(ch1.detected);
    NormalFixed(ch1.removed);
    NormalFixed(sel.remove);
    NormalizeMembersOf(sel.add, sel.ignore);
    var gone := Normalize(sel.add + sel.ignore);
    FilterSame(ch1.detected, name => name !in gone, name => name !in sel.add && name !in sel.ignore);
    FilterSame(ch1.removed, name => name !in Normalize(sel.remove), name => name !in sel.remove);
  }

  lemma NormalizeMembersOf(a: seq<string>, b: seq<string>)
    requires IsNormal(a) && IsNormal(b)
    ensures forall name :: name in Normalize(a + b) <==> name in a || name in b
  {
    NormalFixed(a);
    NormalFixed(b);
    NormalizeKeeps(a, b);
    forall name | name in Normalize(a + b) ensures name in a || name in b {
      NormalizeSource(a + b, name);
      var i :| 0 <= i < |a + b| && TrimSpace((a + b)[i]) == name;
      TrimFixed((a + b)[i], IsSpace);
    }
  }

  /** An entry of the ignore list, old or new, that is not itself being added holds the name back. */
  ghost predicate HeldBack(env: Env, ch: Channel, sel: Selection, name: string) {
    exists entry ::
      && (entry in Normalize(ch.ignored) || entry in sel.ignore) && entry !in sel.add
      && IgnoreEntryMatches(env, entry, name)
  }

  /** The entries that are not being added hold back what the ignore list held back before, and the names just
      ignored. */
  ghost predicate IgnoreListHolds(env: Env, ch: Channel, sel: Selection, upstream: seq<string>) {
    forall name | name in Normalize(upstream) && !Covered(env, Local(ch), name) && name !in sel.add ::
      HeldBack(env, ch, sel, name) <==> Ignored(env, ch.ignored, name) || name in sel.ignore
  }

  /** The ignore list after a selection: the old entries and the names just ignored, without those being added. */
  lemma AppliedIgnoreList(ch: Channel, sel: Selection, entry: string)
    requires IsNormal(sel.add) && IsNormal(sel.ignore)
    ensures entry in Apply(ch, sel).ignored <==>
      (entry in Normalize(ch.ignored) || entry in sel.ignore) && entry !in sel.add
  {
    NormalFixed(sel.add);
    NormalFixed(sel.ignore);
    Twice(ch.ignored + sel.ignore);
    SelectedMembers(Normalize(ch.ignored + sel.ignore), [], sel.add, entry);
    NormalizeHas(ch.ignored, entry);
    NormalizeHas(sel.ignore, entry);
    NormalizeHas(ch.ignored + sel.ignore, entry);
    var all := ch.ignored + sel.ignore;
    if i :| 0 <= i < |ch.ignored| && TrimSpace(ch.ignored[i]) == entry { assert all[i] == ch.ignored[i]; }
    if i :| 0 <= i < |sel.ignore| && TrimSpace(sel.ignore[i]) == entry {
      assert all[|ch.ignored| + i] == sel.ignore[i];
    }
  }

  lemma NextIgnored(env: Env, ch: Channel, sel: Selection, name: string)
    requires IsNormal(sel.add) && IsNormal(sel.ignore)
    ensures Ignored(env, Apply(ch, sel).ignored, name) <==> HeldBack(env, ch, sel, name)
  {
    var ignored := Normalize(ch.ignored + sel.ignore);
    NormalizeIsNormal(ch.ignored + sel.ignore);
    NormalizeIsNormal(ch.ignored);
    NormalFixed(ignored);
    NormalFixed(sel.add);
    NormalFixed(Normalize(ch.ignored));
    NormalizeMembersOf(Normalize(ch.ignored), sel.ignore);
    NormalizeFirst(ch.ignored, sel.ignore);
    FilterMembers(ignored, entry => entry !in sel.add);
    NormalFixed(Filter(ignored, entry => entry !in sel.add));
  }

  /** Normalizing the first list before appending makes no difference. */
  lemma NormalizeFirst(base: seq<string>, more: seq<string>)
    ensures Normalize(Normalize(base) + more) == Normalize(base + more)
  {
    NormalizeIsNormal(base);
    NormalFixed(Normalize(base));
    NormalizeAfter(Normalize(base), base, more);
  }

  lemma {:induction false} NormalizeAfter(a: seq<string>, b: seq<string>, more: seq<string>)
    requires Normalize(a) == Normalize(b)
    ensures Normalize(a + more) == Normalize(b + more)
  {
    if more == [] {
      assert a + more == a && b + more == b;
    } else {
      NormalizeAfter(a, b, more[..|more| - 1]);
      AppendLast(a, more);
      AppendLast(b, more);
      SnocSame(a + more[..|more| - 1], b + more[..|more| - 1], more[|more| - 1]);
    }
  }

  lemma AppendLast(a: seq<string>, more: seq<string>)
    requires more != []
    ensures a + more == (a + more[..|more| - 1]) + [more[|more| - 1]]
  {
  }

  lemma SnocSame(a: seq<string>, b: seq<string>, last: string)
    requires Normalize(a) == Normalize(b)
    ensures Normalize(a + [last]) == Normalize(b + [last])
  {
    NormalizeSnoc(a, last);
    NormalizeSnoc(b, last);
  }

  /** Detecting again finds exactly the changes the administrator left pending, for any selection whose added
      names are free of commas, if and only if the ignore list has kept its meaning. */
  lemma RoundIsExact(env: Env, ch: Channel, upstream: seq<string>, add: seq<string>, ignore: seq<string>,
                     remove: seq<string>)
    requires var (_, sel, _, _) := Round(env, ch, upstream, add, ignore, remove);
      forall name | name in sel.add :: ',' !in name
    ensures var (ch1, sel, ch2, ch3) := Round(env, ch, upstream, add, ignore, remove);
      && ch3.removed == ch2.removed
      && (ch3.detected == ch2.detected <==> IgnoreListHolds(env, ch, sel, upstream))
  {
    var (ch1, sel, ch2, ch3) := Round(env, ch, upstream, add, ignore, remove);
    RoundModels(env, ch, upstream, add, ignore, remove);
    RoundRemaining(env, ch, upstream, add, ignore, remove);
    PendingIsNew(env, ch, upstream);
    SelectionMembers(ch1, add, ignore, remove);
    FilterMembers(Local(ch), name => name !in sel.remove);
    RoundRemoves(env, ch, upstream, sel, ch2);
    forall name
      ensures Ignored(env, ch2.ignored, name) <==> HeldBack(env, ch, sel, name)
    {
      NextIgnored(env, ch1, sel, name);
    }
    RoundAdds(env, ch, upstream, sel, ch2);
  }

  lemma RoundRemoves(env: Env, ch: Channel, upstream: seq<string>, sel: Selection, ch2: Channel)
    requires Local(ch2) == Filter(Local(ch), name => name !in sel.remove) + sel.add
    requires forall name | name in sel.add :: name in Normalize(upstream)
    ensures PendingRemoves(env, Local(ch2), upstream) ==
      Filter(PendingRemoves(env, Local(ch), upstream), name => name !in sel.remove)
  {
    var up := Normalize(upstream);
    var stale := (name: string) => name !in env.mapping.Keys && name !in up;
    var kept := (name: string) => name !in sel.remove;
    FilterConcat(Filter(Local(ch), kept), sel.add, stale);
    FilterAll(sel.add, stale);
    FilterTwice(Local(ch), kept, stale);
    FilterTwice(Local(ch), stale, kept);
    FilterSame(Local(ch), name => kept(name) && stale(name), name => stale(name) && kept(name));
  }

  lemma RoundAdds(env: Env, ch: Channel, upstream: seq<string>, sel: Selection, ch2: Channel)
    requires forall name | name in Normalize(upstream) :: name in Local(ch2) <==> name in Local(ch) || name in sel.add
    requires forall name :: Ignored(env, ch2.ignored, name) <==> HeldBack(env, ch, sel, name)
    ensures PendingAdds(env, Local(ch2), upstream, ch2.ignored) ==
            Filter(PendingAdds(env, Local(ch), upstream, ch.ignored), name => name !in sel.add && name !in sel.ignore)
      <==> IgnoreListHolds(env, ch, sel, upstream)
  {
    var up := Normalize(upstream);
    var before := (name: string) => !Covered(env, Local(ch), name) && !Ignored(env, ch.ignored, name);
    var left := (name: string) => name !in sel.add && name !in sel.ignore;
    var after := (name: string) => !Covered(env, Local(ch2), name) && !Ignored(env, ch2.ignored, name);
    FilterTwice(up, before, left);
    FilterMembers(up, after);
    FilterMembers(up, name => before(name) && left(name));
    if IgnoreListHolds(env, ch, sel, upstream) {
      FilterSame(up, after, name => before(name) && left(name));
    } else {
      var name :| name in up && !Covered(env, Local(ch), name) && name !in sel.add &&
        !(HeldBack(env, ch, sel, name) <==> Ignored(env, ch.ignored, name) || name in sel.ignore);
      assert name in Filter(up, after) <==> name !in Filter(up, name => before(name) && left(name));
    }
  }

  // ---------------------------------------------------------------- the fixpoint

  /** Applying everything that is pending, as ApplyAllChannelUpstreamModelUpdates does. */
  ghost function FullRound(env: Env, ch: Channel, upstream: seq<string>): (Channel, Selection, Channel, Channel) {
    var ch1 := Detect(env, ch, upstream, false);
    Round(env, ch, upstream, ch1.detected, [], ch1.removed)
  }

  /** No model that the ignore list holds back is held back only by entries that are themselves being added. */
  ghost predicate IgnoreListSurvives(env: Env, ch: Channel, upstream: seq<string>) {
    var adds := PendingAdds(env, Local(ch), upstream, ch.ignored);
    forall name | name in Normalize(upstream) && !Covered(env, Local(ch), name) && Ignored(env, ch.ignored, name) ::
      HeldBack(env, ch, Selection(adds, [], []), name)
  }

  lemma FullRoundFacts(env: Env, ch: Channel, upstream: seq<string>)
    ensures var (ch1, sel, ch2, ch3) := FullRound(env, ch, upstream);
      && sel.add == ch1.detected && sel.ignore == [] && ch2.detected == [] && ch2.removed == []
      && Normalize(ch2.ignored) == Normalize(Subtract(ch.ignored, ch1.detected))
  {
    var (ch1, sel, ch2, ch3) := FullRound(env, ch, upstream);
    PendingIsNew(env, ch, upstream);
    NormalFixed(ch1.detected);
    NormalFixed(ch1.removed);
    FilterAll(ch1.detected, name => name in ch1.detected);
    SelectionMembers(ch1, ch1.detected, [], ch1.removed);
    RoundRemaining(env, ch, upstream, ch1.detected, [], ch1.removed);
    FilterAll(ch1.detected, name => name !in sel.add && name !in sel.ignore);
    FilterAll(ch1.removed, name => name !in sel.remove);
    assert ch.ignored + [] == ch.ignored;
    NormalizeIsNormal(ch.ignored);
    NormalFixed(Normalize(ch.ignored));
    FilterAll(Normalize(ch.ignored), name => name !in Normalize([]));
  }

  /** An ignore list that lost entries holds back no more than before. */
  lemma IgnoredShrinks(env: Env, ignored: seq<string>, gone: seq<string>, name: string)
    ensures Ignored(env, Subtract(ignored, gone), name) ==> Ignored(env, ignored, name)
  {
    NormalizeIsNormal(ignored);
    var lost := Normalize(gone);
    FilterMembers(Normalize(ignored), entry => entry !in lost);
    NormalFixed(Subtract(ignored, gone));
  }

  /** A name with a comma never settles: it is still pending after the round. */
  lemma CommaNeverSettles(env: Env, ch: Channel, upstream: seq<string>, name: string)
    requires name in Detect(env, ch, upstream, false).detected && ',' in name
    ensures var (_, _, _, ch3) := FullRound(env, ch, upstream); name in ch3.detected
  {
    var (ch1, sel, ch2, ch3) := FullRound(env, ch, upstream);
    FullRoundFacts(env, ch, upstream);
    IgnoredShrinks(env, ch.ignored, ch1.detected, name);
    PendingIsNew(env, ch, upstream);
    PendingIsNew(env, ch2, upstream);
    LocalCommaFree(ch2);
  }

  /** For a full round the two conditions on the ignore list are the same. */
  lemma SurvivesIsHolds(env: Env, ch: Channel, upstream: seq<string>, sel: Selection)
    requires sel.ignore == [] && sel.add == PendingAdds(env, Local(ch), upstream, ch.ignored)
    requires forall name | name in sel.add :: !Ignored(env, ch.ignored, name)
    ensures IgnoreListHolds(env, ch, sel, upstream) <==> IgnoreListSurvives(env, ch, upstream)
  {
    forall name ensures HeldBack(env, ch, sel, name) ==> Ignored(env, ch.ignored, name) {}
    forall name ensures HeldBack(env, ch, sel, name) <==> HeldBack(env, ch, Selection(sel.add, [], []), name) {}
  }

  /** One round reaches a fixpoint exactly when no added name contains a comma and the ignore list survives. */
  lemma FixpointExactlyWhen(env: Env, ch: Channel, upstream: seq<string>)
    ensures var (ch1, _, _, ch3) := FullRound(env, ch, upstream);
      ch3.detected == [] && ch3.removed == [] <==>
        (forall name | name in ch1.detected :: ',' !in name) && IgnoreListSurvives(env, ch, upstream)
  {
    var (ch1, sel, ch2, ch3) := FullRound(env, ch, upstream);
    FullRoundFacts(env, ch, upstream);
    if forall name | name in ch1.detected :: ',' !in name {
      RoundIsExact(env, ch, upstream, ch1.detected, [], ch1.removed);
      PendingIsNew(env, ch, upstream);
      SurvivesIsHolds(env, ch, upstream, sel);
    } else {
      var name :| name in ch1.detected && ',' in name;
      CommaNeverSettles(env, ch, upstream, name);
    }
  }

  /** In particular the fixpoint is reached when no upstream name contains a comma or starts with "regex:". */
  lemma FixpointForPlainNames(env: Env, ch: Channel, upstream: seq<string>)
    requires forall name | name in Normalize(upstream) :: ',' !in name && !(REGEX <= name)
    ensures var (_, _, _, ch3) := FullRound(env, ch, upstream); ch3.detected == [] && ch3.removed == []
  {
    var adds := PendingAdds(env, Local(ch), upstream, ch.ignored);
    PendingIsNew(env, ch, upstream);
    forall name | Ignored(env, ch.ignored, name) ensures HeldBack(env, ch, Selection(adds, [], []), name) {
      var entry :| entry in Normalize(ch.ignored) && IgnoreEntryMatches(env, entry, name);
      assert entry !in adds by { assert !(REGEX <= entry) ==> IgnoreEntryMatches(env, entry, entry); }
    }
    FixpointExactlyWhen(env, ch, upstream);
  }

  /** Such a name exists: an upstream that lists "a,b" for an empty channel. */
  lemma CommaExample(env: Env)
    requires env.mapping == map[]
    ensures Detect(env, Channel("", [], [], []), ["a,b"], false).detected == ["a,b"]
  {
    var name := "a,b";
    NormalFixed([name]);
    PendingIsNew(env, Channel("", [], [], []), [name]);
    FilterAll([name], n => !Covered(env, [], n) && !Ignored(env, [], n));
  }

  /** A name that only entries being added hold back is pending after the round. */
  lemma DroppedIsPending(env: Env, ch: Channel, upstream: seq<string>, name: string)
    requires var adds := PendingAdds(env, Local(ch), upstream, ch.ignored);
      name !in adds && !HeldBack(env, ch, Selection(adds, [], []), name) && forall n | n in adds :: ',' !in n
    requires name in Normalize(upstream) && !Covered(env, Local(ch), name)
    ensures name in FullRound(env, ch, upstream).3.detected
  {
    var (ch1, sel, ch2, ch3) := FullRound(env, ch, upstream);
    FullRoundFacts(env, ch, upstream);
    PendingIsNew(env, ch, upstream);
    RoundModels(env, ch, upstream, ch1.detected, [], ch1.removed);
    FilterMembers(Local(ch), n => n !in sel.remove);
    NotHeldBack(env, ch, sel, name);
    PendingIsNew(env, ch2, upstream);
  }

  lemma NotHeldBack(env: Env, ch: Channel, sel: Selection, name: string)
    requires IsNormal(sel.add) && sel.ignore == [] && !HeldBack(env, ch, Selection(sel.add, [], []), name)
    ensures !Ignored(env, Apply(ch, sel).ignored, name)
  {
    NextIgnored(env, ch, sel, name);
  }

  /** An ignore-list entry that holds back another name, and that is itself the name of an upstream model which it does
      not hold back: adding that model drops the entry, and the other name is pending. */
  lemma EntryDropped(env: Env, entry: string, other: string, ch: Channel, upstream: seq<string>)
    requires env.mapping == map[] && ch == Channel("", [entry], [], []) && upstream == [entry, other]
    requires IsNormal([entry]) && IsNormal([entry, other])
    requires IgnoreEntryMatches(env, entry, other) && !IgnoreEntryMatches(env, entry, entry)
    ensures PendingAdds(env, Local(ch), upstream, ch.ignored) == [entry] && !IgnoreListSurvives(env, ch, upstream)
    ensures other in Normalize(upstream) && !Covered(env, Local(ch), other)
    ensures !HeldBack(env, ch, Selection([entry], [], []), other)
  {
    NormalFixed([entry]);
    NormalFixed(upstream);
    var pending := (name: string) => !Covered(env, [], name) && !Ignored(env, [entry], name);
    assert entry in Normalize([entry]) && upstream[1] == other;
    FilterExample(entry, other, pending);
    assert PendingAdds(env, Local(ch), upstream, ch.ignored) == Filter(upstream, pending);
    assert !HeldBack(env, ch, Selection([entry], [], []), other);
  }

  /** Such an entry exists: "regex:^y$", whose pattern matches the model "y" and not the entry itself. */
  lemma IgnoreListExample(env: Env, ch: Channel, upstream: seq<string>)
    requires env.mapping == map[] && env.matches("^y$", "y") && !env.matches("^y$", "regex:^y$")
    requires ch == Channel("", ["regex:^y$"], [], []) && upstream == ["regex:^y$", "y"]
    ensures !IgnoreListSurvives(env, ch, upstream) && "y" in FullRound(env, ch, upstream).3.detected
  {
    IgnoreEntryExample(env);
    EntryDropped(env, "regex:^y$", "y", ch, upstream);
    DroppedIsPending(env, ch, upstream, "y");
  }

  lemma IgnoreEntryExample(env: Env)
    ensures IgnoreEntryMatches(env, "regex:^y$", "y") == env.matches("^y$", "y")
    ensures IgnoreEntryMatches(env, "regex:^y$", "regex:^y$") == env.matches("^y$", "regex:^y$")
    ensures IsNormal(["regex:^y$"]) && IsNormal(["regex:^y$", "y"])
  {
    assert REGEX <= "regex:^y$" && "regex:^y$"[|REGEX|..] == "^y$";
    TrimFixed("^y$", IsSpace);
  }

  lemma FilterExample(a: string, b: string, keep: string -> bool)
    requires keep(a) && !keep(b)
    ensures Filter([a, b], keep) == [a]
  {
    assert [a, b] == [a] + [b];
    FilterConcat([a], [b], keep);
    FilterAll([a], keep);
    FilterAll([b], keep);
  }

  /** Auto-sync leaves no pending adds behind exactly when no added name contains a comma. */
  lemma AutoSyncSettles(env: Env, ch: Channel, upstream: seq<string>)
    ensures var adds := PendingAdds(env, Local(ch), upstream, ch.ignored);
      Detect(env, Detect(env, ch, upstream, true), upstream, false).detected == [] <==>
      forall name | name in adds :: ',' !in name
  {
    var adds := PendingAdds(env, Local(ch), upstream, ch.ignored);
    var ch' := Detect(env, ch, upstream, true);
    PendingIsNew(env, ch, upstream);
    PendingIsNew(env, ch', upstream);
    LocalCommaFree(ch');
    if adds != [] && forall name | name in adds :: ',' !in name {
      NormalizeIsNormal(GetModels(ch.models));
      NormalizeDisjoint(Local(ch), adds);
      LocalCommaFree(ch);
      StoredModels(Local(ch) + adds);
      FilterAll(Normalize(upstream), name => !Covered(env, Local(ch'), name) && !Ignored(env, ch'.ignored, name));
    }
  }

  /** Every pending add is accounted for once: added, or ignored, or still pending. */
  lemma SelectionPartitions(env: Env, ch: Channel, upstream: seq<string>, add: seq<string>, ignore: seq<string>,
                            remove: seq<string>, name: string)
    requires name in Detect(env, ch, upstream, false).detected
    ensures var (_, sel, ch2, _) := Round(env, ch, upstream, add, ignore, remove);
      && (name in sel.add <==> name in Normalize(add))
      && (name in ch2.detected <==> name !in Normalize(add) && name !in Normalize(ignore))
      && (name in sel.add ==> name !in Normalize(ch2.ignored))
      && (name in Normalize(ignore) && name !in Normalize(add) ==> name in Normalize(ch2.ignored))
  {
    var (ch1, sel, ch2, _) := Round(env, ch, upstream, add, ignore, remove);
    PendingIsNew(env, ch, upstream);
    SelectionMembers(ch1, add, ignore, remove);
    RoundRemaining(env, ch, upstream, add, ignore, remove);
    FilterMembers(ch1.detected, name => name !in sel.add && name !in sel.ignore);
    NormalFixed(sel.add);
    NormalFixed(sel.ignore);
    NormalizeKeeps(ch.ignored, sel.ignore);
    var ignored := Normalize(ch.ignored + sel.ignore);
    NormalizeIsNormal(ch.ignored + sel.ignore);
    NormalFixed(ignored);
    FilterMembers(ignored, entry => entry !in sel.add);
    NormalFixed(Filter(ignored, entry => entry !in sel.add));
  }
}
