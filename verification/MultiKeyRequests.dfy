/** Any number of management requests for one channel: each loads the channel before it takes the channel's lock, so
    its copy may be old when it is saved. */
module MultiKeyRequests {
  import opened Basics
  import opened MultiKey
  import opened Text

  /** A request between its load and its save. */
  datatype Request = Request(action: Action, copy: Row)

  datatype State = State(row: Row, requests: map<nat, Request>, holder: Option<nat>)

  datatype Step =
    | Load(r: nat, action: Action)
    | Acquire(r: nat)
    | Finish(r: nat)                  // the action on the copy, Update, and the release of the lock

  predicate Enabled(s: State, step: Step) {
    match step
    case Load(r, _) => r !in s.requests
    case Acquire(r) => r in s.requests && s.holder.None?
    case Finish(r) => r in s.requests && s.holder == Some(r)
  }

  /** What saving a request's copy makes of the stored row. */
  function Written(json: Json, row: Row, q: Request): Row {
    var (copy, ok) := Edited(json, q.copy, q.action);
    if ok then Saved(json, row.key, copy) else row
  }

  function Apply(json: Json, s: State, step: Step): State
    requires Enabled(s, step)
  {
    match step
    case Load(r, action) => s.(requests := s.requests[r := Request(action, s.row)])
    case Acquire(r) => s.(holder := Some(r))
    case Finish(r) => State(Written(json, s.row, s.requests[r]), s.requests - {r}, None)
  }

  /** A run from a row that no request has loaded yet. */
  ghost predicate Run(json: Json, states: seq<State>, steps: seq<Step>) {
    && |states| == |steps| + 1 && states[0].requests == map[] && states[0].holder.None?
    && forall k {:trigger steps[k]} | 0 <= k < |steps| ::
         Enabled(states[k], steps[k]) && states[k + 1] == Apply(json, states[k], steps[k])
  }

  // ---------------------------------------------------------------- one save

  /** A save that is carried out makes the row what the action would have made of the row that was loaded, exactly when
      it writes a key text of its own or the text is still the same: whatever else was saved since is undone. */
  lemma SaveUndoesExactlyWhen(json: Json, row: Row, q: Request)
    requires Edited(json, q.copy, q.action).1
    ensures Written(json, row, q) == OnRow(json, q.copy, q.action).0 <==>
      Edited(json, q.copy, q.action).0.key != "" || row.key == q.copy.key
  {
  }

  /** Only a deletion can come to an empty text, and not a safe one. */
  lemma TextKept(json: Json, copy: Row, a: Action)
    requires Decodes(json) && Valid(json, copy) && copy.key != "" && Safe(json, Dense(json, copy), a)
    requires Edited(json, copy, a).1
    ensures Edited(json, copy, a).0.key != ""
  {
    if a.DeleteKey? || a.DeleteDisabledKeys? {
      DeletionIs(json, copy, a);
      StoredKeys(json, KeysOf(OnRecords(Dense(json, copy), a).0));
      DeletionEdits(json, copy, a);
    }
  }

  lemma DeletionEdits(json: Json, copy: Row, a: Action)
    requires Valid(json, copy) && (a.DeleteKey? || a.DeleteDisabledKeys?) && Edited(json, copy, a).1
    ensures OnRecords(Dense(json, copy), a).1
    ensures Edited(json, copy, a).0.key == Join(KeysOf(OnRecords(Dense(json, copy), a).0), NEWLINE)
  {
    DeletionIs(json, copy, a);
  }

  // ---------------------------------------------------------------- what survives of a run

  /** The step in which a request that is still open after n steps was loaded. */
  function LoadOf(steps: seq<Step>, r: nat, n: nat): nat
    requires n <= |steps|
  {
    if n == 0 then 0
    else if steps[n - 1].Load? && steps[n - 1].r == r then n - 1
    else LoadOf(steps, r, n - 1)
  }

  lemma {:induction false} LoadedThen(json: Json, states: seq<State>, steps: seq<Step>, r: nat, n: nat)
    requires Run(json, states, steps) && n < |states| && r in states[n].requests
    ensures var l := LoadOf(steps, r, n);
      l < n && steps[l] == Load(r, states[n].requests[r].action) && states[n].requests[r].copy == states[l].row
  {
    if n > 0 {
      assert states[n] == Apply(json, states[n - 1], steps[n - 1]);
      if !(steps[n - 1].Load? && steps[n - 1].r == r) { LoadedThen(json, states, steps, r, n - 1); }
    }
  }

  predicate Saves(json: Json, s: State, step: Step) {
    step.Finish? && step.r in s.requests && Edited(json, s.requests[step.r].copy, s.requests[step.r].action).1
  }

  /** Which steps of a run save a change. */
  function SavesOf(json: Json, states: seq<State>, steps: seq<Step>): (saves: seq<bool>)
    requires |steps| < |states|
    ensures |saves| == |steps|
  {
    seq(|steps|, k requires 0 <= k < |steps| => Saves(json, states[k], steps[k]))
  }

  /** Every save belongs to a request that was loaded before. */
  ghost predicate Loaded(steps: seq<Step>, saves: seq<bool>) {
    |saves| == |steps| && forall k | 0 <= k < |steps| && saves[k] :: Follows(steps, k)
  }

  predicate Follows(steps: seq<Step>, k: nat)
    requires k < |steps|
  {
    var l := LoadOf(steps, steps[k].r, k);
    steps[k].Finish? && l < k && steps[l].Load?
  }

  lemma RunLoads(json: Json, states: seq<State>, steps: seq<Step>)
    requires Run(json, states, steps)
    ensures Loaded(steps, SavesOf(json, states, steps))
  {
    var saves := SavesOf(json, states, steps);
    forall k | 0 <= k < |steps| && saves[k]
      ensures Follows(steps, k)
    {
      LoadedThen(json, states, steps, steps[k].r, k);
    }
  }

  /** The saves whose changes are in the row after n steps: the last one, and those that its request had loaded. */
  ghost function Survivors(steps: seq<Step>, saves: seq<bool>, n: nat): (ks: seq<nat>)
    requires Loaded(steps, saves) && n <= |steps|
    ensures forall i | 0 <= i < |ks| :: ks[i] < n && saves[ks[i]]
  {
    if n == 0 then []
    else if !saves[n - 1] then Survivors(steps, saves, n - 1)
    else assert Follows(steps, n - 1); Survivors(steps, saves, LoadOf(steps, steps[n - 1].r, n - 1)) + [n - 1]
  }

  /** What the requests that finish in these steps are for. */
  ghost function Actions(steps: seq<Step>, ks: seq<nat>): seq<Action>
    requires forall i | 0 <= i < |ks| :: ks[i] < |steps| && Follows(steps, ks[i])
  {
    if ks == [] then [] else
    var k := ks[|ks| - 1];
    assert Follows(steps, ks[|ks| - 1]);
    Actions(steps, ks[..|ks| - 1]) + [steps[LoadOf(steps, steps[k].r, k)].action]
  }

  /** Every deletion is safe for the copy it is made from. */
  ghost predicate SafeSaves(json: Json, states: seq<State>, steps: seq<Step>)
    requires |steps| < |states|
  {
    forall k {:trigger steps[k]} | 0 <= k < |steps| && Saves(json, states[k], steps[k]) ::
      var q := states[k].requests[steps[k].r]; Safe(json, Dense(json, q.copy), q.action)
  }

  ghost predicate Sound(json: Json, row: Row) {
    Valid(json, row) && row.key != ""
  }

  /** In every interleaving the stored row is what the surviving saves, one after the other, make of the first one; it
      stays valid. */
  lemma RowIsItsSurvivors(json: Json, states: seq<State>, steps: seq<Step>, saves: seq<bool>, n: nat)
    requires Decodes(json) && Run(json, states, steps) && n < |states| && SafeSaves(json, states, steps)
    requires Sound(json, states[0].row) && saves == SavesOf(json, states, steps)
    ensures Loaded(steps, saves) && Sound(json, states[n].row)
    ensures states[n].row == RunRow(json, states[0].row, Actions(steps, Survivors(steps, saves, n)))
  {
    RunLoads(json, states, steps);
    var rows := seq(|states|, k requires 0 <= k < |states| => states[k].row);
    RowsChain(json, states, steps, saves, rows, SoundIn(json), ActOn(json));
    RowsFold(json, rows, steps, saves, n, SoundIn(json), ActOn(json));
  }

  function ActOn(json: Json): (Row, Action) -> Row {
    (row, a) => OnRow(json, row, a).0
  }

  ghost function SoundIn(json: Json): Row -> bool {
    row => Sound(json, row)
  }

  lemma RowsFold(json: Json, rows: seq<Row>, steps: seq<Step>, saves: seq<bool>, n: nat,
                 sound: Row -> bool, act: (Row, Action) -> Row)
    requires sound == SoundIn(json) && act == ActOn(json)
    requires Loaded(steps, saves) && n <= |steps| < |rows| && Sound(json, rows[0])
    requires forall k | 0 <= k < |steps| :: Chains(sound, act, rows, steps, saves, k)
    ensures Sound(json, rows[n]) && rows[n] == RunRow(json, rows[0], Actions(steps, Survivors(steps, saves, n)))
  {
    ChainFolds(sound, act, rows, steps, saves, n);
    FoldedIsRun(json, rows[0], Actions(steps, Survivors(steps, saves, n)));
  }

  /** A step that saves makes the row what its action makes of the row its request had loaded, provided that was sound,
      and the row is sound again; other steps leave it alone. */
  ghost predicate Chains(sound: Row -> bool, act: (Row, Action) -> Row, rows: seq<Row>, steps: seq<Step>,
                         saves: seq<bool>, k: nat)
    requires Loaded(steps, saves) && k < |steps| < |rows|
  {
    if !saves[k] then rows[k + 1] == rows[k] else
    assert Follows(steps, k);
    var l := LoadOf(steps, steps[k].r, k);
    sound(rows[l]) ==> sound(rows[k + 1]) && rows[k + 1] == act(rows[l], steps[l].action)
  }

  lemma RowsChain(json: Json, states: seq<State>, steps: seq<Step>, saves: seq<bool>, rows: seq<Row>,
                  sound: Row -> bool, act: (Row, Action) -> Row)
    requires sound == SoundIn(json) && act == ActOn(json)
    requires Decodes(json) && Run(json, states, steps) && SafeSaves(json, states, steps)
    requires saves == SavesOf(json, states, steps) && Loaded(steps, saves)
    requires |rows| == |states| && forall k | 0 <= k < |states| :: rows[k] == states[k].row
    ensures forall k | 0 <= k < |steps| :: Chains(sound, act, rows, steps, saves, k)
  {
    forall k | 0 <= k < |steps| ensures Chains(sound, act, rows, steps, saves, k) {
      if saves[k] {
        assert Follows(steps, k);
        if Sound(json, rows[LoadOf(steps, steps[k].r, k)]) { RowSaved(json, states, steps, k); }
      } else {
        RowStays(json, states, steps, k);
      }
    }
  }

  ghost function Folded(act: (Row, Action) -> Row, row: Row, actions: seq<Action>): Row {
    if actions == [] then row else act(Folded(act, row, actions[..|actions| - 1]), actions[|actions| - 1])
  }

  lemma {:induction false} ChainFolds(sound: Row -> bool, act: (Row, Action) -> Row, rows: seq<Row>, steps: seq<Step>,
                                      saves: seq<bool>, n: nat)
    requires Loaded(steps, saves) && n <= |steps| < |rows| && sound(rows[0])
    requires forall k | 0 <= k < |steps| :: Chains(sound, act, rows, steps, saves, k)
    ensures sound(rows[n]) && rows[n] == Folded(act, rows[0], Actions(steps, Survivors(steps, saves, n)))
  {
    if n > 0 {
      assert Chains(sound, act, rows, steps, saves, n - 1);
      if saves[n - 1] {
        assert Follows(steps, n - 1);
        var l := LoadOf(steps, steps[n - 1].r, n - 1);
        ChainFolds(sound, act, rows, steps, saves, l);
        ActionsSnoc(steps, Survivors(steps, saves, l), n - 1);
        FoldedSnoc(act, rows[0], Actions(steps, Survivors(steps, saves, l)), steps[l].action);
      } else {
        ChainFolds(sound, act, rows, steps, saves, n - 1);
      }
    }
  }

  lemma ActionsSnoc(steps: seq<Step>, ks: seq<nat>, k: nat)
    requires (forall i | 0 <= i < |ks| :: ks[i] < |steps| && Follows(steps, ks[i])) && k < |steps| && Follows(steps, k)
    ensures Actions(steps, ks + [k]) == Actions(steps, ks) + [steps[LoadOf(steps, steps[k].r, k)].action]
  {
    assert (ks + [k])[..|ks|] == ks;
  }

  lemma FoldedSnoc(act: (Row, Action) -> Row, row: Row, actions: seq<Action>, a: Action)
    ensures Folded(act, row, actions + [a]) == act(Folded(act, row, actions), a)
  {
    assert (actions + [a])[..|actions|] == actions;
  }

  lemma {:induction false} FoldedIsRun(json: Json, row: Row, actions: seq<Action>)
    ensures Folded(ActOn(json), row, actions) == RunRow(json, row, actions)
  {
    if actions != [] { FoldedIsRun(json, row, actions[..|actions| - 1]); }
  }

  lemma RowStays(json: Json, states: seq<State>, steps: seq<Step>, k: nat)
    requires Run(json, states, steps) && k < |steps| && !Saves(json, states[k], steps[k])
    ensures states[k + 1].row == states[k].row
  {
  }

  lemma RowSaved(json: Json, states: seq<State>, steps: seq<Step>, k: nat)
    requires Decodes(json) && Run(json, states, steps) && SafeSaves(json, states, steps)
    requires k < |steps| && Saves(json, states[k], steps[k]) && Follows(steps, k)
    requires Sound(json, states[LoadOf(steps, steps[k].r, k)].row)
    ensures var l := LoadOf(steps, steps[k].r, k);
      states[k + 1].row == OnRow(json, states[l].row, steps[l].action).0 && Sound(json, states[k + 1].row)
  {
    LoadedThen(json, states, steps, steps[k].r, k);
    SavedRow(json, states[k].row, states[k].requests[steps[k].r]);
  }

  lemma SavedRow(json: Json, row: Row, q: Request)
    requires Decodes(json) && Sound(json, q.copy) && Safe(json, Dense(json, q.copy), q.action)
    requires Edited(json, q.copy, q.action).1
    ensures Written(json, row, q) == OnRow(json, q.copy, q.action).0 && Sound(json, OnRow(json, q.copy, q.action).0)
  {
    TextKept(json, q.copy, q.action);
    SaveUndoesExactlyWhen(json, row, q);
    ActionRefines(json, q.copy, q.action);
  }

  // ---------------------------------------------------------------- when a save is undone

  /** The request saved in step j had loaded the channel before the save of step k, which came first. */
  predicate Overtakes(steps: seq<Step>, j: nat, k: nat)
    requires j < |steps|
  {
    k < j && steps[j].Finish? && LoadOf(steps, steps[j].r, j) <= k
  }

  /** A save that survives overtakes step k. */
  ghost predicate Overtaken(steps: seq<Step>, survivors: seq<nat>, k: nat)
    requires forall i | 0 <= i < |survivors| :: survivors[i] < |steps|
  {
    exists i :: 0 <= i < |survivors| && Overtakes(steps, survivors[i], k)
  }

  /** A save is undone exactly when a surviving save had loaded the channel before it and came after it. */
  lemma {:induction false} UndoneExactlyWhen(steps: seq<Step>, saves: seq<bool>, k: nat, n: nat)
    requires Loaded(steps, saves) && k < n <= |steps| && saves[k]
    ensures k !in Survivors(steps, saves, n) <==> Overtaken(steps, Survivors(steps, saves, n), k)
  {
    if saves[n - 1] {
      assert Follows(steps, n - 1);
      var l := LoadOf(steps, steps[n - 1].r, n - 1);
      if k < l { UndoneExactlyWhen(steps, saves, k, l); }
      LastSurvivor(steps, Survivors(steps, saves, l), l, k, n);
    } else {
      UndoneExactlyWhen(steps, saves, k, n - 1);
    }
  }

  /** The save of step n - 1, whose request was loaded in step l, joins the saves that had survived until then. */
  lemma LastSurvivor(steps: seq<Step>, before: seq<nat>, l: nat, k: nat, n: nat)
    requires 0 < n <= |steps| && k < n && steps[n - 1].Finish? && l == LoadOf(steps, steps[n - 1].r, n - 1) < n
    requires forall i | 0 <= i < |before| :: before[i] < l
    requires k < l ==> (k !in before <==> Overtaken(steps, before, k))
    ensures k !in before + [n - 1] <==> Overtaken(steps, before + [n - 1], k)
  {
    var now := before + [n - 1];
    assert now[|before|] == n - 1 && forall i | 0 <= i < |before| :: now[i] == before[i];
    if k < l && Overtaken(steps, before, k) {
      var i :| 0 <= i < |before| && Overtakes(steps, before[i], k);
      assert Overtakes(steps, now[i], k);
    }
    if l <= k < n - 1 { assert Overtakes(steps, now[|before|], k); }
  }

  /** All the saves of the first n steps. */
  ghost function AllSaves(saves: seq<bool>, n: nat): (ks: seq<nat>)
    requires n <= |saves|
    ensures forall k :: k in ks <==> 0 <= k < n && saves[k]
  {
    if n == 0 then [] else AllSaves(saves, n - 1) + if saves[n - 1] then [n - 1] else []
  }

  ghost predicate NoneOvertakes(steps: seq<Step>, saves: seq<bool>, n: nat)
    requires n <= |steps| == |saves|
  {
    forall j, k | 0 <= k < j < n && saves[j] && saves[k] :: !Overtakes(steps, j, k)
  }

  /** Nothing is lost exactly when no save overtakes another: then the saves that survive are all of them, in their
      order. */
  lemma NothingLostExactlyWhen(steps: seq<Step>, saves: seq<bool>, n: nat)
    requires Loaded(steps, saves) && n <= |steps|
    ensures Survivors(steps, saves, n) == AllSaves(saves, n) <==> NoneOvertakes(steps, saves, n)
  {
    var now, all := Survivors(steps, saves, n), AllSaves(saves, n);
    if now == all {
      forall j, k | 0 <= k < j < n && saves[j] && saves[k] ensures !Overtakes(steps, j, k) {
        UndoneExactlyWhen(steps, saves, k, n);
        assert j in all && k in all;
        var i :| 0 <= i < |now| && now[i] == j;
      }
    } else if NoneOvertakes(steps, saves, n) {
      AllSurvive(steps, saves, n);
    }
  }

  lemma {:induction false} AllSurvive(steps: seq<Step>, saves: seq<bool>, n: nat)
    requires Loaded(steps, saves) && n <= |steps| && NoneOvertakes(steps, saves, n)
    ensures Survivors(steps, saves, n) == AllSaves(saves, n)
  {
    if n > 0 {
      if saves[n - 1] {
        assert Follows(steps, n - 1);
        var l := LoadOf(steps, steps[n - 1].r, n - 1);
        forall k | l <= k < n - 1 ensures !saves[k] { assert Overtakes(steps, n - 1, k); }
        SameSaves(saves, l, n - 1);
        AllSurvive(steps, saves, l);
      } else {
        AllSurvive(steps, saves, n - 1);
      }
    }
  }

  lemma {:induction false} SameSaves(saves: seq<bool>, l: nat, n: nat)
    requires l <= n <= |saves| && forall k | l <= k < n :: !saves[k]
    ensures AllSaves(saves, n) == AllSaves(saves, l)
  {
    if l < n { SameSaves(saves, l, n - 1); }
  }

  // ---------------------------------------------------------------- a deleted key comes back

  lemma TwoKeys(text: string)
    requires text == "a\nb"
    ensures GetKeys(NoArrays, text) == ["a", "b"] && KeyCount(NoArrays, text) == 2
  {
    var lines := ["a", "b"];
    assert lines[1..] == ["b"];
    assert Join(lines, NEWLINE) == "a\nb";
    StoredLines(lines);
  }

  lemma OneKey(text: string)
    requires text == "b"
    ensures GetKeys(NoArrays, text) == ["b"] && KeyCount(NoArrays, text) == 1
  {
    var lines := ["b"];
    assert Join(lines, NEWLINE) == "b";
    StoredLines(lines);
  }

  /** Deleting the first of two keys. */
  lemma FirstDeleted(row: Row)
    requires row == Row("a\nb", 2, map[], map[], map[])
    ensures Written(NoArrays, row, Request(DeleteKey(Some(0)), row)).key == "b"
  {
    TwoKeys(row.key);
    var kept := [Record("b", ENABLED, None, None)];
    assert Without(Dense(NoArrays, row), 0) == kept;
    assert KeysOf(kept) == ["b"];
    assert Join(["b"], NEWLINE) == "b";
  }

  /** Disabling the second of two keys, whatever is stored by now. */
  lemma SecondDisabled(row: Row, stored: Row)
    requires row == Row("a\nb", 2, map[], map[], map[])
    ensures Written(NoArrays, stored, Request(DisableKey(Some(1)), row)).key == "a\nb"
  {
  }

  /** Two requests load a channel with the keys "a" and "b"; one deletes "a", and then the other, which only disables
      "b", brings "a" back. */
  lemma DeletedKeyComesBack() returns (states: seq<State>, steps: seq<Step>)
    ensures Run(NoArrays, states, steps) && |steps| == 6 && Valid(NoArrays, states[0].row)
    ensures GetKeys(NoArrays, states[0].row.key) == ["a", "b"]
    ensures GetKeys(NoArrays, states[4].row.key) == ["b"] && GetKeys(NoArrays, states[6].row.key) == ["a", "b"]
  {
    var row := Row("a\nb", 2, map[], map[], map[]);
    var delete, disable := Request(DeleteKey(Some(0)), row), Request(DisableKey(Some(1)), row);
    var short := Written(NoArrays, row, delete);
    states, steps := TwoRequests(NoArrays, row, delete, disable);
    TwoKeys(row.key);
    OneKey("b");
    FirstDeleted(row);
    SecondDisabled(row, short);
  }

  /** Two requests that load a row and are saved one after the other. */
  lemma TwoRequests(json: Json, row: Row, q: Request, q': Request) returns (states: seq<State>, steps: seq<Step>)
    requires q.copy == row && q'.copy == row
    ensures Run(json, states, steps) && |steps| == 6 && states[0].row == row
    ensures states[4].row == Written(json, row, q) && states[6].row == Written(json, Written(json, row, q), q')
  {
    states, steps := [State(row, map[], None)], [];
    states, steps := Extended(json, states, steps, Load(0, q.action), State(row, map[0 := q], None));
    states, steps := Extended(json, states, steps, Load(1, q'.action), State(row, map[0 := q, 1 := q'], None));
    states, steps := Completed(json, states, steps, 0);
    states, steps := Completed(json, states, steps, 1);
  }

  /** A request takes the free lock and finishes. */
  lemma Completed(json: Json, states: seq<State>, steps: seq<Step>, r: nat)
    returns (states': seq<State>, steps': seq<Step>)
    requires Run(json, states, steps) && r in states[|steps|].requests && states[|steps|].holder.None?
    ensures Run(json, states', steps') && |steps'| == |steps| + 2 && states <= states'
    ensures var s := states[|steps|];
      states'[|steps'|] == State(Written(json, s.row, s.requests[r]), s.requests - {r}, None)
  {
    var s := states[|steps|];
    states', steps' := Extended(json, states, steps, Acquire(r), s.(holder := Some(r)));
    states', steps' := Extended(json, states', steps', Finish(r), Apply(json, s.(holder := Some(r)), Finish(r)));
  }

  lemma Extended(json: Json, states: seq<State>, steps: seq<Step>, step: Step, next: State)
    returns (states': seq<State>, steps': seq<Step>)
    requires Run(json, states, steps) && Enabled(states[|steps|], step) && next == Apply(json, states[|steps|], step)
    ensures Run(json, states', steps') && states' == states + [next] && steps' == steps + [step]
  {
    states', steps' := states + [next], steps + [step];
    forall k | 0 <= k < |steps'|
      ensures Enabled(states'[k], steps'[k]) && states'[k + 1] == Apply(json, states'[k], steps'[k])
    {
      if k < |steps| { assert steps'[k] == steps[k]; }
    }
  }
}
