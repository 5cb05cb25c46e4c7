/** Channels with many keys: a key text that is parsed again on every use, and three sparse maps indexed by key
    position that every management action has to keep in step with it. */
module MultiKey {
  import opened Basics
  import opened Text

  /** A JSON decoder of arrays into the raw texts of their elements. */
  type Json = string -> Option<seq<string>>

  const ENABLED := 1
  const MANUALLY_DISABLED := 2
  const AUTO_DISABLED := 3

  const NEWLINE := '\n'

  function TotalLength(keys: seq<string>): nat {
    if keys == [] then 0 else |keys[0]| + TotalLength(keys[1..])
  }

  /** An array is longer than its elements by the commas and the brackets. */
  ghost predicate Decodes(json: Json) {
    forall t :: json(t).Some? ==> TotalLength(json(t).value) + |json(t).value| + 1 <= |t|
  }

  predicate IsArray(json: Json, text: string) {
    "[" <= TrimSpace(text) && json(TrimSpace(text)).Some?
  }

  function SplitLines(text: string): seq<string> {
    Split(Trim(text, c => c == NEWLINE), NEWLINE)
  }

  /** Channel.GetKeys */
  function GetKeys(json: Json, text: string): seq<string> {
    if text == "" then [] else if IsArray(json, text) then json(TrimSpace(text)).value else SplitLines(text)
  }

  /** The number of keys Channel.Update counts: it takes an empty array for a line. */
  function KeyCount(json: Json, text: string): nat {
    if text == "" then 0
    else if IsArray(json, text) && json(TrimSpace(text)).value != [] then |json(TrimSpace(text)).value|
    else |SplitLines(text)|
  }

  /** Lists that come back when they are joined, stored and parsed. */
  ghost predicate Survives(json: Json, keys: seq<string>) {
    && keys != [] && keys[0] != "" && keys[|keys| - 1] != ""
    && (forall i | 0 <= i < |keys| :: NEWLINE !in keys[i])
    && !IsArray(json, Join(keys, NEWLINE))
  }

  lemma {:induction false} JoinLength(keys: seq<string>)
    requires keys != []
    ensures |Join(keys, NEWLINE)| == TotalLength(keys) + |keys| - 1
  {
    if |keys| > 1 { JoinLength(keys[1..]); } else { assert TotalLength(keys[1..]) == 0; }
  }

  lemma {:induction false} TrimLeftShorter(s: string, cut: char -> bool)
    ensures |TrimLeft(s, cut)| <= |s|
  {
    if s != "" && cut(s[0]) { TrimLeftShorter(s[1..], cut); }
  }

  /** An array never decodes to the lines it was joined from. */
  lemma ArrayIsNotItsLines(json: Json, keys: seq<string>)
    requires Decodes(json) && keys != [] && IsArray(json, Join(keys, NEWLINE))
    ensures json(TrimSpace(Join(keys, NEWLINE))).value != keys
  {
    var text := Join(keys, NEWLINE);
    JoinLength(keys);
    TrimLeftShorter(text, IsSpace);
    TrimRightEnds(TrimLeft(text, IsSpace), IsSpace);
  }

  /** Storing a list of keys keeps it exactly when it survives. */
  lemma StoredKeys(json: Json, keys: seq<string>)
    requires Decodes(json)
    ensures Join(keys, NEWLINE) != "" && GetKeys(json, Join(keys, NEWLINE)) == keys <==> Survives(json, keys)
    ensures Survives(json, keys) ==> KeyCount(json, Join(keys, NEWLINE)) == |keys|
  {
    var text := Join(keys, NEWLINE);
    if keys == [] {
    } else if IsArray(json, text) {
      ArrayIsNotItsLines(json, keys);
    } else {
      StoredLines(keys);
    }
  }

  lemma StoredLines(keys: seq<string>)
    requires keys != []
    ensures Join(keys, NEWLINE) != "" && SplitLines(Join(keys, NEWLINE)) == keys <==>
      keys[0] != "" && keys[|keys| - 1] != "" && forall i | 0 <= i < |keys| :: NEWLINE !in keys[i]
  {
    var text := Join(keys, NEWLINE);
    var cut := (c: char) => c == NEWLINE;
    TrimFixed(text, cut);
    JoinLast(keys, NEWLINE);
    if forall i | 0 <= i < |keys| :: NEWLINE !in keys[i] {
      JoinTrimmed(keys, NEWLINE);
      SplitUndoesJoin(keys, NEWLINE);
      if SplitLines(text) == keys { SplitJoins(Trim(text, cut), NEWLINE); }
    }
  }

  // ---------------------------------------------------------------- rows and their dense view

  /** What is stored of a channel: Key, MultiKeySize and the three sparse maps of ChannelInfo. */
  datatype Row = Row(key: string, size: int, status: map<int, int>, times: map<int, int>, reasons: map<int, string>)

  /** One key with all that is known about it. */
  datatype Record = Record(key: string, status: int, time: Option<int>, reason: Option<string>)

  function Lookup<T>(m: map<int, T>, i: int): Option<T> {
    if i in m then Some(m[i]) else None
  }

  function StatusAt(status: map<int, int>, i: int): int {
    if i in status then status[i] else ENABLED
  }

  function RecordAt(row: Row, key: string, i: int): Record {
    Record(key, StatusAt(row.status, i), Lookup(row.times, i), Lookup(row.reasons, i))
  }

  function Dense(json: Json, row: Row): (d: seq<Record>)
    ensures |d| == |GetKeys(json, row.key)|
  {
    var keys := GetKeys(json, row.key);
    seq(|keys|, i requires 0 <= i < |keys| => RecordAt(row, keys[i], i))
  }

  function KeysOf(d: seq<Record>): (keys: seq<string>)
    ensures |keys| == |d| && forall i | 0 <= i < |d| :: keys[i] == d[i].key
  {
    seq(|d|, i requires 0 <= i < |d| => d[i].key)
  }

  /** A sparse map of what some records have. */
  function Sparse<T>(d: seq<Record>, part: Record -> Option<T>): map<int, T> {
    if d == [] then map[] else
    var before, last := Sparse(d[..|d| - 1], part), part(d[|d| - 1]);
    if last.Some? then before[|d| - 1 := last.value] else before
  }

  lemma {:induction false} SparseAt<T>(d: seq<Record>, part: Record -> Option<T>, i: int)
    ensures Lookup(Sparse(d, part), i) == if 0 <= i < |d| then part(d[i]) else None
  {
    if d != [] { SparseAt(d[..|d| - 1], part, i); }
  }

  lemma SparseSnoc<T>(d: seq<Record>, part: Record -> Option<T>, r: Record)
    ensures Sparse(d + [r], part) == if part(r).Some? then Sparse(d, part)[|d| := part(r).value] else Sparse(d, part)
  {
    assert (d + [r])[..|d|] == d;
  }

  function StatusPart(r: Record): Option<int> {
    if r.status == ENABLED then None else Some(r.status)
  }

  function TimePart(r: Record): Option<int> {
    r.time
  }

  function ReasonPart(r: Record): Option<string> {
    r.reason
  }

  /** Channel.Update: an empty key keeps the stored one, the size is counted again, and only the status map is cut. */
  function Saved(json: Json, stored: string, row: Row): Row {
    var key := if row.key == "" then stored else row.key;
    var size := KeyCount(json, key);
    row.(key := key, size := size, status := map i | i in row.status && i < size :: row.status[i])
  }

  /** The loaded copy that holds a list of records, its text not joined yet. */
  function Rebuilt(kept: seq<Record>): Row {
    Row("", |kept|, Sparse(kept, StatusPart), Sparse(kept, TimePart), Sparse(kept, ReasonPart))
  }

  function Joined(kept: seq<Record>): Row {
    Rebuilt(kept).(key := Join(KeysOf(kept), NEWLINE))
  }

  /** The row written for a shortened list of records. */
  function Shortened(json: Json, stored: string, kept: seq<Record>): Row {
    Saved(json, stored, Joined(kept))
  }

  /** The three maps speak of existing keys only, and the size is the number of keys. */
  ghost predicate Valid(json: Json, row: Row) {
    && row.size == KeyCount(json, row.key) == |GetKeys(json, row.key)|
    && (forall i | i in row.status :: 0 <= i < row.size)
    && (forall i | i in row.times :: 0 <= i < row.size)
    && (forall i | i in row.reasons :: 0 <= i < row.size)
  }

  /** Writing a shortened list stores exactly that list if and only if its keys survive. */
  lemma ShortenedIsExact(json: Json, stored: string, kept: seq<Record>)
    requires Decodes(json) && |kept| < |GetKeys(json, stored)|
    ensures Dense(json, Shortened(json, stored, kept)) == kept <==> Survives(json, KeysOf(kept))
    ensures Survives(json, KeysOf(kept)) ==> Valid(json, Shortened(json, stored, kept))
  {
    StoredKeys(json, KeysOf(kept));
    if Survives(json, KeysOf(kept)) {
      ShortenedSurvives(json, stored, kept);
    } else {
      DenseKeys(json, Shortened(json, stored, kept));
    }
  }

  lemma DenseKeys(json: Json, row: Row)
    ensures KeysOf(Dense(json, row)) == GetKeys(json, row.key)
  {
  }

  lemma RebuiltAt(kept: seq<Record>, i: int)
    ensures var row := Rebuilt(kept);
      if 0 <= i < |kept| then
        && StatusAt(row.status, i) == kept[i].status && Lookup(row.times, i) == kept[i].time
        && Lookup(row.reasons, i) == kept[i].reason
      else
        i !in row.status && i !in row.times && i !in row.reasons
  {
    SparseAt(kept, StatusPart, i);
    SparseAt(kept, TimePart, i);
    SparseAt(kept, ReasonPart, i);
  }

  lemma ShortenedSurvives(json: Json, stored: string, kept: seq<Record>)
    requires var text := Join(KeysOf(kept), NEWLINE);
      text != "" && GetKeys(json, text) == KeysOf(kept) && KeyCount(json, text) == |kept|
    ensures Dense(json, Shortened(json, stored, kept)) == kept && Valid(json, Shortened(json, stored, kept))
  {
    var row := Shortened(json, stored, kept);
    forall i ensures i in row.status || i in row.times || i in row.reasons ==> 0 <= i < |kept| { RebuiltAt(kept, i); }
    forall i | 0 <= i < |kept| ensures Dense(json, row)[i] == kept[i] { RebuiltAt(kept, i); }
  }

  // ---------------------------------------------------------------- actions

  datatype Action =
    | DisableKey(index: Option<int>)
    | EnableKey(index: Option<int>)
    | EnableAllKeys
    | DisableAllKeys
    | DeleteKey(index: Option<int>)
    | DeleteDisabledKeys

  predicate InRange(index: Option<int>, size: int) {
    index.Some? && 0 <= index.value < size
  }

  function Enabled(r: Record): Record {
    Record(r.key, ENABLED, None, None)
  }

  function Disabled(r: Record): Record {
    if r.status == ENABLED then r.(status := MANUALLY_DISABLED) else r
  }

  function Each(d: seq<Record>, f: Record -> Record): (r: seq<Record>)
    ensures |r| == |d| && forall i | 0 <= i < |d| :: r[i] == f(d[i])
  {
    seq(|d|, i requires 0 <= i < |d| => f(d[i]))
  }

  function Without(d: seq<Record>, i: int): seq<Record> {
    if 0 <= i < |d| then d[..i] + d[i + 1..] else d
  }

  predicate HasAutoDisabled(d: seq<Record>) {
    exists i :: 0 <= i < |d| && d[i].status == AUTO_DISABLED
  }

  /** The records that are not auto-disabled; an enabled key forgets why it was disabled. */
  function Kept(d: seq<Record>): seq<Record> {
    if d == [] then [] else
    var r := d[|d| - 1];
    if r.status == AUTO_DISABLED then Kept(d[..|d| - 1])
    else Kept(d[..|d| - 1]) + [if r.status == ENABLED then Enabled(r) else r]
  }

  /** An action on the list of records, and whether it is carried out. */
  function OnRecords(d: seq<Record>, a: Action): (seq<Record>, bool) {
    match a
    case DisableKey(index) =>
      if InRange(index, |d|) then (d[index.value := d[index.value].(status := MANUALLY_DISABLED)], true) else (d, false)
    case EnableKey(index) =>
      if InRange(index, |d|) then (d[index.value := Enabled(d[index.value])], true) else (d, false)
    case EnableAllKeys => (Each(d, Enabled), true)
    case DisableAllKeys =>
      if exists i :: 0 <= i < |d| && d[i].status == ENABLED then (Each(d, Disabled), true) else (d, false)
    case DeleteKey(index) =>
      if InRange(index, |d|) && |d| > 1 then (Without(d, index.value), true) else (d, false)
    case DeleteDisabledKeys =>
      if HasAutoDisabled(d) then (Kept(d), true) else (d, false)
  }

  /** An action on a loaded copy of the row, and whether the copy is to be saved. */
  function Edited(json: Json, copy: Row, a: Action): (Row, bool) {
    match a
    case DisableKey(index) =>
      if !InRange(index, copy.size) then (copy, false)
      else (copy.(status := copy.status[index.value := MANUALLY_DISABLED]), true)
    case EnableKey(index) =>
      if !InRange(index, copy.size) then (copy, false)
      else (copy.(status := copy.status - {index.value}, times := copy.times - {index.value},
                  reasons := copy.reasons - {index.value}), true)
    case EnableAllKeys => (copy.(status := map[], times := map[], reasons := map[]), true)
    case DisableAllKeys =>
      if EnabledCount(copy.status, copy.size) > 0
      then (copy.(status := AllDisabled(copy.status, copy.size)), true) else (copy, false)
    case DeleteKey(index) =>
      var kept := if index.Some? then Without(Dense(json, copy), index.value) else [];
      if InRange(index, copy.size) && kept != [] then (Joined(kept), true) else (copy, false)
    case DeleteDisabledKeys => Purged(Dense(json, copy), copy)
  }

  function Purged(d: seq<Record>, copy: Row): (Row, bool) {
    if HasAutoDisabled(d) then (Joined(Kept(d)), true) else (copy, false)
  }

  /** An action on the stored row: it is loaded, changed and saved. */
  function OnRow(json: Json, row: Row, a: Action): (Row, bool) {
    var (copy, ok) := Edited(json, row, a);
    (if ok then Saved(json, row.key, copy) else row, ok)
  }

  // ---------------------------------------------------------------- what the actions are for

  /** What is known of the key at a position: its status, 1 where none is stored, and when and why it was disabled. */
  lemma DenseIs(json: Json, row: Row, i: nat)
    requires i < |GetKeys(json, row.key)|
    ensures var r := Dense(json, row)[i];
      && r.key == GetKeys(json, row.key)[i]
      && (i in row.status ==> r.status == row.status[i]) && (i !in row.status ==> r.status == 1)
      && (r.time == if i in row.times then Some(row.times[i]) else None)
      && (r.reason == if i in row.reasons then Some(row.reasons[i]) else None)
  {
  }

  /** The keys of a text: the elements of an array, or the lines, without empty ones at the two ends. */
  lemma KeysAre(json: Json, text: string)
    ensures text == "" ==> GetKeys(json, text) == []
    ensures text != "" && "[" <= TrimSpace(text) && json(TrimSpace(text)).Some? ==>
      GetKeys(json, text) == json(TrimSpace(text)).value
    ensures text != "" && !("[" <= TrimSpace(text) && json(TrimSpace(text)).Some?) ==>
      && Join(GetKeys(json, text), '\n') == Trim(text, c => c == '\n')
      && forall i | 0 <= i < |GetKeys(json, text)| :: '\n' !in GetKeys(json, text)[i]
    ensures KeyCount(json, text) == |GetKeys(json, text)| <==>
      !(text != "" && "[" <= TrimSpace(text) && json(TrimSpace(text)) == Some([]))
  {
    SplitJoins(Trim(text, c => c == NEWLINE), NEWLINE);
  }

  /** Disabling or enabling one key, and nothing else; what was known of an enabled key is forgotten. */
  lemma SwitchingIs(d: seq<Record>, index: Option<int>)
    ensures var (r, ok) := OnRecords(d, DisableKey(index));
      && (ok <==> index.Some? && 0 <= index.value < |d|) && |r| == |d|
      && forall k | 0 <= k < |d| :: r[k] == if ok && k == index.value then d[k].(status := 2) else d[k]
    ensures var (r, ok) := OnRecords(d, EnableKey(index));
      && (ok <==> index.Some? && 0 <= index.value < |d|) && |r| == |d|
      && forall k | 0 <= k < |d| :: r[k] == if ok && k == index.value then Record(d[k].key, 1, None, None) else d[k]
  {
  }

  /** The same for all keys; those that are disabled already stay as they are. */
  lemma SwitchingAllIs(d: seq<Record>)
    ensures var (r, ok) := OnRecords(d, EnableAllKeys);
      ok && |r| == |d| && forall k | 0 <= k < |d| :: r[k] == Record(d[k].key, 1, None, None)
    ensures var (r, ok) := OnRecords(d, DisableAllKeys);
      && (ok <==> exists k :: 0 <= k < |d| && d[k].status == 1) && |r| == |d|
      && forall k | 0 <= k < |d| :: r[k] == if d[k].status == 1 then d[k].(status := 2) else d[k]
  {
  }

  /** Deleting a key: the others stay as they are, those behind it one position further in front; the last key cannot be
      deleted. */
  lemma DeletingIs(d: seq<Record>, index: Option<int>)
    ensures var (r, ok) := OnRecords(d, DeleteKey(index));
      && (ok <==> index.Some? && 0 <= index.value < |d| && |d| > 1)
      && (!ok ==> r == d)
      && (ok ==> |r| == |d| - 1 && forall k | 0 <= k < |r| :: r[k] == if k < index.value then d[k] else d[k + 1])
  {
  }

  /** Deleting the disabled keys: exactly the automatically disabled ones go; the others stay in their order, a disabled
      one with its status, time and reason, an enabled one without time and reason. */
  lemma PurgingIs(d: seq<Record>) returns (idx: seq<nat>)
    ensures OnRecords(d, DeleteDisabledKeys).1 <==> exists k :: 0 <= k < |d| && d[k].status == 3
    ensures !OnRecords(d, DeleteDisabledKeys).1 ==> OnRecords(d, DeleteDisabledKeys).0 == d
    ensures OnRecords(d, DeleteDisabledKeys).1 ==>
      KeptInOrder(d, (r: Record) => r.status != 3,
                (r: Record) => if r.status == 1 then Record(r.key, 1, None, None) else r,
                OnRecords(d, DeleteDisabledKeys).0, idx)
  {
    idx := KeptIs(d);
  }

  lemma {:induction false} KeptIs(d: seq<Record>) returns (idx: seq<nat>)
    ensures KeptInOrder(d, (r: Record) => r.status != 3,
                      (r: Record) => if r.status == 1 then Record(r.key, 1, None, None) else r, Kept(d), idx)
  {
    idx := [];
    if d != [] {
      var init, last := d[..|d| - 1], d[|d| - 1];
      idx := KeptIs(init);
      assert d == init + [last];
      var keep := (r: Record) => r.status != 3;
      var make := (r: Record) => if r.status == 1 then Record(r.key, 1, None, None) else r;
      if last.status != 3 {
        InOrderTakes(init, last, keep, make, Kept(init), idx);
        idx := idx + [|init|];
      } else {
        InOrderPasses(init, last, keep, make, Kept(init), idx);
      }
    }
  }

  /** The status map after disabling the enabled ones of the first `size` keys. */
  function AllDisabled(status: map<int, int>, size: int): map<int, int> {
    if size <= 0 then status
    else if StatusAt(status, size - 1) == ENABLED then AllDisabled(status, size - 1)[size - 1 := MANUALLY_DISABLED]
    else AllDisabled(status, size - 1)
  }

  function EnabledCount(status: map<int, int>, size: int): nat {
    if size <= 0 then 0 else EnabledCount(status, size - 1) + if StatusAt(status, size - 1) == ENABLED then 1 else 0
  }

  lemma {:induction false} AllDisabledAt(status: map<int, int>, size: int, i: int)
    ensures i in AllDisabled(status, size) <==> i in status || (0 <= i < size && StatusAt(status, i) == ENABLED)
    ensures StatusAt(AllDisabled(status, size), i) ==
      if 0 <= i < size && StatusAt(status, i) == ENABLED then MANUALLY_DISABLED else StatusAt(status, i)
  {
    if size > 0 { AllDisabledAt(status, size - 1, i); }
  }

  lemma {:induction false} EnabledCountPositive(status: map<int, int>, size: int)
    ensures EnabledCount(status, size) > 0 <==> exists i :: 0 <= i < size && StatusAt(status, i) == ENABLED
  {
    if size > 0 { EnabledCountPositive(status, size - 1); }
  }

  /** A deletion that is carried out leaves keys that survive being stored. */
  ghost predicate Safe(json: Json, d: seq<Record>, a: Action) {
    (a.DeleteKey? || a.DeleteDisabledKeys?) && OnRecords(d, a).1 ==> Survives(json, KeysOf(OnRecords(d, a).0))
  }

  lemma {:induction false} KeptShorter(d: seq<Record>)
    ensures |Kept(d)| <= |d|
    ensures |Kept(d)| < |d| <==> HasAutoDisabled(d)
  {
    if d != [] {
      var init := d[..|d| - 1];
      KeptShorter(init);
      assert forall i | 0 <= i < |init| :: init[i] == d[i];
      if i :| 0 <= i < |d| && d[i].status == AUTO_DISABLED && i < |init| { assert init[i].status == AUTO_DISABLED; }
    }
  }

  /** Every action on a row does to its records what it is meant to do, exactly when it is safe; a safe action keeps
      the indices of the maps below the size and the size equal to the number of keys. */
  lemma ActionRefines(json: Json, row: Row, a: Action)
    requires Decodes(json) && Valid(json, row)
    ensures OnRow(json, row, a).1 == OnRecords(Dense(json, row), a).1
    ensures Dense(json, OnRow(json, row, a).0) == OnRecords(Dense(json, row), a).0 <==> Safe(json, Dense(json, row), a)
    ensures Safe(json, Dense(json, row), a) ==> Valid(json, OnRow(json, row, a).0)
  {
    match a {
      case DisableKey(_) => SameKeyAction(json, row, a);
      case EnableKey(_) => SameKeyAction(json, row, a);
      case EnableAllKeys => SameKeyAction(json, row, a);
      case DisableAllKeys => DisableAllRefines(json, row);
      case DeleteKey(_) => DeletionRefines(json, row, a);
      case DeleteDisabledKeys => DeletionRefines(json, row, a);
    }
  }

  lemma DeletionRefines(json: Json, row: Row, a: Action)
    requires Decodes(json) && Valid(json, row) && (a.DeleteKey? || a.DeleteDisabledKeys?)
    ensures OnRow(json, row, a).1 == OnRecords(Dense(json, row), a).1
    ensures Dense(json, OnRow(json, row, a).0) == OnRecords(Dense(json, row), a).0 <==> Safe(json, Dense(json, row), a)
    ensures Safe(json, Dense(json, row), a) ==> Valid(json, OnRow(json, row, a).0)
  {
    var d := Dense(json, row);
    DeletionIs(json, row, a);
    if OnRecords(d, a).1 { ShortenedIsExact(json, row.key, OnRecords(d, a).0); }
  }

  /** A deletion that is carried out writes the shortened list of records. */
  lemma DeletionIs(json: Json, row: Row, a: Action)
    requires Valid(json, row) && (a.DeleteKey? || a.DeleteDisabledKeys?)
    ensures var d := Dense(json, row); var (kept, ok) := OnRecords(d, a);
      OnRow(json, row, a) == (if ok then Shortened(json, row.key, kept) else row, ok) && (ok ==> |kept| < |d|)
  {
    var d := Dense(json, row);
    if a.DeleteDisabledKeys? {
      KeptShorter(d);
    } else if a.index.Some? {
      WithoutShorter(d, a.index.value);
    }
  }

  lemma WithoutShorter(d: seq<Record>, i: int)
    ensures |Without(d, i)| == if 0 <= i < |d| then |d| - 1 else |d|
  {
  }

  lemma SameKeyAction(json: Json, row: Row, a: Action)
    requires Valid(json, row) && (a.DisableKey? || a.EnableKey? || a.EnableAllKeys?)
    ensures OnRow(json, row, a).1 == OnRecords(Dense(json, row), a).1
    ensures Dense(json, OnRow(json, row, a).0) == OnRecords(Dense(json, row), a).0
    ensures Valid(json, OnRow(json, row, a).0)
  {
    var r, d := OnRow(json, row, a).0, OnRecords(Dense(json, row), a).0;
    assert r.key == row.key;
    assert |d| == |Dense(json, r)|;
    forall i | 0 <= i < |d| ensures Dense(json, r)[i] == d[i] {}
  }

  lemma DisableAllRefines(json: Json, row: Row)
    requires Valid(json, row)
    ensures OnRow(json, row, DisableAllKeys).1 == OnRecords(Dense(json, row), DisableAllKeys).1
    ensures Dense(json, OnRow(json, row, DisableAllKeys).0) == OnRecords(Dense(json, row), DisableAllKeys).0
    ensures Valid(json, OnRow(json, row, DisableAllKeys).0)
  {
    var d := Dense(json, row);
    EnabledCountPositive(row.status, row.size);
    assert forall i | 0 <= i < row.size :: d[i].status == StatusAt(row.status, i);
    forall i
      ensures i in AllDisabled(row.status, row.size) ==> 0 <= i < row.size
    {
      AllDisabledAt(row.status, row.size, i);
    }
    if OnRow(json, row, DisableAllKeys).1 {
      var r := OnRow(json, row, DisableAllKeys).0;
      forall i | 0 <= i < |d| ensures Dense(json, r)[i] == Disabled(d[i]) { AllDisabledAt(row.status, row.size, i); }
    }
  }

  // ---------------------------------------------------------------- runs

  function RunRow(json: Json, row: Row, actions: seq<Action>): Row {
    if actions == [] then row else OnRow(json, RunRow(json, row, actions[..|actions| - 1]), actions[|actions| - 1]).0
  }

  function RunRecords(d: seq<Record>, actions: seq<Action>): seq<Record> {
    if actions == [] then d else OnRecords(RunRecords(d, actions[..|actions| - 1]), actions[|actions| - 1]).0
  }

  ghost predicate SafeRun(json: Json, d: seq<Record>, actions: seq<Action>) {
    actions != [] ==>
      && SafeRun(json, d, actions[..|actions| - 1])
      && Safe(json, RunRecords(d, actions[..|actions| - 1]), actions[|actions| - 1])
  }

  /** Over any sequence of safe actions the sparse maps stand for the list of records. */
  lemma {:induction false} RunRefines(json: Json, row: Row, actions: seq<Action>)
    requires Decodes(json) && Valid(json, row) && SafeRun(json, Dense(json, row), actions)
    ensures Valid(json, RunRow(json, row, actions))
    ensures Dense(json, RunRow(json, row, actions)) == RunRecords(Dense(json, row), actions)
  {
    if actions != [] {
      RunRefines(json, row, actions[..|actions| - 1]);
      ActionRefines(json, RunRow(json, row, actions[..|actions| - 1]), actions[|actions| - 1]);
    }
  }

  /** A deletion leaves the row valid exactly when the text it writes (or leaves, where that text is empty) is not an
      empty array and no time or reason is kept for a position past the lines of that text. */
  lemma DeletionKeepsBounds(json: Json, stored: string, kept: seq<Record>)
    ensures var text := if Join(KeysOf(kept), NEWLINE) == "" then stored else Join(KeysOf(kept), NEWLINE);
      Valid(json, Shortened(json, stored, kept)) <==>
        && KeyCount(json, text) == |GetKeys(json, text)|
        && forall i | |GetKeys(json, text)| <= i < |kept| :: kept[i].time.None? && kept[i].reason.None?
  {
    var row := Shortened(json, stored, kept);
    forall i ensures i in row.status ==> 0 <= i < row.size { RebuiltAt(kept, i); }
    forall i
      ensures i in row.times <==> 0 <= i < |kept| && kept[i].time.Some?
      ensures i in row.reasons <==> 0 <= i < |kept| && kept[i].reason.Some?
    {
      RebuiltAt(kept, i);
    }
  }

  /** No text is a JSON array. */
  function NoArrays(text: string): Option<seq<string>> {
    None
  }

  /** Deleting the auto-disabled keys of a channel that has no others: no key goes, and all of them are enabled
      again. */
  lemma DeleteAllDisabledEnablesThem(json: Json, row: Row)
    requires Valid(json, row) && row.size > 0
    requires forall i | 0 <= i < row.size :: StatusAt(row.status, i) == AUTO_DISABLED
    ensures OnRow(json, row, DeleteDisabledKeys).1
    ensures Dense(json, OnRow(json, row, DeleteDisabledKeys).0) == Each(Dense(json, row), Enabled)
  {
    var d := Dense(json, row);
    assert d[0].status == AUTO_DISABLED;
    assert forall i | 0 <= i < |d| :: d[i].status == AUTO_DISABLED;
    KeptNone(d);
    assert KeysOf(Kept(d)) == [];
  }

  lemma {:induction false} KeptNone(d: seq<Record>)
    requires forall i | 0 <= i < |d| :: d[i].status == AUTO_DISABLED
    ensures Kept(d) == []
  {
    if d != [] { KeptNone(d[..|d| - 1]); }
  }

  /** Deleting the first of the lines "a", "", "b" drops the empty line too, and the time kept for "b" is past the
      end. */
  lemma EmptyLineIsLost(row: Row)
    requires row == Row("a\n\nb", 3, map[2 := MANUALLY_DISABLED], map[2 := 7], map[])
    ensures var after := OnRow(NoArrays, row, DeleteKey(Some(0))).0;
      && Valid(NoArrays, row) && after.key == "\nb" && GetKeys(NoArrays, after.key) == ["b"]
      && after.size == 1 && after.times == map[1 := 7] && !Valid(NoArrays, after)
  {
    ExampleKeys(row.key);
    ExampleValid(row);
    ExampleRecords(row);
    ExampleShortened(row.key);
    assert 1 in OnRow(NoArrays, row, DeleteKey(Some(0))).0.times;
  }

  lemma ExampleValid(row: Row)
    requires GetKeys(NoArrays, row.key) == ["a", "", "b"] && KeyCount(NoArrays, row.key) == 3 && row.size == 3
    requires row.status == map[2 := MANUALLY_DISABLED] && row.times == map[2 := 7] && row.reasons == map[]
    ensures Valid(NoArrays, row)
  {
  }

  lemma ExampleKeys(text: string)
    requires text == "a\n\nb"
    ensures GetKeys(NoArrays, text) == ["a", "", "b"] && KeyCount(NoArrays, text) == 3
  {
    ExampleLines();
  }

  lemma ExampleRecords(row: Row)
    requires GetKeys(NoArrays, row.key) == ["a", "", "b"] && row.size == 3
    requires row.status == map[2 := MANUALLY_DISABLED] && row.times == map[2 := 7] && row.reasons == map[]
    ensures var kept := [Record("", ENABLED, None, None), Record("b", MANUALLY_DISABLED, Some(7), None)];
      OnRow(NoArrays, row, DeleteKey(Some(0))).0 == Shortened(NoArrays, row.key, kept)
  {
    var kept := [Record("", ENABLED, None, None), Record("b", MANUALLY_DISABLED, Some(7), None)];
    assert Without(Dense(NoArrays, row), 0) == kept;
  }

  lemma ExampleShortened(stored: string)
    ensures var kept := [Record("", ENABLED, None, None), Record("b", MANUALLY_DISABLED, Some(7), None)];
      var after := Shortened(NoArrays, stored, kept);
      && after.key == "\nb" && GetKeys(NoArrays, after.key) == ["b"] && after.size == 1 && after.times == map[1 := 7]
  {
    var kept := [Record("", ENABLED, None, None), Record("b", MANUALLY_DISABLED, Some(7), None)];
    ExampleLines();
    assert KeysOf(kept) == ["", "b"];
    SparseSnoc([], TimePart, kept[0]);
    SparseSnoc([kept[0]], TimePart, kept[1]);
    assert [] + [kept[0]] == [kept[0]] && [kept[0]] + [kept[1]] == kept;
  }

  lemma ExampleLines()
    ensures SplitLines("a\n\nb") == ["a", "", "b"] && SplitLines("\nb") == ["b"] && Join(["", "b"], NEWLINE) == "\nb"
  {
    var lines, cut := ["a", "", "b"], (c: char) => c == NEWLINE;
    assert lines[1..] == ["", "b"] && ["", "b"][1..] == ["b"];
    assert Join(["", "b"], NEWLINE) == "\nb";
    assert Join(lines, NEWLINE) == "a\n\nb";
    StoredLines(lines);
    assert "\nb"[1..] == "b";
    assert TrimLeft("\nb", cut) == "b";
    SplitWhole("b", NEWLINE);
  }

  // ---------------------------------------------------------------- the channel

  class Channel {
    var key: string
    var size: int
    var status: map<int, int>
    var times: map<int, int>
    var reasons: map<int, string>

    function Value(): Row
      reads this
    {
      Row(key, size, status, times, reasons)
    }

    /** Channel.Update of a loaded copy. */
    method Update(json: Json, copy: Row)
      modifies this
      ensures Value() == Saved(json, old(key), copy)
      ensures key == (if copy.key == "" then old(key) else copy.key) && size == KeyCount(json, key)
      ensures forall i :: i in status <==> i in copy.status && i < size
      ensures (forall i | i in status :: status[i] == copy.status[i]) && times == copy.times && reasons == copy.reasons
    {
      if copy.key != "" { key := copy.key; }
      size := KeyCount(json, key);
      status := map i | i in copy.status && i < size :: copy.status[i];
      times, reasons := copy.times, copy.reasons;
    }

    /** The state-changing actions of ManageMultiKeys. */
    method Manage(json: Json, a: Action) returns (ok: bool)
      modifies this
      ensures (Value(), ok) == OnRow(json, old(Value()), a)
    {
      var copy := Value();
      match a {
        case DisableKey(index) =>
          if !InRange(index, size) { return false; }
          Update(json, copy.(status := status[index.value := MANUALLY_DISABLED]));
        case EnableKey(index) =>
          if !InRange(index, size) { return false; }
          Update(json, copy.(status := status - {index.value}, times := times - {index.value},
                             reasons := reasons - {index.value}));
        case EnableAllKeys =>
          Update(json, copy.(status := map[], times := map[], reasons := map[]));
        case DisableAllKeys =>
          var disabled, count := DisableEnabled(status, size);
          if count == 0 { return false; }
          Update(json, copy.(status := disabled));
        case DeleteKey(index) =>
          ok := RemoveKey(json, index);
          return;
        case DeleteDisabledKeys =>
          ok := RemoveDisabledKeys(json);
          return;
      }
      return true;
    }

    method RemoveKey(json: Json, index: Option<int>) returns (ok: bool)
      modifies this
      ensures (Value(), ok) == OnRow(json, old(Value()), DeleteKey(index))
    {
      if !InRange(index, size) { return false; }
      var copy := Value();
      var rest := SkipKey(copy, GetKeys(json, key), index.value, Dense(json, copy));
      if rest.size == 0 { return false; }
      Update(json, rest);
      return true;
    }

    method RemoveDisabledKeys(json: Json) returns (ok: bool)
      modifies this
      ensures (Value(), ok) == OnRow(json, old(Value()), DeleteDisabledKeys)
    {
      var copy := Value();
      var rest, count := SkipAutoDisabled(copy, GetKeys(json, key), Dense(json, copy));
      if count == 0 { return false; }
      Update(json, rest);
      return true;
    }
  }

  lemma PurgedIs(d: seq<Record>, copy: Row, rest: Row, count: nat)
    requires rest == Joined(Kept(d)) && count == |d| - |Kept(d)|
    ensures Purged(d, copy) == if count == 0 then (copy, false) else (rest, true)
  {
    KeptShorter(d);
  }

  method DisableEnabled(status: map<int, int>, size: int) returns (disabled: map<int, int>, count: nat)
    ensures disabled == AllDisabled(status, size) && count == EnabledCount(status, size)
  {
    disabled, count := status, 0;
    var i := 0;
    while i < size
      invariant 0 <= i && (i <= size || i == 0)
      invariant disabled == AllDisabled(status, i) && count == EnabledCount(status, i)
    {
      AllDisabledAt(status, i, i);
      if StatusAt(disabled, i) == ENABLED {
        disabled := disabled[i := MANUALLY_DISABLED];
        count := count + 1;
      }
      i := i + 1;
    }
  }

  /** What both deletions have copied so far. */
  ghost predicate Copied(rest: Row, remaining: seq<string>, kept: seq<Record>) {
    rest == Rebuilt(kept) && remaining == KeysOf(kept)
  }

  lemma CopiedAll(rest: Row, remaining: seq<string>, kept: seq<Record>)
    requires Copied(rest, remaining, kept)
    ensures rest.(key := Join(remaining, NEWLINE)) == Joined(kept)
  {
  }

  /** Keeps one key, with its entries under the running index. */
  method CopyKey(row: Row, i: int, key: string, withTimes: bool, rest: Row, remaining: seq<string>,
                 ghost kept: seq<Record>,
                 ghost r: Record)
    returns (next: Row, keys: seq<string>)
    requires Copied(rest, remaining, kept) && r.key == key && r.status == StatusAt(row.status, i)
    requires r.time == if withTimes then Lookup(row.times, i) else None
    requires r.reason == if withTimes then Lookup(row.reasons, i) else None
    ensures Copied(next, keys, kept + [r])
  {
    KeysSnoc(kept, r);
    next := CopyEntries(row, i, withTimes, rest, kept, r);
    keys := remaining + [key];
  }

  /** Appends the entries of position i under the running index, as both deletions do. */
  method CopyEntries(row: Row, i: int, withTimes: bool, copy: Row, ghost kept: seq<Record>, ghost r: Record)
    returns (next: Row)
    requires copy == Rebuilt(kept) && r.status == StatusAt(row.status, i)
    requires r.time == if withTimes then Lookup(row.times, i) else None
    requires r.reason == if withTimes then Lookup(row.reasons, i) else None
    ensures next == Rebuilt(kept + [r])
  {
    SparseSnoc(kept, StatusPart, r);
    SparseSnoc(kept, TimePart, r);
    SparseSnoc(kept, ReasonPart, r);
    var newIndex := copy.size;
    next := copy.(size := newIndex + 1);
    if i in row.status && row.status[i] != ENABLED { next := next.(status := next.status[newIndex := row.status[i]]); }
    if withTimes {
      if i in row.times { next := next.(times := next.times[newIndex := row.times[i]]); }
      if i in row.reasons { next := next.(reasons := next.reasons[newIndex := row.reasons[i]]); }
    }
  }

  /** The loop's view of Without. */
  ghost function Skipping(d: seq<Record>, index: int): seq<Record> {
    if d == [] then [] else
    Skipping(d[..|d| - 1], index) + if |d| - 1 == index then [] else [d[|d| - 1]]
  }

  lemma {:induction false} SkippingIsWithout(d: seq<Record>, index: int)
    ensures Skipping(d, index) == Without(d, index)
  {
    if d != [] {
      var init := d[..|d| - 1];
      SkippingIsWithout(init, index);
      WithoutSnoc(init, d[|d| - 1], index);
      assert init + [d[|d| - 1]] == d;
    }
  }

  lemma WithoutSnoc(d: seq<Record>, r: Record, index: int)
    ensures Without(d + [r], index) == Without(d, index) + if index == |d| then [] else [r]
  {
  }

  lemma KeysSnoc(d: seq<Record>, r: Record)
    ensures KeysOf(d + [r]) == KeysOf(d) + [r.key]
  {
  }

  /** The loop of delete_key. */
  method SkipKey(row: Row, keys: seq<string>, index: int, ghost d: seq<Record>) returns (rest: Row)
    requires |d| == |keys| && forall i | 0 <= i < |keys| :: d[i] == RecordAt(row, keys[i], i)
    ensures rest == Joined(Without(d, index))
  {
    var remaining: seq<string> := [];
    ghost var kept: seq<Record> := [];
    rest := Row("", 0, map[], map[], map[]);
    for i := 0 to |keys|
      invariant kept == Skipping(d[..i], index) && Copied(rest, remaining, kept)
    {
      assert d[..i + 1][..i] == d[..i];
      if i != index {
        rest, remaining := CopyKey(row, i, keys[i], true, rest, remaining, kept, d[i]);
        kept := kept + [d[i]];
      }
    }
    assert d[..|keys|] == d;
    SkippingIsWithout(d, index);
    CopiedAll(rest, remaining, kept);
    rest := rest.(key := Join(remaining, NEWLINE));
  }

  lemma KeptStep(d: seq<Record>, i: nat)
    requires i < |d|
    ensures d[i].status == AUTO_DISABLED ==> Kept(d[..i + 1]) == Kept(d[..i])
    ensures d[i].status != AUTO_DISABLED ==>
      Kept(d[..i + 1]) == Kept(d[..i]) + [if d[i].status == ENABLED then Enabled(d[i]) else d[i]]
  {
    assert d[..i + 1][..i] == d[..i];
  }

  /** The loop of delete_disabled_keys. */
  method SkipAutoDisabled(row: Row, keys: seq<string>, ghost d: seq<Record>) returns (rest: Row, count: nat)
    requires |d| == |keys| && forall i | 0 <= i < |keys| :: d[i] == RecordAt(row, keys[i], i)
    ensures Purged(d, row) == if count == 0 then (row, false) else (rest, true)
  {
    var remaining: seq<string> := [];
    ghost var kept: seq<Record> := [];
    rest, count := Row("", 0, map[], map[], map[]), 0;
    for i := 0 to |keys|
      invariant kept == Kept(d[..i]) && Copied(rest, remaining, kept) && count == i - |kept|
    {
      KeptStep(d, i);
      var status := StatusAt(row.status, i);
      if status == AUTO_DISABLED {
        count := count + 1;
      } else {
        ghost var r := if status == ENABLED then Enabled(d[i]) else d[i];
        rest, remaining := CopyKey(row, i, keys[i], status != ENABLED, rest, remaining, kept, r);
        kept := kept + [r];
      }
    }
    assert d[..|keys|] == d;
    CopiedAll(rest, remaining, kept);
    rest := rest.(key := Join(remaining, NEWLINE));
    PurgedIs(d, row, rest, count);
  }
}
