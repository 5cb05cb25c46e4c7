/** The paged status listing of a channel's keys. */
module KeyStatus {
  import opened Basics
  import opened MultiKey

  const DEFAULT_PAGE_SIZE := 50

  datatype Status = Status(index: nat, status: int, time: int, reason: string, preview: seq<byte>)

  datatype Response = Response(keys: seq<Status>, total: nat, page: int, pageSize: int, totalPages: int,
                               enabled: nat, manuallyDisabled: nat, autoDisabled: nat)

  /** The bytes of a text, as Go's strings hold them. */
  type Utf8 = string -> seq<byte>

  const DOTS: seq<byte> := [0x2E, 0x2E, 0x2E]

  /** The first ten bytes of a longer key, which may end inside a character. */
  function Preview(key: seq<byte>): (p: seq<byte>)
    ensures |p| <= 13 && (p == key || (|key| > 10 && |p| > 10 && p[..10] == key[..10]))
  {
    if |key| > 10 then key[..10] + DOTS else key
  }

  /** What is shown of a record: an enabled key shows no time and no reason. */
  function Shown(utf8: Utf8, i: nat, r: Record): Status {
    if r.status == ENABLED then Status(i, r.status, 0, "", Preview(utf8(r.key)))
    else Status(i, r.status, if r.time.Some? then r.time.value else 0, if r.reason.Some? then r.reason.value else "",
                Preview(utf8(r.key)))
  }

  function AllShown(utf8: Utf8, d: seq<Record>): (all: seq<Status>)
    ensures |all| == |d|
  {
    seq(|d|, i requires 0 <= i < |d| => Shown(utf8, i, d[i]))
  }

  /** What the listing says of the key at a position. */
  lemma ShownIs(json: Json, utf8: Utf8, row: Row, i: nat)
    requires i < |GetKeys(json, row.key)|
    ensures var s := AllShown(utf8, Dense(json, row))[i]; var key := utf8(GetKeys(json, row.key)[i]);
      && s.index == i && s.status == (if i in row.status then row.status[i] else 1)
      && s.time == (if s.status != 1 && i in row.times then row.times[i] else 0)
      && s.reason == (if s.status != 1 && i in row.reasons then row.reasons[i] else "")
      && (|key| <= 10 ==> s.preview == key)
      && (|key| > 10 ==> |s.preview| == 13 && s.preview[..10] == key[..10] && s.preview[10..] == [0x2E, 0x2E, 0x2E])
  {
  }

  predicate Wanted(filter: Option<int>, s: Status) {
    filter.Some? ==> s.status == filter.value
  }

  function Filtered(all: seq<Status>, filter: Option<int>): seq<Status> {
    if all == [] then [] else
    Filtered(all[..|all| - 1], filter) + if Wanted(filter, all[|all| - 1]) then [all[|all| - 1]] else []
  }

  function Count(all: seq<Status>, status: int): nat {
    if all == [] then 0 else Count(all[..|all| - 1], status) + if all[|all| - 1].status == status then 1 else 0
  }

  function Size(requested: int): int {
    if requested <= 0 then DEFAULT_PAGE_SIZE else requested
  }

  function TotalPages(total: nat, size: int): int
    requires size > 0
  {
    var pages := (total + size - 1) / size;
    if pages == 0 then 1 else pages
  }

  /** A page number brought into 1..TotalPages. */
  function Clamped(page: int, total: nat, size: int): int
    requires size > 0
  {
    var p := if page <= 0 then 1 else page;
    if p > TotalPages(total, size) then TotalPages(total, size) else p
  }

  /** So many pages hold everything, and one less would not; there is always one. */
  predicate JustEnough(total: nat, pages: int, size: int) {
    if total == 0 then pages == 1 else (pages - 1) * size < total <= pages * size
  }

  method GetKeyStatus(json: Json, utf8: Utf8, row: Row, page: int, pageSize: int, filter: Option<int>)
    returns (r: Response)
    ensures var all := AllShown(utf8, Dense(json, row)); var list := Filtered(all, filter); var size := Size(pageSize);
      && r.total == |list| && r.pageSize == size && r.totalPages == TotalPages(|list|, size)
      && r.page == Clamped(page, |list|, size) && 1 <= r.page <= r.totalPages
      && r.keys == PageOf(list, r.page, size)
      && r.enabled == Count(all, 1) && r.manuallyDisabled == Count(all, 2) && r.autoDisabled == Count(all, 3)
    ensures r.pageSize == if pageSize <= 0 then 50 else pageSize
    ensures r.page == if page <= 0 then 1 else if page > r.totalPages then r.totalPages else page
    ensures JustEnough(r.total, r.totalPages, r.pageSize)
  {
    var all, e, m, a := Collect(json, utf8, row);
    var list := all;
    if filter.Some? { list := Select(all, filter.value); } else { FilteredAll(all); }
    var size := Size(pageSize);
    var keys, p, pages := Paginate(list, page, size);
    r := Response(keys, |list|, p, size, pages, e, m, a);
  }

  method Paginate(list: seq<Status>, page: int, size: int) returns (keys: seq<Status>, p: int, pages: int)
    requires size > 0
    ensures pages == TotalPages(|list|, size) && p == Clamped(page, |list|, size) && 1 <= p <= pages
    ensures p == if page <= 0 then 1 else if page > pages then pages else page
    ensures keys == PageOf(list, p, size) && JustEnough(|list|, pages, size)
  {
    p := if page <= 0 then 1 else page;
    pages := (|list| + size - 1) / size;
    if pages == 0 { pages := 1; }
    if p > pages { p := pages; }
    PagesCover(|list|, size);
    Monotone(0, p - 1, size);
    var start := (p - 1) * size;
    var end := start + size;
    if end > |list| { end := |list|; }
    keys := if start < |list| then list[start..end] else [];
  }

  method Show(utf8: Utf8, row: Row, key: string, i: nat) returns (s: Status)
    ensures s == Shown(utf8, i, RecordAt(row, key, i))
  {
    var status, time, reason := StatusAt(row.status, i), 0, "";
    if status != ENABLED {
      if i in row.times { time := row.times[i]; }
      if i in row.reasons { reason := row.reasons[i]; }
    }
    s := Status(i, status, time, reason, Preview(utf8(key)));
  }

  lemma CountSnoc(all: seq<Status>, s: Status, status: int)
    ensures Count(all + [s], status) == Count(all, status) + if s.status == status then 1 else 0
  {
    assert (all + [s])[..|all|] == all;
  }

  ghost predicate Counted(all: seq<Status>, e: nat, m: nat, a: nat) {
    e == Count(all, ENABLED) && m == Count(all, MANUALLY_DISABLED) && a == Count(all, AUTO_DISABLED)
  }

  lemma CountedSnoc(all: seq<Status>, s: Status, e: nat, m: nat, a: nat)
    requires Counted(all, e, m, a)
    ensures Counted(all + [s], e + if s.status == ENABLED then 1 else 0,
                    m + if s.status == MANUALLY_DISABLED then 1 else 0, a + if s.status == AUTO_DISABLED then 1 else 0)
  {
    CountSnoc(all, s, ENABLED);
    CountSnoc(all, s, MANUALLY_DISABLED);
    CountSnoc(all, s, AUTO_DISABLED);
  }

  method Collect(json: Json, utf8: Utf8, row: Row) returns (all: seq<Status>, e: nat, m: nat, a: nat)
    ensures all == AllShown(utf8, Dense(json, row))
    ensures e == Count(all, ENABLED) && m == Count(all, MANUALLY_DISABLED) && a == Count(all, AUTO_DISABLED)
  {
    all, e, m, a := CollectFrom(utf8, row, GetKeys(json, row.key), AllShown(utf8, Dense(json, row)));
  }

  method CollectFrom(utf8: Utf8, row: Row, keys: seq<string>, ghost goal: seq<Status>)
    returns (all: seq<Status>, e: nat, m: nat, a: nat)
    requires |goal| == |keys| && forall i: nat | i < |keys| :: goal[i] == Shown(utf8, i, RecordAt(row, keys[i], i))
    ensures all == goal
    ensures e == Count(all, ENABLED) && m == Count(all, MANUALLY_DISABLED) && a == Count(all, AUTO_DISABLED)
  {
    all, e, m, a := [], 0, 0, 0;
    for i := 0 to |keys|
      invariant all == goal[..i] && Counted(all, e, m, a)
    {
      var s := Show(utf8, row, keys[i], i);
      assert goal[..i + 1] == goal[..i] + [goal[i]] && s == goal[i];
      CountedSnoc(all, s, e, m, a);
      if s.status == ENABLED { e := e + 1; }
      else if s.status == MANUALLY_DISABLED { m := m + 1; }
      else if s.status == AUTO_DISABLED { a := a + 1; }
      all := all + [s];
    }
  }

  method Select(all: seq<Status>, status: int) returns (list: seq<Status>)
    ensures list == Filtered(all, Some(status))
  {
    list := [];
    for i := 0 to |all|
      invariant list == Filtered(all[..i], Some(status))
    {
      assert all[..i + 1][..i] == all[..i];
      if all[i].status == status { list := list + [all[i]]; }
    }
    assert all[..|all|] == all;
  }

  lemma {:induction false} FilteredAll(all: seq<Status>)
    ensures Filtered(all, None) == all
  {
    if all != [] { FilteredAll(all[..|all| - 1]); }
  }

  /** The filtered list holds the items with the status, in their order. */
  lemma {:induction false} FilteredIs(all: seq<Status>, status: int) returns (idx: seq<nat>)
    ensures KeptInOrder(all, (s: Status) => s.status == status, (s: Status) => s, Filtered(all, Some(status)), idx)
  {
    idx := [];
    if all != [] {
      var init, last := all[..|all| - 1], all[|all| - 1];
      idx := FilteredIs(init, status);
      assert all == init + [last];
      var keep, make, list := (s: Status) => s.status == status, (s: Status) => s, Filtered(init, Some(status));
      if last.status == status {
        InOrderTakes(init, last, keep, make, list, idx);
        idx := idx + [|init|];
      } else {
        InOrderPasses(init, last, keep, make, list, idx);
      }
    }
  }

  /** The filtered list holds as many items as the statistics count. */
  lemma {:induction false} FilteredCount(all: seq<Status>, status: int)
    ensures |Filtered(all, Some(status))| == Count(all, status)
    ensures forall i | 0 <= i < |Filtered(all, Some(status))| :: Filtered(all, Some(status))[i].status == status
  {
    if all != [] { FilteredCount(all[..|all| - 1], status); }
  }

  // ---------------------------------------------------------------- pages

  function Least(a: int, b: int): int {
    if a <= b then a else b
  }

  function PageOf(list: seq<Status>, page: int, size: int): seq<Status>
    requires page >= 1 && size > 0
  {
    var start := (page - 1) * size;
    if start < |list| then list[Least(start, |list|)..Least(start + size, |list|)] else []
  }

  /** The first n pages, one after the other. */
  function Pages(list: seq<Status>, size: int, n: nat): seq<Status>
    requires size > 0
  {
    if n == 0 then [] else Pages(list, size, n - 1) + PageOf(list, n, size)
  }

  lemma {:induction false} PagesPrefix(list: seq<Status>, size: int, n: nat)
    requires size > 0
    ensures n * size >= 0 && Pages(list, size, n) == list[..Least(n * size, |list|)]
  {
    if n > 0 {
      PagesPrefix(list, size, n - 1);
      assert n * size == (n - 1) * size + size;
    }
  }

  lemma Monotone(a: int, b: int, c: int)
    requires a <= b && c > 0
    ensures a * c <= b * c && (b - 1) * c == b * c - c
  {
  }

  lemma PagesCover(total: nat, size: int)
    requires size > 0
    ensures TotalPages(total, size) >= 1 && total <= TotalPages(total, size) * size
    ensures total > 0 ==> (TotalPages(total, size) - 1) * size < total
  {
    var pages := (total + size - 1) / size;
    assert total + size - 1 == pages * size + (total + size - 1) % size;
    if total > 0 {
      if pages <= 0 { Monotone(pages, 0, size); } else { Monotone(pages, pages, size); }
    } else {
      assert pages == 0;
    }
  }

  lemma PageFull(list: seq<Status>, size: int, p: int)
    requires size > 0 && 1 <= p < TotalPages(|list|, size)
    ensures |PageOf(list, p, size)| == size
  {
    PagesCover(|list|, size);
    Monotone(p, TotalPages(|list|, size) - 1, size);
    Monotone(0, p - 1, size);
    Monotone(0, p, size);
  }

  /** The pages 1..TotalPages together are the whole list, in order; every page but the last is full and none is empty
      unless the list is. */
  lemma PagesPartition(list: seq<Status>, size: int)
    requires size > 0
    ensures TotalPages(|list|, size) >= 1 && Pages(list, size, TotalPages(|list|, size)) == list
    ensures forall p | 1 <= p < TotalPages(|list|, size) :: |PageOf(list, p, size)| == size
    ensures list != [] ==> PageOf(list, TotalPages(|list|, size), size) != []
  {
    var n := TotalPages(|list|, size);
    PagesCover(|list|, size);
    PagesPrefix(list, size, n);
    Monotone(0, n - 1, size);
    forall p | 1 <= p < n ensures |PageOf(list, p, size)| == size { PageFull(list, size, p); }
  }
}
