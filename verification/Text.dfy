/** The parts of Go's strings package that the stored lists rely on: TrimSpace, Trim, Split and Join. */
module Text {

  /** unicode.IsSpace */
  predicate IsSpace(c: char) {
    || '\t' <= c <= '\r' || c == ' ' || c == '\U{85}' || c == '\U{A0}' || c == '\U{1680}'
    || '\U{2000}' <= c <= '\U{200A}' || c == '\U{2028}' || c == '\U{2029}' || c == '\U{202F}' || c == '\U{205F}'
    || c == '\U{3000}'
  }

  function TrimLeft(s: string, cut: char -> bool): string {
    if s != "" && cut(s[0]) then TrimLeft(s[1..], cut) else s
  }

  function TrimRight(s: string, cut: char -> bool): string {
    if s != "" && cut(s[|s| - 1]) then TrimRight(s[..|s| - 1], cut) else s
  }

  function Trim(s: string, cut: char -> bool): string {
    TrimRight(TrimLeft(s, cut), cut)
  }

  function TrimSpace(s: string): string {
    Trim(s, IsSpace)
  }

  ghost predicate Trimmed(s: string, cut: char -> bool) {
    s != "" ==> !cut(s[0]) && !cut(s[|s| - 1])
  }

  lemma {:induction false} TrimLeftStart(s: string, cut: char -> bool)
    ensures TrimLeft(s, cut) != "" ==> !cut(TrimLeft(s, cut)[0])
  {
    if s != "" && cut(s[0]) { TrimLeftStart(s[1..], cut); }
  }

  lemma {:induction false} TrimRightEnds(s: string, cut: char -> bool)
    ensures TrimRight(s, cut) <= s
    ensures TrimRight(s, cut) != "" ==> !cut(TrimRight(s, cut)[|TrimRight(s, cut)| - 1])
  {
    if s != "" && cut(s[|s| - 1]) { TrimRightEnds(s[..|s| - 1], cut); }
  }

  /** Trim leaves exactly the trimmed texts alone. */
  lemma TrimFixed(s: string, cut: char -> bool)
    ensures Trimmed(Trim(s, cut), cut)
    ensures Trim(s, cut) == s <==> Trimmed(s, cut)
  {
    TrimLeftStart(s, cut);
    TrimRightEnds(TrimLeft(s, cut), cut);
  }

  /** The code points with the White_Space property. */
  const SPACES := "\t\n\U{B}\U{C}\r \U{85}\U{A0}\U{1680}\U{2000}\U{2001}\U{2002}\U{2003}\U{2004}\U{2005}\U{2006}" +
    "\U{2007}\U{2008}\U{2009}\U{200A}\U{2028}\U{2029}\U{202F}\U{205F}\U{3000}"

  lemma IsSpaceIs(c: char)
    ensures IsSpace(c) <==> c in SPACES
  {
  }

  /** Trim takes away characters of the cut set only, at the two ends, and all of them. */
  lemma TrimIs(s: string, cut: char -> bool) returns (i: nat, j: nat)
    ensures i <= j <= |s| && Trim(s, cut) == s[i..j] && Trimmed(s[i..j], cut)
    ensures forall k | 0 <= k < i || j <= k < |s| :: cut(s[k])
  {
    i := TrimLeftIs(s, cut);
    var n := TrimRightIs(s[i..], cut);
    j := i + n;
    assert s[i..][..n] == s[i..j];
    TrimFixed(s, cut);
    assert forall k | n <= k < |s| - i :: s[i..][k] == s[i + k];
    assert forall k | j <= k < |s| :: s[k] == s[i..][k - i];
  }

  lemma {:induction false} TrimLeftIs(s: string, cut: char -> bool) returns (i: nat)
    ensures i <= |s| && TrimLeft(s, cut) == s[i..] && forall k | 0 <= k < i :: cut(s[k])
  {
    i := 0;
    if s != "" && cut(s[0]) {
      i := TrimLeftIs(s[1..], cut);
      assert s[1..][i..] == s[i + 1..];
      assert forall k | 1 <= k < i + 1 :: s[k] == s[1..][k - 1];
      i := i + 1;
    }
  }

  lemma {:induction false} TrimRightIs(s: string, cut: char -> bool) returns (n: nat)
    ensures n <= |s| && TrimRight(s, cut) == s[..n] && forall k | n <= k < |s| :: cut(s[k])
  {
    n := |s|;
    if s != "" && cut(s[|s| - 1]) {
      n := TrimRightIs(s[..|s| - 1], cut);
      assert forall k | n <= k < |s| - 1 :: s[..|s| - 1][k] == s[k];
    }
  }

  lemma {:induction false} TrimLeftWithin(s: string, cut: char -> bool, c: char)
    ensures c in TrimLeft(s, cut) ==> c in s
  {
    if s != "" && cut(s[0]) { TrimLeftWithin(s[1..], cut, c); }
  }

  lemma TrimWithin(s: string, cut: char -> bool, c: char)
    ensures c in Trim(s, cut) ==> c in s
  {
    TrimLeftWithin(s, cut, c);
    TrimRightEnds(TrimLeft(s, cut), cut);
  }

  // ---------------------------------------------------------------- Split and Join

  /** strings.Split for a one-character separator. */
  function Split(s: string, sep: char): (parts: seq<string>)
    ensures |parts| >= 1
    ensures forall i | 0 <= i < |parts| :: sep !in parts[i]
  {
    if s == "" then [""]
    else if s[0] == sep then [""] + Split(s[1..], sep)
    else var rest := Split(s[1..], sep); [[s[0]] + rest[0]] + rest[1..]
  }

  /** strings.Join for a one-character separator. */
  function Join(parts: seq<string>, sep: char): string {
    if parts == [] then "" else if |parts| == 1 then parts[0] else parts[0] + [sep] + Join(parts[1..], sep)
  }

  lemma {:induction false} SplitFirst(first: string, rest: string, sep: char)
    requires sep !in first
    ensures Split(first + [sep] + rest, sep) == [first] + Split(rest, sep)
  {
    if first == "" {
      assert ("" + [sep] + rest)[1..] == rest;
    } else {
      assert (first + [sep] + rest)[1..] == first[1..] + [sep] + rest;
      SplitFirst(first[1..], rest, sep);
      assert [first[0]] + first[1..] == first;
      assert ([first[1..]] + Split(rest, sep))[1..] == Split(rest, sep);
    }
  }

  lemma {:induction false} SplitWhole(s: string, sep: char)
    requires sep !in s
    ensures Split(s, sep) == [s]
  {
    if s != "" {
      SplitWhole(s[1..], sep);
      assert [s[0]] + s[1..] == s;
    }
  }

  lemma {:induction false} JoinSplits(parts: seq<string>, sep: char)
    requires parts != [] && forall i | 0 <= i < |parts| :: sep !in parts[i]
    ensures Split(Join(parts, sep), sep) == parts
  {
    if |parts| == 1 {
      SplitWhole(parts[0], sep);
    } else {
      JoinSplits(parts[1..], sep);
      SplitFirst(parts[0], Join(parts[1..], sep), sep);
    }
  }

  /** Joining undoes splitting. */
  lemma {:induction false} SplitJoins(s: string, sep: char)
    ensures Join(Split(s, sep), sep) == s
  {
    if s != "" {
      SplitJoins(s[1..], sep);
      var rest := Split(s[1..], sep);
      if s[0] == sep {
        assert ([""] + rest)[1..] == rest;
      } else {
        assert ([[s[0]] + rest[0]] + rest[1..])[1..] == rest[1..];
      }
    }
  }

  /** Splitting undoes joining exactly for the non-empty lists whose items are free of the separator. */
  lemma SplitUndoesJoin(parts: seq<string>, sep: char)
    ensures Split(Join(parts, sep), sep) == parts <==>
      parts != [] && forall i | 0 <= i < |parts| :: sep !in parts[i]
  {
    if parts != [] && forall i | 0 <= i < |parts| :: sep !in parts[i] { JoinSplits(parts, sep); }
  }

  lemma {:induction false} JoinLast(parts: seq<string>, sep: char)
    requires parts != []
    ensures var last := parts[|parts| - 1];
      && |Join(parts, sep)| >= |last|
      && (last != "" ==> Join(parts, sep)[|Join(parts, sep)| - 1] == last[|last| - 1])
      && (last == "" && |parts| > 1 ==> Join(parts, sep) != "" && Join(parts, sep)[|Join(parts, sep)| - 1] == sep)
  {
    if |parts| > 1 {
      assert parts[1..][|parts| - 2] == parts[|parts| - 1];
      JoinLast(parts[1..], sep);
    }
  }

  /** A joined list of separator-free items neither starts nor ends with the separator exactly when it has one
      item or its two end items are not empty. */
  lemma JoinTrimmed(parts: seq<string>, sep: char)
    requires parts != [] && forall i | 0 <= i < |parts| :: sep !in parts[i]
    ensures Trimmed(Join(parts, sep), c => c == sep) <==>
      |parts| == 1 || (parts[0] != "" && parts[|parts| - 1] != "")
  {
    JoinLast(parts, sep);
  }
}
