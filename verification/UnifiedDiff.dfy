/** The line diff of `Snapshot.unifiedDiff`: a table of longest common subsequences and a walk. */
module UnifiedDiff {
  import opened Lines

  type Line = string

  /** The lines a diff says the old text has: those kept and those removed. */
  function OldLines(diff: seq<Line>): seq<Line> {
    if diff == [] then []
    else if diff[0] != "" && diff[0][0] in {' ', '-'} then [diff[0][1..]] + OldLines(diff[1..])
    else OldLines(diff[1..])
  }

  /** The lines it says the new text has: those kept and those added. */
  function NewLines(diff: seq<Line>): seq<Line> {
    if diff == [] then []
    else if diff[0] != "" && diff[0][0] in {' ', '+'} then [diff[0][1..]] + NewLines(diff[1..])
    else NewLines(diff[1..])
  }

  function Kept(diff: seq<Line>): nat {
    if diff == [] then 0 else Kept(diff[1..]) + (if diff[0] != "" && diff[0][0] == ' ' then 1 else 0)
  }

  ghost predicate Tagged(diff: seq<Line>) {
    forall i :: 0 <= i < |diff| ==> diff[i] != "" && diff[i][0] in {' ', '-', '+'}
  }

  /** The length of the longest common subsequence. */
  function Lcs(a: seq<Line>, b: seq<Line>): nat
    decreases |a| + |b|
  {
    if a == [] || b == [] then 0
    else if a[0] == b[0] then Lcs(a[1..], b[1..]) + 1
    else Max(Lcs(a[1..], b), Lcs(a, b[1..]))
  }

  function Max(a: nat, b: nat): nat {
    if a >= b then a else b
  }

  /** One line more on either side adds one at most and takes none. */
  lemma {:induction false} OneLineMore(a: seq<Line>, b: seq<Line>)
    ensures a != [] ==> Lcs(a[1..], b) <= Lcs(a, b) <= Lcs(a[1..], b) + 1
    ensures b != [] ==> Lcs(a, b[1..]) <= Lcs(a, b) <= Lcs(a, b[1..]) + 1
    decreases |a| + |b|
  {
    if a != [] && b != [] {
      OneLineMore(a[1..], b);
      OneLineMore(a, b[1..]);
    }
  }

  lemma {:induction false} DiffsKeepNoMore(diff: seq<Line>, before: seq<Line>, after: seq<Line>)
    requires Tagged(diff) && OldLines(diff) == before && NewLines(diff) == after
    ensures Kept(diff) <= Lcs(before, after)
    ensures |diff| == |before| + |after| - Kept(diff)
    decreases |diff|
  {
    if diff != [] {
      var rest := diff[1..];
      assert Tagged(rest);
      if diff[0][0] == ' ' {
        DiffsKeepNoMore(rest, before[1..], after[1..]);
      } else if diff[0][0] == '-' {
        DiffsKeepNoMore(rest, before[1..], after);
        OneLineMore(before, after);
      } else {
        DiffsKeepNoMore(rest, before, after[1..]);
        OneLineMore(before, after);
      }
    }
  }

  /** The walk's choices, as a function of what is left of both texts. */
  function Walk(before: seq<Line>, after: seq<Line>): seq<Line>
    decreases |before| + |after|
  {
    if before == [] && after == [] then []
    else if before == [] then ["+" + after[0]] + Walk(before, after[1..])
    else if after == [] then ["-" + before[0]] + Walk(before[1..], after)
    else if before[0] == after[0] then [" " + before[0]] + Walk(before[1..], after[1..])
    else if Lcs(before[1..], after) >= Lcs(before, after[1..]) then ["-" + before[0]] + Walk(before[1..], after)
    else ["+" + after[0]] + Walk(before, after[1..])
  }

  lemma {:induction false} WalkSpellsBoth(before: seq<Line>, after: seq<Line>)
    ensures Tagged(Walk(before, after)) && OldLines(Walk(before, after)) == before && NewLines(Walk(before, after)) == after
    ensures Kept(Walk(before, after)) == Lcs(before, after)
    decreases |before| + |after|
  {
    var w := Walk(before, after);
    if before != [] || after != [] {
      var (line, rest) := (w[0], w[1..]);
      if before == [] { WalkSpellsBoth(before, after[1..]); }
      else if after == [] { WalkSpellsBoth(before[1..], after); }
      else if before[0] == after[0] { WalkSpellsBoth(before[1..], after[1..]); }
      else if Lcs(before[1..], after) >= Lcs(before, after[1..]) { WalkSpellsBoth(before[1..], after); }
      else { WalkSpellsBoth(before, after[1..]); }
      assert w == [line] + rest && line[0] in {' ', '-', '+'};
    }
  }

  /** Main result: the diff spells both texts in order, keeps as many lines as any diff of them can,
      and so no diff of them is shorter. */
  lemma WalkIsMinimal(before: seq<Line>, after: seq<Line>, diff: seq<Line>)
    requires Tagged(diff) && OldLines(diff) == before && NewLines(diff) == after
    ensures OldLines(Walk(before, after)) == before && NewLines(Walk(before, after)) == after
    ensures Kept(diff) <= Kept(Walk(before, after)) == Lcs(before, after)
    ensures |Walk(before, after)| <= |diff|
  {
    WalkSpellsBoth(before, after);
    DiffsKeepNoMore(diff, before, after);
    DiffsKeepNoMore(Walk(before, after), before, after);
  }

  /** The table's recurrence. */
  lemma LcsAt(before: seq<Line>, after: seq<Line>, i: nat, j: nat)
    requires i < |before| && j < |after|
    ensures Lcs(before[i..], after[j..]) ==
      if before[i] == after[j] then Lcs(before[i + 1..], after[j + 1..]) + 1
      else Max(Lcs(before[i + 1..], after[j..]), Lcs(before[i..], after[j + 1..]))
  {
    assert before[i..][1..] == before[i + 1..] && after[j..][1..] == after[j + 1..];
  }

  method FillTable(before: seq<Line>, after: seq<Line>) returns (table: array2<nat>)
    ensures table.Length0 == |before| + 1 && table.Length1 == |after| + 1
    ensures forall i, j :: 0 <= i <= |before| && 0 <= j <= |after| ==> table[i, j] == Lcs(before[i..], after[j..])
  {
    var (m, n) := (|before|, |after|);
    table := new nat[m + 1, n + 1]((_, _) => 0);
    var i := m - 1;
    while i >= 0
      invariant -1 <= i < |before|
      invariant forall k, l :: i < k <= m && 0 <= l <= n ==> table[k, l] == Lcs(before[k..], after[l..])
      invariant forall k :: 0 <= k <= i ==> table[k, n] == 0
    {
      FillRow(before, after, table, i);
      i := i - 1;
    }
  }

  method FillRow(before: seq<Line>, after: seq<Line>, table: array2<nat>, i: nat)
    requires i < |before| && table.Length0 == |before| + 1 && table.Length1 == |after| + 1
    requires table[i, |after|] == 0
    requires forall l :: 0 <= l <= |after| ==> table[i + 1, l] == Lcs(before[i + 1..], after[l..])
    modifies table
    ensures forall l :: 0 <= l <= |after| ==> table[i, l] == Lcs(before[i..], after[l..])
    ensures forall k, l :: 0 <= k <= |before| && 0 <= l <= |after| && k != i ==> table[k, l] == old(table[k, l])
  {
    assert after[|after|..] == [] && Lcs(before[i..], []) == 0;
    hide Lcs;
    var j := |after| - 1;
    while j >= 0
      invariant -1 <= j < |after|
      invariant forall l :: j < l <= |after| ==> table[i, l] == Lcs(before[i..], after[l..])
      invariant forall k, l :: 0 <= k <= |before| && 0 <= l <= |after| && k != i ==> table[k, l] == old(table[k, l])
    {
      LcsAt(before, after, i, j);
      table[i, j] := if before[i] == after[j] then table[i + 1, j + 1] + 1 else Max(table[i + 1, j], table[i, j + 1]);
      j := j - 1;
    }
  }

  /** One turn of the walk. */
  lemma WalkAt(before: seq<Line>, after: seq<Line>, i: nat, j: nat)
    requires i <= |before| && j <= |after|
    ensures i == |before| && j == |after| ==> Walk(before[i..], after[j..]) == []
    ensures i == |before| && j < |after| ==>
      Walk(before[i..], after[j..]) == ["+" + after[j]] + Walk(before[i..], after[j + 1..])
    ensures i < |before| && j == |after| ==>
      Walk(before[i..], after[j..]) == ["-" + before[i]] + Walk(before[i + 1..], after[j..])
    ensures i < |before| && j < |after| ==>
      Walk(before[i..], after[j..]) ==
        if before[i] == after[j] then [" " + before[i]] + Walk(before[i + 1..], after[j + 1..])
        else if Lcs(before[i + 1..], after[j..]) >= Lcs(before[i..], after[j + 1..])
        then ["-" + before[i]] + Walk(before[i + 1..], after[j..])
        else ["+" + after[j]] + Walk(before[i..], after[j + 1..])
  {
    hide Lcs;
    if i < |before| { assert before[i..][1..] == before[i + 1..]; }
    if j < |after| { assert after[j..][1..] == after[j + 1..]; }
  }

  lemma Adds(lines: seq<Line>, line: Line, rest: seq<Line>)
    ensures lines + ([line] + rest) == lines + [line] + rest
  {}

  method Diff(expected: string, actual: string) returns (lines: seq<Line>, text: string)
    ensures lines == ["--- expected", "+++ actual"] + Walk(Split(expected), Split(actual))
    ensures text == Join(lines)
  {
    hide Walk, Lcs, Split, Join;
    var (before, after) := (Split(expected), Split(actual));
    var table := FillTable(before, after);
    lines := ["--- expected", "+++ actual"];
    var (i, j) := (0, 0);
    ghost var whole := lines + Walk(before, after);
    assert before[0..] == before && after[0..] == after;
    while i < |before| && j < |after|
      modifies {}
      invariant 0 <= i <= |before| && 0 <= j <= |after|
      invariant lines + Walk(before[i..], after[j..]) == whole
    {
      WalkAt(before, after, i, j);
      if before[i] == after[j] {
        Adds(lines, " " + before[i], Walk(before[i + 1..], after[j + 1..]));
        lines := lines + [" " + before[i]];
        i := i + 1;
        j := j + 1;
      } else if table[i + 1, j] >= table[i, j + 1] {
        Adds(lines, "-" + before[i], Walk(before[i + 1..], after[j..]));
        lines := lines + ["-" + before[i]];
        i := i + 1;
      } else {
        Adds(lines, "+" + after[j], Walk(before[i..], after[j + 1..]));
        lines := lines + ["+" + after[j]];
        j := j + 1;
      }
    }
    while i < |before|
      invariant 0 <= i <= |before| && 0 <= j <= |after| && (i < |before| ==> j == |after|)
      invariant lines + Walk(before[i..], after[j..]) == whole
    {
      WalkAt(before, after, i, j);
      Adds(lines, "-" + before[i], Walk(before[i + 1..], after[j..]));
      lines := lines + ["-" + before[i]];
      i := i + 1;
    }
    while j < |after|
      invariant i == |before| && 0 <= j <= |after|
      invariant lines + Walk(before[i..], after[j..]) == whole
    {
      WalkAt(before, after, i, j);
      Adds(lines, "+" + after[j], Walk(before[i..], after[j + 1..]));
      lines := lines + ["+" + after[j]];
      j := j + 1;
    }
    WalkAt(before, after, i, j);
    text := Join(lines);
  }
}
