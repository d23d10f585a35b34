/** The block of a person page that is the app's own: one line a meeting between two markers
    (`ManagedBlock.swift`). */
module ManagedBlock {
  import opened Lines
  import opened Options
  import opened Sequences
  import opened TextOrder

  const START := "<!-- steno:meetings:start -->"
  const END := "<!-- steno:meetings:end -->"

  // Finding.

  predicate At(text: string, pattern: string, i: nat) {
    i + |pattern| <= |text| && text[i..i + |pattern|] == pattern
  }

  /** The first occurrence from `from` on. */
  function Find(text: string, pattern: string, from: nat): (found: Option<nat>)
    ensures found.Some? ==> from <= found.value && At(text, pattern, found.value)
    ensures found.Some? ==> forall k :: from <= k < found.value ==> !At(text, pattern, k)
    ensures found.None? ==> forall k :: from <= k ==> !At(text, pattern, k)
    decreases |text| - from
  {
    if from + |pattern| > |text| then None
    else if At(text, pattern, from) then Some(from)
    else Find(text, pattern, from + 1)
  }

  predicate Contains(text: string, pattern: string) {
    Find(text, pattern, 0).Some?
  }

  /** The block's bounds: past the first start marker, and at the first end marker after it. */
  datatype Block = Block(from: nat, to: nat)

  function Locate(text: string): (b: Option<Block>)
    ensures b.Some? ==> b.value.from <= b.value.to <= |text|
  {
    match Find(text, START, 0)
    case None => None
    case Some(i) =>
      match Find(text, END, i + |START|)
      case None => None
      case Some(j) => Some(Block(i + |START|, j))
  }

  function Body(text: string, b: Block): string
    requires b.from <= b.to <= |text|
  {
    text[b.from..b.to]
  }

  // The order of lines.

  predicate IsBullet(c: char) {
    c == '-' || c == ' ' || c == '*'
  }

  function DropBullets(line: string): string {
    if line != "" && IsBullet(line[0]) then DropBullets(line[1..]) else line
  }

  /** The line's leading `YYYY-MM-DD`, or nothing. */
  function Date(line: string): string {
    var rest := DropBullets(line);
    if |rest| >= 10 && forall i :: 0 <= i < 10 ==> if i == 4 || i == 7 then rest[i] == '-' else '0' <= rest[i] <= '9'
    then rest[..10] else ""
  }

  /** Later dates first, lines of one date in text order, lines without one last. */
  predicate Before(l: string, r: string) {
    if Date(l) != Date(r) then Less(Date(r), Date(l)) else Less(l, r)
  }

  lemma BeforeTotal(l: string, r: string)
    ensures Before(l, r) || l == r || Before(r, l)
    ensures !(Before(l, r) && Before(r, l)) && !Before(l, l)
  {
    hide Less, Date;
    LessTotal(Date(l), Date(r));
    LessTotal(l, r);
  }

  lemma BeforeTransitive(a: string, b: string, c: string)
    requires Before(a, b) && Before(b, c)
    ensures Before(a, c)
  {
    hide Less, Date;
    LessTotal(Date(a), Date(c));
    if Date(a) == Date(b) == Date(c) {
      LessTransitive(a, b, c);
    } else if Date(a) != Date(b) && Date(b) != Date(c) {
      LessTransitive(Date(c), Date(b), Date(a));
    }
  }

  ghost predicate InOrder(lines: seq<string>) {
    forall i, j :: 0 <= i < j < |lines| ==> !Before(lines[j], lines[i])
  }

  function Insert(line: string, lines: seq<string>): (r: seq<string>)
    ensures multiset(r) == multiset(lines) + multiset{line}
  {
    if lines == [] then [line]
    else if !Before(lines[0], line) then [line] + lines
    else
      assert lines == [lines[0]] + lines[1..];
      [lines[0]] + Insert(line, lines[1..])
  }

  /** Newest first. */
  function Sorted(lines: seq<string>): (r: seq<string>)
    ensures multiset(r) == multiset(lines)
  {
    if lines == [] then []
    else
      assert lines == [lines[0]] + lines[1..];
      Insert(lines[0], Sorted(lines[1..]))
  }

  lemma {:induction false} InsertInOrder(line: string, lines: seq<string>)
    requires InOrder(lines)
    ensures InOrder(Insert(line, lines))
  {
    hide Before;
    var r := Insert(line, lines);
    if lines == [] {
    } else if !Before(lines[0], line) {
      forall i, j | 0 <= i < j < |r| ensures !Before(r[j], r[i]) {
        assert r[j] == lines[j - 1];
        if i == 0 {
          if Before(lines[j - 1], line) {
            BeforeTotal(lines[j - 1], lines[0]);
            if lines[j - 1] != lines[0] { BeforeTransitive(lines[0], lines[j - 1], line); }
            assert false;
          }
        } else {
          assert r[i] == lines[i - 1];
        }
      }
    } else {
      var rest := Insert(line, lines[1..]);
      InsertInOrder(line, lines[1..]);
      forall i, j | 0 <= i < j < |r| ensures !Before(r[j], r[i]) {
        assert r[j] == rest[j - 1];
        if i == 0 {
          assert r[j] in multiset(rest);
          if r[j] == line {
            BeforeTotal(lines[0], line);
          } else {
            assert r[j] in lines[1..];
            var k :| 0 < k < |lines| && lines[k] == r[j];
          }
        } else {
          assert r[i] == rest[i - 1];
        }
      }
    }
  }

  lemma {:induction false} SortedInOrder(lines: seq<string>)
    ensures InOrder(Sorted(lines))
  {
    if lines != [] {
      SortedInOrder(lines[1..]);
      InsertInOrder(lines[0], Sorted(lines[1..]));
    }
  }

  lemma FirstsAgree(a: seq<string>, b: seq<string>)
    requires InOrder(a) && InOrder(b) && multiset(a) == multiset(b) && a != [] && b != []
    ensures a[0] == b[0]
  {
    hide Before;
    assert a[0] in multiset(b) && b[0] in multiset(a);
    var i :| 0 <= i < |b| && b[i] == a[0];
    var j :| 0 <= j < |a| && a[j] == b[0];
    BeforeTotal(a[0], b[0]);
    assert i > 0 ==> !Before(b[i], b[0]);
    assert j > 0 ==> !Before(a[j], a[0]);
  }

  lemma Rest(a: seq<string>)
    requires InOrder(a) && a != []
    ensures InOrder(a[1..]) && multiset(a[1..]) == multiset(a) - multiset{a[0]} && a == [a[0]] + a[1..]
  {
    hide Before;
    assert a == [a[0]] + a[1..];
  }

  /** The order is total, so the lines alone decide how they are sorted. */
  lemma {:induction false} OrderIsUnique(a: seq<string>, b: seq<string>)
    requires InOrder(a) && InOrder(b) && multiset(a) == multiset(b)
    ensures a == b
  {
    hide Before;
    assert |b| == |multiset(b)| == |multiset(a)| == |a|;
    if a != [] {
      FirstsAgree(a, b);
      Rest(a);
      Rest(b);
      OrderIsUnique(a[1..], b[1..]);
    }
  }

  lemma SameLinesSortTheSame(a: seq<string>, b: seq<string>)
    requires multiset(a) == multiset(b)
    ensures Sorted(a) == Sorted(b)
  {
    SortedInOrder(a);
    SortedInOrder(b);
    OrderIsUnique(Sorted(a), Sorted(b));
  }

  // Merging and removing.

  function Marker(id: string): string {
    "%%steno:" + id + "%%"
  }

  predicate IsSpace(c: char) {
    c == ' ' || c == '\t'
  }

  predicate Blank(line: string) {
    forall c :: c in line ==> IsSpace(c)
  }

  /** The lines that are not blank. */
  function Shown(lines: seq<string>): seq<string> {
    if lines == [] then []
    else (if Blank(lines[0]) then [] else [lines[0]]) + Shown(lines[1..])
  }

  /** The lines without the marker, in order. */
  function Without(lines: seq<string>, marker: string): seq<string> {
    if lines == [] then []
    else (if Contains(lines[0], marker) then [] else [lines[0]]) + Without(lines[1..], marker)
  }

  function Merge(line: string, id: string, text: string): string {
    match Locate(text)
    case None =>
      Padded(text) + START + "\n" + line + "\n" + END + "\n"
    case Some(b) =>
      var lines := Without(Shown(Split(Body(text, b))), Marker(id)) + [line];
      text[..b.from] + "\n" + Join(Sorted(lines)) + "\n" + text[b.to..]
  }

  /** A text with an empty line after it, unless it is empty. */
  function Padded(text: string): string {
    if text == "" then ""
    else (if text[|text| - 1] == '\n' then text else text + "\n") + "\n"
  }

  function Remove(id: string, text: string): string {
    match Locate(text)
    case None => text
    case Some(b) =>
      if !Contains(Body(text, b), Marker(id)) then text
      else text[..b.from] + Join(Without(Split(Body(text, b)), Marker(id))) + text[b.to..]
  }

  // What a page is made of.

  /** A start marker has an end marker after it. */
  predicate Ready(text: string) {
    Contains(text, START) ==> Locate(text).Some?
  }

  /** A line may go between the markers. */
  predicate Fits(line: string) {
    '\n' !in line && !Contains(line, END) && !Blank(line)
  }

  ghost predicate AllFit(lines: seq<string>) {
    forall l :: l in lines ==> Fits(l)
  }

  /** Everything up to the end of the start marker, which a page without a block is given. */
  function Front(text: string): string {
    match Locate(text)
    case None => Padded(text) + START
    case Some(b) => text[..b.from]
  }

  /** Everything from the end marker on. */
  function Back(text: string): string {
    match Locate(text)
    case None => END + "\n"
    case Some(b) => text[b.to..]
  }

  function RawLines(text: string): seq<string> {
    match Locate(text)
    case None => []
    case Some(b) => Split(Body(text, b))
  }

  function LinesOf(text: string): seq<string> {
    Shown(RawLines(text))
  }

  function Wrapped(lines: seq<string>): string {
    "\n" + Join(lines) + "\n"
  }

  /** A merge in terms of the page's parts. */
  lemma MergeIs(line: string, id: string, text: string)
    ensures Merge(line, id, text) == Front(text) + Wrapped(Sorted(Without(LinesOf(text), Marker(id)) + [line])) + Back(text)
  {
    hide Sorted, Split, Shown, Without, Find, Join;
    if Locate(text).None? {
      assert LinesOf(text) == [] by { NothingShown(); }
      OneLine(line, id);
      assert Merge(line, id, text) == Padded(text) + START + ("\n" + line + "\n") + (END + "\n");
    } else {
      var b := Locate(text).value;
      var lines := Without(Shown(Split(Body(text, b))), Marker(id)) + [line];
      var joined := Join(Sorted(lines));
      assert text[..b.from] + "\n" + joined + "\n" + text[b.to..] == text[..b.from] + ("\n" + joined + "\n") + text[b.to..];
    }
  }

  lemma NothingShown()
    ensures Shown([]) == []
  {}

  lemma OneLine(line: string, id: string)
    ensures Wrapped(Sorted(Without([], Marker(id)) + [line])) == "\n" + line + "\n"
  {
    assert [] + [line] == [line];
    assert [line][1..] == [];
    assert Sorted([line]) == [line];
  }

  // Markers.

  /** A pattern whose first character comes once cannot overlap itself. */
  ghost predicate OpensOnce(p: string) {
    p != "" && forall k :: 0 < k < |p| ==> p[k] != p[0]
  }

  lemma MarkersOpenOnce()
    ensures OpensOnce(START) && OpensOnce(END) && '\n' !in START && '\n' !in END
  {}

  /** The first occurrence is where the pattern is put, if there is none in what is before it. */
  lemma FirstAt(front: string, middle: string, p: string, back: string)
    requires OpensOnce(p) && !Contains(middle, p)
    ensures Find(front + middle + p + back, p, |front|) == Some(|front| + |middle|)
  {
    var text, at := front + middle + p + back, |front| + |middle|;
    assert At(text, p, at);
    forall k | |front| <= k < at ensures !At(text, p, k) {
      if k + |p| <= at {
        AtWithin(front, middle, p + back, p, k - |front|);
      } else {
        NoOverlap(text, p, k, at);
      }
    }
  }

  lemma AtIndex(text: string, p: string, k: nat, i: nat)
    requires At(text, p, k) && i < |p|
    ensures text[k + i] == p[i]
  {
    assert text[k..k + |p|][i] == p[i];
  }

  lemma NoOverlap(text: string, p: string, k: nat, at: nat)
    requires OpensOnce(p) && At(text, p, at) && k < at < k + |p|
    ensures !At(text, p, k)
  {
    if At(text, p, k) {
      AtIndex(text, p, k, at - k);
      AtIndex(text, p, at, 0);
    }
  }

  /** An occurrence inside a part is an occurrence of the part. */
  lemma AtWithin(front: string, middle: string, back: string, p: string, k: nat)
    requires k + |p| <= |middle|
    ensures At(front + middle + back, p, |front| + k) <==> At(middle, p, k)
  {
    var text := front + middle + back;
    assert text[|front| + k..|front| + k + |p|] == middle[k..k + |p|];
  }

  /** A part's occurrences are the text's. */
  lemma ContainsPart(front: string, middle: string, back: string, p: string)
    requires Contains(middle, p)
    ensures Contains(front + middle + back, p)
  {
    AtWithin(front, middle, back, p, Find(middle, p, 0).value);
  }

  /** A pattern without a newline occurs in joined lines exactly where it occurs in one of them. */
  lemma {:induction false} ContainsJoin(lines: seq<string>, p: string)
    requires p != "" && '\n' !in p
    ensures Contains(Join(lines), p) <==> exists l :: l in lines && Contains(l, p)
  {
    if lines == [] {
      assert !Contains("", p);
    } else if |lines| == 1 {
      assert Join(lines) == lines[0];
    } else {
      var rest := Join(lines[1..]);
      ContainsJoin(lines[1..], p);
      ContainsLine(lines[0], rest, p);
      assert forall l :: l in lines <==> l == lines[0] || l in lines[1..];
    }
  }

  lemma ContainsLine(line: string, rest: string, p: string)
    requires p != "" && '\n' !in p
    ensures Contains(line + "\n" + rest, p) <==> Contains(line, p) || Contains(rest, p)
  {
    var text := line + "\n" + rest;
    if Contains(line, p) {
      assert "" + line + ("\n" + rest) == text;
      ContainsPart("", line, "\n" + rest, p);
    }
    if Contains(rest, p) {
      assert line + "\n" + rest + "" == text;
      ContainsPart(line + "\n", rest, "", p);
    }
    if Contains(text, p) {
      var k := Find(text, p, 0).value;
      if k + |p| <= |line| {
        assert "" + line + ("\n" + rest) == text;
        AtWithin("", line, "\n" + rest, p, k);
      } else if k > |line| {
        assert line + "\n" + rest + "" == text;
        AtWithin(line + "\n", rest, "", p, k - |line| - 1);
      } else {
        AtIndex(text, p, k, |line| - k);
      }
    }
  }

  // A page put together again.

  lemma JoinWrap(lines: seq<string>)
    requires lines != []
    ensures Wrapped(lines) == Join([""] + lines + [""])
  {
    JoinLast(lines);
    assert ([""] + lines + [""])[1..] == lines + [""];
  }

  lemma {:induction false} JoinLast(lines: seq<string>)
    requires lines != []
    ensures Join(lines + [""]) == Join(lines) + "\n"
  {
    if |lines| == 1 {
      assert (lines + [""])[1..] == [""];
      assert lines[0] + "\n" + "" == lines[0] + "\n";
    } else {
      JoinLast(lines[1..]);
      assert (lines + [""])[1..] == lines[1..] + [""];
      Associate(lines[0] + "\n", Join(lines[1..]), "\n");
    }
  }

  /** Lines between the markers are read back as they were put. */
  lemma SplitWrapped(lines: seq<string>)
    requires lines != [] && AllFit(lines)
    ensures Split(Wrapped(lines)) == [""] + lines + [""]
    ensures Shown(Split(Wrapped(lines))) == lines
    ensures !Contains(Wrapped(lines), END)
  {
    hide Join, Split, Contains, Shown;
    var all := [""] + lines + [""];
    JoinWrap(lines);
    SplitJoin(all);
    ShownAll(lines);
    MarkersOpenOnce();
    NotInEmpty(END);
    ContainsJoin(all, END);
  }

  lemma NotInEmpty(p: string)
    requires p != ""
    ensures !Contains("", p)
  {}

  lemma {:induction false} ShownAll(lines: seq<string>)
    requires AllFit(lines)
    ensures Shown(lines) == lines && Shown([""] + lines + [""]) == lines
  {
    hide Contains;
    ShownAppend([""] + lines, [""]);
    ShownAppend([""], lines);
    ShownFit(lines);
    assert Shown([""]) == [];
  }

  lemma {:induction false} ShownFit(lines: seq<string>)
    requires AllFit(lines)
    ensures Shown(lines) == lines
  {
    hide Contains, Blank;
    if lines != [] {
      var rest := lines[1..];
      assert lines[0] in lines && AllFit(rest);
      ShownFit(rest);
      assert lines == [lines[0]] + rest;
    }
  }

  lemma {:induction false} ShownAppend(a: seq<string>, b: seq<string>)
    ensures Shown(a + b) == Shown(a) + Shown(b)
  {
    hide Blank;
    if a == [] {
      assert a + b == b;
      assert [] + Shown(b) == Shown(b);
    } else {
      ShownAppend(a[1..], b);
      assert (a + b)[1..] == a[1..] + b;
      Associate(if Blank(a[0]) then [] else [a[0]], Shown(a[1..]), Shown(b));
    }
  }

  lemma {:induction false} ShownMember(lines: seq<string>, l: string)
    ensures l in Shown(lines) <==> l in lines && !Blank(l)
  {
    hide Blank;
    if lines != [] {
      ShownMember(lines[1..], l);
      assert lines == [lines[0]] + lines[1..];
    }
  }

  lemma {:induction false} WithoutCount(lines: seq<string>, marker: string, x: string)
    ensures multiset(Without(lines, marker))[x] == if Contains(x, marker) then 0 else multiset(lines)[x]
  {
    hide Contains;
    if lines != [] {
      WithoutCount(lines[1..], marker, x);
      assert lines == [lines[0]] + lines[1..];
    }
  }

  lemma WithoutMember(lines: seq<string>, marker: string, x: string)
    ensures x in Without(lines, marker) <==> x in lines && !Contains(x, marker)
  {
    hide Contains, Without;
    WithoutCount(lines, marker, x);
    assert x in lines <==> multiset(lines)[x] > 0;
    assert x in Without(lines, marker) <==> multiset(Without(lines, marker))[x] > 0;
  }

  lemma SortedMember(lines: seq<string>, x: string)
    ensures x in Sorted(lines) <==> x in lines
  {
    hide Sorted;
    assert x in Sorted(lines) <==> x in multiset(Sorted(lines));
  }

  lemma FrontIs(text: string) returns (before: string)
    requires Ready(text)
    ensures Front(text) == before + START && !Contains(before, START)
  {
    if Locate(text).None? {
      before := Padded(text);
      NotInEmpty(START);
      MarkersOpenOnce();
      if text != "" {
        ContainsLine(text, "", START);
        ContainsLine("", "", START);
        ContainsLine(text, "" + "\n" + "", START);
        assert text + "\n" + "" == text + "\n";
        assert text + "\n" + ("" + "\n" + "") == text + "\n" + "\n";
      }
    } else {
      var i := Find(text, START, 0).value;
      before := text[..i];
      assert text == "" + before + text[i..];
      if Contains(before, START) {
        AtWithin("", before, text[i..], START, Find(before, START, 0).value);
        assert false;
      }
      assert text[..i + |START|] == text[..i] + text[i..i + |START|];
    }
  }

  lemma BackIs(text: string) returns (after: string)
    ensures Back(text) == END + after
  {
    if Locate(text).None? {
      after := "\n";
    } else {
      var j := Locate(text).value.to;
      after := text[j + |END|..];
      assert text[j..] == text[j..j + |END|] + after;
    }
  }

  /** A page put together from a text's front and back around a body is taken apart again. */
  lemma PageOf(text: string, body: string)
    requires Ready(text) && !Contains(body, END)
    ensures var t := Front(text) + body + Back(text);
      && Locate(t) == Some(Block(|Front(text)|, |Front(text)| + |body|))
      && Ready(t) && Front(t) == Front(text) && Back(t) == Back(text) && Body(t, Locate(t).value) == body
  {
    hide Find, Contains;
    var front, back := Front(text), Back(text);
    var t := front + body + back;
    var before := FrontIs(text);
    var after := BackIs(text);
    MarkersOpenOnce();
    assert Find(t, START, 0) == Some(|before|) by {
      FirstAt("", before, START, body + back);
      Associate(front, body, back);
      assert "" + before == before;
    }
    assert Find(t, END, |front|) == Some(|front| + |body|) by {
      FirstAt(front, body, END, after);
      Associate(front + body, END, after);
    }
    ReadyWhenLocated(t);
    Cut(front, body, back);
  }

  lemma Cut(a: string, b: string, c: string)
    ensures var t := a + b + c;
      t[..|a|] == a && t[|a|..|a| + |b|] == b && t[|a| + |b|..] == c
  {}

  lemma ReadyWhenLocated(text: string)
    requires Locate(text).Some?
    ensures Ready(text)
  {}

  lemma Page(text: string, lines: seq<string>)
    requires Ready(text) && lines != [] && AllFit(lines)
    ensures var t := Front(text) + Wrapped(lines) + Back(text);
      && Locate(t) == Some(Block(|Front(text)|, |Front(text)| + |Wrapped(lines)|))
      && Ready(t) && Front(t) == Front(text) && Back(t) == Back(text)
      && RawLines(t) == [""] + lines + [""] && LinesOf(t) == lines
  {
    hide Split, Join, Shown, Wrapped, Find, AllFit, Front, Back, Contains, Locate;
    SplitWrapped(lines);
    PageOf(text, Wrapped(lines));
  }

  /** The lines of a page may go between its markers. */
  lemma LinesFit(text: string)
    ensures AllFit(LinesOf(text))
  {
    hide Split, Shown, Blank;
    forall l | l in LinesOf(text) ensures Fits(l) {
      ShownMember(RawLines(text), l);
      if Locate(text).None? {
        NothingShown();
      } else {
        var b := Locate(text).value;
        var body := Body(text, b);
        SplitUnbroken(body);
        JoinSplit(body);
        MarkersOpenOnce();
        ContainsJoin(Split(body), END);
        BodyHasNoEnd(text, b);
      }
    }
  }

  lemma BodyHasNoEnd(text: string, b: Block)
    requires Locate(text) == Some(b)
    ensures !Contains(Body(text, b), END)
  {
    var body := Body(text, b);
    assert text == text[..b.from] + body + text[b.to..];
    if Contains(body, END) {
      AtWithin(text[..b.from], body, text[b.to..], END, Find(body, END, 0).value);
      assert false;
    }
  }

  /** What a merge puts between the markers. */
  function MergedLines(line: string, id: string, text: string): seq<string> {
    Sorted(Without(LinesOf(text), Marker(id)) + [line])
  }

  lemma MergedFit(line: string, id: string, text: string)
    requires Fits(line)
    ensures AllFit(MergedLines(line, id, text)) && MergedLines(line, id, text) != []
  {
    hide Sorted, Without, LinesOf, Fits;
    LinesFit(text);
    var all := Without(LinesOf(text), Marker(id)) + [line];
    forall l | l in Sorted(all) ensures Fits(l) {
      SortedMember(all, l);
      WithoutMember(LinesOf(text), Marker(id), l);
    }
    SortedMember(all, line);
    assert line in all;
  }

  // Main results.

  /** A merge keeps every character up to the start marker's end and from the end marker on, and the
      block's lines are the others and the new one, newest first. */
  lemma MergeKeepsTheRest(line: string, id: string, text: string)
    requires Ready(text) && Fits(line)
    ensures var t := Merge(line, id, text);
      && Ready(t) && Front(t) == Front(text) && Back(t) == Back(text) && LinesOf(t) == MergedLines(line, id, text)
      && Locate(t).Some? && t == Front(text) + Body(t, Locate(t).value) + Back(text)
  {
    hide Sorted, LinesOf, Fits, Merge, Front, Back, Split, MergedLines;
    assert MergedLines(line, id, text) == Sorted(Without(LinesOf(text), Marker(id)) + [line]) by { MergedIs(line, id, text); }
    MergeIs(line, id, text);
    MergedFit(line, id, text);
    Page(text, MergedLines(line, id, text));
    var t := Merge(line, id, text);
    assert Body(t, Locate(t).value) == Wrapped(MergedLines(line, id, text));
  }

  lemma MergedIs(line: string, id: string, text: string)
    ensures MergedLines(line, id, text) == Sorted(Without(LinesOf(text), Marker(id)) + [line])
  {}

  /** Merging a line a second time changes nothing. */
  lemma MergeIsIdempotent(line: string, id: string, text: string)
    requires Ready(text) && Fits(line) && Contains(line, Marker(id))
    ensures Merge(line, id, Merge(line, id, text)) == Merge(line, id, text)
  {
    hide LinesOf, Fits, Merge, Front, Back, Sorted, Without, Contains, Wrapped;
    var t, m, l := Merge(line, id, text), Marker(id), LinesOf(text);
    MergeKeepsTheRest(line, id, text);
    MergeIs(line, id, text);
    MergeIs(line, id, t);
    var once, twice := Without(l, m) + [line], Without(Sorted(Without(l, m) + [line]), m) + [line];
    forall x ensures multiset(once)[x] == multiset(twice)[x] {
      WithoutCount(l, m, x);
      WithoutCount(Sorted(once), m, x);
    }
    assert multiset(once) == multiset(twice);
    SameLinesSortTheSame(once, twice);
  }

  /** Merging the lines of two meetings gives the same page in either order. */
  lemma MergesCommute(line: string, id: string, line': string, id': string, text: string)
    requires Ready(text) && Fits(line) && Fits(line')
    requires !Contains(line, Marker(id')) && !Contains(line', Marker(id))
    ensures Merge(line', id', Merge(line, id, text)) == Merge(line, id, Merge(line', id', text))
  {
    hide LinesOf, Fits, Merge, Front, Back, Sorted, Without, Contains, Wrapped, Marker;
    var m, m', l := Marker(id), Marker(id'), LinesOf(text);
    var t, t' := Merge(line, id, text), Merge(line', id', text);
    MergeKeepsTheRest(line, id, text);
    MergeKeepsTheRest(line', id', text);
    MergeIs(line', id', t);
    MergeIs(line, id, t');
    var first, second := Without(l, m) + [line], Without(l, m') + [line'];
    var a, b := Without(Sorted(first), m') + [line'], Without(Sorted(second), m) + [line];
    forall x ensures multiset(a)[x] == multiset(b)[x] {
      WithoutCount(l, m, x);
      WithoutCount(l, m', x);
      WithoutCount(Sorted(first), m', x);
      WithoutCount(Sorted(second), m, x);
    }
    assert multiset(a) == multiset(b);
    SameLinesSortTheSame(a, b);
  }

  lemma {:induction false} WithoutNone(lines: seq<string>, marker: string)
    requires forall l :: l in lines ==> !Contains(l, marker)
    ensures Without(lines, marker) == lines
  {
    hide Contains;
    if lines != [] {
      var rest := lines[1..];
      assert lines[0] in lines && forall l :: l in rest ==> l in lines;
      WithoutNone(rest, marker);
      assert lines == [lines[0]] + rest;
    }
  }

  lemma {:induction false} ShownWithout(lines: seq<string>, marker: string)
    ensures Shown(Without(lines, marker)) == Without(Shown(lines), marker)
  {
    hide Contains, Blank;
    if lines != [] {
      var rest := lines[1..];
      ShownWithout(rest, marker);
      if !Contains(lines[0], marker) { ShownFirst(lines[0], Without(rest, marker)); }
      if !Blank(lines[0]) { WithoutFirst(lines[0], Shown(rest), marker); }
      assert [] + Without(rest, marker) == Without(rest, marker) && [] + Shown(rest) == Shown(rest);
      assert [] + Without(Shown(rest), marker) == Without(Shown(rest), marker);
    }
  }

  lemma ShownFirst(line: string, rest: seq<string>)
    ensures Shown([line] + rest) == (if Blank(line) then [] else [line]) + Shown(rest)
  {
    assert ([line] + rest)[1..] == rest;
  }

  lemma WithoutFirst(line: string, rest: seq<string>, marker: string)
    ensures Without([line] + rest, marker) == (if Contains(line, marker) then [] else [line]) + Without(rest, marker)
  {
    assert ([line] + rest)[1..] == rest;
  }

  /** What is left of a body's lines. */
  lemma KeptBody(text: string, b: Block, id: string)
    requires Locate(text) == Some(b) && '\n' !in id
    ensures var raw, m := Split(Body(text, b)), Marker(id);
      var kept := Join(Without(raw, m));
      && !Contains(kept, END) && !Contains(kept, m) && Split(kept) == (if Without(raw, m) == [] then [""] else Without(raw, m))
      && (Contains(Body(text, b), m) <==> exists l :: l in raw && Contains(l, m))
  {
    hide Contains, Split, Join, Without, Locate;
    var body, m := Body(text, b), Marker(id);
    var raw := Split(body);
    var rest := Without(raw, m);
    MarkersOpenOnce();
    JoinSplit(body);
    SplitUnbroken(body);
    BodyHasNoEnd(text, b);
    ContainsJoin(raw, END);
    ContainsJoin(raw, m);
    forall l | l in rest ensures l in raw && !Contains(l, m) { WithoutMember(raw, m, l); }
    ContainsJoin(rest, END);
    ContainsJoin(rest, m);
    if rest == [] {
      EmptyPage();
    } else {
      SplitJoin(rest);
    }
  }

  lemma EmptyPage()
    ensures Split(Join([])) == [""]
  {}

  /** Removing keeps the front, the back and every other line in its order, and leaves no line of the
      meeting. */
  lemma RemoveKeepsTheRest(id: string, text: string)
    requires '\n' !in id && Locate(text).Some?
    ensures var t, kept := Remove(id, text), Without(RawLines(text), Marker(id));
      && Locate(t).Some? && Front(t) == Front(text) && Back(t) == Back(text)
      && RawLines(t) == (if kept == [] then [""] else kept)
      && LinesOf(t) == Without(LinesOf(text), Marker(id))
      && !Contains(Body(t, Locate(t).value), Marker(id))
  {
    var b, m := Locate(text).value, Marker(id);
    var raw := Split(Body(text, b));
    KeptBody(text, b, id);
    ShownWithout(raw, m);
    BlankShown();
    ReadyWhenLocated(text);
    hide Contains, Split, Join, Without, Shown, Locate, Marker;
    if Contains(Body(text, b), m) {
      PageOf(text, Join(Without(raw, m)));
    } else {
      WithoutNone(raw, m);
    }
  }

  lemma BlankShown()
    ensures Shown([""]) == [] && Shown([]) == []
  {}

  /** Removing is the identity exactly where the block has no line of the meeting. */
  lemma RemoveIsIdentity(id: string, text: string)
    requires '\n' !in id
    ensures Remove(id, text) == text <==> !exists l :: l in RawLines(text) && Contains(l, Marker(id))
  {
    if Locate(text).Some? {
      var b := Locate(text).value;
      KeptBody(text, b, id);
      RemoveKeepsTheRest(id, text);
      hide Contains, Split, Join, Without, Shown, Locate, Marker;
      assert Remove(id, text) == text ==> !Contains(Body(text, b), Marker(id));
    }
  }

  lemma {:induction false} WithoutInOrder(lines: seq<string>, marker: string)
    requires InOrder(lines)
    ensures InOrder(Without(lines, marker))
  {
    hide Contains, Before;
    if lines != [] {
      var rest := lines[1..];
      WithoutInOrder(rest, marker);
      var r := Without(rest, marker);
      forall x | x in r ensures !Before(x, lines[0]) {
        WithoutMember(rest, marker, x);
        var k :| 0 <= k < |rest| && rest[k] == x;
        assert x == lines[k + 1];
      }
      FirstInOrder(lines[0], r);
      assert [] + r == r;
    }
  }

  lemma FirstInOrder(line: string, lines: seq<string>)
    requires InOrder(lines) && forall x :: x in lines ==> !Before(x, line)
    ensures InOrder([line] + lines)
  {
    hide Before;
    var r := [line] + lines;
    forall i, j | 0 <= i < j < |r| ensures !Before(r[j], r[i]) {
      assert r[j] == lines[j - 1];
      if i > 0 { assert r[i] == lines[i - 1]; }
    }
  }

  /** Removing after merging leaves the other lines, newest first, and none of the meeting. */
  lemma RemoveUndoesMerge(line: string, id: string, text: string)
    requires Ready(text) && Fits(line) && Contains(line, Marker(id)) && '\n' !in id
    ensures var t := Remove(id, Merge(line, id, text));
      && Front(t) == Front(text) && Back(t) == Back(text)
      && LinesOf(t) == Sorted(Without(LinesOf(text), Marker(id)))
      && !exists l :: l in LinesOf(t) && Contains(l, Marker(id))
  {
    hide LinesOf, Fits, Merge, Remove, Front, Back, Sorted, Without, Contains, Marker, Locate;
    var m, l, t := Marker(id), LinesOf(text), Merge(line, id, text);
    MergeKeepsTheRest(line, id, text);
    MergedIs(line, id, text);
    RemoveKeepsTheRest(id, t);
    var others := Without(l, m);
    var left := Without(Sorted(others + [line]), m);
    forall x ensures multiset(left)[x] == multiset(Sorted(others))[x] {
      WithoutCount(Sorted(others + [line]), m, x);
      WithoutCount(l, m, x);
    }
    assert multiset(left) == multiset(Sorted(others));
    SortedInOrder(others + [line]);
    SortedInOrder(others);
    WithoutInOrder(Sorted(others + [line]), m);
    OrderIsUnique(left, Sorted(others));
    forall x | x in LinesOf(Remove(id, t)) ensures !Contains(x, m) { WithoutMember(LinesOf(t), m, x); }
  }

  // The order, read as dates.

  predicate IsDigit(c: char) {
    '0' <= c <= '9'
  }

  function DigitOf(c: char): nat
    requires IsDigit(c)
  {
    c as int - '0' as int
  }

  /** Four digits, two and two, with dashes between them. */
  predicate IsDate(s: string) {
    |s| == 10 && s[4] == '-' && s[7] == '-' && forall i :: 0 <= i < 10 && i != 4 && i != 7 ==> IsDigit(s[i])
  }

  function YearOf(s: string): nat
    requires IsDate(s)
  {
    1000 * DigitOf(s[0]) + 100 * DigitOf(s[1]) + 10 * DigitOf(s[2]) + DigitOf(s[3])
  }

  function MonthOf(s: string): nat
    requires IsDate(s)
  {
    10 * DigitOf(s[5]) + DigitOf(s[6])
  }

  function DayOf(s: string): nat
    requires IsDate(s)
  {
    10 * DigitOf(s[8]) + DigitOf(s[9])
  }

  /** The line has this date behind `k` bullets and blanks. */
  predicate DatedAt(line: string, k: nat, date: string) {
    k + 10 <= |line| && (forall i :: 0 <= i < k ==> IsBullet(line[i])) && line[k..k + 10] == date && IsDate(date)
  }

  ghost predicate Dated(line: string) {
    exists k, date :: DatedAt(line, k, date)
  }

  /** Year, then month, then day. */
  predicate Earlier(a: string, b: string)
    requires IsDate(a) && IsDate(b)
  {
    || YearOf(a) < YearOf(b)
    || (YearOf(a) == YearOf(b) && (MonthOf(a) < MonthOf(b) || (MonthOf(a) == MonthOf(b) && DayOf(a) < DayOf(b))))
  }

  /** `a` ends where `b` goes on, or has the smaller character where they first differ. */
  ghost predicate TextBefore(a: string, b: string) {
    exists n: nat :: n <= |a| && n < |b| && a[..n] == b[..n] && (n == |a| || a[n] < b[n])
  }

  lemma {:induction false} DateOfDated(line: string, k: nat, date: string)
    requires DatedAt(line, k, date)
    ensures Date(line) == date
    decreases k
  {
    if k == 0 {
      assert line[..10] == line[0..10] == date && IsDigit(date[0]) && line[0] == date[0];
    } else {
      assert line[1..][k - 1..k + 9] == line[k..k + 10];
      DateOfDated(line[1..], k - 1, date);
    }
  }

  lemma {:induction false} DatedOfDate(line: string) returns (k: nat)
    requires Date(line) != ""
    ensures DatedAt(line, k, Date(line))
  {
    if line != "" && IsBullet(line[0]) {
      k := DatedOfDate(line[1..]);
      assert line[k + 1..k + 11] == line[1..][k..k + 10];
      k := k + 1;
    } else {
      k := 0;
    }
  }

  /** The digits as one number, the dashes as 0. */
  function Number(s: string): nat
    requires forall i :: 0 <= i < |s| ==> IsDigit(s[i]) || s[i] == '-'
  {
    if s == "" then 0 else 10 * Number(s[..|s| - 1]) + (if s[|s| - 1] == '-' then 0 else DigitOf(s[|s| - 1]))
  }

  lemma {:induction false} LessOfPrefixes(a: string, b: string, c: char, d: char)
    requires |a| == |b|
    ensures Less(a + [c], b + [d]) <==> Less(a, b) || (a == b && c < d)
  {
    if a == "" {
      assert a + [c] == [c] && b + [d] == [d];
      assert [c][1..] == "" && [d][1..] == "";
    } else {
      LessOfPrefixes(a[1..], b[1..], c, d);
      assert (a + [c])[1..] == a[1..] + [c] && (b + [d])[1..] == b[1..] + [d];
      assert a == [a[0]] + a[1..] && b == [b[0]] + b[1..];
    }
  }

  /** Of texts with their dashes in the same places, the one with the smaller number is less. */
  lemma {:induction false} LessNumber(a: string, b: string)
    requires |a| == |b|
    requires forall i :: 0 <= i < |a| ==> if a[i] == '-' then b[i] == '-' else IsDigit(a[i]) && IsDigit(b[i])
    ensures (Less(a, b) <==> Number(a) < Number(b)) && (a == b <==> Number(a) == Number(b))
  {
    if a != "" {
      var n := |a| - 1;
      LessNumber(a[..n], b[..n]);
      LessOfPrefixes(a[..n], b[..n], a[n], b[n]);
      assert a == a[..n] + [a[n]] && b == b[..n] + [b[n]];
    }
  }

  lemma NumberOfDate(s: string)
    requires IsDate(s)
    ensures Number(s) == 1_000_000 * YearOf(s) + 1_000 * MonthOf(s) + DayOf(s)
    ensures MonthOf(s) < 100 && DayOf(s) < 100
  {
    NumberOfMonth(s);
    NumberOfPrefix(s, 7);
    NumberOfPrefix(s, 8);
    NumberOfPrefix(s, 9);
    hide Number, YearOf;
    assert s[..10] == s;
  }

  lemma NumberOfMonth(s: string)
    requires IsDate(s)
    ensures Number(s[..7]) == 1_000 * YearOf(s) + MonthOf(s)
  {
    NumberOfYear(s);
    NumberOfPrefix(s, 4);
    NumberOfPrefix(s, 5);
    NumberOfPrefix(s, 6);
    hide Number, YearOf;
  }

  lemma NumberOfYear(s: string)
    requires IsDate(s)
    ensures Number(s[..4]) == YearOf(s)
  {
    NothingNumber();
    NumberOfPrefix(s, 0);
    NumberOfPrefix(s, 1);
    NumberOfPrefix(s, 2);
    NumberOfPrefix(s, 3);
    hide Number;
    assert s[..0] == "";
  }

  lemma NothingNumber()
    ensures Number("") == 0
  {}

  lemma NumberOfPrefix(s: string, n: nat)
    requires n < |s| && forall i :: 0 <= i < |s| ==> IsDigit(s[i]) || s[i] == '-'
    ensures Number(s[..n + 1]) == 10 * Number(s[..n]) + (if s[n] == '-' then 0 else DigitOf(s[n]))
  {
    assert s[..n + 1][..n] == s[..n];
  }

  lemma LessIsEarlier(a: string, b: string)
    requires IsDate(a) && IsDate(b)
    ensures Less(a, b) <==> Earlier(a, b)
  {
    LessNumber(a, b);
    NumberOfDate(a);
    NumberOfDate(b);
    hide Number, YearOf, MonthOf, DayOf, Less;
  }

  lemma {:induction false} LessIsTextBefore(a: string, b: string)
    requires Less(a, b)
    ensures TextBefore(a, b)
    decreases |a|
  {
    if a == "" || a[0] != b[0] {
      assert a[..0] == b[..0];
    } else {
      LessIsTextBefore(a[1..], b[1..]);
      var n: nat :| n <= |a[1..]| && n < |b[1..]| && a[1..][..n] == b[1..][..n] && (n == |a[1..]| || a[1..][n] < b[1..][n]);
      assert a[..n + 1] == [a[0]] + a[1..][..n] && b[..n + 1] == [b[0]] + b[1..][..n];
    }
  }

  /** Main result: in the sorted lines a dated one comes after none that is undated or of an earlier day,
      and lines of one day, or without any, are in the order of their text. */
  lemma SortedNewestFirst(lines: seq<string>, i: nat, j: nat)
    requires i < j < |Sorted(lines)|
    ensures Dated(Sorted(lines)[j]) ==> Dated(Sorted(lines)[i])
    ensures forall k, l, a, b :: DatedAt(Sorted(lines)[i], k, a) && DatedAt(Sorted(lines)[j], l, b) ==>
      !Earlier(a, b) && (a == b ==> Sorted(lines)[i] == Sorted(lines)[j] || TextBefore(Sorted(lines)[i], Sorted(lines)[j]))
    ensures !Dated(Sorted(lines)[i]) ==> Sorted(lines)[i] == Sorted(lines)[j] || TextBefore(Sorted(lines)[i], Sorted(lines)[j])
  {
    SortedInOrder(lines);
    var x, y := Sorted(lines)[i], Sorted(lines)[j];
    assert !Before(y, x);
    hide Sorted, InOrder, Less, Date, Earlier, TextBefore;
    LessTotal(x, y);
    LessTotal(Date(x), Date(y));
    if Less(x, y) { LessIsTextBefore(x, y); }
    if Dated(y) {
      var l, b :| DatedAt(y, l, b);
      DateOfDated(y, l, b);
      if Date(x) == "" { EmptyIsLess(b); }
      var k := DatedOfDate(x);
    }
    forall k, l, a, b | DatedAt(x, k, a) && DatedAt(y, l, b)
      ensures !Earlier(a, b) && (a == b ==> x == y || TextBefore(x, y))
    {
      DateOfDated(x, k, a);
      DateOfDated(y, l, b);
      LessIsEarlier(a, b);
    }
    if !Dated(x) {
      if Date(x) != "" { var k := DatedOfDate(x); }
      if Date(y) != "" { EmptyIsLess(Date(y)); }
    }
  }

  lemma EmptyIsLess(s: string)
    requires s != ""
    ensures Less("", s)
  {}
}
