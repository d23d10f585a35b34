/** Word-level edit distance with two rolling rows (`edit_distance` in `score_fleurs.py`). */
module EditDistance {
  import opened Options

  datatype Edit<T> = Keep | Substitute(word: T) | Delete | Insert(word: T)

  /** What a script makes of the reference: it has to account for every word. */
  function Apply<T>(script: seq<Edit<T>>, ref: seq<T>): Option<seq<T>>
    decreases |script|
  {
    if script == [] then (if ref == [] then Some([]) else None)
    else
      var rest := script[..|script| - 1];
      match script[|script| - 1]
      case Insert(word) => Appended(Apply(rest, ref), [word])
      case Delete => if ref == [] then None else Apply(rest, ref[..|ref| - 1])
      case Keep => if ref == [] then None else Appended(Apply(rest, ref[..|ref| - 1]), [ref[|ref| - 1]])
      case Substitute(word) => if ref == [] then None else Appended(Apply(rest, ref[..|ref| - 1]), [word])
  }

  function Appended<T>(o: Option<seq<T>>, t: seq<T>): Option<seq<T>> {
    match o
    case None => None
    case Some(s) => Some(s + t)
  }

  /** Errors, substitutions, deletions and insertions. */
  datatype Cell = Cell(errors: nat, subs: nat, dels: nat, ins: nat)

  function Count<T>(script: seq<Edit<T>>): (c: Cell)
    ensures c.errors == c.subs + c.dels + c.ins
  {
    if script == [] then Cell(0, 0, 0, 0)
    else Plus(Count(script[..|script| - 1]), script[|script| - 1])
  }

  function Plus<T>(c: Cell, e: Edit<T>): Cell {
    match e
    case Keep => c
    case Substitute(_) => c.(errors := c.errors + 1, subs := c.subs + 1)
    case Delete => c.(errors := c.errors + 1, dels := c.dels + 1)
    case Insert(_) => c.(errors := c.errors + 1, ins := c.ins + 1)
  }

  /** The table's cell for these words: the first of substitution, deletion and insertion with the
      fewest errors, and the diagonal on a match. */
  function Table<T(==)>(ref: seq<T>, hyp: seq<T>): Cell
    decreases |ref| + |hyp|
  {
    if ref == [] then Cell(|hyp|, 0, 0, |hyp|)
    else if hyp == [] then Cell(|ref|, 0, |ref|, 0)
    else
      var (r, h) := (ref[..|ref| - 1], hyp[..|hyp| - 1]);
      if ref[|ref| - 1] == hyp[|hyp| - 1] then Table(r, h)
      else Best(Table(r, h), Table(r, hyp), Table(ref, h))
  }

  function Best(diagonal: Cell, above: Cell, left: Cell): Cell {
    if diagonal.errors <= above.errors && diagonal.errors <= left.errors
    then diagonal.(errors := diagonal.errors + 1, subs := diagonal.subs + 1)
    else if above.errors <= left.errors then above.(errors := above.errors + 1, dels := above.dels + 1)
    else left.(errors := left.errors + 1, ins := left.ins + 1)
  }

  method EditDistance<T(==)>(ref: seq<T>, hyp: seq<T>) returns (result: Cell)
    ensures result == Table(ref, hyp)
  {
    var (n, m) := (|ref|, |hyp|);
    var prev := seq(m + 1, j requires 0 <= j <= m => Cell(j, 0, 0, j));
    var i := 1;
    while i < n + 1
      invariant 1 <= i <= n + 1
      invariant |prev| == m + 1
      invariant forall j :: 0 <= j <= m ==> prev[j] == Table(ref[..i - 1], hyp[..j])
    {
      var cur := [Cell(i, 0, i, 0)];
      var j := 1;
      while j < m + 1
        invariant 1 <= j <= m + 1
        invariant |cur| == j
        invariant forall k :: 0 <= k < j ==> cur[k] == Table(ref[..i], hyp[..k])
      {
        assert ref[..i][..i - 1] == ref[..i - 1] && hyp[..j][..j - 1] == hyp[..j - 1];
        var cell: Cell;
        if ref[i - 1] == hyp[j - 1] {
          cell := prev[j - 1];
        } else {
          cell := Best(prev[j - 1], prev[j], cur[j - 1]);
        }
        cur := cur + [cell];
        j := j + 1;
      }
      prev := cur;
      i := i + 1;
    }
    assert ref[..n] == ref && hyp[..m] == hyp;
    return prev[m];
  }

  // Optimality.

  /** A script that ends one word of the hypothesis short, for at most one error more. */
  lemma {:induction false} DropHypothesisWord<T>(script: seq<Edit<T>>, ref: seq<T>, hyp: seq<T>) returns (shorter: seq<Edit<T>>)
    requires Apply(script, ref) == Some(hyp) && hyp != []
    ensures Apply(shorter, ref) == Some(hyp[..|hyp| - 1])
    ensures Count(shorter).errors <= Count(script).errors + 1
    decreases |script|
  {
    var rest := script[..|script| - 1];
    match script[|script| - 1] {
      case Insert(_) => shorter := rest;
      case Delete =>
        shorter := DropHypothesisWord(rest, ref[..|ref| - 1], hyp);
        shorter := shorter + [Delete];
        assert shorter[..|shorter| - 1] + [Delete] == shorter;
      case _ =>
        shorter := rest + [Delete];
        assert shorter[..|shorter| - 1] == rest;
    }
  }

  /** A script for one word of the reference less, for at most one error more. */
  lemma {:induction false} DropReferenceWord<T>(script: seq<Edit<T>>, ref: seq<T>, hyp: seq<T>) returns (shorter: seq<Edit<T>>)
    requires Apply(script, ref) == Some(hyp) && ref != []
    ensures Apply(shorter, ref[..|ref| - 1]) == Some(hyp)
    ensures Count(shorter).errors <= Count(script).errors + 1
    decreases |script|
  {
    var rest := script[..|script| - 1];
    match script[|script| - 1] {
      case Delete => shorter := rest;
      case Insert(word) =>
        shorter := DropReferenceWord(rest, ref, hyp[..|hyp| - 1]);
        shorter := shorter + [Insert(word)];
        assert shorter[..|shorter| - 1] + [Insert(word)] == shorter;
      case _ =>
        shorter := rest + [Insert(hyp[|hyp| - 1])];
        assert shorter[..|shorter| - 1] == rest;
    }
  }

  /** No script has fewer errors. */
  lemma {:induction false} NoScriptIsBetter<T>(script: seq<Edit<T>>, ref: seq<T>, hyp: seq<T>)
    requires Apply(script, ref) == Some(hyp)
    ensures Table(ref, hyp).errors <= Count(script).errors
    decreases |ref| + |hyp|, |script|
  {
    if ref == [] || hyp == [] {
      LengthsAgree(script, ref, hyp);
    } else {
      var (r, h) := (ref[..|ref| - 1], hyp[..|hyp| - 1]);
      var rest := script[..|script| - 1];
      match script[|script| - 1] {
        case Keep => NoScriptIsBetter(rest, r, h);
        case Substitute(_) => NoScriptIsBetter(rest, r, h);
        case Delete =>
          NoScriptIsBetter(rest, r, hyp);
          if ref[|ref| - 1] == hyp[|hyp| - 1] {
            // The diagonal on a match is no worse.
            var shorter := DropHypothesisWord(rest, r, hyp);
            NoScriptIsBetter(shorter, r, h);
          }
        case Insert(_) =>
          NoScriptIsBetter(rest, ref, h);
          if ref[|ref| - 1] == hyp[|hyp| - 1] {
            var shorter := DropReferenceWord(rest, ref, h);
            NoScriptIsBetter(shorter, r, h);
          }
      }
    }
  }

  /** A script accounts for every word on both sides. */
  lemma {:induction false} LengthsAgree<T>(script: seq<Edit<T>>, ref: seq<T>, hyp: seq<T>)
    requires Apply(script, ref) == Some(hyp)
    ensures |ref| - Count(script).dels == |hyp| - Count(script).ins >= Count(script).subs
    decreases |script|
  {
    if script != [] {
      var rest := script[..|script| - 1];
      match script[|script| - 1] {
        case Insert(_) => LengthsAgree(rest, ref, hyp[..|hyp| - 1]);
        case Delete => LengthsAgree(rest, ref[..|ref| - 1], hyp);
        case _ => LengthsAgree(rest, ref[..|ref| - 1], hyp[..|hyp| - 1]);
      }
    }
  }

  /** One script has exactly the four numbers of the table. */
  lemma {:induction false} ScriptOf<T>(ref: seq<T>, hyp: seq<T>) returns (script: seq<Edit<T>>)
    ensures Apply(script, ref) == Some(hyp) && Count(script) == Table(ref, hyp)
    decreases |ref| + |hyp|
  {
    if ref == [] && hyp == [] {
      script := [];
    } else if ref == [] {
      script := ScriptOf(ref, hyp[..|hyp| - 1]);
      script := Ends(script, Insert(hyp[|hyp| - 1]));
      assert hyp[..|hyp| - 1] + [hyp[|hyp| - 1]] == hyp;
    } else if hyp == [] {
      script := ScriptOf(ref[..|ref| - 1], hyp);
      script := Ends(script, Delete);
    } else {
      var (r, h) := (ref[..|ref| - 1], hyp[..|hyp| - 1]);
      assert h + [hyp[|hyp| - 1]] == hyp;
      var (diagonal, above, left) := (Table(r, h), Table(r, hyp), Table(ref, h));
      if ref[|ref| - 1] == hyp[|hyp| - 1] {
        script := ScriptOf(r, h);
        script := Ends(script, Keep);
      } else if diagonal.errors <= above.errors && diagonal.errors <= left.errors {
        script := ScriptOf(r, h);
        script := Ends(script, Substitute(hyp[|hyp| - 1]));
      } else if above.errors <= left.errors {
        script := ScriptOf(r, hyp);
        script := Ends(script, Delete);
      } else {
        script := ScriptOf(ref, h);
        script := Ends(script, Insert(hyp[|hyp| - 1]));
      }
    }
  }

  lemma Ends<T>(rest: seq<Edit<T>>, e: Edit<T>) returns (script: seq<Edit<T>>)
    ensures script == rest + [e] && script[..|script| - 1] == rest && Count(script) == Plus(Count(rest), e)
  {
    script := rest + [e];
    assert script[..|script| - 1] == rest;
  }

  /** Main result: `edit_distance` returns the fewest errors of any script, its four numbers are one
      script's, and they account for every word. */
  lemma TableIsTheMinimum<T>(ref: seq<T>, hyp: seq<T>)
    ensures exists script :: Apply(script, ref) == Some(hyp) && Count(script) == Table(ref, hyp)
    ensures forall script :: Apply(script, ref) == Some(hyp) ==> Table(ref, hyp).errors <= Count(script).errors
    ensures var c := Table(ref, hyp); c.errors == c.subs + c.dels + c.ins && |ref| - c.dels == |hyp| - c.ins
  {
    var script := ScriptOf(ref, hyp);
    LengthsAgree(script, ref, hyp);
    forall other | Apply(other, ref) == Some(hyp) ensures Table(ref, hyp).errors <= Count(other).errors {
      NoScriptIsBetter(other, ref, hyp);
    }
  }
}
