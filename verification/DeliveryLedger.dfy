/** What a delivery may write and what its receipt says (`DeliveryLedger.swift`). */
module DeliveryLedger {
  import opened Options
  import opened TextOrder

  type Path = string

  datatype Ownership = Owned | Managed

  /** `digest` stands for the SHA-256 of what was written. */
  datatype File<D> = File(path: Path, ownership: Ownership, digest: D)

  datatype Receipt<D> = Receipt(root: string, folder: Path, files: seq<File<D>>)

  // The files a receipt lists, as a dictionary.

  /** A later entry of one path replaces an earlier one. */
  function Listed<D(!new)>(files: seq<File<D>>): (m: map<Path, File<D>>)
    ensures forall p :: p in m ==> m[p].path == p && m[p] in files
    ensures forall f :: f in files ==> f.path in m
  {
    if files == [] then map[]
    else
      var last := files[|files| - 1];
      Listed(files[..|files| - 1])[last.path := last]
  }

  ghost predicate Keyed<D(!new)>(files: map<Path, File<D>>) {
    forall p :: p in files ==> files[p].path == p
  }

  /** Sorted by path, no path twice. */
  ghost predicate Ascending<D(!new)>(files: seq<File<D>>) {
    forall i, j :: 0 <= i < j < |files| ==> Less(files[i].path, files[j].path)
  }

  predicate Least(paths: set<Path>, p: Path) {
    p in paths && forall q :: q in paths && q != p ==> Less(p, q)
  }

  lemma LeastExists(paths: set<Path>)
    requires paths != {}
    ensures exists p :: Least(paths, p)
    decreases |paths|
  {
    hide Less;
    var x :| x in paths;
    if paths == {x} {
      assert Least(paths, x);
    } else {
      LeastExists(paths - {x});
      var p :| Least(paths - {x}, p);
      LessTotal(p, x);
      if Less(p, x) {
        assert Least(paths, p);
      } else {
        forall q | q in paths && q != x ensures Less(x, q) {
          if q != p { LessTransitive(x, p, q); }
        }
        assert Least(paths, x);
      }
    }
  }

  lemma LeastIsUnique(paths: set<Path>, p: Path, q: Path)
    requires Least(paths, p) && Least(paths, q)
    ensures p == q
  {
    LessTotal(p, q);
  }

  /** A dictionary's files by path. */
  function SortedFiles<D(!new)>(files: map<Path, File<D>>): (r: seq<File<D>>)
    requires Keyed(files)
    ensures forall f :: f in r <==> f.path in files && files[f.path] == f
    decreases files.Keys
  {
    if files == map[] then []
    else
      LeastExists(files.Keys);
      assert forall p, q :: Least(files.Keys, p) && Least(files.Keys, q) ==> p == q by {
        forall p, q | Least(files.Keys, p) && Least(files.Keys, q) ensures p == q { LeastIsUnique(files.Keys, p, q); }
      }
      var p :| Least(files.Keys, p);
      assert p in files && p !in files - {p};
      [files[p]] + SortedFiles(files - {p})
  }

  lemma {:induction false} SortedAscending<D(!new)>(files: map<Path, File<D>>)
    requires Keyed(files)
    ensures Ascending(SortedFiles(files))
    decreases files.Keys
  {
    if files != map[] {
      hide Less;
      var r := SortedFiles(files);
      var p := r[0].path;
      assert Least(files.Keys, p);
      var rest := files - {p};
      assert p in files && p !in rest;
      SortedAscending(rest);
      assert r[1..] == SortedFiles(rest);
      forall i, j | 0 <= i < j < |r| ensures Less(r[i].path, r[j].path) {
        assert r[j] == r[1..][j - 1];
        if i == 0 {
          assert r[j] in SortedFiles(rest);
        } else {
          assert r[i] == r[1..][i - 1];
        }
      }
    }
  }

  /** Ascending files list each path once. */
  lemma AscendingFront<D(!new)>(files: seq<File<D>>, f: File<D>)
    requires Ascending(files) && files != []
    ensures Ascending(files[..|files| - 1])
    ensures f in files[..|files| - 1] ==> f.path != files[|files| - 1].path
  {
    hide Less;
    if f in files[..|files| - 1] {
      var i :| 0 <= i < |files| - 1 && files[i] == f;
      LessTotal(f.path, files[|files| - 1].path);
    }
  }

  lemma {:induction false} ListedOfAscending<D(!new)>(files: seq<File<D>>, f: File<D>)
    requires Ascending(files) && f in files
    ensures Listed(files)[f.path] == f
  {
    hide Ascending;
    var last := files[|files| - 1];
    var front := files[..|files| - 1];
    assert files == front + [last];
    if f in front {
      AscendingFront(files, f);
      ListedOfAscending(front, f);
    }
  }

  // The ledger.

  /** `standard` puts a root in its standard spelling; two spellings of one root are the same root. */
  class DeliveryLedger<D(!new)> {
    const root: string
    const previous: Option<Receipt<D>>
    const owned: set<Path>
    var files: map<Path, File<D>>

    constructor (previous: Option<Receipt<D>>, root: string, standard: string -> string)
      ensures this.root == root
      ensures this.previous == (if previous.Some? && standard(previous.value.root) == standard(root) then previous else None)
      ensures files == Listed(PreviousFiles(this.previous)) && owned == OwnedIn(files)
    {
      this.root := root;
      var kept := if previous.Some? && standard(previous.value.root) == standard(root) then previous else None;
      this.previous := kept;
      var listed := if kept.Some? then kept.value.files else [];
      var all: map<Path, File<D>> := map[];
      var i := 0;
      while i < |listed|
        invariant 0 <= i <= |listed|
        invariant all == Listed(listed[..i])
      {
        assert listed[..i + 1][..i] == listed[..i];
        all := all[listed[i].path := listed[i]];
        i := i + 1;
      }
      assert listed[..|listed|] == listed;
      files := all;
      owned := OwnedIn(all);
    }

    predicate IsFirstDelivery() {
      previous.None?
    }

    /** On re-export a path that is there may be opened only if the receipt owns it. */
    predicate MayWrite(path: Path, exists_: bool) {
      IsFirstDelivery() || path in owned || !exists_
    }

    method Record(path: Path, ownership: Ownership, digest: D)
      modifies this`files
      ensures old(Keyed(files)) ==> Keyed(files)
      ensures files == old(files)[path := File(path, ownership, digest)]
    {
      files := files[path := File(path, ownership, digest)];
    }

    /** The receipt lists what the ledger holds, sorted and each path once, so the next delivery starts
        from the same files. */
    method ReceiptOf(folder: Path) returns (receipt: Receipt<D>)
      requires Keyed(files)
      ensures receipt.root == root && receipt.folder == folder
      ensures Ascending(receipt.files) && Listed(receipt.files) == files
    {
      SortedAscending(files);
      receipt := Receipt(root, folder, SortedFiles(files));
      ListedSorted(files);
    }
  }

  lemma ListedSorted<D(!new)>(files: map<Path, File<D>>)
    requires Keyed(files)
    ensures Listed(SortedFiles(files)) == files
  {
    SortedAscending(files);
    var r := SortedFiles(files);
    var m := Listed(r);
    forall p | p in files ensures p in m && m[p] == files[p] {
      assert files[p] in r;
      ListedOfAscending(r, files[p]);
    }
    forall p | p in m ensures p in files { assert m[p] in r; }
  }

  function PreviousFiles<D(!new)>(previous: Option<Receipt<D>>): seq<File<D>> {
    if previous.Some? then previous.value.files else []
  }

  function OwnedIn<D(!new)>(files: map<Path, File<D>>): set<Path> {
    set p | p in files && files[p].ownership.Owned?
  }

  // The folder of a first delivery.

  function Digit(d: nat): char
    requires d < 10
  {
    ['0', '1', '2', '3', '4', '5', '6', '7', '8', '9'][d]
  }

  function Decimal(n: nat): (s: string)
    ensures s != ""
  {
    if n < 10 then [Digit(n)] else Decimal(n / 10) + [Digit(n % 10)]
  }

  lemma DigitsDiffer(a: nat, b: nat)
    requires a < 10 && b < 10 && Digit(a) == Digit(b)
    ensures a == b
  {}

  lemma {:induction false} DecimalInjective(a: nat, b: nat)
    requires Decimal(a) == Decimal(b)
    ensures a == b
  {
    var s, t := Decimal(a), Decimal(b);
    assert s[|s| - 1] == Digit(a % 10) && t[|t| - 1] == Digit(b % 10);
    DigitsDiffer(a % 10, b % 10);
    if a >= 10 && b >= 10 {
      assert s[..|s| - 1] == Decimal(a / 10) && t[..|t| - 1] == Decimal(b / 10);
      DecimalInjective(a / 10, b / 10);
    }
  }

  /** The number a text of digits is. */
  function ValueOf(s: string): nat {
    if s == "" then 0
    else 10 * ValueOf(s[..|s| - 1]) + (if '0' <= s[|s| - 1] <= '9' then s[|s| - 1] as int - '0' as int else 0)
  }

  lemma DigitIs(d: nat)
    requires d < 10
    ensures '0' <= Digit(d) <= '9' && Digit(d) as int - '0' as int == d && (d > 0 ==> Digit(d) != '0')
  {}

  /** A number in decimal reads back as itself, without a leading zero. */
  lemma {:induction false} DecimalReadsBack(n: nat)
    ensures ValueOf(Decimal(n)) == n && (forall i :: 0 <= i < |Decimal(n)| ==> '0' <= Decimal(n)[i] <= '9')
    ensures n > 0 ==> Decimal(n)[0] != '0'
  {
    DigitIs(n % 10);
    hide Digit;
    if n < 10 {
      assert Decimal(n)[..0] == "";
    } else {
      DecimalReadsBack(n / 10);
      assert Decimal(n)[..|Decimal(n)| - 1] == Decimal(n / 10);
    }
  }

  /** The `k`th candidate: `base`, `base-2`, `base-3`, … */
  function Candidate(base: Path, k: nat): Path {
    if k == 0 then base else base + "-" + Decimal(k + 1)
  }

  lemma CandidatesDiffer(base: Path, a: nat, b: nat)
    requires Candidate(base, a) == Candidate(base, b)
    ensures a == b
  {
    var s, t := Candidate(base, a), Candidate(base, b);
    if a > 0 && b > 0 {
      assert s[|base| + 1..] == Decimal(a + 1) && t[|base| + 1..] == Decimal(b + 1);
      DecimalInjective(a + 1, b + 1);
    }
  }

  /** Whether a folder may be used: it is not there, or holds this meeting. */
  predicate Usable(existing: map<Path, Option<nat>>, folder: Path, meeting: nat) {
    folder in existing ==> existing[folder] == Some(meeting)
  }

  ghost predicate NoneBefore(existing: map<Path, Option<nat>>, base: Path, k: nat, meeting: nat) {
    forall j: nat :: j < k ==> !Usable(existing, Candidate(base, j), meeting)
  }

  /** What the first usable candidate is. */
  lemma ResolvedIs(base: Path, meeting: nat, existing: map<Path, Option<nat>>, k: nat)
    requires Usable(existing, Candidate(base, k), meeting) && NoneBefore(existing, base, k, meeting)
    ensures Candidate(base, k) !in existing || existing[Candidate(base, k)] == Some(meeting)
    ensures base !in existing || existing[base] == Some(meeting) ==> Candidate(base, k) == base
    ensures Candidate(base, k) == base || Candidate(base, k) == base + "-" + Decimal(k + 1)
  {
    if k > 0 { assert !Usable(existing, Candidate(base, 0), meeting); }
  }

  /** `existing` are the vault's paths, each with the meeting it holds, if it holds one. The search ends
      on any finite vault, at the first candidate that may be used. */
  method ResolveFolder(base: Path, meeting: nat, existing: map<Path, Option<nat>>) returns (folder: Path)
    ensures Usable(existing, folder, meeting)
    ensures exists k :: folder == Candidate(base, k) && NoneBefore(existing, base, k, meeting)
    ensures folder !in existing || existing[folder] == Some(meeting)
    ensures base !in existing || existing[base] == Some(meeting) ==> folder == base
    ensures folder == base || exists k: nat :: 2 <= k && folder == base + "-" + Decimal(k)
  {
    var candidate := base;
    var suffix := 2;
    ghost var tried: set<Path> := {};
    while candidate in existing
      invariant suffix >= 2 && candidate == Candidate(base, suffix - 2)
      invariant tried <= existing.Keys
      invariant forall p :: p in tried ==> exists j: nat :: j < suffix - 2 && p == Candidate(base, j)
      invariant NoneBefore(existing, base, suffix - 2, meeting)
      decreases |existing.Keys - tried|
    {
      if existing[candidate] == Some(meeting) {
        ResolvedIs(base, meeting, existing, suffix - 2);
        return candidate;
      }
      assert candidate !in tried by {
        if candidate in tried {
          var j: nat :| j < suffix - 2 && candidate == Candidate(base, j);
          CandidatesDiffer(base, j, suffix - 2);
        }
      }
      assert existing.Keys - (tried + {candidate}) == (existing.Keys - tried) - {candidate};
      tried := tried + {candidate};
      candidate := base + "-" + Decimal(suffix);
      suffix := suffix + 1;
    }
    ResolvedIs(base, meeting, existing, suffix - 2);
    folder := candidate;
  }
}
