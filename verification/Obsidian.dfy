/** Deliveries into a vault (`ObsidianFolderDestination.swift`): what they may overwrite, what they keep and
    what their receipts say. */
module Obsidian {
  import opened DeliveryLedger
  import opened ManagedBlock
  import opened Options

  /** A file's bytes: UTF-8 text, or not. */
  datatype Content = Text(text: string) | Binary(bytes: seq<nat>)

  datatype Artifact = Artifact(name: string, data: Content)

  /** One person's page: its file name, the meeting's line and the page to start with. */
  datatype Page = Page(name: string, line: string, whole: string)

  /** A meeting to deliver, rendered for the folder it goes to. `id` is its lower-case identifier. */
  datatype Export = Export(
    meeting: nat,
    id: string,
    base: Path,
    artifacts: Path -> seq<Artifact>,
    pages: Path -> seq<Page>,
    mixdown: Option<Artifact>)

  datatype Failure = WriteFailed | NotText | AudioUnavailable

  datatype Outcome = Delivered(receipt: Receipt<Content>) | Failed(why: Failure)

  type Files = map<Path, Content>

  const MEETING_FILE: string := "meeting.json"

  ghost predicate Renders(e: Export) {
    '\n' !in e.id && forall folder, page :: page in e.pages(folder) ==> Fits(page.line)
  }

  // What a delivery keeps.

  /** A page is still text, and what is outside its block is as it was: a page that had no block is
      whole in front of the one it was given. */
  ghost predicate KeptPage(before: Content, after: Content) {
    before.Text? && after.Text?
    && (Ready(before.text) ==>
      Ready(after.text) && Front(after.text) == Front(before.text) && Back(after.text) == Back(before.text))
  }

  /** Files not opened are untouched; of a page only the block changed. */
  ghost predicate Kept(before: Files, after: Files, owns: set<Path>, pages: set<Path>) {
    forall p :: p in before && p !in owns ==>
      p in after && (if p in pages then KeptPage(before[p], after[p]) else after[p] == before[p])
  }

  /** On re-export a file opened as the app's own is listed as owned, or was not there. */
  ghost predicate Allowed(before: Files, owns: set<Path>, first: bool, owned: set<Path>) {
    first || forall p :: p in owns ==> p in owned || p !in before
  }

  /** The ledger lists what it listed before and what was opened, as it is now. */
  ghost predicate Recorded(
      listed: map<Path, File<Content>>, initial: map<Path, File<Content>>, now: Files, owns: set<Path>, pages: set<Path>) {
    && Keyed(listed)
    && listed.Keys == initial.Keys + owns + pages
    && (forall p :: p in owns || p in pages ==> p in now && listed[p].digest == now[p])
    && (forall p :: p in owns || p in pages ==> if listed[p].ownership.Owned? then p in owns else p in pages)
    && forall p :: p in initial && p !in owns && p !in pages ==> listed[p] == initial[p]
  }

  // What a delivery that succeeds leaves in the vault.

  /** Artifacts written where they may be. */
  function WithArtifacts(first: bool, owned: set<Path>, files: Files, folder: Path, artifacts: seq<Artifact>): Files
    decreases artifacts
  {
    if artifacts == [] then files
    else
      var path := folder + "/" + artifacts[0].name;
      var next := if first || path in owned || path !in files then files[path := artifacts[0].data] else files;
      WithArtifacts(first, owned, next, folder, artifacts[1..])
  }

  /** Pages merged, or begun where there are none; `None` where one is not text. */
  function WithPages(files: Files, folder: Path, id: string, pages: seq<Page>): Option<Files>
    decreases pages
  {
    if pages == [] then Some(files)
    else
      var page, path := pages[0], folder + "/" + pages[0].name;
      if path in files && !files[path].Text? then None
      else
        var text := if path in files then Merge(page.line, id, files[path].text) else page.whole;
        WithPages(files[path := Text(text)], folder, id, pages[1..])
  }

  /** The listed pages that were not rendered, without the meeting's line. */
  function WithoutLine(files: Files, previous: seq<File<Content>>, except: set<Path>, id: string): Files {
    if previous == [] then files
    else
      var path := previous[0].path;
      var next :=
        if previous[0].ownership.Managed? && path !in except && path in files && files[path].Text?
        then files[path := Text(Remove(id, files[path].text))] else files;
      WithoutLine(next, previous[1..], except, id)
  }

  function PathsOf(folder: Path, pages: seq<Page>): set<Path> {
    set page | page in pages :: folder + "/" + page.name
  }

  lemma RecordedOwned(listed: map<Path, File<Content>>, initial: map<Path, File<Content>>, now: Files, owns: set<Path>,
                      pages: set<Path>, path: Path, data: Content)
    requires Recorded(listed, initial, now, owns, pages)
    ensures Recorded(listed[path := File(path, Owned, data)], initial, now[path := data], owns + {path}, pages)
  {
    assert listed[path := File(path, Owned, data)].Keys == listed.Keys + {path};
  }

  lemma RecordedManaged(listed: map<Path, File<Content>>, initial: map<Path, File<Content>>, now: Files, owns: set<Path>,
                        pages: set<Path>, path: Path, data: Content)
    requires Recorded(listed, initial, now, owns, pages)
    ensures Recorded(listed[path := File(path, Managed, data)], initial, now[path := data], owns, pages + {path})
  {
    assert listed[path := File(path, Managed, data)].Keys == listed.Keys + {path};
  }

  /** A path not there now was not there before, unless the delivery opened it. */
  lemma OwnedWasAbsent(before: Files, now: Files, owns: set<Path>, pages: set<Path>, path: Path)
    requires Kept(before, now, owns, pages)
    ensures path !in now && path in before ==> path in owns
  {
    hide KeptPage;
  }

  lemma KeptOne(before: Files, now: Files, owns: set<Path>, pages: set<Path>, path: Path, data: Content)
    requires Kept(before, now, owns, pages)
    ensures Kept(before, now[path := data], owns + {path}, pages)
    ensures (path in before && path !in owns ==> KeptPage(before[path], data)) ==>
      Kept(before, now[path := data], owns, pages + {path})
  {
    hide KeptPage;
  }

  class ObsidianFolderDestination {
    const root: string
    const standard: string -> string
    const meetingIn: Content -> Option<nat>
    const peopleFolder: Option<Path>
    const includeAudio: bool
    var files: Files
    var folders: set<Path>
    /** What the delivery under way, or the last one, opened for writing as its own and as pages. */
    ghost var owns: set<Path>
    ghost var pages: set<Path>

    constructor (root: string, standard: string -> string, meetingIn: Content -> Option<nat>, peopleFolder: Option<Path>,
                 includeAudio: bool, files: Files, folders: set<Path>)
      ensures this.root == root && this.standard == standard && this.files == files && this.folders == folders
    {
      this.root, this.standard, this.meetingIn := root, standard, meetingIn;
      this.peopleFolder, this.includeAudio := peopleFolder, includeAudio;
      this.files, this.folders := files, folders;
      owns, pages := {}, {};
    }

    /** One file of the app's own, skipped where it may not be written. */
    method WriteOwned(ledger: DeliveryLedger<Content>, path: Path, data: Content, faults: set<Path>, ghost before: Files,
                      ghost initial: map<Path, File<Content>>)
      returns (ok: bool)
      requires Kept(before, files, owns, pages) && Allowed(before, owns, ledger.IsFirstDelivery(), ledger.owned)
      requires Recorded(ledger.files, initial, files, owns, pages)
      modifies this`files, this`owns, ledger`files
      ensures Kept(before, files, owns, pages) && Allowed(before, owns, ledger.IsFirstDelivery(), ledger.owned)
      ensures Recorded(ledger.files, initial, files, owns, pages)
      ensures ok ==> files == if ledger.MayWrite(path, path in old(files)) then old(files)[path := data] else old(files)
      ensures !ok ==> path in faults
    {
      hide Kept, Recorded;
      if !ledger.MayWrite(path, path in files) { return true; }
      if path in faults { return false; }
      RecordedOwned(ledger.files, initial, files, owns, pages, path, data);
      KeptOne(before, files, owns, pages, path, data);
      OwnedWasAbsent(before, files, owns, pages, path);
      files := files[path := data];
      ledger.Record(path, Owned, data);
      owns := owns + {path};
      ok := true;
    }

    /** One page that is the user's but for its block. */
    method WritePage(ledger: DeliveryLedger<Content>, path: Path, data: Content, faults: set<Path>, ghost before: Files,
                     ghost initial: map<Path, File<Content>>)
      returns (ok: bool)
      requires Kept(before, files, owns, pages) && Recorded(ledger.files, initial, files, owns, pages)
      requires path in before && path !in owns ==> KeptPage(before[path], data)
      modifies this`files, this`pages, ledger`files
      ensures Kept(before, files, owns, pages) && Recorded(ledger.files, initial, files, owns, pages)
      ensures pages == old(pages) || pages == old(pages) + {path}
      ensures ok ==> path in pages && files == old(files)[path := data]
      ensures !ok ==> path in faults
    {
      hide Kept, Recorded;
      if path in faults { return false; }
      RecordedManaged(ledger.files, initial, files, owns, pages, path, data);
      KeptOne(before, files, owns, pages, path, data);
      files := files[path := data];
      ledger.Record(path, Managed, data);
      pages := pages + {path};
      ok := true;
    }

    method WriteArtifacts(ledger: DeliveryLedger<Content>, folder: Path, artifacts: seq<Artifact>, faults: set<Path>,
                          ghost before: Files, ghost initial: map<Path, File<Content>>)
      returns (ok: bool)
      requires Kept(before, files, owns, pages) && Allowed(before, owns, ledger.IsFirstDelivery(), ledger.owned)
      requires Recorded(ledger.files, initial, files, owns, pages)
      modifies this`files, this`owns, ledger`files
      ensures Kept(before, files, owns, pages) && Allowed(before, owns, ledger.IsFirstDelivery(), ledger.owned)
      ensures Recorded(ledger.files, initial, files, owns, pages)
      ensures ok ==> files == WithArtifacts(ledger.IsFirstDelivery(), ledger.owned, old(files), folder, artifacts)
      ensures !ok ==> faults != {}
    {
      hide Kept, Allowed, Recorded;
      ghost var first, done := ledger.IsFirstDelivery(), WithArtifacts(ledger.IsFirstDelivery(), ledger.owned, files, folder, artifacts);
      var i := 0;
      assert artifacts[0..] == artifacts;
      while i < |artifacts|
        invariant 0 <= i <= |artifacts|
        invariant Kept(before, files, owns, pages) && Allowed(before, owns, first, ledger.owned)
        invariant Recorded(ledger.files, initial, files, owns, pages)
        invariant WithArtifacts(first, ledger.owned, files, folder, artifacts[i..]) == done
      {
        assert artifacts[i..][1..] == artifacts[i + 1..];
        ok := WriteOwned(ledger, folder + "/" + artifacts[i].name, artifacts[i].data, faults, before, initial);
        if !ok { return; }
        i := i + 1;
      }
      ok := true;
    }

    method WritePages(ledger: DeliveryLedger<Content>, folder: Path, id: string, rendered: seq<Page>, faults: set<Path>,
                      ghost before: Files, ghost initial: map<Path, File<Content>>)
      returns (failure: Option<Failure>, names: set<Path>)
      requires Kept(before, files, owns, pages) && Recorded(ledger.files, initial, files, owns, pages)
      requires forall page :: page in rendered ==> Fits(page.line)
      modifies this`files, this`pages, ledger`files
      ensures Kept(before, files, owns, pages) && Recorded(ledger.files, initial, files, owns, pages)
      ensures pages <= old(pages) + PathsOf(folder, rendered)
      ensures failure.None? ==> names == PathsOf(folder, rendered) && Some(files) == WithPages(old(files), folder, id, rendered)
      ensures failure == Some(NotText) ==> WithPages(old(files), folder, id, rendered) == None
      ensures failure.Some? && failure != Some(NotText) ==> failure == Some(WriteFailed) && faults != {}
    {
      hide Kept, Recorded, KeptPage, Fits, Merge;
      ghost var done := WithPages(files, folder, id, rendered);
      names := {};
      var i := 0;
      assert rendered[0..] == rendered;
      while i < |rendered|
        invariant 0 <= i <= |rendered|
        invariant Kept(before, files, owns, pages) && Recorded(ledger.files, initial, files, owns, pages)
        invariant names == PathsOf(folder, rendered[..i])
        invariant pages <= old(pages) + names
        invariant WithPages(files, folder, id, rendered[i..]) == done
      {
        var page := rendered[i];
        var path := folder + "/" + page.name;
        assert page in rendered && rendered[i..][1..] == rendered[i + 1..];
        Within(rendered, i, folder);
        names := names + {path};
        var data := Text(page.whole);
        if path in files {
          if !files[path].Text? { return Some(NotText), names; }
          MergedPage(before, files, owns, pages, path, page.line, id);
          data := Text(Merge(page.line, id, files[path].text));
        } else {
          OwnedWasAbsent(before, files, owns, pages, path);
        }
        var wrote := WritePage(ledger, path, data, faults, before, initial);
        if !wrote { return Some(WriteFailed), names; }
        i := i + 1;
      }
      assert rendered[..i] == rendered;
      failure := None;
    }

    /** The pages the previous receipt lists that this delivery did not render lose the meeting's line. */
    method RemoveMeetingLine(ledger: DeliveryLedger<Content>, previous: seq<File<Content>>, except: set<Path>, id: string,
                             faults: set<Path>, ghost before: Files, ghost initial: map<Path, File<Content>>)
      returns (ok: bool)
      requires Kept(before, files, owns, pages) && Recorded(ledger.files, initial, files, owns, pages)
      requires '\n' !in id
      modifies this`files, this`pages, ledger`files
      ensures Kept(before, files, owns, pages) && Recorded(ledger.files, initial, files, owns, pages)
      ensures pages <= old(pages) + ManagedIn(previous)
      ensures ok ==> files == WithoutLine(old(files), previous, except, id)
      ensures !ok ==> faults != {}
    {
      hide Kept, Recorded, KeptPage, Remove;
      ghost var done := WithoutLine(files, previous, except, id);
      var i := 0;
      assert previous[0..] == previous;
      while i < |previous|
        invariant 0 <= i <= |previous|
        invariant Kept(before, files, owns, pages) && Recorded(ledger.files, initial, files, owns, pages)
        invariant pages <= old(pages) + ManagedIn(previous)
        invariant WithoutLine(files, previous[i..], except, id) == done
      {
        assert previous[i..][1..] == previous[i + 1..];
        var file := previous[i];
        var path := file.path;
        if file.ownership.Managed? && path !in except && path in files && files[path].Text? {
          var cleaned := Remove(id, files[path].text);
          if cleaned != files[path].text {
            CleanedPage(before, files, owns, pages, path, id);
            assert file in previous;
            var wrote := WritePage(ledger, path, Text(cleaned), faults, before, initial);
            if !wrote { return false; }
          } else {
            assert files[path := Text(cleaned)] == files;
          }
        }
        i := i + 1;
      }
      ok := true;
    }

    /** The receipt that applies to this root. */
    function Applying(previous: Option<Receipt<Content>>): Option<Receipt<Content>> {
      if previous.Some? && standard(previous.value.root) == standard(root) then previous else None
    }

    /** The vault's paths, each with the meeting whose file it holds. */
    function Existing(): map<Path, Option<nat>>
      reads this
    {
      map p | p in folders + files.Keys ::
        if p + "/" + MEETING_FILE in files then meetingIn(files[p + "/" + MEETING_FILE]) else None
    }

    predicate AudioIsInTheVault(folder: Path, listed: map<Path, File<Content>>)
      reads this
    {
      (exists p :: p in listed && IsAudioIn(folder, p)) || (exists p :: p in files && IsAudioIn(folder, p))
    }

    /** The pages of an export as paths. */
    ghost function RenderedPages(e: Export, folder: Path): set<Path> {
      if peopleFolder.Some? then PathsOf(peopleFolder.value, e.pages(folder)) else {}
    }

    /** No audio is in the folder, and none of these paths is audio there. */
    ghost predicate NoAudio(folder: Path, listed: set<Path>)
      reads this
    {
      (forall p :: p in files ==> !IsAudioIn(folder, p)) && forall p :: p in listed ==> !IsAudioIn(folder, p)
    }

    /** The pages merged and the lines of who left removed. */
    function AfterPages(e: Export, previous: seq<File<Content>>, files: Files, folder: Path): Option<Files> {
      if peopleFolder.None? then Some(files)
      else
        match WithPages(files, peopleFolder.value, e.id, e.pages(folder))
        case None => None
        case Some(merged) => Some(WithoutLine(merged, previous, PathsOf(peopleFolder.value, e.pages(folder)), e.id))
    }

    function AfterAudio(e: Export, first: bool, owned: set<Path>, files: Files, folder: Path): Files {
      if includeAudio && e.mixdown.Some? then WithArtifacts(first, owned, files, folder, [e.mixdown.value]) else files
    }

    /** The vault after a delivery without a fault: the artifacts, the pages, the removals, the audio. */
    function AfterDelivery(e: Export, previous: Option<Receipt<Content>>, files: Files, folder: Path): Option<Files> {
      var first, owned := previous.None?, OwnedIn(Listed(PreviousFiles(previous)));
      match AfterPages(e, PreviousFiles(previous), WithArtifacts(first, owned, files, folder, e.artifacts(folder)), folder)
      case None => None
      case Some(paged) => Some(AfterAudio(e, first, owned, paged, folder))
    }

    method DeliverPages(ledger: DeliveryLedger<Content>, e: Export, folder: Path, faults: set<Path>, ghost before: Files,
                        ghost initial: map<Path, File<Content>>)
      returns (failure: Option<Failure>)
      requires Renders(e) && Kept(before, files, owns, pages) && Recorded(ledger.files, initial, files, owns, pages)
      modifies this`files, this`folders, this`pages, ledger`files
      ensures Kept(before, files, owns, pages) && Recorded(ledger.files, initial, files, owns, pages)
      ensures pages <= old(pages) + RenderedPages(e, folder) + ManagedIn(PreviousFiles(ledger.previous))
      ensures failure.None? ==> Some(files) == AfterPages(e, PreviousFiles(ledger.previous), old(files), folder)
      ensures failure == Some(NotText) ==> AfterPages(e, PreviousFiles(ledger.previous), old(files), folder) == None
      ensures failure.Some? && failure != Some(NotText) ==> failure == Some(WriteFailed) && faults != {}
    {
      hide Kept, Recorded, Fits, WithPages, WithoutLine;
      if peopleFolder.None? { return None; }
      folders := folders + {peopleFolder.value};
      var rendered;
      failure, rendered := WritePages(ledger, peopleFolder.value, e.id, e.pages(folder), faults, before, initial);
      if failure.Some? { return; }
      var wrote := RemoveMeetingLine(ledger, PreviousFiles(ledger.previous), rendered, e.id, faults, before, initial);
      if !wrote { failure := Some(WriteFailed); }
    }

    method DeliverAudio(ledger: DeliveryLedger<Content>, e: Export, folder: Path, faults: set<Path>, ghost before: Files,
                        ghost initial: map<Path, File<Content>>)
      returns (failure: Option<Failure>)
      requires Kept(before, files, owns, pages) && Allowed(before, owns, ledger.IsFirstDelivery(), ledger.owned)
      requires Recorded(ledger.files, initial, files, owns, pages)
      modifies this`files, this`owns, ledger`files
      ensures Kept(before, files, owns, pages) && Allowed(before, owns, ledger.IsFirstDelivery(), ledger.owned)
      ensures Recorded(ledger.files, initial, files, owns, pages)
      ensures failure.None? ==> files == AfterAudio(e, ledger.IsFirstDelivery(), ledger.owned, old(files), folder)
      ensures failure == Some(WriteFailed) ==> faults != {}
      ensures failure == Some(AudioUnavailable) <==> includeAudio && e.mixdown.None? && !AudioIsInTheVault(folder, ledger.files)
      ensures failure != Some(NotText)
    {
      hide Kept, Allowed, Recorded, WithArtifacts, IsAudioIn;
      if !includeAudio { return None; }
      if e.mixdown.None? { return if AudioIsInTheVault(folder, ledger.files) then None else Some(AudioUnavailable); }
      OneArtifact(ledger.IsFirstDelivery(), ledger.owned, files, folder, e.mixdown.value);
      var path := folder + "/" + e.mixdown.value.name;
      var wrote := WriteOwned(ledger, path, e.mixdown.value.data, faults, before, initial);
      failure := if wrote then None else Some(WriteFailed);
    }

    /** Main result: whether it succeeds or fails part way, a delivery opens as its own only what it may,
        keeps every other file, of a page everything outside its block, and a receipt lists exactly what
        was listed before and what was opened, sorted, each path once. */
    method Deliver(e: Export, previous: Option<Receipt<Content>>, faults: set<Path>) returns (r: Outcome, folder: Path)
      requires Renders(e)
      modifies this`files, this`folders, this`owns, this`pages
      ensures Kept(old(files), files, owns, pages)
      ensures var initial := Listed(PreviousFiles(Applying(previous)));
        && Allowed(old(files), owns, Applying(previous).None?, OwnedIn(initial))
        && pages <= RenderedPages(e, folder) + ManagedIn(PreviousFiles(Applying(previous)))
        && (r.Delivered? ==>
          && Ascending(r.receipt.files)
          && Recorded(Listed(r.receipt.files), initial, files, owns, pages)
          && r.receipt.root == root && r.receipt.folder == folder)
      ensures r.Delivered? ==> Some(files) == AfterDelivery(e, Applying(previous), old(files), folder)
      ensures r == Failed(NotText) ==> AfterDelivery(e, Applying(previous), old(files), folder) == None
      ensures r == Failed(WriteFailed) ==> faults != {}
      ensures r == Failed(AudioUnavailable) ==> includeAudio && e.mixdown.None? && NoAudio(folder, Listed(PreviousFiles(Applying(previous))).Keys)
      ensures r.Delivered? && includeAudio && e.mixdown.None? ==> AudioIsInTheVault(folder, Listed(r.receipt.files))
      ensures if Applying(previous).Some? then folder == Applying(previous).value.folder
              else Usable(old(Existing()), folder, e.meeting)
    {
      hide Kept, Allowed, Recorded, Usable, Listed, Ascending, Renders, WithArtifacts, AfterPages, AfterAudio, IsAudioIn;
      ghost var before := files;
      owns, pages := {}, {};
      var ledger := new DeliveryLedger<Content>(previous, root, standard);
      ghost var initial := ledger.files;
      StartsClean(before, ledger.previous);
      AllowedNothing(before, ledger.IsFirstDelivery(), ledger.owned);
      if ledger.previous.Some? {
        folder := ledger.previous.value.folder;
      } else {
        folder := ResolveFolder(e.base, e.meeting, Existing());
      }
      folders := folders + {folder};
      var wrote := WriteArtifacts(ledger, folder, e.artifacts(folder), faults, before, initial);
      if !wrote { return Failed(WriteFailed), folder; }
      var failure := DeliverPages(ledger, e, folder, faults, before, initial);
      if failure.Some? { return Failed(failure.value), folder; }
      failure := DeliverAudio(ledger, e, folder, faults, before, initial);
      assert initial.Keys <= ledger.files.Keys by { StillListed(ledger.files, initial, files, owns, pages); }
      if failure.Some? { return Failed(failure.value), folder; }
      RecordedIsKeyed(ledger.files, initial, files, owns, pages);
      var receipt := ledger.ReceiptOf(folder);
      r := Delivered(receipt);
    }
  }

  lemma OneArtifact(first: bool, owned: set<Path>, files: Files, folder: Path, artifact: Artifact)
    ensures var path := folder + "/" + artifact.name;
      WithArtifacts(first, owned, files, folder, [artifact])
      == if first || path in owned || path !in files then files[path := artifact.data] else files
  {
    assert [artifact][1..] == [];
  }

  predicate IsAudioIn(folder: Path, p: Path) {
    |p| > |folder| && p[..|folder|] == folder && p[|folder|] == '/'
    && var name := p[|folder| + 1..]; '/' !in name && (name == "audio" || (|name| >= 6 && name[..6] == "audio."))
  }

  lemma StartsClean(before: Files, previous: Option<Receipt<Content>>)
    ensures Kept(before, before, {}, {})
    ensures var initial := Listed(PreviousFiles(previous)); Recorded(initial, initial, before, {}, {})
  {}

  lemma AllowedNothing(before: Files, first: bool, owned: set<Path>)
    ensures Allowed(before, {}, first, owned)
  {}

  lemma RecordedIsKeyed(
      listed: map<Path, File<Content>>, initial: map<Path, File<Content>>, now: Files, owns: set<Path>, pages: set<Path>)
    requires Recorded(listed, initial, now, owns, pages)
    ensures Keyed(listed)
  {}

  lemma StillListed(
      listed: map<Path, File<Content>>, initial: map<Path, File<Content>>, now: Files, owns: set<Path>, pages: set<Path>)
    requires Recorded(listed, initial, now, owns, pages)
    ensures initial.Keys <= listed.Keys
  {}

  // What a delivery leaves, file by file.

  function PathIn(folder: Path, name: string): Path {
    folder + "/" + name
  }

  /** One path, there with the same content or not there. */
  ghost predicate SameFile(before: Files, after: Files, p: Path) {
    (p in before <==> p in after) && (p in before ==> after[p] == before[p])
  }

  /** A file of the app's own: written on a first delivery, where the receipt owns it or where nothing is
      there, and else as it was. */
  ghost predicate Owns(first: bool, owned: set<Path>, before: Files, after: Files, p: Path, data: Content) {
    p in after && after[p] == if first || p in owned || p !in before then data else before[p]
  }

  ghost predicate DistinctArtifacts(folder: Path, artifacts: seq<Artifact>) {
    forall i, j :: 0 <= i < j < |artifacts| ==> PathIn(folder, artifacts[i].name) != PathIn(folder, artifacts[j].name)
  }

  ghost predicate DistinctPages(folder: Path, pages: seq<Page>) {
    forall i, j :: 0 <= i < j < |pages| ==> PathIn(folder, pages[i].name) != PathIn(folder, pages[j].name)
  }

  ghost predicate DistinctFiles(files: seq<File<Content>>) {
    forall i, j :: 0 <= i < j < |files| ==> files[i].path != files[j].path
  }

  ghost predicate IsArtifact(folder: Path, artifacts: seq<Artifact>, p: Path) {
    exists k :: 0 <= k < |artifacts| && PathIn(folder, artifacts[k].name) == p
  }

  ghost predicate IsPage(folder: Path, pages: seq<Page>, p: Path) {
    exists k :: 0 <= k < |pages| && PathIn(folder, pages[k].name) == p
  }

  ghost predicate IsManaged(previous: seq<File<Content>>, p: Path) {
    exists k :: 0 <= k < |previous| && previous[k].path == p && previous[k].ownership.Managed?
  }

  lemma {:induction false} ArtifactsAreWritten(
      first: bool, owned: set<Path>, files: Files, folder: Path, artifacts: seq<Artifact>, p: Path)
    requires DistinctArtifacts(folder, artifacts)
    ensures var after := WithArtifacts(first, owned, files, folder, artifacts);
      && (!IsArtifact(folder, artifacts, p) ==> SameFile(files, after, p))
      && forall k :: 0 <= k < |artifacts| && PathIn(folder, artifacts[k].name) == p ==>
           Owns(first, owned, files, after, p, artifacts[k].data)
    decreases artifacts
  {
    if artifacts != [] {
      var path := PathIn(folder, artifacts[0].name);
      var next := if first || path in owned || path !in files then files[path := artifacts[0].data] else files;
      ArtifactsAreWritten(first, owned, next, folder, artifacts[1..], p);
      if path == p {
        forall k | 0 <= k < |artifacts| - 1 ensures PathIn(folder, artifacts[1..][k].name) != p {
          assert artifacts[1..][k] == artifacts[k + 1];
        }
      } else if IsArtifact(folder, artifacts[1..], p) {
        var k :| 0 <= k < |artifacts| - 1 && PathIn(folder, artifacts[1..][k].name) == p;
        assert artifacts[k + 1] == artifacts[1..][k];
      }
      forall k | 0 < k < |artifacts| ensures artifacts[k] == artifacts[1..][k - 1] {}
    }
  }

  /** A page merged with what was there, or begun. */
  ghost predicate Merges(before: Files, after: Files, p: Path, page: Page, id: string) {
    && p in after && (p in before ==> before[p].Text?)
    && after[p] == Text(if p in before then Merge(page.line, id, before[p].text) else page.whole)
  }

  lemma {:induction false} PagesAreMerged(files: Files, folder: Path, id: string, pages: seq<Page>, p: Path)
    requires DistinctPages(folder, pages)
    ensures var done := WithPages(files, folder, id, pages);
      && (done == None <==> exists k :: 0 <= k < |pages| && var q := PathIn(folder, pages[k].name); q in files && !files[q].Text?)
      && (done.Some? && !IsPage(folder, pages, p) ==> SameFile(files, done.value, p))
      && (done.Some? ==> forall k :: 0 <= k < |pages| && PathIn(folder, pages[k].name) == p ==>
            Merges(files, done.value, p, pages[k], id))
    decreases pages
  {
    if pages != [] {
      hide Merge;
      var page, path := pages[0], PathIn(folder, pages[0].name);
      var rest := pages[1..];
      forall k | 0 < k < |pages| ensures pages[k] == rest[k - 1] && PathIn(folder, pages[k].name) != path {}
      forall k | 0 <= k < |rest| ensures rest[k] == pages[k + 1] {}
      if path in files && !files[path].Text? {
      } else {
        var next := files[path := Text(if path in files then Merge(page.line, id, files[path].text) else page.whole)];
        PagesAreMerged(next, folder, id, rest, p);
        if IsPage(folder, rest, p) {
          var k :| 0 <= k < |rest| && PathIn(folder, rest[k].name) == p;
          assert PathIn(folder, pages[k + 1].name) == p;
        }
        assert (exists k :: 0 <= k < |rest| && var q := PathIn(folder, rest[k].name); q in next && !next[q].Text?)
          <==> exists k :: 0 <= k < |pages| && var q := PathIn(folder, pages[k].name); q in files && !files[q].Text? by {
          if k :| 0 <= k < |rest| && var q := PathIn(folder, rest[k].name); q in next && !next[q].Text? {
            var q := PathIn(folder, pages[k + 1].name);
            assert q in files && !files[q].Text?;
          }
          if k :| 0 <= k < |pages| && var q := PathIn(folder, pages[k].name); q in files && !files[q].Text? {
            var q := PathIn(folder, rest[k - 1].name);
            assert q in next && !next[q].Text?;
          }
        }
      }
    }
  }

  /** A page that loses the meeting's line, if it is there and text. */
  ghost predicate Loses(before: Files, after: Files, p: Path, id: string) {
    if p in before && before[p].Text? then p in after && after[p] == Text(Remove(id, before[p].text))
    else SameFile(before, after, p)
  }

  lemma {:induction false} LinesAreRemoved(files: Files, previous: seq<File<Content>>, except: set<Path>, id: string, p: Path)
    requires DistinctFiles(previous)
    ensures var after := WithoutLine(files, previous, except, id);
      if IsManaged(previous, p) && p !in except then Loses(files, after, p, id) else SameFile(files, after, p)
    decreases previous
  {
    if previous != [] {
      hide Remove;
      var path, rest := previous[0].path, previous[1..];
      var next :=
        if previous[0].ownership.Managed? && path !in except && path in files && files[path].Text?
        then files[path := Text(Remove(id, files[path].text))] else files;
      LinesAreRemoved(next, rest, except, id, p);
      forall k | 0 <= k < |rest| ensures rest[k] == previous[k + 1] && rest[k].path != path {}
      if IsManaged(previous, p) && p != path {
        var k :| 0 <= k < |previous| && previous[k].path == p && previous[k].ownership.Managed?;
        assert rest[k - 1].path == p;
      }
    }
  }

  /** The paths of a delivery that do not get in one another's way: no two artifacts, pages or listed files
      of one path, and the app's own files apart from the pages. */
  ghost predicate PathsApart(d: ObsidianFolderDestination, e: Export, previous: seq<File<Content>>, folder: Path) {
    && DistinctArtifacts(folder, e.artifacts(folder)) && DistinctFiles(previous)
    && (e.mixdown.Some? ==> !IsArtifact(folder, e.artifacts(folder), PathIn(folder, e.mixdown.value.name)))
    && (d.peopleFolder.Some? ==>
          && DistinctPages(d.peopleFolder.value, e.pages(folder))
          && forall p :: IsPage(d.peopleFolder.value, e.pages(folder), p) || IsManaged(previous, p) ==>
               !IsArtifact(folder, e.artifacts(folder), p) && (e.mixdown.Some? ==> p != PathIn(folder, e.mixdown.value.name)))
  }

  /** What a delivery makes of one path. */
  ghost predicate DeliveredAt(d: ObsidianFolderDestination, e: Export, previous: Option<Receipt<Content>>, before: Files,
                              after: Files, folder: Path, p: Path) {
    var first, owned := previous.None?, OwnedIn(Listed(PreviousFiles(previous)));
    var artifacts, pages := e.artifacts(folder), e.pages(folder);
    if IsArtifact(folder, artifacts, p) then
      forall k :: 0 <= k < |artifacts| && PathIn(folder, artifacts[k].name) == p ==> Owns(first, owned, before, after, p, artifacts[k].data)
    else if d.includeAudio && e.mixdown.Some? && p == PathIn(folder, e.mixdown.value.name) then
      Owns(first, owned, before, after, p, e.mixdown.value.data)
    else if d.peopleFolder.Some? && IsPage(d.peopleFolder.value, pages, p) then
      forall k :: 0 <= k < |pages| && PathIn(d.peopleFolder.value, pages[k].name) == p ==> Merges(before, after, p, pages[k], e.id)
    else if d.peopleFolder.Some? && IsManaged(PreviousFiles(previous), p) then Loses(before, after, p, e.id)
    else SameFile(before, after, p)
  }

  lemma PagesOfPaths(folder: Path, pages: seq<Page>, p: Path)
    ensures p in PathsOf(folder, pages) <==> IsPage(folder, pages, p)
  {
    if p in PathsOf(folder, pages) {
      var page :| page in pages && folder + "/" + page.name == p;
      var k :| 0 <= k < |pages| && pages[k] == page;
    }
  }

  /** What the pages of a delivery make of one path. */
  ghost predicate PagedAt(d: ObsidianFolderDestination, e: Export, previous: seq<File<Content>>, before: Files, after: Files,
                          folder: Path, p: Path) {
    var pages := e.pages(folder);
    if d.peopleFolder.Some? && IsPage(d.peopleFolder.value, pages, p) then
      forall k :: 0 <= k < |pages| && PathIn(d.peopleFolder.value, pages[k].name) == p ==> Merges(before, after, p, pages[k], e.id)
    else if d.peopleFolder.Some? && IsManaged(previous, p) then Loses(before, after, p, e.id)
    else SameFile(before, after, p)
  }

  lemma PagesLeave(d: ObsidianFolderDestination, e: Export, previous: seq<File<Content>>, files: Files, folder: Path, p: Path)
    requires d.peopleFolder.Some? ==> DistinctPages(d.peopleFolder.value, e.pages(folder)) && DistinctFiles(previous)
    requires d.AfterPages(e, previous, files, folder).Some?
    ensures PagedAt(d, e, previous, files, d.AfterPages(e, previous, files, folder).value, folder, p)
  {
    if d.peopleFolder.Some? {
      var people, pages := d.peopleFolder.value, e.pages(folder);
      PagesAreMerged(files, people, e.id, pages, p);
      LinesAreRemoved(WithPages(files, people, e.id, pages).value, previous, PathsOf(people, pages), e.id, p);
      PagesOfPaths(people, pages, p);
    }
    hide WithPages, WithoutLine, Merge, Remove, PathsOf, DistinctPages, DistinctFiles, IsPage, IsManaged, PathIn;
  }

  /** The artifacts first, then the pages, then the audio. */
  lemma StagesLeave(d: ObsidianFolderDestination, e: Export, previous: Option<Receipt<Content>>, files: Files, written: Files,
                    paged: Files, after: Files, folder: Path, p: Path)
    requires PathsApart(d, e, PreviousFiles(previous), folder)
    requires var first, owned := previous.None?, OwnedIn(Listed(PreviousFiles(previous)));
      && (!IsArtifact(folder, e.artifacts(folder), p) ==> SameFile(files, written, p))
      && (forall k :: 0 <= k < |e.artifacts(folder)| && PathIn(folder, e.artifacts(folder)[k].name) == p ==>
            Owns(first, owned, files, written, p, e.artifacts(folder)[k].data))
      && (d.includeAudio && e.mixdown.Some? ==>
            var path := PathIn(folder, e.mixdown.value.name);
            after == if first || path in owned || path !in paged then paged[path := e.mixdown.value.data] else paged)
    requires PagedAt(d, e, PreviousFiles(previous), written, paged, folder, p)
    requires !(d.includeAudio && e.mixdown.Some?) ==> after == paged
    ensures DeliveredAt(d, e, previous, files, after, folder, p)
  {
    var artifacts := e.artifacts(folder);
    if IsArtifact(folder, artifacts, p) {
      assert SameFile(written, paged, p) by { hide Merges, Loses, Owns, IsArtifact, Listed, OwnedIn; }
      assert SameFile(paged, after, p);
    } else {
      hide IsArtifact, IsPage, IsManaged, Merge, Remove, Listed, OwnedIn, PathIn, PreviousFiles;
    }
  }

  /** Main result: every path after a delivery without a fault. Each artifact and the mixdown are written
      where they may be, each page of a person is merged or begun, each listed page that was not rendered
      loses the meeting's line, and no other file has changed. */
  lemma WhatADeliveryLeaves(d: ObsidianFolderDestination, e: Export, previous: Option<Receipt<Content>>, files: Files, folder: Path,
                            p: Path)
    requires PathsApart(d, e, PreviousFiles(previous), folder) && d.AfterDelivery(e, previous, files, folder).Some?
    ensures DeliveredAt(d, e, previous, files, d.AfterDelivery(e, previous, files, folder).value, folder, p)
  {
    var first, owned := previous.None?, OwnedIn(Listed(PreviousFiles(previous)));
    var written := WithArtifacts(first, owned, files, folder, e.artifacts(folder));
    ArtifactsAreWritten(first, owned, files, folder, e.artifacts(folder), p);
    var paged := d.AfterPages(e, PreviousFiles(previous), written, folder).value;
    PagesLeave(d, e, PreviousFiles(previous), written, folder, p);
    if d.includeAudio && e.mixdown.Some? { OneArtifact(first, owned, paged, folder, e.mixdown.value); }
    var after := d.AfterDelivery(e, previous, files, folder).value;
    hide ObsidianFolderDestination.AfterPages, WithArtifacts, Listed, OwnedIn, PreviousFiles, DistinctArtifacts, DistinctPages,
         DistinctFiles, IsArtifact, IsPage, IsManaged, Owns, PagedAt, SameFile, DeliveredAt;
    StagesLeave(d, e, previous, files, written, paged, after, folder, p);
  }

  // Every run of deliveries.

  /** One meeting's deliveries to one root: the stored receipt, and every path they ever opened. */
  class History {
    const destination: ObsidianFolderDestination
    var stored: Option<Receipt<Content>>
    ghost var ever: set<Path>

    /** The stored receipt is of this root, sorted, lists each path once and nothing the app never
        opened. */
    ghost predicate Valid()
      reads this
    {
      stored.Some? ==>
        && stored.value.root == destination.root
        && Ascending(stored.value.files)
        && Listed(stored.value.files).Keys <= ever
    }

    constructor (destination: ObsidianFolderDestination)
      ensures Valid() && this.destination == destination && stored == None
    {
      this.destination := destination;
      stored := None;
      ever := {};
    }

    /** The user may do anything to the vault between deliveries. */
    method UserEdits(files: Files, folders: set<Path>)
      requires Valid()
      modifies destination`files, destination`folders
      ensures Valid() && stored == old(stored)
    {
      destination.files, destination.folders := files, folders;
    }

    /** Main result: after a first delivery, no delivery of any run opens as its own a file that was
        there and that the app never wrote, and no receipt loses a path. */
    method Deliver(e: Export, faults: set<Path>) returns (r: Outcome)
      requires Valid() && Renders(e)
      modifies this, destination`files, destination`folders, destination`owns, destination`pages
      ensures Valid()
      ensures stored == if r.Delivered? then Some(r.receipt) else old(stored)
      ensures old(stored.Some?) ==> stored.Some? && Listed(old(stored).value.files).Keys <= Listed(stored.value.files).Keys
      ensures old(stored.Some?) ==>
        forall p :: p in old(destination.files) && p !in old(ever) && p !in destination.pages ==>
          p in destination.files && destination.files[p] == old(destination.files)[p]
      ensures old(stored.Some?) ==>
        forall p :: p in old(destination.files) && p !in old(ever) && p in destination.pages ==>
          p in destination.files && KeptPage(old(destination.files)[p], destination.files[p])
    {
      hide KeptPage, Ascending, Fits, Ready;
      ghost var before := destination.files;
      var folder: Path;
      r, folder := destination.Deliver(e, stored, faults);
      ghost var listed := Listed(PreviousFiles(stored));
      assert stored.Some? ==> OwnedIn(listed) <= ever;
      if r.Delivered? { stored := Some(r.receipt); }
      ever := ever + destination.owns + destination.pages;
    }
  }

  lemma Within(rendered: seq<Page>, i: nat, folder: Path)
    requires i < |rendered|
    ensures PathsOf(folder, rendered[..i + 1]) <= PathsOf(folder, rendered)
    ensures PathsOf(folder, rendered[..i + 1]) == PathsOf(folder, rendered[..i]) + {folder + "/" + rendered[i].name}
  {
    assert rendered[..i + 1] == rendered[..i] + [rendered[i]];
    forall page | page in rendered[..i + 1] ensures page in rendered {}
  }

  function ManagedIn(files: seq<File<Content>>): set<Path> {
    set f | f in files && f.ownership.Managed? :: f.path
  }

  /** A merged page keeps what is outside its block. */
  lemma MergedPage(before: Files, now: Files, owns: set<Path>, pages: set<Path>, p: Path, line: string, id: string)
    requires Kept(before, now, owns, pages) && Fits(line) && p in now && now[p].Text?
    ensures p in before && p !in owns ==> KeptPage(before[p], Text(Merge(line, id, now[p].text)))
  {
    hide Locate, Front, Back, Ready, Merge, LinesOf, MergedLines, Body;
    if p in before && p !in owns && Ready(now[p].text) {
      MergeKeepsTheRest(line, id, now[p].text);
    }
  }

  /** So does a page that loses a line. */
  lemma CleanedPage(before: Files, now: Files, owns: set<Path>, pages: set<Path>, p: Path, id: string)
    requires Kept(before, now, owns, pages) && p in now && now[p].Text? && '\n' !in id
    requires Remove(id, now[p].text) != now[p].text
    ensures p in before && p !in owns ==> KeptPage(before[p], Text(Remove(id, now[p].text)))
  {
    if p in before && p !in owns && Ready(now[p].text) {
      assert Locate(now[p].text).Some?;
      hide Locate, Front, Back, Remove, LinesOf, Body, RawLines, Without, Find, Contains;
      RemoveKeepsTheRest(id, now[p].text);
      ReadyWhenLocated(Remove(id, now[p].text));
    }
  }
}
