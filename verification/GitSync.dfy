/** Syncing the documents of a Git repository to a knowledge server, in full or by changed files only. */
module GitSync {
  import opened Basics
  import opened Text

  // ---------------------------------------------------------------- entities

  type Path = string
  type Commit = string
  type Tree = map<Path, string>
  type Metadata = map<string, string>

  /** `accepts` says whether the include and exclude patterns select a path. */
  datatype Spec = Spec(repository: string, branch: string, endpoint: string, accepts: Path -> bool, maxFileSize: Option<int>,
                       metadata: Metadata)

  datatype Document = Document(content: string, metadata: Metadata)
  datatype Location = Location(endpoint: string, uri: string)
  type Documents = map<Location, Document>

  datatype Phase = Pending | Syncing | Synced | Error
  datatype Status = Status(phase: Phase, observedGeneration: int, lastSyncedCommit: Commit, documentCount: int, syncErrors: nat,
                           skippedFiles: seq<Path>)

  /** What never changes: the source's name, the spec of each generation, the commits, and how addresses are parsed. */
  datatype Setting = Setting(source: string, specs: int -> Spec, trees: Commit -> Tree, browsable: string -> string)

  /** What Git answers to one reconcile; not ready means no credentials or no clone. */
  datatype Git = Git(ready: bool, head: Option<Commit>, diffFails: bool, lastInHistory: bool, patch: Option<seq<Path>>,
                     listing: Option<seq<Path>>)

  /** The files that cannot be read, and those whose ingestion fails in spite of retries. */
  datatype Trouble = Trouble(unreadable: set<Path>, refused: set<Path>)

  datatype Encounter = Encounter(syncingWritten: bool, git: Git, trouble: Trouble, timedOut: bool, resultWritten: bool)

  // ---------------------------------------------------------------- documents

  function TrimSuffix(s: string, suffix: string): string {
    if HasSuffix(s, suffix) then s[..|s| - |suffix|] else s
  }

  function DocumentRoot(setting: Setting, spec: Spec): string {
    setting.browsable(TrimSuffix(spec.repository, ".git")) + "/blob/" + (if spec.branch == "" then "main" else spec.branch) + "/"
  }

  function LocationOf(setting: Setting, spec: Spec, path: Path): Location {
    Location(spec.endpoint, DocumentRoot(setting, spec) + path)
  }

  lemma LocationInjective(setting: Setting, spec: Spec, a: Path, b: Path)
    requires LocationOf(setting, spec, a) == LocationOf(setting, spec, b)
    ensures a == b
  {
    var root := DocumentRoot(setting, spec);
    assert a == (root + a)[|root|..];
    assert b == (root + b)[|root|..];
  }

  function DocumentOf(setting: Setting, spec: Spec, content: string): Document {
    Document(content, spec.metadata["sourceIdentifier" := setting.source])
  }

  predicate Fits(spec: Spec, content: string) {
    spec.maxFileSize.Some? ==> |content| <= spec.maxFileSize.value
  }

  /** A file that the source promises to keep in the knowledge base. */
  predicate Eligible(spec: Spec, tree: Tree, path: Path) {
    path in tree && spec.accepts(path) && Fits(spec, tree[path])
  }

  predicate SameAt(a: Documents, b: Documents, at: Location) {
    (at in a <==> at in b) && (at in a ==> a[at] == b[at])
  }

  /** The knowledge base holds the file as it is in the tree. */
  predicate Holds(setting: Setting, spec: Spec, tree: Tree, documents: Documents, path: Path)
    requires path in tree
  {
    var at := LocationOf(setting, spec, path);
    at in documents && documents[at] == DocumentOf(setting, spec, tree[path])
  }

  ghost predicate Mirrors(setting: Setting, spec: Spec, tree: Tree, documents: Documents) {
    forall path | Eligible(spec, tree, path) :: Holds(setting, spec, tree, documents, path)
  }

  // ---------------------------------------------------------------- what it means to hold a file, field by field

  /** Where the file's document lies: the browsable address of the repository without ".git", the branch and the path. */
  ghost predicate Addresses(setting: Setting, spec: Spec, path: Path, at: Location) {
    && at.endpoint == spec.endpoint
    && exists base :: IsBase(spec.repository, base)
                      && at.uri == setting.browsable(base) + "/blob/" + (if spec.branch == "" then "main" else spec.branch) + "/" + path
  }

  predicate IsBase(repository: string, base: string) {
    repository == base + ".git" || (repository == base && !(|base| >= 4 && base[|base| - 4..] == ".git"))
  }

  /** The document has the content, names the source, and has all other metadata from the spec. */
  ghost predicate Describes(setting: Setting, spec: Spec, document: Document, content: string) {
    && document.content == content
    && (forall key :: key in document.metadata <==> key == "sourceIdentifier" || key in spec.metadata)
    && document.metadata["sourceIdentifier"] == setting.source
    && (forall key | key in spec.metadata && key != "sourceIdentifier" :: document.metadata[key] == spec.metadata[key])
  }

  ghost predicate HeldAs(setting: Setting, spec: Spec, documents: Documents, path: Path, content: string) {
    exists at :: Addresses(setting, spec, path, at) && at in documents && Describes(setting, spec, documents[at], content)
  }

  lemma BaseIsTrimmed(repository: string, base: string)
    ensures IsBase(repository, base) <==> base == TrimSuffix(repository, ".git")
  {
    if repository == base + ".git" {
      assert repository[|repository| - 4..] == ".git" && repository[..|repository| - 4] == base;
    }
    if HasSuffix(repository, ".git") {
      assert repository == repository[..|repository| - 4] + ".git";
    }
  }

  lemma AddressIsLocation(setting: Setting, spec: Spec, path: Path, at: Location)
    ensures Addresses(setting, spec, path, at) <==> at == LocationOf(setting, spec, path)
  {
    forall base
      ensures IsBase(spec.repository, base) <==> base == TrimSuffix(spec.repository, ".git")
    {
      BaseIsTrimmed(spec.repository, base);
    }
  }

  lemma DescribesIsDocument(setting: Setting, spec: Spec, document: Document, content: string)
    ensures Describes(setting, spec, document, content) <==> document == DocumentOf(setting, spec, content)
  {
    if Describes(setting, spec, document, content) {
      assert document.metadata == DocumentOf(setting, spec, content).metadata;
    }
  }

  lemma HeldOnFields(setting: Setting, spec: Spec, tree: Tree, documents: Documents, path: Path)
    requires path in tree
    ensures Holds(setting, spec, tree, documents, path) <==> HeldAs(setting, spec, documents, path, tree[path])
  {
    var at := LocationOf(setting, spec, path);
    AddressIsLocation(setting, spec, path, at);
    if at in documents {
      DescribesIsDocument(setting, spec, documents[at], tree[path]);
    }
    forall other | Addresses(setting, spec, path, other)
      ensures other == at
    {
      AddressIsLocation(setting, spec, path, other);
    }
  }

  // ---------------------------------------------------------------- which files a sync processes

  /** The changed files since the last synced commit, or none when the history does not tell. */
  function ChangedFiles(last: Commit, head: Commit, git: Git): Option<seq<Path>> {
    if last == "" || !git.lastInHistory then None
    else if head == last then Some([])
    else git.patch
  }

  function FilterFiles(spec: Spec, files: seq<Path>): (kept: seq<Path>)
    ensures forall path :: path in kept <==> path in files && spec.accepts(path)
  {
    if |files| == 0 then []
    else
      var front := FilterFiles(spec, files[..|files| - 1]);
      var last := files[|files| - 1];
      assert files == files[..|files| - 1] + [last];
      if spec.accepts(last) then front + [last] else front
  }

  datatype Plan = Plan(full: bool, files: seq<Path>)

  /** An incremental plan needs the same spec, a last commit and a diff; otherwise every file is processed. */
  function PlanFor(spec: Spec, specChanged: bool, last: Commit, head: Commit, git: Git): Option<Plan> {
    var changed := if last != "" && !specChanged && !git.diffFails then ChangedFiles(last, head, git) else None;
    if changed.Some? then Some(Plan(false, FilterFiles(spec, changed.value)))
    else if git.listing.Some? then Some(Plan(true, FilterFiles(spec, git.listing.value)))
    else None
  }

  // ---------------------------------------------------------------- the file loop

  datatype Outcome = Unreadable | TooLarge | Refused | Ingested

  function OutcomeOf(spec: Spec, tree: Tree, trouble: Trouble, path: Path): Outcome {
    if path !in tree || path in trouble.unreadable then Unreadable
    else if !Fits(spec, tree[path]) then TooLarge
    else if path in trouble.refused then Refused
    else Ingested
  }

  datatype Tally = Tally(documents: nat, errors: nat, skipped: seq<Path>)

  function Counted(tally: Tally, path: Path, outcome: Outcome): Tally {
    match outcome
    case Ingested => tally.(documents := tally.documents + 1)
    case TooLarge => tally.(skipped := tally.skipped + [path])
    case Refused => tally.(errors := tally.errors + 1)
    case Unreadable => tally.(errors := tally.errors + 1)
  }

  function TallyOf(spec: Spec, tree: Tree, trouble: Trouble, files: seq<Path>): (tally: Tally)
    ensures tally.documents + tally.errors + |tally.skipped| == |files|
    ensures tally.errors == 0 <==> forall path | path in files :: OutcomeOf(spec, tree, trouble, path) in {Ingested, TooLarge}
    ensures forall path :: path in tally.skipped <==> path in files && OutcomeOf(spec, tree, trouble, path) == TooLarge
  {
    if |files| == 0 then Tally(0, 0, [])
    else
      var front, last := files[..|files| - 1], files[|files| - 1];
      assert files == front + [last];
      Counted(TallyOf(spec, tree, trouble, front), last, OutcomeOf(spec, tree, trouble, last))
  }

  /** What the loop did to the place of a processed file; a refused ingestion may leave anything there. */
  predicate Landed(setting: Setting, spec: Spec, tree: Tree, trouble: Trouble, before: Documents, after: Documents, path: Path) {
    match OutcomeOf(spec, tree, trouble, path)
    case Ingested => Holds(setting, spec, tree, after, path)
    case Refused => true
    case Unreadable => SameAt(after, before, LocationOf(setting, spec, path))
    case TooLarge => SameAt(after, before, LocationOf(setting, spec, path))
  }

  ghost predicate Outside(setting: Setting, spec: Spec, files: seq<Path>, at: Location) {
    forall path | path in files :: at != LocationOf(setting, spec, path)
  }

  ghost predicate Processed(setting: Setting, spec: Spec, tree: Tree, trouble: Trouble, files: seq<Path>, before: Documents, after: Documents) {
    && (forall at | Outside(setting, spec, files, at) :: SameAt(after, before, at))
    && (forall path | path in files :: Landed(setting, spec, tree, trouble, before, after, path))
  }

  /** The knowledge servers; a refused ingestion may leave anything at its own location. */
  class Knowledge {
    var documents: Documents

    constructor (documents: Documents)
      ensures this.documents == documents
    {
      this.documents := documents;
    }

    method IngestDocument(at: Location, document: Document, refused: bool) returns (ok: bool)
      modifies this
      ensures forall other | other != at :: SameAt(documents, old(documents), other)
      ensures ok == !refused
      ensures ok ==> at in documents && documents[at] == document
    {
      var reached: bool := *;
      var leftover: Document := *;
      if !refused {
        documents := documents[at := document];
      } else if reached {
        documents := documents[at := leftover];
      }
      return !refused;
    }
  }

  method GetFileContent(tree: Tree, path: Path, trouble: Trouble) returns (content: Option<string>)
    ensures content == if path in tree && path !in trouble.unreadable then Some(tree[path]) else None
  {
    content := if path in tree && path !in trouble.unreadable then Some(tree[path]) else None;
  }

  lemma UnprocessedStays(setting: Setting, spec: Spec, tree: Tree, trouble: Trouble, files: seq<Path>, before: Documents, after: Documents, path: Path)
    requires Processed(setting, spec, tree, trouble, files, before, after) && path !in files
    ensures SameAt(after, before, LocationOf(setting, spec, path))
  {
    forall other | other in files
      ensures LocationOf(setting, spec, path) != LocationOf(setting, spec, other)
    {
      if LocationOf(setting, spec, path) == LocationOf(setting, spec, other) {
        LocationInjective(setting, spec, path, other);
      }
    }
    assert Outside(setting, spec, files, LocationOf(setting, spec, path));
  }

  /** One more file: it lands, and nothing else moves. */
  lemma ProcessedOneMore(setting: Setting, spec: Spec, tree: Tree, trouble: Trouble, files: seq<Path>, path: Path,
                         before: Documents, middle: Documents, after: Documents)
    requires Processed(setting, spec, tree, trouble, files, before, middle)
    requires forall at | at != LocationOf(setting, spec, path) :: SameAt(after, middle, at)
    requires Landed(setting, spec, tree, trouble, middle, after, path)
    ensures Processed(setting, spec, tree, trouble, files + [path], before, after)
  {
    forall at | Outside(setting, spec, files + [path], at)
      ensures SameAt(after, before, at)
    {
      assert path in files + [path];
      assert Outside(setting, spec, files, at) by {
        assert forall other | other in files :: other in files + [path];
      }
      assert SameAt(middle, before, at) && SameAt(after, middle, at);
    }
    forall other | other in files + [path]
      ensures Landed(setting, spec, tree, trouble, before, after, other)
    {
      if other in files {
        assert Landed(setting, spec, tree, trouble, before, middle, other);
        if LocationOf(setting, spec, other) == LocationOf(setting, spec, path) {
          LocationInjective(setting, spec, other, path);
        } else {
          assert SameAt(after, middle, LocationOf(setting, spec, other));
        }
      } else {
        UnprocessedStays(setting, spec, tree, trouble, files, before, middle, path);
      }
    }
  }

  method ProcessFile(knowledge: Knowledge, setting: Setting, spec: Spec, tree: Tree, trouble: Trouble, path: Path, tally: Tally)
    returns (tally': Tally)
    modifies knowledge
    ensures tally' == Counted(tally, path, OutcomeOf(spec, tree, trouble, path))
    ensures forall at | at != LocationOf(setting, spec, path) :: SameAt(knowledge.documents, old(knowledge.documents), at)
    ensures Landed(setting, spec, tree, trouble, old(knowledge.documents), knowledge.documents, path)
    ensures path !in tree || path in trouble.unreadable || tally'.skipped != tally.skipped ==> knowledge.documents == old(knowledge.documents)
    ensures tally'.documents > tally.documents ==> path in tree && HeldAs(setting, spec, knowledge.documents, path, tree[path])
  {
    var content := GetFileContent(tree, path, trouble);
    if content.None? {
      return tally.(errors := tally.errors + 1);
    }
    if spec.maxFileSize.Some? && |content.value| > spec.maxFileSize.value {
      return tally.(skipped := tally.skipped + [path]);
    }
    var metadata := spec.metadata["sourceIdentifier" := setting.source];
    var ok := knowledge.IngestDocument(LocationOf(setting, spec, path), Document(content.value, metadata), path in trouble.refused);
    if ok {
      HeldOnFields(setting, spec, tree, knowledge.documents, path);
    }
    tally' := if ok then tally.(documents := tally.documents + 1) else tally.(errors := tally.errors + 1);
  }

  method ProcessFiles(knowledge: Knowledge, setting: Setting, spec: Spec, tree: Tree, trouble: Trouble, files: seq<Path>) returns (tally: Tally)
    modifies knowledge
    ensures tally == TallyOf(spec, tree, trouble, files)
    ensures Processed(setting, spec, tree, trouble, files, old(knowledge.documents), knowledge.documents)
  {
    tally := Tally(0, 0, []);
    for i := 0 to |files|
      invariant tally == TallyOf(spec, tree, trouble, files[..i])
      invariant Processed(setting, spec, tree, trouble, files[..i], old(knowledge.documents), knowledge.documents)
    {
      ghost var middle := knowledge.documents;
      tally := ProcessFile(knowledge, setting, spec, tree, trouble, files[i], tally);
      ProcessedOneMore(setting, spec, tree, trouble, files[..i], files[i], old(knowledge.documents), middle, knowledge.documents);
      assert files[..i + 1] == files[..i] + [files[i]];
    }
    assert files[..|files|] == files;
  }

  // ---------------------------------------------------------------- one reconcile

  /** How a reconcile went; `written` says whether the API server stored the final status. */
  datatype Sync =
    | NotStarted
    | Stopped(written: bool)
    | Done(head: Commit, plan: Plan, tally: Tally, written: bool)

  datatype World = World(generation: int, status: Status, documents: Documents)

  /** The status that a completed sync computes. */
  function StatusAfter(status: Status, generation: int, sync: Sync, timedOut: bool): Status
    requires sync.Done?
  {
    Status(if sync.tally.errors > 0 || timedOut then Error else Synced, generation, sync.head,
           status.documentCount + sync.tally.documents, sync.tally.errors,
           if |sync.plan.files| > 0 then sync.tally.skipped else status.skippedFiles)
  }

  function SpecOf(setting: Setting, w: World): Spec {
    setting.specs(w.generation)
  }

  /** What a reconcile processes, unless it stops before that. */
  function Planned(spec: Spec, specChanged: bool, last: Commit, git: Git): Option<Plan> {
    if !git.ready || git.head.None? then None else PlanFor(spec, specChanged, last, git.head.value, git)
  }

  /** The part of a completed sync that does not depend on whether its result was stored. */
  ghost predicate Completed(setting: Setting, spec: Spec, e: Encounter, sync: Sync, before: Documents, after: Documents)
    requires sync.Done?
  {
    && e.git.head == Some(sync.head)
    && sync.tally == TallyOf(spec, setting.trees(sync.head), e.trouble, sync.plan.files)
    && Processed(setting, spec, setting.trees(sync.head), e.trouble, sync.plan.files, before, after)
  }

  function PlanOf(setting: Setting, w: World, e: Encounter): Option<Plan> {
    Planned(SpecOf(setting, w), w.generation != w.status.observedGeneration, w.status.lastSyncedCommit, e.git)
  }

  /** A reconcile that went as `sync` says, from one world to the next. */
  ghost predicate Follows(setting: Setting, w: World, e: Encounter, sync: Sync, w': World) {
    && w'.generation == w.generation
    && (sync.NotStarted? <==> !e.syncingWritten)
    && match sync
       case NotStarted => w' == w
       case Stopped(written) =>
         && written == e.resultWritten && PlanOf(setting, w, e) == None
         && w' == w.(status := w.status.(phase := if written then Error else Syncing))
       case Done(_, plan, _, written) =>
         && written == e.resultWritten && PlanOf(setting, w, e) == Some(plan)
         && Completed(setting, SpecOf(setting, w), e, sync, w.documents, w'.documents)
         && w'.status == if written then StatusAfter(w.status, w.generation, sync, e.timedOut) else w.status.(phase := Syncing)
  }

  /** The source object in the API server. */
  class SourceObject {
    var generation: int
    var status: Status

    constructor (generation: int, status: Status)
      ensures this.generation == generation && this.status == status
    {
      this.generation, this.status := generation, status;
    }

    method UpdateStatus(status: Status, accepted: bool)
      modifies this`status
      ensures this.status == if accepted then status else old(this.status)
    {
      if accepted {
        this.status := status;
      }
    }
  }

  class GitKnowledgeSourceReconciler {
    const source: SourceObject
    const knowledge: Knowledge
    const setting: Setting

    constructor (source: SourceObject, knowledge: Knowledge, setting: Setting)
      ensures this.source == source && this.knowledge == knowledge && this.setting == setting
    {
      this.source, this.knowledge, this.setting := source, knowledge, setting;
    }

    ghost function Now(): World
      reads source, knowledge
    {
      World(source.generation, source.status, knowledge.documents)
    }

    method Reconcile(e: Encounter) returns (sync: Sync)
      modifies source`status, knowledge
      ensures Follows(setting, old(Now()), e, sync, Now())
    {
      var specChanged := source.generation != source.status.observedGeneration;
      var status := source.status.(phase := Syncing);
      source.UpdateStatus(status, e.syncingWritten);
      if !e.syncingWritten {
        return NotStarted;
      }
      status, sync := DoSync(e, status, specChanged);
      if e.timedOut {
        status := status.(phase := Error);
      }
      source.UpdateStatus(status, e.resultWritten);
    }

    /** The changed files if the history tells them, else all files. */
    method FilesToProcess(spec: Spec, specChanged: bool, last: Commit, head: Commit, git: Git) returns (plan: Option<Plan>)
      ensures plan == PlanFor(spec, specChanged, last, head, git)
    {
      if last != "" && !specChanged {
        if !git.diffFails {
          var changed := ChangedFiles(last, head, git);
          if changed.Some? {
            return Some(Plan(false, FilterFiles(spec, changed.value)));
          }
        }
      }
      if git.listing.None? {
        return None;
      }
      return Some(Plan(true, FilterFiles(spec, git.listing.value)));
    }

    /** Works on a copy of the status; a sync that stops early leaves all of it but the phase. */
    method DoSync(e: Encounter, status: Status, specChanged: bool) returns (status': Status, sync: Sync)
      modifies knowledge
      ensures var spec := setting.specs(source.generation);
              match Planned(spec, specChanged, status.lastSyncedCommit, e.git)
              case None =>
                sync == Stopped(e.resultWritten) && status' == status.(phase := Error) && knowledge.documents == old(knowledge.documents)
              case Some(plan) =>
                && sync.Done? && sync.plan == plan && sync.written == e.resultWritten
                && Completed(setting, spec, e, sync, old(knowledge.documents), knowledge.documents)
                && status' == StatusAfter(status, source.generation, sync, false)
    {
      var spec := setting.specs(source.generation);
      if !e.git.ready || e.git.head.None? {
        return status.(phase := Error), Stopped(e.resultWritten);
      }
      var head := e.git.head.value;
      var plan := FilesToProcess(spec, specChanged, status.lastSyncedCommit, head, e.git);
      if plan.None? {
        return status.(phase := Error), Stopped(e.resultWritten);
      }
      var files := plan.value.files;
      var tally := ProcessFiles(knowledge, setting, spec, setting.trees(head), e.trouble, files);
      sync := Done(head, plan.value, tally, e.resultWritten);
      status' := RecordSync(status, source.generation, sync);
    }

    /** Skipped files are only recorded by a sync that processed some. */
    method RecordSync(status: Status, generation: int, sync: Sync) returns (status': Status)
      requires sync.Done?
      ensures status' == StatusAfter(status, generation, sync, false)
    {
      var tally := sync.tally;
      status' := status.(observedGeneration := generation, lastSyncedCommit := sync.head,
                         documentCount := status.documentCount + tally.documents, syncErrors := tally.errors);
      if |sync.plan.files| > 0 {
        status' := status'.(skippedFiles := tally.skipped);
      }
      status' := status'.(phase := if tally.errors == 0 then Synced else Error);
    }
  }

  // ---------------------------------------------------------------- incremental against full

  /** Every file of the head that the last commit lacks or has with other content is in the list. */
  ghost predicate CompleteDiff(before: Tree, after: Tree, files: seq<Path>) {
    forall path | path in after && !(path in before && before[path] == after[path]) :: path in files
  }

  /** The library's part: listings are exact, diffs complete, and a head has a hash. */
  ghost predicate Sound(setting: Setting, w: World, e: Encounter) {
    e.git.head.Some? ==>
      var tree := setting.trees(e.git.head.value);
      && e.git.head.value != ""
      && (e.git.listing.Some? ==> forall path :: path in e.git.listing.value <==> path in tree)
      && (e.git.patch.Some? ==> CompleteDiff(setting.trees(w.status.lastSyncedCommit), tree, e.git.patch.value))
  }

  /** A full sync without errors mirrors the head, whatever the knowledge base held before. */
  lemma FullSyncMirrors(setting: Setting, w: World, e: Encounter, sync: Sync, w': World)
    requires Follows(setting, w, e, sync, w') && Sound(setting, w, e)
    requires sync.Done? && sync.plan.full && sync.tally.errors == 0
    ensures Mirrors(setting, SpecOf(setting, w), setting.trees(sync.head), w'.documents)
  {
    var spec, tree := SpecOf(setting, w), setting.trees(sync.head);
    forall path | Eligible(spec, tree, path)
      ensures Holds(setting, spec, tree, w'.documents, path)
    {
      assert path in sync.plan.files;
      assert Landed(setting, spec, tree, e.trouble, w.documents, w'.documents, path);
    }
  }

  /**
    Whatever else went wrong, an eligible file that was not refused is held with the head's content after
    a sync exactly if the sync listed and read it or it was already held.
   */
  lemma FileHeldIff(setting: Setting, w: World, e: Encounter, sync: Sync, w': World, path: Path)
    requires Follows(setting, w, e, sync, w') && sync.Done? && (path in sync.plan.files ==> path !in e.trouble.refused)
    requires Eligible(SpecOf(setting, w), setting.trees(sync.head), path)
    ensures var spec, tree := SpecOf(setting, w), setting.trees(sync.head);
            Holds(setting, spec, tree, w'.documents, path) <==>
              (path in sync.plan.files && path !in e.trouble.unreadable) || Holds(setting, spec, tree, w.documents, path)
  {
    var spec, tree := SpecOf(setting, w), setting.trees(sync.head);
    if path in sync.plan.files {
      assert Landed(setting, spec, tree, e.trouble, w.documents, w'.documents, path);
    } else {
      UnprocessedStays(setting, spec, tree, e.trouble, sync.plan.files, w.documents, w'.documents, path);
    }
  }

  /** A sync without errors mirrors the head exactly when every eligible file that it did not process was already held. */
  lemma ErrorFreeSyncMirrorsIff(setting: Setting, w: World, e: Encounter, sync: Sync, w': World)
    requires Follows(setting, w, e, sync, w') && sync.Done? && sync.tally.errors == 0
    ensures var spec, tree := SpecOf(setting, w), setting.trees(sync.head);
            Mirrors(setting, spec, tree, w'.documents) <==>
              forall path | Eligible(spec, tree, path) && path !in sync.plan.files :: Holds(setting, spec, tree, w.documents, path)
  {
    var spec, tree := SpecOf(setting, w), setting.trees(sync.head);
    forall path | Eligible(spec, tree, path)
      ensures Holds(setting, spec, tree, w'.documents, path) <==>
                path in sync.plan.files || Holds(setting, spec, tree, w.documents, path)
    {
      assert path in sync.plan.files ==> OutcomeOf(spec, tree, e.trouble, path) == Ingested;
      FileHeldIff(setting, w, e, sync, w', path);
    }
  }

  /** A sync processes every file exactly if the spec changed or the history does not tell what changed. */
  lemma FullSyncIff(setting: Setting, w: World, e: Encounter, sync: Sync, w': World)
    requires Follows(setting, w, e, sync, w') && sync.Done?
    ensures sync.plan.full <==>
              || w.generation != w.status.observedGeneration || w.status.lastSyncedCommit == ""
              || e.git.diffFails || !e.git.lastInHistory
              || (sync.head != w.status.lastSyncedCommit && e.git.patch.None?)
  {
  }

  /** The processed files: the accepted ones of the listing, or of the patch since the last synced commit. */
  lemma PlannedFilesIff(setting: Setting, w: World, e: Encounter, sync: Sync, w': World, path: Path)
    requires Follows(setting, w, e, sync, w') && sync.Done?
    ensures path in sync.plan.files <==>
              && setting.specs(w.generation).accepts(path)
              && if sync.plan.full then e.git.listing.Some? && path in e.git.listing.value
                 else sync.head != w.status.lastSyncedCommit && e.git.patch.Some? && path in e.git.patch.value
  {
  }

  /** From a mirrored last commit, an incremental sync without errors does what a full one would. */
  lemma IncrementalSyncMirrors(setting: Setting, w: World, e: Encounter, sync: Sync, w': World)
    requires Follows(setting, w, e, sync, w') && Sound(setting, w, e)
    requires sync.Done? && !sync.plan.full && sync.tally.errors == 0
    requires Mirrors(setting, SpecOf(setting, w), setting.trees(w.status.lastSyncedCommit), w.documents)
    ensures Mirrors(setting, SpecOf(setting, w), setting.trees(sync.head), w'.documents)
  {
    var spec, before, tree := SpecOf(setting, w), setting.trees(w.status.lastSyncedCommit), setting.trees(sync.head);
    forall path | Eligible(spec, tree, path) && path !in sync.plan.files
      ensures Holds(setting, spec, tree, w.documents, path)
    {
      assert path in before && before[path] == tree[path];
      assert Eligible(spec, before, path);
    }
    ErrorFreeSyncMirrorsIff(setting, w, e, sync, w');
  }

  // ---------------------------------------------------------------- whole runs

  datatype Event = Edited | Reconciled(e: Encounter, sync: Sync)

  ghost predicate StepOf(setting: Setting, w: World, event: Event, w': World) {
    match event
    case Edited => w' == w.(generation := w.generation + 1)
    case Reconciled(e, sync) => Sound(setting, w, e) && Follows(setting, w, e, sync, w')
  }

  ghost predicate Run(setting: Setting, worlds: seq<World>, events: seq<Event>) {
    && |worlds| == |events| + 1
    && forall i | 0 <= i < |events| :: StepOf(setting, worlds[i], events[i], worlds[i + 1])
  }

  /** Since the last full sync of this generation, every sync completed without errors and was recorded. */
  function Clean(events: seq<Event>): bool {
    if |events| == 0 then false
    else
      var last, before := events[|events| - 1], Clean(events[..|events| - 1]);
      match last
      case Edited => false
      case Reconciled(_, NotStarted) => before
      case Reconciled(_, Stopped(_)) => before
      case Reconciled(_, Done(_, plan, tally, written)) => tally.errors == 0 && written && (plan.full || before)
  }

  ghost predicate UpToDate(setting: Setting, w: World) {
    && w.status.observedGeneration == w.generation && w.status.lastSyncedCommit != ""
    && Mirrors(setting, SpecOf(setting, w), setting.trees(w.status.lastSyncedCommit), w.documents)
  }

  lemma CleanStep(setting: Setting, w: World, event: Event, w': World, before: bool)
    requires StepOf(setting, w, event, w') && (before ==> UpToDate(setting, w)) && event.Reconciled?
    requires event.sync.Done? ==> event.sync.tally.errors == 0 && event.sync.written && (event.sync.plan.full || before)
    requires !event.sync.Done? ==> before
    ensures UpToDate(setting, w')
  {
    if event.sync.Done? {
      if event.sync.plan.full {
        FullSyncMirrors(setting, w, event.e, event.sync, w');
      } else {
        IncrementalSyncMirrors(setting, w, event.e, event.sync, w');
      }
    }
  }

  /**
    In every run, from any start: once a full sync and all syncs since had no errors and were recorded,
    the knowledge base holds every eligible file of the last synced commit with that commit's content.
   */
  lemma {:induction false} CleanRunMirrors(setting: Setting, worlds: seq<World>, events: seq<Event>)
    requires Run(setting, worlds, events) && Clean(events)
    ensures UpToDate(setting, worlds[|events|])
  {
    var last := |events| - 1;
    if Clean(events[..last]) {
      CleanRunMirrors(setting, worlds[..last + 1], events[..last]);
    }
    CleanStep(setting, worlds[last], events[last], worlds[last + 1], Clean(events[..last]));
  }

  /** A sync of all files that failed on none of them and was recorded. */
  predicate FullAndClean(event: Event) {
    event.Reconciled? && event.sync.Done? && event.sync.plan.full && event.sync.tally.errors == 0 && event.sync.written
  }

  /** Neither an edit of the spec nor a sync that failed on some file or was not recorded. */
  predicate NoHarm(event: Event) {
    event.Reconciled? && (event.sync.Done? ==> event.sync.tally.errors == 0 && event.sync.written)
  }

  lemma {:induction false} CleanSince(events: seq<Event>, i: nat)
    requires i < |events| && FullAndClean(events[i]) && forall j | i < j < |events| :: NoHarm(events[j])
    ensures Clean(events)
  {
    var last := |events| - 1;
    if i < last {
      CleanSince(events[..last], i);
      assert NoHarm(events[last]);
    }
  }

  /**
    The same on the documents themselves: since a clean full sync nothing went wrong and the spec was
    not edited, so the content of every accepted file within the size limit is in the knowledge base.
   */
  lemma CleanRunHolds(setting: Setting, worlds: seq<World>, events: seq<Event>, i: nat, path: Path)
    requires Run(setting, worlds, events)
    requires i < |events| && FullAndClean(events[i]) && forall j | i < j < |events| :: NoHarm(events[j])
    ensures var last := worlds[|events|];
            var spec, tree := setting.specs(last.generation), setting.trees(last.status.lastSyncedCommit);
            path in tree && spec.accepts(path) && (spec.maxFileSize.None? || |tree[path]| <= spec.maxFileSize.value) ==>
              HeldAs(setting, spec, last.documents, path, tree[path])
  {
    CleanSince(events, i);
    CleanRunMirrors(setting, worlds, events);
    var last := worlds[|events|];
    var spec, tree := SpecOf(setting, last), setting.trees(last.status.lastSyncedCommit);
    if Eligible(spec, tree, path) {
      HeldOnFields(setting, spec, tree, last.documents, path);
    }
  }

  lemma FilterOne(spec: Spec, path: Path)
    requires spec.accepts(path)
    ensures FilterFiles(spec, [path]) == [path]
  {
    assert [path][..0] == [];
    assert FilterFiles(spec, []) == [];
  }

  lemma TallyOne(spec: Spec, tree: Tree, trouble: Trouble, path: Path)
    requires OutcomeOf(spec, tree, trouble, path) == Ingested
    ensures TallyOf(spec, tree, trouble, [path]) == Tally(1, 0, [])
  {
    assert [path][..0] == [];
    assert TallyOf(spec, tree, trouble, []) == Tally(0, 0, []);
  }

  lemma ProcessedOne(setting: Setting, spec: Spec, tree: Tree, trouble: Trouble, path: Path, before: Documents)
    requires OutcomeOf(spec, tree, trouble, path) == Ingested
    ensures Processed(setting, spec, tree, trouble, [path], before,
                      before[LocationOf(setting, spec, path) := DocumentOf(setting, spec, tree[path])])
  {
    var at, document := LocationOf(setting, spec, path), DocumentOf(setting, spec, tree[path]);
    var after := before[at := document];
    forall other | Outside(setting, spec, [path], other)
      ensures SameAt(after, before, other)
    {
      assert path in [path];
      assert other != at;
    }
  }

  /** A sync of a commit with one file, in full or because the patch lists it, that nothing troubles. */
  lemma OneFileSync(setting: Setting, w: World, head: Commit, path: Path, content: string) returns (event: Event, w': World)
    requires setting.trees(head) == map[path := content] && head != "" && head != w.status.lastSyncedCommit
    requires SpecOf(setting, w).accepts(path) && SpecOf(setting, w).maxFileSize == None
    ensures StepOf(setting, w, event, w') && NoHarm(event) && event.sync.Done?
    ensures event.sync.plan.full <==> w.generation != w.status.observedGeneration || w.status.lastSyncedCommit == ""
    ensures w'.generation == w'.status.observedGeneration == w.generation && w'.status.lastSyncedCommit == head
    ensures HeldAs(setting, SpecOf(setting, w), w'.documents, path, content)
  {
    var spec, trouble := SpecOf(setting, w), Trouble({}, {});
    var git := Git(true, Some(head), false, true, Some([path]), Some([path]));
    var full := w.generation != w.status.observedGeneration || w.status.lastSyncedCommit == "";
    var sync := Done(head, Plan(full, [path]), Tally(1, 0, []), true);
    FilterOne(spec, path);
    TallyOne(spec, setting.trees(head), trouble, path);
    ProcessedOne(setting, spec, setting.trees(head), trouble, path, w.documents);
    event := Reconciled(Encounter(true, git, trouble, false, true), sync);
    w' := World(w.generation, StatusAfter(w.status, w.generation, sync, false),
                w.documents[LocationOf(setting, spec, path) := DocumentOf(setting, spec, content)]);
    assert PlanOf(setting, w, event.e) == Some(sync.plan);
    HeldOnFields(setting, spec, setting.trees(head), w'.documents, path);
  }

  /** For every two commits of one file: a run that first syncs all of the first and then the changed file of the second. */
  lemma CleanRunExists(setting: Setting, first: Commit, second: Commit, path: Path, content: string, later: string)
    returns (worlds: seq<World>, events: seq<Event>)
    requires setting.trees(first) == map[path := content] && setting.trees(second) == map[path := later]
    requires first != "" && second != "" && first != second
    requires setting.specs(1).accepts(path) && setting.specs(1).maxFileSize == None
    ensures Run(setting, worlds, events) && |events| == 2 && FullAndClean(events[0]) && NoHarm(events[1])
    ensures events[1].sync.Done? && !events[1].sync.plan.full && worlds[2].status.lastSyncedCommit == second
    ensures HeldAs(setting, setting.specs(1), worlds[2].documents, path, later)
  {
    var w0 := World(1, Status(Pending, 0, "", 0, 0, []), map[]);
    var event1, w1 := OneFileSync(setting, w0, first, path, content);
    var event2, w2 := OneFileSync(setting, w1, second, path, later);
    worlds, events := RunOfTwo(setting, w0, event1, w1, event2, w2);
  }

  lemma RunOfTwo(setting: Setting, w0: World, event1: Event, w1: World, event2: Event, w2: World)
    returns (worlds: seq<World>, events: seq<Event>)
    requires StepOf(setting, w0, event1, w1) && StepOf(setting, w1, event2, w2)
    ensures worlds == [w0, w1, w2] && events == [event1, event2] && Run(setting, worlds, events)
  {
    worlds, events := [w0, w1, w2], [event1, event2];
  }

  lemma {:induction false} GenerationGrows(setting: Setting, worlds: seq<World>, events: seq<Event>, i: nat, j: nat)
    requires Run(setting, worlds, events) && i <= j < |worlds|
    ensures worlds[i].generation <= worlds[j].generation
    decreases j - i
  {
    if i < j {
      assert StepOf(setting, worlds[i], events[i], worlds[i + 1]);
      GenerationGrows(setting, worlds, events, i + 1, j);
    }
  }

  lemma {:induction false} ObservedIsPast(setting: Setting, worlds: seq<World>, events: seq<Event>, i: nat, j: nat)
    requires Run(setting, worlds, events) && i <= j < |worlds|
    requires worlds[i].status.observedGeneration <= worlds[i].generation
    ensures worlds[j].status.observedGeneration <= worlds[j].generation
    decreases j - i
  {
    if i < j {
      assert StepOf(setting, worlds[i], events[i], worlds[i + 1]);
      ObservedIsPast(setting, worlds, events, i + 1, j);
    }
  }

  predicate Recorded(event: Event) {
    event.Reconciled? && event.sync.Done? && event.sync.written
  }

  lemma {:induction false} ObservedStays(setting: Setting, worlds: seq<World>, events: seq<Event>, i: nat, j: nat)
    requires Run(setting, worlds, events) && i <= j < |worlds|
    requires forall k | i <= k < j :: !Recorded(events[k])
    ensures worlds[j].status.observedGeneration == worlds[i].status.observedGeneration
    decreases j - i
  {
    if i < j {
      assert StepOf(setting, worlds[i], events[i], worlds[i + 1]);
      ObservedStays(setting, worlds, events, i + 1, j);
    }
  }

  /** After an edit of the spec, syncs process every file until one of them is recorded. */
  lemma EditForcesFull(setting: Setting, worlds: seq<World>, events: seq<Event>, i: nat, j: nat)
    requires Run(setting, worlds, events) && worlds[0].status.observedGeneration <= worlds[0].generation
    requires i < j < |events| && events[i].Edited? && (forall k | i < k < j :: !Recorded(events[k]))
    requires events[j].Reconciled? && events[j].sync.Done?
    ensures events[j].sync.plan.full
  {
    ObservedIsPast(setting, worlds, events, 0, i);
    assert StepOf(setting, worlds[i], events[i], worlds[i + 1]);
    ObservedStays(setting, worlds, events, i + 1, j);
    GenerationGrows(setting, worlds, events, i + 1, j);
    assert StepOf(setting, worlds[j], events[j], worlds[j + 1]);
  }

  /** A changed file that is gone from the head counts as an error, so such an incremental sync is never clean. */
  lemma DeletedFileIsAnError(setting: Setting, w: World, e: Encounter, sync: Sync, w': World, path: Path)
    requires Follows(setting, w, e, sync, w') && sync.Done?
    requires path in sync.plan.files && path !in setting.trees(sync.head)
    ensures sync.tally.errors > 0
  {
    assert OutcomeOf(SpecOf(setting, w), setting.trees(sync.head), e.trouble, path) == Unreadable;
  }

  /**
    A file that a sync failed to deliver is not retried: the commit is recorded all the same, and the
    next incremental sync of that commit processes nothing, reports success and leaves the file missing.
   */
  lemma FailedFileIsNotRetried(setting: Setting, w: World, e: Encounter, sync: Sync, w': World, e': Encounter, sync': Sync, w'': World, path: Path)
    requires Follows(setting, w, e, sync, w') && sync.Done? && sync.written && sync.head != ""
    requires Eligible(SpecOf(setting, w), setting.trees(sync.head), path)
    requires !Holds(setting, SpecOf(setting, w), setting.trees(sync.head), w'.documents, path)
    requires Follows(setting, w', e', sync', w'') && sync'.Done? && sync'.written && !e'.timedOut
    requires sync'.head == sync.head && e'.git.lastInHistory && !e'.git.diffFails
    ensures w''.status.phase == Synced && w''.status.syncErrors == 0 && w''.status.lastSyncedCommit == sync.head
    ensures !Holds(setting, SpecOf(setting, w''), setting.trees(sync.head), w''.documents, path)
  {
    assert FilterFiles(SpecOf(setting, w'), []) == [];
    assert sync'.plan == Plan(false, []);
    UnprocessedStays(setting, SpecOf(setting, w'), setting.trees(sync.head), e'.trouble, [], w'.documents, w''.documents, path);
  }

  /** Two syncs of a commit with one file: the first is refused that file, the second ends as a success without it. */
  lemma RefusedThenSynced(setting: Setting, head: Commit, path: Path, content: string)
    returns (w: World, e: Encounter, sync: Sync, w': World, e': Encounter, sync': Sync, w'': World)
    requires setting.trees(head) == map[path := content] && head != ""
    requires setting.specs(1).accepts(path) && Fits(setting.specs(1), content)
    ensures Follows(setting, w, e, sync, w') && Sound(setting, w, e) && Follows(setting, w', e', sync', w'') && Sound(setting, w', e')
    ensures e.trouble == Trouble({}, {path}) && e'.trouble == Trouble({}, {})
    ensures w.documents == map[] && w''.generation == 1 && w''.status == Status(Synced, 1, head, 0, 0, [])
    ensures !Holds(setting, setting.specs(1), setting.trees(head), w''.documents, path)
  {
    var spec := setting.specs(1);
    var git := Git(true, Some(head), false, true, None, Some([path]));
    w := World(1, Status(Pending, 0, "", 0, 0, []), map[]);
    e := Encounter(true, git, Trouble({}, {path}), false, true);
    assert [path][..0] == [];
    assert FilterFiles(spec, []) == [] && FilterFiles(spec, [path]) == [path];
    assert TallyOf(spec, map[path := content], e.trouble, []) == Tally(0, 0, []);
    assert TallyOf(spec, map[path := content], e.trouble, [path]) == Tally(0, 1, []);
    sync := Done(head, Plan(true, [path]), Tally(0, 1, []), true);
    w' := World(1, Status(Error, 1, head, 0, 1, []), map[]);
    e' := Encounter(true, git, Trouble({}, {}), false, true);
    sync' := Done(head, Plan(false, []), Tally(0, 0, []), true);
    w'' := World(1, Status(Synced, 1, head, 0, 0, []), map[]);
  }

  /** The same with actual values. */
  lemma RefusedFileExample() returns (setting: Setting, w: World, e: Encounter, sync: Sync, w': World, e': Encounter, sync': Sync, w'': World)
    ensures Follows(setting, w, e, sync, w') && Follows(setting, w', e', sync', w'')
    ensures e.trouble == Trouble({}, {"README.md"}) && e'.trouble == Trouble({}, {})
    ensures w''.status.phase == Synced && w''.status.syncErrors == 0 && w''.status.lastSyncedCommit == "c0ffee"
    ensures setting.trees("c0ffee") == map["README.md" := "hello"]
    ensures !Holds(setting, SpecOf(setting, w''), setting.trees("c0ffee"), w''.documents, "README.md")
  {
    var spec := Spec("https://example.org/r.git", "main", "https://example.org/mcp", path => true, None, map[]);
    setting := Setting("docs/r", generation => spec, commit => map["README.md" := "hello"], address => address);
    w, e, sync, w', e', sync', w'' := RefusedThenSynced(setting, "c0ffee", "README.md", "hello");
  }
}
