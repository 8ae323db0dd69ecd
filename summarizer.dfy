/**
 * `SummaryGenerator`: for each listed file, take its path relative to the
 * workspace, read it, build the prompt, ask the remote model, and write the
 * reply and a metadata record under `docs/codebase`, mirroring the file's
 * relative path. Any failure on one file is logged and the loop moves on.
 *
 * The file system, the remote model and the clock are a `World` of oracle
 * functions; the files the generator writes are a `Disk` value it threads
 * through.
 */
module Summarizer {
  import opened Common
  import opened Paths
  import opened Prompt

  /** The sidecar JSON record: `source_file`, `summary_file`, `generated_at`. */
  datatype Metadata = Metadata(sourceFile: string, summaryFile: string, generatedAt: string)

  /** What a file written by the generator holds. */
  datatype Entry = Summary(text: string) | Sidecar(record: Metadata)

  /** The files written so far, by path. */
  type Disk = map<Path, Entry>

  /**
   * What the generator asks of the outside world, each call keyed by the
   * 1-based position of the entry being processed (0 for the set-up before
   * the loop). A `None` or `false` is an exception raised by that call.
   * The answers do not depend on the files the batch itself has written.
   */
  datatype World = World(
    readFile: (nat, string) -> Option<string>,     // open + read, UTF-8 with errors ignored
    createMessage: (nat, string) -> Option<string>, // client.messages.create(...).content[0].text
    makeDirs: (nat, Path) -> bool,                  // mkdir(parents=True, exist_ok=True)
    writeFile: (nat, Path) -> bool,                 // open(path, 'w') and write
    now: nat -> string)                             // datetime.now().isoformat()

  /** The generator's fixed state: the workspace root, the docs root under it, and the prompt prose. */
  datatype Generator = Generator(workspacePath: Path, docsPath: Path, template: Template)

  /** The state `__init__` sets up: a valid workspace path and the docs root `workspace/docs/codebase`. */
  predicate ValidGenerator(g: Generator) {
    && Valid(g.workspacePath)
    && g.docsPath == Path(g.workspacePath.root, g.workspacePath.parts + ["docs", "codebase"])
  }

  /** `SummaryGenerator(workspace_path, api_key)`: the API key only configures the client, which is not modelled. */
  function NewGenerator(workspace: string, template: Template): (g: Generator)
    ensures ValidGenerator(g) && Valid(g.docsPath)
    ensures RelativeTo(g.docsPath, g.workspacePath) == Some(Path("", ["docs", "codebase"]))
  {
    var ws := Parse(workspace);
    var tail := Path("", ["docs", "codebase"]);
    var docs := JoinPaths(JoinPaths(ws, DocsComponent), CodebaseComponent);
    assert docs == JoinPaths(ws, tail);
    JoinValid(ws, tail);
    RelativeToJoin(docs, ws, tail);
    Generator(ws, docs, template)
  }

  /** `Path("docs")` and `Path("codebase")` (see DocsComponentsParse). */
  const DocsComponent: Path := Path("", ["docs"])
  const CodebaseComponent: Path := Path("", ["codebase"])

  /** The two constant components are what parsing "docs" and "codebase" gives. */
  lemma DocsComponentsParse()
    ensures Parse("docs") == DocsComponent && Parse("codebase") == CodebaseComponent
  {
    ParseComponent("docs");
    ParseComponent("codebase");
  }

  /** A line of progress on standard output or of error on standard error. */
  datatype Event =
    | Progress(idx: nat, total: nat, relPath: string)   // "Processing idx/total: rel"
    | Error(filePath: string)                           // "ERROR: Failed to process path: ..."

  /** How far the processing of one listed file got. */
  datatype Fate =
    | OutsideWorkspace                                  // relative_to raised: no progress line
    | Failed(rel: Path)                                 // raised before anything was written
    | SummaryOnly(rel: Path, summaryPath: Path, summary: string)  // the .md was written, the .json was not
    | Saved(rel: Path, summaryPath: Path, summary: string, metadataPath: Path, metadata: Metadata)

  /** `generate_single_summary(file_path)`: read, relative path, prompt, remote call. */
  function SingleSummary(g: Generator, w: World, idx: nat, filePath: string): Option<string> {
    match w.readFile(idx, filePath)
    case None => None
    case Some(content) =>
      match RelativeTo(Parse(filePath), g.workspacePath)
      case None => None
      case Some(rel) =>
        var prompt := BuildAnalysisPrompt(g.template, Str(rel), Suffix(Name(Parse(filePath))), content);
        w.createMessage(idx, prompt)
  }

  /** `save_summary(rel_path, summary)`: how far the two writes got. */
  function SaveOutcome(g: Generator, w: World, idx: nat, rel: Path, summary: string): (f: Fate)
    ensures !f.OutsideWorkspace? && f.rel == rel
  {
    match WithSuffix(rel, ".md")
    case None => Failed(rel)
    case Some(relMd) =>
      var summaryPath := JoinPaths(g.docsPath, relMd);
      if !w.makeDirs(idx, Parent(summaryPath)) || !w.writeFile(idx, summaryPath) then Failed(rel)
      else SidecarOutcome(w, idx, rel, relMd, summaryPath, summary)
  }

  /** The second half of `save_summary`, once the summary is written at `summaryPath`: the metadata record beside it. */
  function SidecarOutcome(w: World, idx: nat, rel: Path, relMd: Path, summaryPath: Path, summary: string): (f: Fate)
    ensures (f.SummaryOnly? || f.Saved?) && f.rel == rel && f.summaryPath == summaryPath && f.summary == summary
  {
    var metadata := Metadata(Str(rel), Str(relMd), w.now(idx));
    match WithSuffix(summaryPath, ".json")
    case None => SummaryOnly(rel, summaryPath, summary)
    case Some(metadataPath) =>
      if w.writeFile(idx, metadataPath) then Saved(rel, summaryPath, summary, metadataPath, metadata)
      else SummaryOnly(rel, summaryPath, summary)
  }

  /** The body of the `try` in `generate_summaries` for the entry at position `idx`. */
  function EntryFate(g: Generator, w: World, idx: nat, filePath: string): Fate {
    match RelativeTo(Parse(filePath), g.workspacePath)
    case None => OutsideWorkspace
    case Some(rel) =>
      match SingleSummary(g, w, idx, filePath)
      case None => Failed(rel)
      case Some(summary) => SaveOutcome(g, w, idx, rel, summary)
  }

  /** The lines printed for one entry. */
  function FateEvents(f: Fate, idx: nat, total: nat, filePath: string): seq<Event> {
    if f.OutsideWorkspace? then [Error(filePath)]
    else if f.Saved? then [Progress(idx, total, Str(f.rel))]
    else [Progress(idx, total, Str(f.rel)), Error(filePath)]
  }

  /** The disk after one entry's writes. */
  function Apply(f: Fate, disk: Disk): Disk {
    if f.SummaryOnly? then disk[f.summaryPath := Summary(f.summary)]
    else if f.Saved? then disk[f.summaryPath := Summary(f.summary)][f.metadataPath := Sidecar(f.metadata)]
    else disk
  }

  /** The paths one entry writes. */
  function Writes(f: Fate): set<Path> {
    if f.SummaryOnly? then {f.summaryPath}
    else if f.Saved? then {f.summaryPath, f.metadataPath}
    else {}
  }

  /** What the loop has produced so far. */
  datatype BatchState = BatchState(disk: Disk, events: seq<Event>, fates: seq<Fate>)

  /** The fates `fate` gives the entries of `files`, the entry at index k processed at position k + 1. */
  function FatesOf(fate: (nat, string) -> Fate, files: seq<string>): (fates: seq<Fate>)
    ensures |fates| == |files|
  {
    if files == [] then []
    else FatesOf(fate, files[..|files| - 1]) + [fate(|files|, files[|files| - 1])]
  }

  /** The fates of the entries of `files` in the loop of `generate_summaries`. */
  function EntryFates(g: Generator, w: World, files: seq<string>): (fates: seq<Fate>)
    ensures |fates| == |files|
  {
    FatesOf((idx: nat, filePath: string) => EntryFate(g, w, idx, filePath), files)
  }

  /** The disk after the writes of `fates`, in order. */
  function ApplyAll(fates: seq<Fate>, disk0: Disk): Disk {
    if fates == [] then disk0
    else Apply(fates[|fates| - 1], ApplyAll(fates[..|fates| - 1], disk0))
  }

  /** The lines printed for the entries of `files` whose fates were `fates`, in order. */
  function RunEvents(fates: seq<Fate>, files: seq<string>, total: nat): seq<Event>
    requires |fates| == |files|
  {
    if files == [] then []
    else
      var idx := |files|;
      RunEvents(fates[..idx - 1], files[..idx - 1], total) + FateEvents(fates[idx - 1], idx, total, files[idx - 1])
  }

  /** The loop over `files` whose entries met `fates`: their writes and lines, in order. */
  function Run(fates: seq<Fate>, files: seq<string>, total: nat, disk0: Disk): BatchState
    requires |fates| == |files|
  {
    BatchState(ApplyAll(fates, disk0), RunEvents(fates, files, total), fates)
  }

  /** The loop of `generate_summaries` over `files`, the entries at positions 1..|files| of a list of `total`. */
  function Batch(g: Generator, w: World, files: seq<string>, total: nat, disk0: Disk): BatchState {
    Run(EntryFates(g, w, files), files, total, disk0)
  }

  // ---------------------------------------------------------------------------
  // The methods

  /** `generate_single_summary`, as the sequence of calls the source makes. */
  method GenerateSingleSummary(g: Generator, w: World, idx: nat, filePath: string) returns (summary: Option<string>)
    ensures summary == SingleSummary(g, w, idx, filePath)
  {
    var content := w.readFile(idx, filePath);
    if content.None? {
      return None;
    }
    var full := Parse(filePath);
    var rel := RelativeTo(full, g.workspacePath);
    if rel.None? {
      return None;
    }
    var fileExt := Suffix(Name(full));
    var prompt := BuildAnalysisPrompt(g.template, Str(rel.value), fileExt, content.value);
    summary := w.createMessage(idx, prompt);
  }

  /** `save_summary`: create the directory, write the summary, then the metadata record beside it. */
  method SaveSummary(g: Generator, w: World, idx: nat, rel: Path, summary: string, disk: Disk)
    returns (fate: Fate, disk': Disk)
    ensures fate == SaveOutcome(g, w, idx, rel, summary)
    ensures disk' == Apply(fate, disk)
  {
    var relMd := WithSuffix(rel, ".md");
    if relMd.None? {
      return Failed(rel), disk;
    }
    var summaryPath := JoinPaths(g.docsPath, relMd.value);
    if !w.makeDirs(idx, Parent(summaryPath)) || !w.writeFile(idx, summaryPath) {
      return Failed(rel), disk;
    }
    disk' := disk[summaryPath := Summary(summary)];
    fate, disk' := WriteSidecar(w, idx, rel, relMd.value, summaryPath, summary, disk');
  }

  /** The metadata half of `save_summary`: build the record and write it beside the summary. */
  method WriteSidecar(w: World, idx: nat, rel: Path, relMd: Path, summaryPath: Path, summary: string, disk: Disk)
    returns (fate: Fate, disk': Disk)
    ensures fate == SidecarOutcome(w, idx, rel, relMd, summaryPath, summary)
    ensures disk' == if fate.Saved? then disk[fate.metadataPath := Sidecar(fate.metadata)] else disk
  {
    var metadata := Metadata(Str(rel), Str(relMd), w.now(idx));
    var metadataPath := WithSuffix(summaryPath, ".json");
    if metadataPath.None? || !w.writeFile(idx, metadataPath.value) {
      return SummaryOnly(rel, summaryPath, summary), disk;
    }
    disk' := disk[metadataPath.value := Sidecar(metadata)];
    fate := Saved(rel, summaryPath, summary, metadataPath.value, metadata);
  }

  /** One pass of the loop body: the `try` block and its `except` branch. */
  method ProcessEntry(g: Generator, w: World, idx: nat, total: nat, filePath: string, disk: Disk)
    returns (fate: Fate, disk': Disk, events: seq<Event>)
    ensures fate == EntryFate(g, w, idx, filePath)
    ensures disk' == Apply(fate, disk)
    ensures events == FateEvents(fate, idx, total, filePath)
  {
    disk' := disk;
    var rel := RelativeTo(Parse(filePath), g.workspacePath);
    if rel.None? {
      return OutsideWorkspace, disk', [Error(filePath)];
    }
    events := [Progress(idx, total, Str(rel.value))];
    var summary := GenerateSingleSummary(g, w, idx, filePath);
    if summary.None? {
      fate := Failed(rel.value);
    } else {
      fate, disk' := SaveSummary(g, w, idx, rel.value, summary.value, disk);
    }
    if !fate.Saved? {
      events := events + [Error(filePath)];
    }
  }

  /**
   * `generate_summaries(file_paths)`: create the docs root (an exception there
   * propagates: `None`), then process every entry in order, logging and
   * skipping the ones that fail.
   */
  method GenerateSummaries(g: Generator, w: World, filePaths: seq<string>, disk0: Disk)
    returns (r: Option<BatchState>)
    ensures !w.makeDirs(0, g.docsPath) ==> r == None
    ensures w.makeDirs(0, g.docsPath) ==> r == Some(Batch(g, w, filePaths, |filePaths|, disk0))
  {
    if !w.makeDirs(0, g.docsPath) {
      return None;
    }
    var total := |filePaths|;
    var disk, events, fates := disk0, [], [];
    for i := 0 to total
      invariant fates == EntryFates(g, w, filePaths[..i])
      invariant BatchState(disk, events, fates) == Run(fates, filePaths[..i], total, disk0)
    {
      assert filePaths[..i + 1][..i] == filePaths[..i];
      var fate, disk', entryEvents := ProcessEntry(g, w, i + 1, total, filePaths[i], disk);
      assert (fates + [fate])[..i] == fates;
      disk, events, fates := disk', events + entryEvents, fates + [fate];
    }
    assert filePaths[..total] == filePaths;
    return Some(BatchState(disk, events, fates));
  }

  // ---------------------------------------------------------------------------
  // What is asked of the remote model

  /**
   * A file that cannot be read, or that lies outside the workspace, yields no
   * summary. Otherwise the model is asked exactly once, with the prompt built
   * from the file's path relative to the workspace (which prints and parses
   * back to itself), the suffix of the file's own name and the text read.
   * For a file strictly under the workspace the prompt's heading is the
   * file's own stem; the fence tag is "txt" for a name without a suffix and
   * otherwise the extension without its dot.
   */
  lemma SingleSummaryPrompt(g: Generator, w: World, idx: nat, filePath: string)
    ensures w.readFile(idx, filePath).None? ==> SingleSummary(g, w, idx, filePath) == None
    ensures RelativeTo(Parse(filePath), g.workspacePath).None? ==> SingleSummary(g, w, idx, filePath) == None
    ensures w.readFile(idx, filePath).Some? && RelativeTo(Parse(filePath), g.workspacePath).Some? ==>
              var rel := RelativeTo(Parse(filePath), g.workspacePath).value;
              var name := Name(Parse(filePath));
              var p := BuildAnalysisPrompt(g.template, Str(rel), Suffix(name), w.readFile(idx, filePath).value);
              && SingleSummary(g, w, idx, filePath) == w.createMessage(idx, p)
              && rel.root == "" && JoinPaths(g.workspacePath, rel) == Parse(filePath)
              && Parse(Str(rel)) == rel
              && (|rel.parts| > 0 ==> Name(rel) == name && Heading(Str(rel)) == Stem(name))
              && (Suffix(name) == "" ==> FenceTag(Suffix(name)) == "txt")
              && (Suffix(name) != "" ==> name == Stem(name) + "." + FenceTag(Suffix(name)))
  {
    var full := Parse(filePath);
    if w.readFile(idx, filePath).Some? && RelativeTo(full, g.workspacePath).Some? {
      var rel := RelativeTo(full, g.workspacePath).value;
      RelativeToValid(full, g.workspacePath);
      RelativeToJoin(full, g.workspacePath, rel);
      ParseStr(rel);
      if |rel.parts| > 0 {
        JoinLast(g.workspacePath, rel);
        HeadingIsStem(rel);
      }
      FenceTagOfSuffix(Name(full));
    }
  }

  /**
   * Only the first 8000 characters of a long file reach the model: two worlds
   * that give the same replies, and read texts of the same file both longer
   * than 8000 characters that agree on their first 8000, produce the same
   * summary.
   */
  lemma SummaryIgnoresCutText(g: Generator, w1: World, w2: World, idx: nat, filePath: string)
    requires w1.createMessage == w2.createMessage
    requires w1.readFile(idx, filePath).Some? && w2.readFile(idx, filePath).Some?
    requires |w1.readFile(idx, filePath).value| > MaxSourceChars && |w2.readFile(idx, filePath).value| > MaxSourceChars
    requires w1.readFile(idx, filePath).value[..MaxSourceChars] == w2.readFile(idx, filePath).value[..MaxSourceChars]
    ensures SingleSummary(g, w1, idx, filePath) == SingleSummary(g, w2, idx, filePath)
  {
    match RelativeTo(Parse(filePath), g.workspacePath)
    case None =>
    case Some(rel) =>
      PromptIgnoresCutText(g.template, Str(rel), Suffix(Name(Parse(filePath))),
                           w1.readFile(idx, filePath).value, w2.readFile(idx, filePath).value);
  }

  // ---------------------------------------------------------------------------
  // Where the files go

  /** The docs root of a generator set up by `__init__` is a valid path. */
  lemma DocsPathValid(g: Generator)
    requires ValidGenerator(g)
    ensures Valid(g.docsPath)
  {
    JoinValid(g.workspacePath, Path("", ["docs", "codebase"]));
  }

  /**
   * The summary of a file at relative path `rel` goes to `docs/codebase/<rel>`
   * with the last component's suffix replaced by ".md": relative to the docs
   * root it is `rel.with_suffix('.md')`, it sits in the mirror of `rel`'s
   * directory, and its name is `rel`'s stem with suffix ".md".
   */
  lemma SummaryPathMirrors(g: Generator, rel: Path)
    requires ValidGenerator(g) && Valid(rel) && rel.root == "" && |rel.parts| > 0
    ensures WithSuffix(rel, ".md").Some?
    ensures var relMd := WithSuffix(rel, ".md").value;
            var sp := JoinPaths(g.docsPath, relMd);
            && Valid(sp)
            && RelativeTo(sp, g.docsPath) == Some(relMd)
            && Parent(sp) == JoinPaths(g.docsPath, Parent(rel))
            && sp.parts == g.docsPath.parts + Parent(rel).parts + [Stem(Name(rel)) + ".md"]
            && Stem(Name(sp)) == Stem(Name(rel))
            && Suffix(Name(sp)) == ".md"
  {
    DocsPathValid(g);
    WithSuffixShape(rel, ".md");
    WithSuffixSibling(rel, ".md");
    var relMd := WithSuffix(rel, ".md").value;
    var sp := JoinPaths(g.docsPath, relMd);
    JoinValid(g.docsPath, relMd);
    RelativeToJoin(sp, g.docsPath, relMd);
    JoinLast(g.docsPath, relMd);
  }

  /** The metadata path is the docs root followed by `rel.with_suffix('.json')`. */
  lemma MetadataPathJoin(g: Generator, rel: Path)
    requires ValidGenerator(g) && Valid(rel) && rel.root == "" && |rel.parts| > 0
    ensures WithSuffix(rel, ".md").Some? && WithSuffix(rel, ".json").Some?
    ensures var sp := JoinPaths(g.docsPath, WithSuffix(rel, ".md").value);
            var mp := JoinPaths(g.docsPath, WithSuffix(rel, ".json").value);
            && WithSuffix(sp, ".json") == Some(mp)
            && RelativeTo(mp, g.docsPath) == WithSuffix(rel, ".json")
  {
    WithSuffixTwice(rel, ".md", ".json");
    WithSuffixShape(rel, ".md");
    WithSuffixShape(rel, ".json");
    var relMd := WithSuffix(rel, ".md").value;
    var relJson := WithSuffix(rel, ".json").value;
    WithSuffixJoin(g.docsPath, relMd, ".json");
    RelativeToJoin(JoinPaths(g.docsPath, relJson), g.docsPath, relJson);
  }

  /**
   * The metadata record goes beside the summary: `summary_path.with_suffix('.json')`
   * is `docs/codebase/<rel>` with suffix ".json", in the same directory, with
   * the same stem, differing from the summary path only in its suffix.
   */
  lemma MetadataPathBeside(g: Generator, rel: Path)
    requires ValidGenerator(g) && Valid(rel) && rel.root == "" && |rel.parts| > 0
    ensures WithSuffix(rel, ".md").Some? && WithSuffix(rel, ".json").Some?
    ensures var sp := JoinPaths(g.docsPath, WithSuffix(rel, ".md").value);
            var mp := WithSuffix(sp, ".json");
            && mp.Some?
            && mp.value == JoinPaths(g.docsPath, WithSuffix(rel, ".json").value)
            && Parent(mp.value) == Parent(sp)
            && Stem(Name(mp.value)) == Stem(Name(sp))
            && Suffix(Name(mp.value)) == ".json"
            && mp.value != sp
            && RelativeTo(mp.value, g.docsPath) == WithSuffix(rel, ".json")
  {
    SummaryPathMirrors(g, rel);
    MetadataPathJoin(g, rel);
    var sp := JoinPaths(g.docsPath, WithSuffix(rel, ".md").value);
    WithSuffixSibling(sp, ".json");
  }

  /**
   * The metadata record holds the two relative paths: `source_file` prints
   * `rel` and parses back to it, `summary_file` parses to `rel.with_suffix('.md')`,
   * which under the docs root is the summary's own path; neither has a root.
   */
  lemma MetadataRecord(g: Generator, w: World, idx: nat, rel: Path, summary: string)
    requires ValidGenerator(g) && Valid(rel) && rel.root == ""
    ensures var f := SaveOutcome(g, w, idx, rel, summary);
            f.Saved? ==>
              && WithSuffix(rel, ".md").Some?
              && f.metadata.sourceFile == Str(rel)
              && Parse(f.metadata.sourceFile) == rel
              && Parse(f.metadata.summaryFile) == WithSuffix(rel, ".md").value
              && Parse(f.metadata.sourceFile).root == "" && Parse(f.metadata.summaryFile).root == ""
              && JoinPaths(g.docsPath, Parse(f.metadata.summaryFile)) == f.summaryPath
              && f.metadata.generatedAt == w.now(idx)
  {
    var f := SaveOutcome(g, w, idx, rel, summary);
    if f.Saved? {
      WithSuffixShape(rel, ".md");
      ParseStr(rel);
      ParseStr(WithSuffix(rel, ".md").value);
    }
  }

  /**
   * `save_summary` in full: with no component (the workspace itself) it raises
   * at once; otherwise it fails when the directory or the summary cannot be
   * written, keeps the summary alone when the metadata write fails, and
   * otherwise writes both, the metadata at `docs/codebase/<rel>` with suffix ".json".
   */
  lemma SaveOutcomeCases(g: Generator, w: World, idx: nat, rel: Path, summary: string)
    requires ValidGenerator(g) && Valid(rel) && rel.root == ""
    ensures |rel.parts| == 0 ==> SaveOutcome(g, w, idx, rel, summary) == Failed(rel)
    ensures |rel.parts| > 0 ==>
              var relMd := WithSuffix(rel, ".md").value;
              var sp := JoinPaths(g.docsPath, relMd);
              var mp := JoinPaths(g.docsPath, WithSuffix(rel, ".json").value);
              SaveOutcome(g, w, idx, rel, summary) ==
                if !w.makeDirs(idx, Parent(sp)) || !w.writeFile(idx, sp) then Failed(rel)
                else if !w.writeFile(idx, mp) then SummaryOnly(rel, sp, summary)
                else Saved(rel, sp, summary, mp, Metadata(Str(rel), Str(relMd), w.now(idx)))
  {
    if |rel.parts| > 0 {
      MetadataPathBeside(g, rel);
    }
  }

  /** Whether `p` lies in the tree under `root`. */
  predicate Under(p: Path, root: Path) {
    RelativeTo(p, root).Some?
  }

  /** An entry that wrote anything did so through `save_summary` on its valid relative path. */
  lemma EntryFateWrites(g: Generator, w: World, idx: nat, filePath: string)
    ensures var f := EntryFate(g, w, idx, filePath);
            (f.SummaryOnly? || f.Saved?) ==>
              && RelativeTo(Parse(filePath), g.workspacePath) == Some(f.rel)
              && Valid(f.rel) && f.rel.root == ""
              && f == SaveOutcome(g, w, idx, f.rel, f.summary)
  {
    var f := EntryFate(g, w, idx, filePath);
    if f.SummaryOnly? || f.Saved? {
      RelativeToValid(Parse(filePath), g.workspacePath);
    }
  }

  /**
   * Where `save_summary`'s writes go: the summary to the docs root followed by
   * `rel.with_suffix('.md')`, the metadata to that path with suffix ".json".
   */
  lemma SaveOutcomePaths(g: Generator, w: World, idx: nat, rel: Path, summary: string)
    ensures var f := SaveOutcome(g, w, idx, rel, summary);
            (f.SummaryOnly? || f.Saved?) ==>
              && WithSuffix(rel, ".md").Some?
              && f.summaryPath == JoinPaths(g.docsPath, WithSuffix(rel, ".md").value)
              && (f.Saved? ==> WithSuffix(f.summaryPath, ".json") == Some(f.metadataPath))
  {
  }

  /** Every path `save_summary` writes lies under the docs root. */
  lemma SaveWritesUnderDocs(g: Generator, w: World, idx: nat, rel: Path, summary: string)
    requires ValidGenerator(g) && Valid(rel) && rel.root == ""
    ensures forall p :: p in Writes(SaveOutcome(g, w, idx, rel, summary)) ==> Under(p, g.docsPath)
  {
    var f := SaveOutcome(g, w, idx, rel, summary);
    SaveOutcomePaths(g, w, idx, rel, summary);
    if f.SummaryOnly? || f.Saved? {
      var relMd := WithSuffix(rel, ".md").value;
      WithSuffixShape(rel, ".md");
      if f.Saved? {
        MetadataPathJoin(g, rel);
      }
      FateUnder(f, g.docsPath, relMd);
    }
  }

  /** A fate whose summary path is `root` joined with a relative path, and whose metadata path lies under `root`, writes only under `root`. */
  lemma FateUnder(f: Fate, root: Path, relMd: Path)
    requires f.SummaryOnly? || f.Saved?
    requires relMd.root == "" && f.summaryPath == JoinPaths(root, relMd)
    requires f.Saved? ==> Under(f.metadataPath, root)
    ensures forall p :: p in Writes(f) ==> Under(p, root)
  {
    RelativeToJoin(f.summaryPath, root, relMd);
  }

  /** Every path one entry writes lies under the docs root. */
  lemma EntryWritesUnderDocs(g: Generator, w: World, idx: nat, filePath: string)
    requires ValidGenerator(g)
    ensures forall p :: p in Writes(EntryFate(g, w, idx, filePath)) ==> Under(p, g.docsPath)
  {
    var f := EntryFate(g, w, idx, filePath);
    EntryFateWrites(g, w, idx, filePath);
    if f.SummaryOnly? || f.Saved? {
      SaveWritesUnderDocs(g, w, idx, f.rel, f.summary);
    }
  }

  /** Two disks agree on every path outside the tree under `root`. */
  ghost predicate SameOutside(d1: Disk, d2: Disk, root: Path) {
    forall p :: !Under(p, root) ==> (p in d1 <==> p in d2) && (p in d1 ==> d1[p] == d2[p])
  }

  /** Every path the fate writes lies under `root`, and a saved entry's two paths differ. */
  predicate FateWithin(f: Fate, root: Path) {
    && (forall p :: p in Writes(f) ==> Under(p, root))
    && (f.Saved? ==> f.summaryPath != f.metadataPath)
  }

  /** Each entry's fate stays within the docs tree. */
  lemma EntryFateWithin(g: Generator, w: World, idx: nat, filePath: string)
    requires ValidGenerator(g)
    ensures FateWithin(EntryFate(g, w, idx, filePath), g.docsPath)
  {
    EntryWritesUnderDocs(g, w, idx, filePath);
    EntryFateWrites(g, w, idx, filePath);
    var f := EntryFate(g, w, idx, filePath);
    if f.Saved? {
      SaveOutcomeCases(g, w, idx, f.rel, f.summary);
      MetadataPathBeside(g, f.rel);
    }
  }

  /** A loop whose every fate stays under `root` changes nothing outside it. */
  lemma {:induction false} RunWritesOnlyUnder(fates: seq<Fate>, disk0: Disk, root: Path)
    requires forall k :: 0 <= k < |fates| ==> FateWithin(fates[k], root)
    ensures SameOutside(disk0, ApplyAll(fates, disk0), root)
  {
    if fates != [] {
      var n := |fates|;
      assert forall k :: 0 <= k < n - 1 ==> fates[..n - 1][k] == fates[k];
      RunWritesOnlyUnder(fates[..n - 1], disk0, root);
      var f := fates[n - 1];
      assert FateWithin(f, root);
      var prev := ApplyAll(fates[..n - 1], disk0);
      forall p | !Under(p, root)
        ensures (p in prev <==> p in Apply(f, prev)) && (p in prev ==> prev[p] == Apply(f, prev)[p])
      {
        assert p !in Writes(f);
      }
    }
  }

  // ---------------------------------------------------------------------------
  // Every entry once, in order, a failure skipping only its own entry

  /** The entry at index k meets the fate `fate` gives it alone at position k + 1. */
  lemma {:induction false} FatesOfAt(fate: (nat, string) -> Fate, files: seq<string>)
    ensures forall k :: 0 <= k < |files| ==> FatesOf(fate, files)[k] == fate(k + 1, files[k])
  {
    if files != [] {
      var n := |files|;
      FatesOfAt(fate, files[..n - 1]);
      assert forall k :: 0 <= k < n - 1 ==> files[..n - 1][k] == files[k];
    }
  }

  /** The entry at index k meets the fate processing it alone at position k + 1 gives. */
  lemma EntryFatesAt(g: Generator, w: World, files: seq<string>)
    ensures forall k :: 0 <= k < |files| ==> EntryFates(g, w, files)[k] == EntryFate(g, w, k + 1, files[k])
  {
    FatesOfAt((idx: nat, filePath: string) => EntryFate(g, w, idx, filePath), files);
  }

  /**
   * The loop gives every entry exactly one fate, in list order, and no
   * failure ends it: the fate of the entry at index k is what processing that
   * entry at position k + 1 gives under the world's answers for that position.
   */
  lemma BatchFates(g: Generator, w: World, files: seq<string>, total: nat, disk0: Disk)
    ensures var b := Batch(g, w, files, total, disk0);
            && |b.fates| == |files|
            && forall k :: 0 <= k < |files| ==> b.fates[k] == EntryFate(g, w, k + 1, files[k])
  {
    EntryFatesAt(g, w, files);
  }

  /** The batch writes nothing outside `docs/codebase`. */
  lemma BatchWritesOnlyDocs(g: Generator, w: World, files: seq<string>, total: nat, disk0: Disk)
    requires ValidGenerator(g)
    ensures SameOutside(disk0, Batch(g, w, files, total, disk0).disk, g.docsPath)
  {
    var fate := (idx: nat, filePath: string) => EntryFate(g, w, idx, filePath);
    forall idx: nat, filePath: string ensures FateWithin(fate(idx, filePath), g.docsPath) {
      EntryFateWithin(g, w, idx, filePath);
    }
    FatesOfWithin(fate, files, g.docsPath);
    RunWritesOnlyUnder(FatesOf(fate, files), disk0, g.docsPath);
  }

  /** When every fate `fate` can give stays under `root`, so does every one the loop meets. */
  lemma FatesOfWithin(fate: (nat, string) -> Fate, files: seq<string>, root: Path)
    requires forall idx: nat, filePath: string :: FateWithin(fate(idx, filePath), root)
    ensures forall k :: 0 <= k < |files| ==> FateWithin(FatesOf(fate, files)[k], root)
  {
    FatesOfAt(fate, files);
  }

  // ---------------------------------------------------------------------------
  // Containment once ".." is resolved: `relative_to` and the disk compare paths
  // as written, while the operating system resolves ".."

  /** `p` and `root` resolve to a path inside the tree `root` resolves to. */
  predicate ResolvedUnder(p: Path, root: Path) {
    var rp, rr := Resolved(p), Resolved(root);
    rp.root == rr.root && |rr.parts| <= |rp.parts| && rp.parts[..|rr.parts|] == rr.parts
  }

  /** A relative path without ".." put after a base resolves inside it. */
  lemma JoinResolvedUnder(base: Path, r: Path)
    requires r.root == "" && ".." !in r.parts
    ensures ResolvedUnder(JoinPaths(base, r), base)
  {
    ResolvedJoin(base, r);
    var rb := Resolved(base).parts;
    assert (rb + r.parts)[..|rb|] == rb;
  }

  /** Every file the fate writes resolves inside the tree `root` resolves to. */
  predicate FateResolvedWithin(f: Fate, root: Path) {
    forall p :: p in Writes(f) ==> ResolvedUnder(p, root)
  }

  /** A fate writing at `root` joined with relative paths without ".." writes only inside `root`. */
  lemma FateResolvedUnder(f: Fate, root: Path, relMd: Path, relJson: Path)
    requires f.SummaryOnly? || f.Saved?
    requires relMd.root == "" && ".." !in relMd.parts && f.summaryPath == JoinPaths(root, relMd)
    requires f.Saved? ==> relJson.root == "" && ".." !in relJson.parts && f.metadataPath == JoinPaths(root, relJson)
    ensures FateResolvedWithin(f, root)
  {
    JoinResolvedUnder(root, relMd);
    if f.Saved? {
      JoinResolvedUnder(root, relJson);
    }
  }

  /** For a relative path without "..", every file `save_summary` writes resolves inside the docs root. */
  lemma SaveResolvedUnderDocs(g: Generator, w: World, idx: nat, rel: Path, summary: string)
    requires ValidGenerator(g) && Valid(rel) && rel.root == "" && ".." !in rel.parts
    ensures FateResolvedWithin(SaveOutcome(g, w, idx, rel, summary), g.docsPath)
  {
    var f := SaveOutcome(g, w, idx, rel, summary);
    SaveOutcomePaths(g, w, idx, rel, summary);
    if f.SummaryOnly? || f.Saved? {
      assert |rel.parts| > 0;
      WithSuffixPlain(rel, ".md");
      var relMd := WithSuffix(rel, ".md").value;
      if f.Saved? {
        MetadataPathJoin(g, rel);
        WithSuffixPlain(rel, ".json");
        FateResolvedUnder(f, g.docsPath, relMd, WithSuffix(rel, ".json").value);
      } else {
        FateResolvedUnder(f, g.docsPath, relMd, relMd);
      }
    }
  }

  /**
   * For a listed path without "..", every file an entry writes resolves
   * inside the resolved docs root, so the writes stay in `docs/codebase` on
   * the file system too (symbolic links aside).
   */
  lemma EntryWritesResolvedUnderDocs(g: Generator, w: World, idx: nat, filePath: string)
    requires ValidGenerator(g) && ".." !in Parse(filePath).parts
    ensures FateResolvedWithin(EntryFate(g, w, idx, filePath), g.docsPath)
  {
    var f := EntryFate(g, w, idx, filePath);
    EntryFateWrites(g, w, idx, filePath);
    if f.SummaryOnly? || f.Saved? {
      RelativeToPlain(Parse(filePath), g.workspacePath);
      SaveResolvedUnderDocs(g, w, idx, f.rel, f.summary);
    }
  }

  /** When every fate the loop meets resolves inside `root`, so does every one in the list of fates. */
  lemma FatesOfResolvedWithin(fate: (nat, string) -> Fate, files: seq<string>, root: Path)
    requires forall k :: 0 <= k < |files| ==> FateResolvedWithin(fate(k + 1, files[k]), root)
    ensures forall k :: 0 <= k < |files| ==> FateResolvedWithin(FatesOf(fate, files)[k], root)
  {
    FatesOfAt(fate, files);
  }

  /**
   * When no listed path holds "..", every file the batch writes resolves
   * inside `docs/codebase`.
   */
  lemma BatchWritesResolvedUnderDocs(g: Generator, w: World, files: seq<string>, total: nat, disk0: Disk)
    requires ValidGenerator(g)
    requires forall k :: 0 <= k < |files| ==> ".." !in Parse(files[k]).parts
    ensures |Batch(g, w, files, total, disk0).fates| == |files|
    ensures forall k :: 0 <= k < |files| ==> FateResolvedWithin(Batch(g, w, files, total, disk0).fates[k], g.docsPath)
  {
    var fate := (idx: nat, filePath: string) => EntryFate(g, w, idx, filePath);
    forall k | 0 <= k < |files| ensures FateResolvedWithin(fate(k + 1, files[k]), g.docsPath) {
      EntryWritesResolvedUnderDocs(g, w, k + 1, files[k]);
    }
    FatesOfResolvedWithin(fate, files, g.docsPath);
  }

  /**
   * For relative paths without "..", the disk's keys name files faithfully:
   * any two summary or metadata paths, of the same entry or of two entries,
   * lead to the same resolved file exactly when they are the same path, so
   * distinct keys of the `Disk` are distinct files and what SavedPersists
   * keeps is what the file system keeps.
   */
  lemma PlainPathsIdentifyFiles(g: Generator, r1: Path, r2: Path, sfx1: string, sfx2: string)
    requires Valid(r1) && r1.root == "" && |r1.parts| > 0 && ".." !in r1.parts
    requires Valid(r2) && r2.root == "" && |r2.parts| > 0 && ".." !in r2.parts
    requires sfx1 == ".md" || sfx1 == ".json"
    requires sfx2 == ".md" || sfx2 == ".json"
    ensures WithSuffix(r1, sfx1).Some? && WithSuffix(r2, sfx2).Some?
    ensures var p1, p2 := JoinPaths(g.docsPath, WithSuffix(r1, sfx1).value), JoinPaths(g.docsPath, WithSuffix(r2, sfx2).value);
            Resolved(p1) == Resolved(p2) <==> p1 == p2
  {
    WithSuffixPlain(r1, sfx1);
    WithSuffixPlain(r2, sfx2);
    ResolvedJoinInjective(g.docsPath, WithSuffix(r1, sfx1).value, WithSuffix(r2, sfx2).value);
  }

  /**
   * With ".." in a listed path the lexical containment is not the real one:
   * against the workspace `/ws`, `relative_to` accepts `/ws/../x.py` as
   * `../x.py`, whose summary path `/ws/docs/codebase/../x.md` lies under the
   * docs root as `relative_to` sees it but resolves to `/ws/docs/x.md`,
   * outside it.
   */
  lemma DotDotEscapes(t: Template)
    ensures var ws, docs := Path("/", ["ws"]), Path("/", ["ws", "docs", "codebase"]);
            var rel, relMd := Path("", ["..", "x.py"]), Path("", ["..", "x.md"]);
            && ValidGenerator(Generator(ws, docs, t))
            && RelativeTo(Path("/", ["ws", "..", "x.py"]), ws) == Some(rel)
            && WithSuffix(rel, ".md") == Some(relMd)
            && Under(JoinPaths(docs, relMd), docs)
            && !ResolvedUnder(JoinPaths(docs, relMd), docs)
  {
    DotDotRelative();
    DotDotSummaryPath();
    DotDotResolves();
  }

  /** `/ws/../x.py` relative to `/ws` is `../x.py`. */
  lemma DotDotRelative()
    ensures RelativeTo(Path("/", ["ws", "..", "x.py"]), Path("/", ["ws"])) == Some(Path("", ["..", "x.py"]))
  {
    assert ["ws", "..", "x.py"][..1] == ["ws"];
    assert ["ws", "..", "x.py"][1..] == ["..", "x.py"];
  }

  /** `../x.py` with suffix ".md" is `../x.md`. */
  lemma DotDotSummaryPath()
    ensures WithSuffix(Path("", ["..", "x.py"]), ".md") == Some(Path("", ["..", "x.md"]))
  {
    assert "x" + ".py" == "x.py" && "x" + ".md" == "x.md";
    assert [".."] + ["x.py"] == ["..", "x.py"];
    assert [".."] + ["x.md"] == ["..", "x.md"];
    WithSuffixReplaces("", [".."], "x", ".py", ".md");
  }

  /** `/ws/docs/codebase/../x.md` resolves to `/ws/docs/x.md`, outside `/ws/docs/codebase`. */
  lemma DotDotResolves()
    ensures var docs := Path("/", ["ws", "docs", "codebase"]);
            var p := JoinPaths(docs, Path("", ["..", "x.md"]));
            && Resolved(p) == Path("/", ["ws", "docs", "x.md"])
            && Resolved(docs) == docs
            && Under(p, docs)
  {
    var docs := Path("/", ["ws", "docs", "codebase"]);
    var d := docs.parts;
    ResolveAppendPlain(true, [], d);
    assert [] + d == d;
    assert (d + [".."])[..3] == d;
    assert ResolveParts(true, d + [".."]) == ["ws", "docs"];
    ResolveAppendPlain(true, d + [".."], ["x.md"]);
    assert d + ["..", "x.md"] == (d + [".."]) + ["x.md"];
    RelativeToJoin(JoinPaths(docs, Path("", ["..", "x.md"])), docs, Path("", ["..", "x.md"]));
  }

  /** Progress lines carry the list size, positions in 1..bound, and strictly increasing positions. */
  predicate ProgressOrdered(events: seq<Event>, bound: nat, total: nat) {
    && (forall i :: 0 <= i < |events| && events[i].Progress? ==> 1 <= events[i].idx <= bound && events[i].total == total)
    && (forall i, j :: 0 <= i < j < |events| && events[i].Progress? && events[j].Progress? ==> events[i].idx < events[j].idx)
  }

  /** One entry prints one or two lines, a progress line only first, with its own position. */
  lemma FateEventsShape(f: Fate, idx: nat, total: nat, filePath: string)
    ensures var es := FateEvents(f, idx, total, filePath);
            && 1 <= |es| <= 2
            && (forall i :: 0 <= i < |es| && es[i].Progress? ==> es[i].idx == idx && es[i].total == total && i == 0)
  {
  }

  /**
   * The progress lines of the loop go through the positions in increasing
   * order, each at most once, within 1..|files|, each with the list's size.
   */
  lemma {:induction false} ProgressInOrder(fates: seq<Fate>, files: seq<string>, total: nat)
    requires |fates| == |files|
    ensures ProgressOrdered(RunEvents(fates, files, total), |files|, total)
  {
    if files != [] {
      var n := |files|;
      ProgressInOrder(fates[..n - 1], files[..n - 1], total);
      var prev := RunEvents(fates[..n - 1], files[..n - 1], total);
      var block := FateEvents(fates[n - 1], n, total, files[n - 1]);
      FateEventsShape(fates[n - 1], n, total, files[n - 1]);
      var es := prev + block;
      forall i | 0 <= i < |es| && es[i].Progress? ensures 1 <= es[i].idx <= n && es[i].total == total {
        if i >= |prev| { assert es[i] == block[i - |prev|]; }
      }
      forall i, j | 0 <= i < j < |es| && es[i].Progress? && es[j].Progress? ensures es[i].idx < es[j].idx {
        if j < |prev| {
          assert es[i] == prev[i] && es[j] == prev[j];
        } else if i < |prev| {
          assert es[i] == prev[i] && es[j] == block[j - |prev|];
        } else {
          assert false;
        }
      }
    }
  }

  /** The number of error lines. */
  function ErrorCount(events: seq<Event>): nat {
    if events == [] then 0
    else ErrorCount(events[..|events| - 1]) + (if events[|events| - 1].Error? then 1 else 0)
  }

  lemma {:induction false} ErrorCountAppend(a: seq<Event>, b: seq<Event>)
    ensures ErrorCount(a + b) == ErrorCount(a) + ErrorCount(b)
  {
    if b == [] {
      assert a + b == a;
    } else {
      assert (a + b)[..|a + b| - 1] == a + b[..|b| - 1];
      ErrorCountAppend(a, b[..|b| - 1]);
    }
  }

  /** The number of entries whose summary and metadata were both written. */
  function SavedCount(fates: seq<Fate>): (n: nat)
    ensures n <= |fates|
  {
    if fates == [] then 0
    else SavedCount(fates[..|fates| - 1]) + (if fates[|fates| - 1].Saved? then 1 else 0)
  }

  /** Every entry that was not saved is logged as an error exactly once; a saved one never is. */
  lemma {:induction false} EveryFailureLogged(fates: seq<Fate>, files: seq<string>, total: nat)
    requires |fates| == |files|
    ensures ErrorCount(RunEvents(fates, files, total)) + SavedCount(fates) == |files|
  {
    if files != [] {
      var n := |files|;
      var front := fates[..n - 1];
      EveryFailureLogged(front, files[..n - 1], total);
      FateErrorCount(fates[n - 1], n, total, files[n - 1]);
      assert fates == front + [fates[n - 1]];
      LoggedStep(RunEvents(front, files[..n - 1], total), FateEvents(fates[n - 1], n, total, files[n - 1]), front, fates[n - 1]);
    }
  }

  /** One more entry: its error lines and whether it was saved add up to one. */
  lemma LoggedStep(prev: seq<Event>, block: seq<Event>, fates: seq<Fate>, f: Fate)
    requires ErrorCount(prev) + SavedCount(fates) == |fates|
    requires ErrorCount(block) == if f.Saved? then 0 else 1
    ensures ErrorCount(prev + block) + SavedCount(fates + [f]) == |fates| + 1
  {
    ErrorCountAppend(prev, block);
    assert (fates + [f])[..|fates|] == fates;
  }

  /** One entry's lines hold one error line unless it was saved, and none if it was. */
  lemma FateErrorCount(f: Fate, idx: nat, total: nat, filePath: string)
    ensures ErrorCount(FateEvents(f, idx, total, filePath)) == if f.Saved? then 0 else 1
  {
    var block := FateEvents(f, idx, total, filePath);
    if f.OutsideWorkspace? || f.Saved? {
      assert block[..0] == [];
    } else {
      assert block[..1][..0] == [];
      assert ErrorCount(block[..1]) == 0;
    }
  }

  /**
   * A saved entry's summary and metadata are on the disk at the end of the
   * loop, unless a later entry writes to one of the same paths.
   */
  lemma {:induction false} SavedPersists(fates: seq<Fate>, disk0: Disk, k: nat)
    requires k < |fates|
    requires fates[k].Saved? && fates[k].summaryPath != fates[k].metadataPath
    requires forall j :: k < j < |fates| ==> Writes(fates[j]) !! Writes(fates[k])
    ensures var d := ApplyAll(fates, disk0);
            && fates[k].summaryPath in d && d[fates[k].summaryPath] == Summary(fates[k].summary)
            && fates[k].metadataPath in d && d[fates[k].metadataPath] == Sidecar(fates[k].metadata)
  {
    var n := |fates|;
    var prev := ApplyAll(fates[..n - 1], disk0);
    if n == k + 1 {
      ApplySaved(fates[k], prev);
    } else {
      assert forall j :: 0 <= j < n - 1 ==> fates[..n - 1][j] == fates[j];
      SavedPersists(fates[..n - 1], disk0, k);
      assert Writes(fates[n - 1]) !! Writes(fates[k]);
      ApplyOutside(fates[n - 1], prev, fates[k].summaryPath);
      ApplyOutside(fates[n - 1], prev, fates[k].metadataPath);
    }
  }

  /** A saved entry's two files hold the summary and the record. */
  lemma ApplySaved(f: Fate, disk: Disk)
    requires f.Saved? && f.summaryPath != f.metadataPath
    ensures var d := Apply(f, disk);
            && f.summaryPath in d && d[f.summaryPath] == Summary(f.summary)
            && f.metadataPath in d && d[f.metadataPath] == Sidecar(f.metadata)
  {
  }

  /** A path an entry does not write keeps what it held. */
  lemma ApplyOutside(f: Fate, disk: Disk, p: Path)
    requires p !in Writes(f)
    ensures (p in Apply(f, disk) <==> p in disk) && (p in disk ==> Apply(f, disk)[p] == disk[p])
  {
  }

  /**
   * Two files in the same directory whose names share a stem (`a.py` and
   * `a.ts`) have the same summary path: the one processed later overwrites
   * the earlier one's summary.
   */
  lemma SameStemSameSummary(r1: Path, r2: Path)
    requires Valid(r1) && Valid(r2) && |r1.parts| > 0 && |r2.parts| > 0
    requires Parent(r1) == Parent(r2) && Stem(Name(r1)) == Stem(Name(r2))
    ensures WithSuffix(r1, ".md") == WithSuffix(r2, ".md")
  {
    WithSuffixShape(r1, ".md");
    WithSuffixShape(r2, ".md");
    var m1, m2 := WithSuffix(r1, ".md").value, WithSuffix(r2, ".md").value;
    assert m1.parts == Parent(m1).parts + [Name(m1)];
    assert m2.parts == Parent(m2).parts + [Name(m2)];
  }

  /** `src/a.py` and `src/a.ts` are different files with the same summary path `src/a.md`. */
  lemma SummaryCollisionExample()
    ensures Path("", ["src", "a.py"]) != Path("", ["src", "a.ts"])
    ensures WithSuffix(Path("", ["src", "a.py"]), ".md") == Some(Path("", ["src", "a.md"]))
    ensures WithSuffix(Path("", ["src", "a.ts"]), ".md") == Some(Path("", ["src", "a.md"]))
  {
    assert Path("", ["src", "a.py"]).parts[1][2] != Path("", ["src", "a.ts"]).parts[1][2];
    PythonSummaryPath();
    TypeScriptSummaryPath();
  }

  /** `src/a.py` with suffix ".md" is `src/a.md`. */
  lemma PythonSummaryPath()
    ensures WithSuffix(Path("", ["src", "a.py"]), ".md") == Some(Path("", ["src", "a.md"]))
  {
    assert "a" + ".py" == "a.py" && "a" + ".md" == "a.md";
    assert ["src"] + ["a.py"] == ["src", "a.py"];
    assert ["src"] + ["a.md"] == ["src", "a.md"];
    WithSuffixReplaces("", ["src"], "a", ".py", ".md");
  }

  /** `src/a.ts` with suffix ".md" is `src/a.md`. */
  lemma TypeScriptSummaryPath()
    ensures WithSuffix(Path("", ["src", "a.ts"]), ".md") == Some(Path("", ["src", "a.md"]))
  {
    assert "a" + ".ts" == "a.ts" && "a" + ".md" == "a.md";
    assert ["src"] + ["a.ts"] == ["src", "a.ts"];
    assert ["src"] + ["a.md"] == ["src", "a.md"];
    WithSuffixReplaces("", ["src"], "a", ".ts", ".md");
  }

  /** The mirrored layout for `src/foo/bar.ts`: `src/foo/bar.md` and `src/foo/bar.json`. */
  lemma MirrorExample()
    ensures WithSuffix(Path("", ["src", "foo", "bar.ts"]), ".md") == Some(Path("", ["src", "foo", "bar.md"]))
    ensures WithSuffix(Path("", ["src", "foo", "bar.ts"]), ".json") == Some(Path("", ["src", "foo", "bar.json"]))
  {
    MirrorSummaryPath();
    MirrorMetadataPath();
  }

  /** `src/foo/bar.ts` with suffix ".md" is `src/foo/bar.md`. */
  lemma MirrorSummaryPath()
    ensures WithSuffix(Path("", ["src", "foo", "bar.ts"]), ".md") == Some(Path("", ["src", "foo", "bar.md"]))
  {
    assert "bar" + ".ts" == "bar.ts" && "bar" + ".md" == "bar.md";
    assert ["src", "foo"] + ["bar.ts"] == ["src", "foo", "bar.ts"];
    assert ["src", "foo"] + ["bar.md"] == ["src", "foo", "bar.md"];
    WithSuffixReplaces("", ["src", "foo"], "bar", ".ts", ".md");
  }

  /** `src/foo/bar.ts` with suffix ".json" is `src/foo/bar.json`. */
  lemma MirrorMetadataPath()
    ensures WithSuffix(Path("", ["src", "foo", "bar.ts"]), ".json") == Some(Path("", ["src", "foo", "bar.json"]))
  {
    assert "bar" + ".ts" == "bar.ts" && "bar" + ".json" == "bar.json";
    assert ["src", "foo"] + ["bar.ts"] == ["src", "foo", "bar.ts"];
    assert ["src", "foo"] + ["bar.json"] == ["src", "foo", "bar.json"];
    WithSuffixReplaces("", ["src", "foo"], "bar", ".ts", ".json");
  }
}
