/**
 * `main`: resolve the API key, read and normalise the file list, then run the
 * generator over it. The two configuration errors end the process with
 * status 1 before anything else happens; failures on single files do not
 * change the exit status.
 *
 * Command-line parsing is done: the three arguments arrive as `Args`. The
 * environment variable and the contents of the list file are inputs.
 */
module Cli {
  import opened Common
  import opened Paths
  import opened Prompt
  import opened FileList
  import opened Summarizer

  /** `--workspace`, `--files` and the optional `--api-key`. */
  datatype Args = Args(workspace: string, filesArg: string, apiKey: Option<string>)

  /** How `main` ends. */
  datatype MainOutcome =
    | MissingApiKey                                  // "API key required", exit 1
    | ListUnreadable                                 // open(args.files) raised
    | NoFiles                                        // "No files to process", exit 1
    | DocsDirFailed(files: seq<string>)              // mkdir of the docs root raised
    | Completed(files: seq<string>, state: BatchState)

  /** The process status: 0 only when the batch ran to its end. */
  function ExitCode(o: MainOutcome): int {
    if o.Completed? then 0 else 1
  }

  /**
   * `args.api_key or os.environ.get('ANTHROPIC_API_KEY')`, then `if not api_key`:
   * a non-empty argument wins, else a non-empty environment value; an empty
   * string counts as missing.
   */
  function ResolveApiKey(arg: Option<string>, env: Option<string>): (key: Option<string>)
    ensures key.Some? ==> key.value != "" && (key == arg || key == env)
    ensures key.Some? <==> (arg.Some? && arg.value != "") || (env.Some? && env.value != "")
    ensures arg.Some? && arg.value != "" ==> key == arg
  {
    if arg.Some? && arg.value != "" then arg
    else if env.Some? && env.value != "" then env
    else None
  }

  /** What `main` does, given the environment value, the list reader and the world the generator sees. */
  function MainResult(args: Args, env: Option<string>, readList: string -> Option<string>,
                      w: World, template: Template, disk0: Disk): MainOutcome
  {
    if ResolveApiKey(args.apiKey, env).None? then MissingApiKey
    else
      match readList(args.filesArg)
      case None => ListUnreadable
      case Some(text) =>
        var files := FileListFromText(text);
        if files == [] then NoFiles
        else
          var g := NewGenerator(args.workspace, template);
          if !w.makeDirs(0, g.docsPath) then DocsDirFailed(files)
          else Completed(files, Batch(g, w, files, |files|, disk0))
  }

  /** `main`, step by step, with its early exits. */
  method RunMain(args: Args, env: Option<string>, readList: string -> Option<string>,
                 w: World, template: Template, disk0: Disk) returns (o: MainOutcome)
    ensures o == MainResult(args, env, readList, w, template, disk0)
    ensures ExitCode(o) == 0 <==> o.Completed?
  {
    var apiKey := ResolveApiKey(args.apiKey, env);
    if apiKey.None? {
      return MissingApiKey;
    }
    var text := readList(args.filesArg);
    if text.None? {
      return ListUnreadable;
    }
    var files := FileListFromText(text.value);
    if |files| == 0 {
      return NoFiles;
    }
    var generator := NewGenerator(args.workspace, template);
    var r := GenerateSummaries(generator, w, files, disk0);
    if r.None? {
      return DocsDirFailed(files);
    }
    return Completed(files, r.value);
  }

  /**
   * The key guard comes first: without a usable key `main` exits 1, and what
   * the list file holds and what the world would do make no difference, so
   * the list is not read.
   */
  lemma MissingKeyExitsFirst(args: Args, env: Option<string>,
                             r1: string -> Option<string>, r2: string -> Option<string>,
                             w1: World, w2: World, t: Template, d1: Disk, d2: Disk)
    requires (args.apiKey.None? || args.apiKey.value == "") && (env.None? || env.value == "")
    ensures MainResult(args, env, r1, w1, t, d1) == MissingApiKey == MainResult(args, env, r2, w2, t, d2)
    ensures ExitCode(MainResult(args, env, r1, w1, t, d1)) == 1
  {
  }

  /**
   * With a key and a readable list, `main` stops with "No files to process"
   * exactly when the list file holds nothing but whitespace. It then exits 1
   * whatever the world would do: no generator is built, no file is read, the
   * model is not called and nothing is written.
   */
  lemma EmptyListExits(args: Args, env: Option<string>, readList: string -> Option<string>,
                       w1: World, w2: World, t: Template, d1: Disk, d2: Disk)
    requires ResolveApiKey(args.apiKey, env).Some?
    requires readList(args.filesArg).Some?
    ensures MainResult(args, env, readList, w1, t, d1) == NoFiles <==> AllSpace(readList(args.filesArg).value)
    ensures AllSpace(readList(args.filesArg).value) ==>
              && MainResult(args, env, readList, w1, t, d1) == MainResult(args, env, readList, w2, t, d2)
              && ExitCode(MainResult(args, env, readList, w1, t, d1)) == 1
  {
    BlankFileNoFiles(readList(args.filesArg).value);
  }

  /**
   * The status is 0 whenever the key, the list and the docs root are in
   * order, however many entries failed: a run in which no summary was saved
   * still exits 0, and the outcome lists every entry with its fate, in order.
   */
  lemma CompletedDespiteFailures(args: Args, env: Option<string>, readList: string -> Option<string>,
                                 w: World, t: Template, disk0: Disk)
    requires ResolveApiKey(args.apiKey, env).Some?
    requires readList(args.filesArg).Some? && FileListFromText(readList(args.filesArg).value) != []
    requires w.makeDirs(0, NewGenerator(args.workspace, t).docsPath)
    ensures var o := MainResult(args, env, readList, w, t, disk0);
            && ExitCode(o) == 0
            && o.files == FileListFromText(readList(args.filesArg).value)
            && |o.state.fates| == |o.files|
            && forall k :: 0 <= k < |o.files| ==>
                 o.state.fates[k] == EntryFate(NewGenerator(args.workspace, t), w, k + 1, o.files[k])
  {
    var files := FileListFromText(readList(args.filesArg).value);
    BatchFates(NewGenerator(args.workspace, t), w, files, |files|, disk0);
  }
}
