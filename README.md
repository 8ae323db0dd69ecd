# Codebase summary generator, modelled in Dafny

`summarizer_tool.py` writes a Markdown summary for every file in a list. It
reads each file, builds an analysis prompt around the text, sends the prompt
to a remote language model, and stores the reply under `docs/codebase`. The
tree there mirrors the file's path relative to the workspace, and each
summary gets a JSON metadata record beside it. This project models the parts
of that script whose behaviour can be stated:

- the rules of the analysis prompt;
- the `pathlib` path arithmetic that places the output files;
- the parsing of the file list;
- the skip-and-continue batch loop;
- the exit guards of `main`.

The remote model, the file system and the clock are inputs. They form a
`World`, a record of functions that answer, for each entry, with a result or
a failure.

Modules, one per file:

- `common.dfy` (`Common`): `Option`.
- `paths.dfy` (`Paths`): POSIX paths as CPython 3.12's `PurePosixPath` treats
  them. A path is a root plus a list of components. Over that it defines
  parsing (`PurePosixPath(s)`), `str`, `name`, `suffix`, `stem`, `parent`,
  `/`, `with_suffix` and `relative_to`.
- `prompt.dfy` (`Prompt`): `build_analysis_prompt`. The template's prose is a
  `Template` parameter, so every property holds for any prose. The model
  states the four embedded fields: the relative path, the heading, the fence
  tag, and the source cut to 8000 characters.
- `filelist.dfy` (`FileList`): the list comprehension in `main` over the
  lines of a text-mode file. It models universal newlines, the way Python
  iterates over lines, and `str.strip` with Python's whitespace set.
- `summarizer.dfy` (`Summarizer`): `SummaryGenerator`. It has the function
  each step is specified by (`SingleSummary`, `SaveOutcome`, `EntryFate`,
  `Batch`). It has the methods that do the steps in the source's order
  (`GenerateSingleSummary`, `SaveSummary`, `ProcessEntry`,
  `GenerateSummaries`). And it has the lemmas: where files go, what the
  metadata says, and every entry once in order with a failure skipping only
  itself.
- `cli.dfy` (`Cli`): `main`. It resolves the API key, reads and normalises
  the list, runs the batch, and sets the exit status.

The files the generator writes are a `Disk` value, a map from path to
content, which the methods thread through and return. Every entry ends in
one `Fate`:

- `OutsideWorkspace`: `relative_to` raised.
- `Failed`: an exception came before anything was written.
- `SummaryOnly`: the `.md` was written and the `.json` was not.
- `Saved`: both files were written.

## Model

| member | source | states |
|---|---|---|
| Paths.Parse | python/summarizer_tool.py:17 | `Path(s)` always gives a valid path: root "", "/" or "//", and components that are non-empty, not "." and free of "/" |
| Paths.SplitFields | python/summarizer_tool.py:17 | no field of the split at "/" holds "/", and joining the fields with "/" gives the text back |
| Paths.SplitJoinSep | python/summarizer_tool.py:17 | splitting separator-free components joined with "/" gives the components back, so splitting and joining are inverse |
| Paths.KeepValidParts | python/summarizer_tool.py:17 | of separator-free fields, parsing keeps only valid components: non-empty and not "." |
| Paths.KeepValid | python/summarizer_tool.py:17 | a list of valid components is kept whole |
| Paths.KeepAppend | python/summarizer_tool.py:17 | each field is kept or dropped on its own: the kept fields of a concatenation are the concatenation of the kept fields |
| Paths.SplitRoot | python/summarizer_tool.py:17 | the root is "", "/" or "//" |
| Paths.ParseStr | python/summarizer_tool.py:46 | printing a valid path with `str` and parsing the text gives the same path back |
| Paths.ParseComponent | python/summarizer_tool.py:18 | a single valid component such as "docs" parses to the relative path of that component alone |
| Paths.LastIndexOfSpec | python/summarizer_tool.py:44 | `rfind`: -1 or an index holding the character, with no occurrence after it |
| Paths.StemSuffix | python/summarizer_tool.py:44 | a name is its stem followed by its suffix; the suffix is empty or a dot plus a non-empty extension without dots; a non-empty name has a non-empty stem |
| Paths.StemSuffixOfNewName | python/summarizer_tool.py:110 | appending a one-dot suffix to a non-empty stem gives a name with exactly that stem and that suffix |
| Paths.WithSuffixName | python/summarizer_tool.py:110 | `with_suffix` builds the new last component as the old stem followed by the new suffix |
| Paths.WithSuffixShape | python/summarizer_tool.py:110 | for a valid non-empty suffix, `with_suffix` succeeds exactly when the path has a component; the result is valid, has the same root, parent and length, and is named stem + suffix |
| Paths.WithSuffixSibling | python/summarizer_tool.py:110 | `with_suffix` with a one-dot suffix gives a sibling with the same parent and stem and that suffix, a different path when the old suffix was a different one |
| Paths.WithSuffixTwice | python/summarizer_tool.py:123 | replacing a one-dot suffix and then another equals replacing it once with the second; the first result keeps the stem and carries the first suffix |
| Paths.WithSuffixReplaces | python/summarizer_tool.py:110 | on `dir/stem.ext`, `with_suffix(sfx)` gives `dir/stem + sfx` |
| Paths.WithSuffixJoin | python/summarizer_tool.py:110 | `with_suffix` changes only the last component, so it commutes with putting a base path in front of a relative one |
| Paths.JoinLast | python/summarizer_tool.py:110-111 | `a / b` for a relative `b` with components has `b`'s name, and its parent is `a / b.parent` |
| Paths.RelativeToJoin | python/summarizer_tool.py:28 | `p.relative_to(base)` is `r` exactly when `r` is relative and `base / r` is `p` (both directions) |
| Paths.JoinValid | python/summarizer_tool.py:110 | appending a valid relative path to a valid path gives a valid path |
| Paths.ResolveAppendPlain | python/summarizer_tool.py:110 | resolving ".." in a path extended by components without ".." is resolving the front and keeping the extension as it is |
| Paths.ResolvedJoin | python/summarizer_tool.py:110 | a base followed by a relative path without "..", once resolved, is the resolved base followed by that path |
| Paths.ResolvedJoinInjective | python/summarizer_tool.py:110 | two relative paths without ".." appended to one base resolve to the same path exactly when the joined paths are equal |
| Paths.RelativeToPlain | python/summarizer_tool.py:28 | `relative_to` on a path without ".." gives a path without ".." |
| Paths.WithSuffixPlain | python/summarizer_tool.py:110 | `with_suffix('.md')` or `('.json')` on a path without ".." succeeds, keeps the root and gives a path without ".." |
| Paths.RelativeToValid | python/summarizer_tool.py:28 | what `relative_to` returns from valid paths is valid and relative |
| Prompt.PromptLength | python/summarizer_tool.py:57-105 | the prompt's length is bounded by the fixed parts plus 8000 + 2 + the marker, whatever the content's length |
| Prompt.SourceBlockAt | python/summarizer_tool.py:100-103 | the truncation rule, as the prompt shows it: right after the opening fence line come the first min(\|content\|, 8000) characters of the content, then two spaces, then `...[truncated]` exactly when the content is longer than 8000 characters, then the closing fence and the rest of the prose; the prompt's length is exactly the sum of those parts, so nothing else is in between |
| Prompt.PromptIgnoresCutText | python/summarizer_tool.py:102 | two long contents with the same first 8000 characters give the same prompt |
| Prompt.ShortContentRecoverable | python/summarizer_tool.py:102 | two contents of at most 8000 characters give the same prompt only when they are equal: short content is embedded verbatim |
| Prompt.HeadingIsStem | python/summarizer_tool.py:67 | the heading built from `str(rel_path)` is the stem of the relative path's last component |
| Prompt.FenceTagOfSuffix | python/summarizer_tool.py:101 | the fence tag is `txt` for a name without a suffix; otherwise it is the extension without its dot, non-empty and dot-free, and the name is its stem, a dot and the tag |
| FileList.LeadingSpaceSpec | python/summarizer_tool.py:143 | the whitespace count at the start covers only whitespace and stops at the first character that is not whitespace |
| FileList.TrailingSpaceSpec | python/summarizer_tool.py:143 | the whitespace count at the end covers only whitespace and stops at the last character that is not whitespace |
| FileList.StripSpec | python/summarizer_tool.py:143 | `line.strip()` splits the line into leading whitespace, the result and trailing whitespace; the result neither starts nor ends with whitespace; it is empty exactly when the line is all whitespace |
| FileList.StripUnique | python/summarizer_tool.py:143 | whitespace, then a core without whitespace at either end, then whitespace strips to exactly that core (the converse of StripSpec) |
| FileList.StripIdempotent | python/summarizer_tool.py:143 | stripping twice is stripping once |
| FileList.Translate | python/summarizer_tool.py:142 | text-mode reading turns "\r\n" and a lone "\r" into "\n"; the result holds no "\r" and is no longer than the file |
| FileList.TranslateNoCarriageReturn | python/summarizer_tool.py:142 | a file without "\r" is read unchanged |
| FileList.FirstLineLength | python/summarizer_tool.py:143 | a line runs up to and including the first "\n", or to the end of the text, and is never empty |
| FileList.Lines | python/summarizer_tool.py:143 | the lines iterating over the file yields concatenate to the whole text |
| FileList.LinesShape | python/summarizer_tool.py:143 | every line is non-empty and holds "\n" only as its last character, and every line but the last ends in "\n" |
| FileList.ParseFileList | python/summarizer_tool.py:143 | the list has no more entries than there are lines, and every entry is non-empty and already stripped |
| FileList.ParseFileListExact | python/summarizer_tool.py:143 | the k-th entry is the stripped k-th non-blank line; the positions of those lines increase; a line is kept exactly when it does not strip to nothing |
| FileList.ParseFileListAppend | python/summarizer_tool.py:143 | the list of a concatenation of lines is the concatenation of the lists: each line is judged alone |
| FileList.BlankTextNoFiles | python/summarizer_tool.py:143 | the list is empty exactly when every line is made only of whitespace |
| FileList.TranslateKeepsSpace | python/summarizer_tool.py:142 | the text after newline translation is all whitespace exactly when the file was |
| FileList.ConcatSpaceLines | python/summarizer_tool.py:142-143 | a text is all whitespace exactly when each of its lines is |
| FileList.BlankFileNoFiles | python/summarizer_tool.py:142-145 | the list file gives an empty list exactly when it holds nothing but whitespace (or nothing) |
| Summarizer.NewGenerator | python/summarizer_tool.py:16-18 | the docs root is the workspace path followed by `docs` and `codebase`; it is valid, and relative to the workspace it is `docs/codebase` |
| Summarizer.DocsComponentsParse | python/summarizer_tool.py:18 | the constant components used for the docs root are what parsing "docs" and "codebase" gives |
| Summarizer.GenerateSingleSummary | python/summarizer_tool.py:38-55 | performs the source's calls in the source's order (read, `relative_to`, suffix, prompt, model) and returns what `SingleSummary` specifies; SingleSummaryPrompt and SummaryIgnoresCutText state what that is |
| Summarizer.SingleSummaryPrompt | python/summarizer_tool.py:38-55 | an unreadable file or one outside the workspace gives no summary; otherwise the model is asked once, with the prompt for the relative path (relative, joined to the workspace it gives the file's path, and parsing back from its printed form), the file's suffix and the text read; for a file strictly under the workspace the heading is the file's own stem, and the fence tag is `txt` or the file's extension without its dot |
| Summarizer.SummaryIgnoresCutText | python/summarizer_tool.py:40-46 | with the same replies from the model, two readings of a file longer than 8000 characters that agree on their first 8000 give the same summary |
| Summarizer.SaveSummary | python/summarizer_tool.py:107-125 | creates the directory and writes the summary, then the metadata beside it; the fate returned and the new disk are those of `SaveOutcome` |
| Summarizer.WriteSidecar | python/summarizer_tool.py:116-125 | builds the record and writes it at the summary path with suffix ".json"; the fate is `SidecarOutcome`'s and the disk gains only the record, and only when it was written |
| Summarizer.SidecarOutcome | python/summarizer_tool.py:116-125 | once the summary is written, the entry keeps it whatever the metadata write does: the fate is `SummaryOnly` or `Saved` with that summary at that path |
| Summarizer.ProcessEntry | python/summarizer_tool.py:27-36 | one pass of the `try` block: outside the workspace gives an error line and no progress line; otherwise a progress line, then an error line unless both files were saved; the disk changes only by that entry's writes |
| Summarizer.GenerateSummaries | python/summarizer_tool.py:21-36 | a failure to create the docs root propagates (`None`); otherwise the loop over all entries gives exactly the disk, lines and fates of `Batch`, kept as the loop invariant after every prefix |
| Summarizer.EntryFates | python/summarizer_tool.py:26 | one fate per listed entry |
| Summarizer.DocsPathValid | python/summarizer_tool.py:18 | the docs root is a valid path |
| Summarizer.SummaryPathMirrors | python/summarizer_tool.py:110-111 | the summary path is valid, lies under the docs root at `rel.with_suffix('.md')`, has as its directory the docs root followed by `rel`'s directory, and is named `rel`'s stem + ".md" |
| Summarizer.MetadataPathJoin | python/summarizer_tool.py:123 | the metadata path `summary_path.with_suffix('.json')` is the docs root followed by `rel.with_suffix('.json')` |
| Summarizer.MetadataPathBeside | python/summarizer_tool.py:123 | the metadata path shares the summary's directory and stem, has suffix ".json", and differs from the summary path |
| Summarizer.MetadataRecord | python/summarizer_tool.py:117-121 | `source_file` is `str(rel)` and parses back to `rel`; `summary_file` parses to `rel.with_suffix('.md')`; both are relative paths, and `summary_file` under the docs root is the summary's own path; the timestamp is the clock's |
| Summarizer.SaveOutcomeCases | python/summarizer_tool.py:107-125 | with no component, `with_suffix` raises at once; otherwise a failed mkdir or summary write writes nothing, a failed metadata write keeps the summary alone, and success writes both, the metadata at `docs/codebase/rel` with suffix ".json" |
| Summarizer.SaveOutcomePaths | python/summarizer_tool.py:110-123 | whatever `save_summary` writes, the summary is at the docs root followed by `rel.with_suffix('.md')` and the metadata at that path with suffix ".json" |
| Summarizer.EntryFateWrites | python/summarizer_tool.py:28-32 | an entry that wrote anything did so through `save_summary` on the valid relative path `relative_to` gave |
| Summarizer.SaveWritesUnderDocs | python/summarizer_tool.py:110-125 | every path `save_summary` writes has the docs root's components as a prefix: it lies under the docs root lexically, as `relative_to` decides it |
| Summarizer.EntryWritesUnderDocs | python/summarizer_tool.py:27-36 | every path one entry writes lies lexically under the docs root |
| Summarizer.EntryFateWithin | python/summarizer_tool.py:27-36 | an entry's writes lie lexically under the docs root, and a saved entry's two paths differ |
| Summarizer.RunWritesOnlyUnder | python/summarizer_tool.py:25-36 | a loop whose entries each write only under a root leaves the disk unchanged outside it |
| Summarizer.BatchWritesOnlyDocs | python/summarizer_tool.py:21-36 | the batch changes no key of the disk outside `docs/codebase`, with paths compared lexically |
| Summarizer.SaveResolvedUnderDocs | python/summarizer_tool.py:110-125 | for a relative path without "..", every path `save_summary` writes still lies under the docs root after ".." is resolved |
| Summarizer.EntryWritesResolvedUnderDocs | python/summarizer_tool.py:27-36 | a listed path without ".." has its entry's writes under the docs root after resolution |
| Summarizer.BatchWritesResolvedUnderDocs | python/summarizer_tool.py:21-36 | when no listed path holds "..", every file the batch writes lies under `docs/codebase` on the resolved file system too |
| Summarizer.PlainPathsIdentifyFiles | python/summarizer_tool.py:110-123 | for relative paths without "..", any two summary or metadata paths, of one entry or of two, resolve to the same file exactly when they are the same path, so distinct keys of the disk are distinct files |
| Summarizer.DotDotEscapes | python/summarizer_tool.py:28-32 | with workspace `/ws`, `relative_to` accepts `/ws/../x.py` as `../x.py`; its summary path `/ws/docs/codebase/../x.md` is under the docs root lexically but resolves to `/ws/docs/x.md`, outside it |
| Summarizer.EntryFatesAt | python/summarizer_tool.py:26 | the entry at index k meets the fate it would meet if processed alone at position k + 1 |
| Summarizer.BatchFates | python/summarizer_tool.py:25-36 | every entry is attempted exactly once, in order, and no failure, including `relative_to` raising, ends the loop: the fate of the entry at index k is what processing that entry at position k + 1 gives under the world's answers for that position |
| Summarizer.FateEventsShape | python/summarizer_tool.py:29-35 | an entry prints one or two lines; a progress line can only come first and carries the entry's position and the list size |
| Summarizer.ProgressInOrder | python/summarizer_tool.py:25-29 | the progress lines carry positions in 1..total, strictly increasing (so each entry at most once), each with the list size |
| Summarizer.ErrorCountAppend | python/summarizer_tool.py:35 | the error lines of two runs of output add up |
| Summarizer.SavedCount | python/summarizer_tool.py:32 | at most one saved entry per listed entry |
| Summarizer.FateErrorCount | python/summarizer_tool.py:34-35 | one entry prints one error line unless both of its files were saved, and none if they were |
| Summarizer.EveryFailureLogged | python/summarizer_tool.py:34-36 | every entry that was not fully saved prints exactly one error line, and a saved one prints none |
| Summarizer.SavedPersists | python/summarizer_tool.py:110-125 | a saved entry's summary and metadata are on disk at the end of the batch, unless a later entry writes one of the same paths |
| Summarizer.SameStemSameSummary | python/summarizer_tool.py:110 | two files in the same directory whose names share a stem get the same summary path |
| Summarizer.SummaryCollisionExample | python/summarizer_tool.py:110 | `src/a.py` and `src/a.ts` are different files with the same summary path `src/a.md` |
| Summarizer.MirrorExample | python/summarizer_tool.py:110-123 | `src/foo/bar.ts` is summarised at `src/foo/bar.md`, with metadata at `src/foo/bar.json` |
| Cli.ResolveApiKey | python/summarizer_tool.py:136-137 | a non-empty `--api-key` wins; otherwise a non-empty environment value; an empty string counts as missing; a key exists exactly when one of the two is non-empty |
| Cli.RunMain | python/summarizer_tool.py:127-151 | `main` step by step, with its early exits: the outcome is `MainResult`'s, and the status is 0 exactly when the batch ran to its end |
| Cli.MissingKeyExitsFirst | python/summarizer_tool.py:136-139 | without a usable key the outcome is the key error with status 1, whatever the list file holds and whatever the world would do, so the list is not read |
| Cli.EmptyListExits | python/summarizer_tool.py:141-147 | with a key and a readable list file the outcome is "no files" exactly when the file holds nothing but whitespace; it then has status 1 whatever the world would do, so no generator is built and no API call is made |
| Cli.CompletedDespiteFailures | python/summarizer_tool.py:145-151 | with a key, a non-empty list and a docs root, the status is 0 however many entries failed, and the outcome holds every listed entry's fate, in order |

## Left out

- The model client and `messages.create` (python/summarizer_tool.py:19, :48-55) are a remote API in a library outside this model. They are the oracle `World.createMessage`. So are the model name, the token limit and the temperature, which shape the reply but no property of the tool.
- The file reads (python/summarizer_tool.py:40-41, :142) are the oracles `World.readFile` and `readList`. UTF-8 decoding with `errors='ignore'` is left to them, so content is a given `seq<char>`. Truncation counts Dafny characters, which stand for Python's code points.
- Directory creation and the two writes (python/summarizer_tool.py:23, :111-114, :124-125) are the oracles `World.makeDirs` and `World.writeFile`, and a written file is an entry of the `Disk` map. The model does not cover:
  - directories as entries;
  - a write that raises halfway through and leaves a partial file;
  - `json.dump`'s layout; the `Sidecar` entry keeps the record's three fields.
- The timestamp `datetime.now().isoformat()` (python/summarizer_tool.py:120) is the oracle `World.now`, an opaque string.
- The prose of the prompt template (python/summarizer_tool.py:59-105) is the `Template` parameter, so no property depends on its wording.
- Argument parsing (python/summarizer_tool.py:128-133) is already done: `Args` holds its result. Lookup of the environment variable is an `Option` input.
- The printed text is not modelled. The progress and error lines of the loop (python/summarizer_tool.py:29, :35) are `Event` values that keep their numbers and paths, not their wording. The two configuration errors (python/summarizer_tool.py:138, :146) are the outcomes `MissingApiKey` and `NoFiles` of `main`, without their message.
- The closing "Successfully generated N summaries" and output-location messages (python/summarizer_tool.py:153-154) are not modelled. The message prints `len(files)` whatever happened to the entries, so it is not a count of summaries written.
- Exceptions that end the process (python/summarizer_tool.py:23, :142) are outcomes whose exit status is 1 (`ListUnreadable`, `DocsDirFailed`). The traceback is not modelled.
- Summarizer.BatchWritesOnlyDocs: the disk identifies a file by its lexical path, with ".." and symbolic links unresolved, so "outside `docs/codebase`" is the lexical test that `relative_to` applies. A listed path holding ".." can make a write land outside the docs root on a real file system (Summarizer.DotDotEscapes). Containment after resolving ".." is proved for lists without ".." (Summarizer.BatchWritesResolvedUnderDocs). Symbolic links are not modelled at all.
- Summarizer.BatchFates: the world's file-system answers do not depend on what the batch has already written. A later entry that reads a file an earlier entry wrote (say `docs/codebase/a.md` listed after `a.py`), or that needs as a directory a path an earlier entry wrote as a file, is not linked to that write: the model gives it the world's answer for its position.
- Summarizer.SavedPersists: two different keys of the disk can be one file on a real file system when ".." or symbolic links are involved, and then a later write to the other key would overwrite the saved file. For relative paths without "..", distinct keys are distinct files (Summarizer.PlainPathsIdentifyFiles). Symbolic links are not modelled.
- Paths are POSIX paths under CPython 3.12's `pathlib` rules. Windows drives and separators, and how other Python versions treat `with_suffix` and `relative_to`, are not modelled.
- Paths.WithSuffix has one extra check: it refuses a new last component that is empty, "." or holds "/". For the `.md` and `.json` suffixes the tool uses, that check never fires (see Paths.WithSuffixShape).
- The model is deterministic. A second identical call to the remote model may answer differently, and `World` fixes one answer per entry position.
- The API key only configures the client (python/summarizer_tool.py:19), so the generator model does not hold it.
