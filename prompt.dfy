/**
 * The analysis prompt of `SummaryGenerator.build_analysis_prompt`: fixed prose
 * around four embedded fields, namely the relative path (four times), the
 * heading (the path's stem), the code-fence language tag (from the file
 * extension) and the source text cut to a character budget.
 */
module Prompt {
  import opened Paths

  /** The character budget for the embedded source text. */
  const MaxSourceChars: nat := 8000

  /** Appended after the embedded source exactly when it was cut. */
  const TruncationMarker: string := "...[truncated]"

  const Fence: string := "```"

  /**
   * The fixed prose of the template, in the order it surrounds the embedded
   * fields; the model holds for any prose.
   */
  datatype Template = Template(
    beforePath: string,        // up to the `**File**:` path
    beforeHeading: string,     // up to the `# <stem>` heading
    beforeFirstLink: string,   // up to the path in the code-link format
    beforeSecondLink: string,  // up to the path in the first code-link example
    beforeThirdLink: string,   // up to the path in the second code-link example
    beforeSource: string,      // up to the opening code fence
    afterSource: string)       // after the closing code fence

  /** `content[:8000]` */
  function EmbeddedSource(content: string): string {
    if |content| <= MaxSourceChars then content else content[..MaxSourceChars]
  }

  /** The marker, or nothing when the content fits the budget. */
  function TruncationNote(content: string): string {
    if |content| > MaxSourceChars then TruncationMarker else ""
  }

  /** `file_ext[1:] if file_ext else 'txt'` */
  function FenceTag(fileExt: string): string {
    if fileExt == "" then "txt" else fileExt[1..]
  }

  /** `Path(rel_path).stem` */
  function Heading(relPath: string): string {
    Stem(Name(Parse(relPath)))
  }

  /** Everything before the embedded source: prose, path, heading and the opening fence. */
  function PromptHead(t: Template, relPath: string, fileExt: string): string {
    t.beforePath + relPath + t.beforeHeading + Heading(relPath)
    + t.beforeFirstLink + relPath + t.beforeSecondLink + relPath + t.beforeThirdLink + relPath
    + t.beforeSource + Fence + FenceTag(fileExt) + "\n"
  }

  /** The source line: the cut content, two spaces, and the marker if the content was cut. */
  function SourceLine(content: string): string {
    EmbeddedSource(content) + "  " + TruncationNote(content)
  }

  /** Everything after the source line: the closing fence and the prose after it. */
  function PromptTail(t: Template): string {
    "\n" + Fence + t.afterSource
  }

  /** `build_analysis_prompt(rel_path, file_ext, content)` */
  function BuildAnalysisPrompt(t: Template, relPath: string, fileExt: string, content: string): string {
    PromptHead(t, relPath, fileExt) + SourceLine(content) + PromptTail(t)
  }

  /** The prompt's length does not grow with the content beyond the budget. */
  lemma PromptLength(t: Template, relPath: string, fileExt: string, content: string)
    ensures |BuildAnalysisPrompt(t, relPath, fileExt, content)|
            <= |PromptHead(t, relPath, fileExt)| + MaxSourceChars + 2 + |TruncationMarker| + |PromptTail(t)|
  {
    SourceBlockAt(t, relPath, fileExt, content);
  }

  /**
   * Where the source sits in the prompt: right after the head, the first
   * min(|content|, 8000) characters of the content, then two spaces, then the
   * marker exactly when the content is longer than 8000 characters, and then
   * the tail; nothing else is in between.
   */
  lemma SourceBlockAt(t: Template, relPath: string, fileExt: string, content: string)
    ensures var p := BuildAnalysisPrompt(t, relPath, fileExt, content);
            var h := |PromptHead(t, relPath, fileExt)|;
            var n := if |content| <= MaxSourceChars then |content| else MaxSourceChars;
            var m := if |content| <= MaxSourceChars then 0 else |TruncationMarker|;
            && |p| == h + n + 2 + m + |PromptTail(t)|
            && p[..h] == PromptHead(t, relPath, fileExt)
            && p[h..h + n] == content[..n]
            && p[h + n..h + n + 2] == "  "
            && (|content| > MaxSourceChars ==> p[h + n + 2..h + n + 2 + |TruncationMarker|] == TruncationMarker)
            && p[|p| - |PromptTail(t)|..] == PromptTail(t)
            && (|content| <= MaxSourceChars ==> p[h + n + 2..] == PromptTail(t))
  {
    SourceBlockAfter(PromptHead(t, relPath, fileExt), t, content);
  }

  /** SourceBlockAt for an arbitrary head. */
  lemma SourceBlockAfter(head: string, t: Template, content: string)
    ensures var p := head + SourceLine(content) + PromptTail(t);
            var h := |head|;
            var n := if |content| <= MaxSourceChars then |content| else MaxSourceChars;
            var m := if |content| <= MaxSourceChars then 0 else |TruncationMarker|;
            && |p| == h + n + 2 + m + |PromptTail(t)|
            && p[..h] == head
            && p[h..h + n] == content[..n]
            && p[h + n..h + n + 2] == "  "
            && (|content| > MaxSourceChars ==> p[h + n + 2..h + n + 2 + |TruncationMarker|] == TruncationMarker)
            && p[|p| - |PromptTail(t)|..] == PromptTail(t)
            && (|content| <= MaxSourceChars ==> p[h + n + 2..] == PromptTail(t))
  {
    var src := EmbeddedSource(content);
    ConcatSlices(head, src, TruncationNote(content), PromptTail(t));
    assert src == content[..|src|];
  }

  /** Slices of a five-part concatenation `head + src + "  " + note + tail`. */
  lemma ConcatSlices(head: string, src: string, note: string, tail: string)
    ensures var p := head + src + "  " + note + tail;
            var h, n := |head|, |src|;
            && |p| == h + n + 2 + |note| + |tail|
            && p[..h] == head
            && p[h..h + n] == src
            && p[h + n..h + n + 2] == "  "
            && p[h + n + 2..h + n + 2 + |note|] == note
            && p[h + n + 2 + |note|..] == tail
  {
  }

  /** Nothing past the first 8000 characters of a long content reaches the prompt. */
  lemma PromptIgnoresCutText(t: Template, relPath: string, fileExt: string, c1: string, c2: string)
    requires |c1| > MaxSourceChars && |c2| > MaxSourceChars
    requires c1[..MaxSourceChars] == c2[..MaxSourceChars]
    ensures BuildAnalysisPrompt(t, relPath, fileExt, c1) == BuildAnalysisPrompt(t, relPath, fileExt, c2)
  {
  }

  /**
   * Content within the budget is embedded verbatim: two such contents give the
   * same prompt only when they are the same text.
   */
  lemma ShortContentRecoverable(t: Template, relPath: string, fileExt: string, c1: string, c2: string)
    requires |c1| <= MaxSourceChars && |c2| <= MaxSourceChars
    requires BuildAnalysisPrompt(t, relPath, fileExt, c1) == BuildAnalysisPrompt(t, relPath, fileExt, c2)
    ensures c1 == c2
  {
    var p := BuildAnalysisPrompt(t, relPath, fileExt, c1);
    var h := |PromptHead(t, relPath, fileExt)|;
    SourceBlockAt(t, relPath, fileExt, c1);
    SourceBlockAt(t, relPath, fileExt, c2);
    assert |c1| == |c2|;
    assert c1 == c1[..|c1|] == p[h..h + |c1|];
    assert c2 == c2[..|c2|] == p[h..h + |c2|];
  }

  /** The heading of a printed valid path is the stem of its last component. */
  lemma HeadingIsStem(rel: Path)
    requires Valid(rel)
    ensures Heading(Str(rel)) == Stem(Name(rel))
  {
    ParseStr(rel);
  }

  /**
   * The fence tag of a name's suffix: "txt" when the name has no suffix;
   * otherwise the extension itself, non-empty and dot-free, with the name being
   * its stem, a dot and the tag.
   */
  lemma FenceTagOfSuffix(name: string)
    ensures Suffix(name) == "" ==> FenceTag(Suffix(name)) == "txt"
    ensures Suffix(name) != "" ==>
              var tag := FenceTag(Suffix(name));
              && tag != ""
              && '.' !in tag
              && Suffix(name) == "." + tag
              && name == Stem(name) + "." + tag
  {
    StemSuffix(name);
    var sfx := Suffix(name);
    if sfx != "" {
      assert sfx == "." + sfx[1..];
    }
  }
}
