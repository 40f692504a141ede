# PodBuilder `generate_lfs`: the `.gitattributes` block rewrite

PodBuilder's `generate_lfs` command keeps an autogenerated block at the top of
the `.gitattributes` file of its Rome, dSYM and (optionally) Pods directories.
In the Rome and dSYM directories the block routes every file through Git LFS
except a fixed list of thirty source, text, image and dotfile patterns; in the Pods directory it
routes only the files matching `**/*.frameworks/**/*`, with the same exclude
list. Each run replaces the old block with a fresh one and keeps every
hand-written line that lay outside the old block, except lines that start with
the stop marker, stripped of surrounding whitespace, after the new block.

This project models `lib/pod_builder/command/generate_lfs.rb` in Dafny.

- `text.dfy` (module `Text`) holds the Ruby string operations the rewrite
  relies on, over `seq<char>`:
  - `String#strip`, with a fixed whitespace set;
  - `String#start_with?`;
  - `String#each_line`;
  - `Array#join("\n")`.

  It also proves the facts about them that the rest of the model needs, such
  as how `each_line` splits a `join`.
- `gitattributes.dfy` (module `Gitattributes`) models `write_attributes`:
  - the two markers and the fresh block;
  - the line scan as a state machine (`Advance`, `ScanFrom`), with the
    specification function `Rewrite`;
  - `RewriteContent`, the imperative loop with its mutable
    "start line found" flag, proved equal to `Rewrite`.
- `gitattributes_proofs.dfy` (module `GitattributesProofs`) proves what the
  rewrite guarantees:
  - which old lines are dropped and which are kept;
  - the order of the kept lines and the size of the output;
  - the flag's meaning;
  - when a second run changes nothing, and what it changes otherwise.
- `generate_lfs.dfy` (module `GenerateLfs`) models `call`:
  - the file system is a `FileSystem` object holding a map from paths to
    contents;
  - `WriteAttributes` is the method that touches, reads, rewrites and writes
    one file;
  - `Call` runs it on the Rome, dSYM and Pods directories as the flags say.

  It proves:
  - which files change and which do not;
  - what each changed file holds;
  - that a second `call` is stable under the same condition as the single
    rewrite.
- `size_filter.dfy` (module `SizeFilter`) models `filter_files_by_size`, an
  order-preserving filter on the size in whole kibibytes.

Running the rewrite twice is not unconditionally stable. Suppose the last
line kept from the old file is blank (a file ending in `"\n\n"`, for example).
Then the joined output ends in a line feed. `each_line` yields no empty line
after that line feed, so the second run loses the blank line. Its output is
one character shorter than the first run's output. The model follows the code:

- `RewriteIdempotent` proves stability whenever the last kept line is not
  blank and the patterns are well formed: no pattern line holds a line feed
  or reads as a stop line (the fixed patterns of `call` are, by
  `FixedPatternsWellFormed`);
- `TrailingBlankLineLost` and `TrailingBlankExample` prove the exception.

## Model

| member | source | states |
|---|---|---|
| Gitattributes.BlockLayout | lib/pod_builder/command/generate_lfs.rb:32-37 | the block is the start marker, the include lines in caller order, each exclude line followed by ` !filter !merge !diff` in caller order, then the stop marker, and nothing else |
| Gitattributes.ExcludeLines | lib/pod_builder/command/generate_lfs.rb:36 | defines each exclude pattern, in order, followed by ` !filter !merge !diff` (the `map` of line 36) |
| Gitattributes.Block | lib/pod_builder/command/generate_lfs.rb:35-37 | defines the fresh block: start marker, include lines, exclude lines, stop marker |
| Gitattributes.IsStopLine | lib/pod_builder/command/generate_lfs.rb:49-50 | defines a stop line: its stripped form starts with `# pb<stop>` |
| Gitattributes.IsStartLine | lib/pod_builder/command/generate_lfs.rb:49-53 | defines a start line: its stripped form starts with the whole start marker, parenthetical included |
| Gitattributes.Advance | lib/pod_builder/command/generate_lfs.rb:49-61 | defines one step of the scan: a stop line clears the flag and is dropped; a start line sets the flag; with the flag set the line is dropped; otherwise the stripped line is pushed |
| Gitattributes.ScanFrom | lib/pod_builder/command/generate_lfs.rb:47-62 | defines the scan over a list of lines, one `Advance` per line, in order, from a given flag and kept list |
| Gitattributes.Kept | lib/pod_builder/command/generate_lfs.rb:47-62 | defines the lines pushed after the block: the kept list of the scan from a cleared flag and no kept lines |
| Gitattributes.Rewrite | lib/pod_builder/command/generate_lfs.rb:35-64 | defines the new content: the block followed by the kept lines of `each_line` of the old content, joined with line feeds |
| Gitattributes.RewriteContent | lib/pod_builder/command/generate_lfs.rb:35-64 | the loop that pushes block lines, scans the old lines with the start-line flag and joins the items computes exactly `Rewrite` of the old content |
| GitattributesProofs.MarkersExclusive | lib/pod_builder/command/generate_lfs.rb:32-33 | no line starts with both markers, so the order of the stop test and the start test never matters |
| GitattributesProofs.FileWithoutBlock | lib/pod_builder/command/generate_lfs.rb:48-61 | in a file without a start line, every line except stop lines is kept, stripped and in order, and the flag stays false throughout |
| GitattributesProofs.OldBlockReplaced | lib/pod_builder/command/generate_lfs.rb:48-61 | the first block of the file is dropped whole: its start line, everything before the next stop line, and that stop line; the lines before it are kept as `FileWithoutBlock` keeps them (stripped, stop lines dropped), and the rest of the file is scanned as if the block had not been there |
| GitattributesProofs.UnterminatedBlockDropsRest | lib/pod_builder/command/generate_lfs.rb:53-59 | a start line with no stop line after it drops every line to the end of the file |
| GitattributesProofs.InBlockIffOpenBlock | lib/pod_builder/command/generate_lfs.rb:47-55 | the flag is set exactly when some start line has been seen and no stop line since |
| GitattributesProofs.KeptStep | lib/pod_builder/command/generate_lfs.rb:49-61 | a line is kept, stripped, exactly when it is neither a stop line nor a start line and no block is open before it; otherwise nothing is kept |
| GitattributesProofs.BareStartTagIsKept | lib/pod_builder/command/generate_lfs.rb:33 | a line reading only `# pb<start>` is no start line, because the test needs the whole start marker; it is kept |
| GitattributesProofs.BareStartTagLineKept | lib/pod_builder/command/generate_lfs.rb:49-61 | in any file, a line whose stripped text is only `# pb<start>` is neither a start nor a stop line, so it is kept (stripped) exactly when no block is open before it |
| GitattributesProofs.LineCount | lib/pod_builder/command/generate_lfs.rb:35-37 | the new file is 2 + includes + excludes + kept items joined with line feeds, and no more lines are kept than the old file had |
| GitattributesProofs.EmptyFileGetsBlock | lib/pod_builder/command/generate_lfs.rb:41-45 | an empty or new file is rewritten to exactly the joined block |
| GitattributesProofs.EndsWithLineFeedIff | lib/pod_builder/command/generate_lfs.rb:64 | the new text ends in a line feed exactly when the last kept line is blank; otherwise the join leaves no trailing line feed |
| GitattributesProofs.KeptOfTextReproducible | lib/pod_builder/command/generate_lfs.rb:48-61 | every kept line is stripped, holds no line feed and starts with neither marker |
| GitattributesProofs.SafePatternsWellFormed | lib/pod_builder/command/generate_lfs.rb:36 | patterns that are non-empty, start with neither whitespace nor `#`, and hold no line feed give a block whose pattern lines a later scan never takes for a stop line |
| GitattributesProofs.SecondPassKeeps | lib/pod_builder/command/generate_lfs.rb:48-64 | with well-formed patterns, a second rewrite of the new text drops the block the first one wrote and keeps the same lines, except a blank last one |
| GitattributesProofs.RewriteIdempotent | lib/pod_builder/command/generate_lfs.rb:31-65 | with well-formed patterns and a last kept line that is not blank, rewriting twice gives what rewriting once gave |
| GitattributesProofs.TrailingBlankLineLost | lib/pod_builder/command/generate_lfs.rb:48-64 | with well-formed patterns and a blank last kept line, the second rewrite is the block plus the kept lines without that blank line, one character shorter than the first |
| GitattributesProofs.TrailingBlankExample | lib/pod_builder/command/generate_lfs.rb:48-64 | with well-formed patterns, a file of one ordinary line followed by a blank line (such as `*.zip` then a blank line) has a second rewrite that differs from the first (both lines are kept, by `LineThenBlank`) |
| GitattributesProofs.LineThenBlank | lib/pod_builder/command/generate_lfs.rb:48-61 | the scan of an ordinary line followed by a blank line keeps both, the blank one as an empty line |
| GitattributesProofs.ZipIsReproducible | lib/pod_builder/command/generate_lfs.rb:49-53 | `*.zip` is a line the scan keeps unchanged |
| Text.Strip | lib/pod_builder/command/generate_lfs.rb:49 | defines `String#strip`: leading and trailing characters of the fixed whitespace set removed |
| Text.EachLine | lib/pod_builder/command/generate_lfs.rb:48 | defines `String#each_line`: the text cut after every line feed, each piece keeping its line feed |
| Text.Join | lib/pod_builder/command/generate_lfs.rb:64 | defines `Array#join("\n")`: the items with a line feed between each two, none after the last |
| Text.StartsWith | lib/pod_builder/command/generate_lfs.rb:50-53 | `String#start_with?`: the prefix is no longer than the string and equals its first characters |
| Text.StripIdempotent | lib/pod_builder/command/generate_lfs.rb:49 | stripping twice is stripping once |
| Text.StripRemovesLineFeed | lib/pod_builder/command/generate_lfs.rb:49 | a line from `each_line`, stripped, holds no line feed |
| Text.EachLineShape | lib/pod_builder/command/generate_lfs.rb:48 | the pieces `each_line` yields glue back into the text, each is non-empty, and each but the last ends in a line feed |
| Text.EachLineOfJoin | lib/pod_builder/command/generate_lfs.rb:48-64 | splitting a join of line-feed-free items gives every item but the last with a line feed, then the last item, or nothing when it is empty |
| Text.JoinEndsWithLineFeed | lib/pod_builder/command/generate_lfs.rb:64 | a join of two or more items, whose last item holds no line feed, ends in a line feed exactly when that last item is empty |
| GenerateLfs.AttributesPath | lib/pod_builder/command/generate_lfs.rb:39 | the target path is the directory, then a slash unless the directory already ends in one, then `.gitattributes`; trailing slashes already there are kept, as `File.join` keeps them |
| GenerateLfs.Written | lib/pod_builder/command/generate_lfs.rb:39-64 | defines the file map after one write_attributes: the target file replaced by `Rewrite` of its content (empty when missing), every other file as it was |
| GenerateLfs.Contents | lib/pod_builder/command/generate_lfs.rb:41-45 | what `File.read` gives after the touch: the file's content, or empty text for a file that did not exist |
| GenerateLfs.RunJobs | lib/pod_builder/command/generate_lfs.rb:16-21 | the `write_attributes` calls run one after the other, each on the file map the previous one left |
| GenerateLfs.Jobs | lib/pod_builder/command/generate_lfs.rb:9-22 | defines the write_attributes calls of `call`: none when the update is off; otherwise Rome and dSYM with the framework include and the excludes, then Pods with the Pods include when the Pods flag is set |
| GenerateLfs.WriteAttributes | lib/pod_builder/command/generate_lfs.rb:39-64 | the file is created empty when missing, then replaced by `Rewrite` of its content; no other file changes; the result is the length written |
| GenerateLfs.Call | lib/pod_builder/command/generate_lfs.rb:6-23 | with the update off, nothing is written and the result is `Disabled`; otherwise Rome, then dSYM, then Pods if asked, are rewritten in that order; the result is the Pods write's length, or `PodsSkipped` |
| GenerateLfs.CallResult | lib/pod_builder/command/generate_lfs.rb:9-22 | the three results of `call`: `false` when the update is off (line 10), `nil` from the `if` when the Pods folder is left out, otherwise what the last `File.write` returned |
| GenerateLfs.RunJobsFrame | lib/pod_builder/command/generate_lfs.rb:16-21 | after the writes, a file exists exactly when it existed before or was a target, and every file that was not a target is unchanged |
| GenerateLfs.RunJobsDistinct | lib/pod_builder/command/generate_lfs.rb:16-21 | when no two writes share a file, each target ends up holding the rewrite of its old content with its own patterns |
| GenerateLfs.RunJobsTwice | lib/pod_builder/command/generate_lfs.rb:16-21 | with well-formed patterns, running the same distinct writes twice gives what running them once gave, when every target's last kept line is not blank |
| GenerateLfs.JobsTargets | lib/pod_builder/command/generate_lfs.rb:9-22 | the files `call` writes are none when the update is off; otherwise Rome, then dSYM, then Pods when `lfs_include_pods_folder` is set |
| GenerateLfs.FixedPatternsWellFormed | lib/pod_builder/command/generate_lfs.rb:13-20 | the fixed include and exclude lists give well-formed blocks |
| GenerateLfs.ExcludesSafe | lib/pod_builder/command/generate_lfs.rb:13 | every one of the thirty exclude patterns is a safe pattern |
| GenerateLfs.CallRewrites | lib/pod_builder/command/generate_lfs.rb:15-21 | with the update on, the Rome and dSYM files hold the rewrite with the framework include and the excludes; the Pods file holds the rewrite with the narrower Pods include, or is untouched when Pods is not included |
| GenerateLfs.CallLeavesOtherFiles | lib/pod_builder/command/generate_lfs.rb:9-22 | every file but the targets keeps its existence and content; with the update off, that is every file |
| GenerateLfs.CallTwiceIsStable | lib/pod_builder/command/generate_lfs.rb:6-23 | a second `call` with the same settings changes nothing, when every target's last kept line is not blank |
| SizeFilter.LargeEnough | lib/pod_builder/command/generate_lfs.rb:28 | defines the `select` test: the size in bytes divided by 1024, rounded down, is greater than the minimum |
| SizeFilter.FilterFilesBySize | lib/pod_builder/command/generate_lfs.rb:27-29 | the result is no longer than the input, and every file in it is large enough |
| SizeFilter.FilterMembership | lib/pod_builder/command/generate_lfs.rb:28 | a file is in the result exactly when it is in the input and its size divided by 1024 (rounded down) exceeds the minimum |
| SizeFilter.FilterAppend | lib/pod_builder/command/generate_lfs.rb:28 | filtering a concatenation filters each part and keeps their order |
| SizeFilter.FilterKeepsAllIff | lib/pod_builder/command/generate_lfs.rb:28 | the input comes back unchanged exactly when every file is large enough |
| SizeFilter.FilterIdempotent | lib/pod_builder/command/generate_lfs.rb:28 | filtering twice is filtering once |
| SizeFilter.FilterIgnoresSizeKb | lib/pod_builder/command/generate_lfs.rb:27-28 | the `size_kb` argument has no influence on the result |
| SizeFilter.LargeEnoughInBytes | lib/pod_builder/command/generate_lfs.rb:28 | a file is large enough exactly when it holds at least 1024 × (minimum + 1) bytes |

## Left out

- File-system I/O (`FileUtils.touch`, `File.exist?`, `File.read`, `File.write`, `File.size`) is a map from paths to contents held by `FileSystem`. File sizes are given with each path. Write errors, permissions and encodings are not modelled.
- `Configuration.check_inited` and the `Configuration` globals are left out. The two flags and the directories are fields of `Config`. The minimum file size is a parameter of `FilterFilesBySize`.
- `PodBuilder::basepath` and `PodBuilder::project_path` are not part of this model. The Rome, dSYM and Pods directories are opaque strings in `Config`.
- Line 39 joins a variable that has not been assigned yet (`File.join(gitattributes_path, ...)`), so as written it raises before touching any file. The model uses the evident intent instead: the target directory joined with `.gitattributes`.
- `String#strip` uses a fixed whitespace set (NUL, tab, line feed, vertical tab, form feed, carriage return, space). Ruby's encoding-aware details are not modelled.
- GenerateLfs.WriteAttributes: returns the number of characters written, not the number of UTF-8 bytes `File.write` reports.
- GenerateLfs.Call: the result for the Pods branch is the character count of the Pods file, for the same reason.
- GenerateLfs.CallRewrites: requires the three target files to be different. When two directories share a file, `call` rewrites it twice, which is stable only when RewriteIdempotent's condition holds.
- GenerateLfs.CallTwiceIsStable: requires the three target files to be different, for the same reason.
- Rewriting is not idempotent for every input: a blank last kept line is lost on the second run (`TrailingBlankLineLost`). The model proves idempotence under the conditions of `RewriteIdempotent` only.
- Atomic writes, locking and concurrent runs are not modelled, because the code has none of them.
