/** The rewrite of a `.gitattributes` file done by
    `PodBuilder::Command::GenerateLFS.write_attributes`: a freshly generated
    block between a start and a stop marker, followed by every line of the old
    file that lay outside the old block, stripped, except stop lines, which
    are dropped wherever they are. */
module Gitattributes {
  import opened Text

  /** The line that closes the generated block. */
  const StopMarker: string := "# pb<stop>"
  /** The tag that opens the start marker. */
  const StartTag: string := "# pb<start>"
  /** The line that opens the generated block; it quotes the stop marker. */
  const StartMarker: string :=
    StartTag + " (lines up to `" + StopMarker + "` are " + "autogenerated, " + "don't modify " + "this section)"
  /** Appended to every exclude pattern. */
  const ExcludeSuffix: string := " !filter !merge !diff"

  /** The exclude patterns as written into the block. */
  function ExcludeLines(excludes: seq<string>): seq<string> {
    seq(|excludes|, i requires 0 <= i < |excludes| => excludes[i] + ExcludeSuffix)
  }

  /** Each exclude pattern, in caller order, followed by the suffix. */
  lemma ExcludeLinesAt(excludes: seq<string>)
    ensures |ExcludeLines(excludes)| == |excludes|
    ensures forall i :: 0 <= i < |excludes| ==> ExcludeLines(excludes)[i] == excludes[i] + ExcludeSuffix
  {
  }

  /** The lines between the two markers. */
  function Patterns(includes: seq<string>, excludes: seq<string>): seq<string> {
    includes + ExcludeLines(excludes)
  }

  /** The generated block. */
  function Block(includes: seq<string>, excludes: seq<string>): seq<string> {
    [StartMarker] + Patterns(includes, excludes) + [StopMarker]
  }

  /** The block is the start marker, the include lines in caller order, the
      exclude lines in caller order with the suffix, and the stop marker. */
  lemma BlockLayout(includes: seq<string>, excludes: seq<string>)
    ensures |Block(includes, excludes)| == |includes| + |excludes| + 2
    ensures Block(includes, excludes)[0] == StartMarker
    ensures Block(includes, excludes)[|includes| + |excludes| + 1] == StopMarker
    ensures forall i :: 0 <= i < |includes| ==> Block(includes, excludes)[1 + i] == includes[i]
    ensures forall i :: 0 <= i < |excludes| ==>
      Block(includes, excludes)[1 + |includes| + i] == excludes[i] + ExcludeSuffix
  {
    ExcludeLinesAt(excludes);
  }

  /** A line whose stripped form starts with the stop marker. */
  predicate IsStopLine(line: string) {
    StartsWith(Strip(line), StopMarker)
  }

  /** A line whose stripped form starts with the whole start marker,
      parenthetical included. */
  predicate IsStartLine(line: string) {
    StartsWith(Strip(line), StartMarker)
  }

  /** The state of the scan over the old file: whether it is inside a block,
      and the lines kept so far. */
  datatype ScanState = ScanState(inBlock: bool, kept: seq<string>)

  const Initial: ScanState := ScanState(false, [])

  /** One step of the scan. A stop line ends the block and is dropped; a start
      line opens a block and is dropped; a line inside a block is dropped; any
      other line is kept, stripped. */
  function Advance(st: ScanState, line: string): ScanState {
    var stripped := Strip(line);
    if StartsWith(stripped, StopMarker) then ScanState(false, st.kept)
    else if StartsWith(stripped, StartMarker) || st.inBlock then ScanState(true, st.kept)
    else ScanState(false, st.kept + [stripped])
  }

  /** The scan over `lines`, from state `st`. */
  function ScanFrom(st: ScanState, lines: seq<string>): ScanState
    decreases |lines|
  {
    if lines == [] then st else Advance(ScanFrom(st, lines[..|lines| - 1]), lines[|lines| - 1])
  }

  /** The lines of the old file that survive the rewrite, in order. */
  function Kept(lines: seq<string>): seq<string> {
    ScanFrom(Initial, lines).kept
  }

  /** The lines of the new file: the generated block, then the kept lines. */
  function RewriteLines(lines: seq<string>, includes: seq<string>, excludes: seq<string>): seq<string> {
    Block(includes, excludes) + Kept(lines)
  }

  /** The new content of the file, given its old content. */
  function Rewrite(content: string, includes: seq<string>, excludes: seq<string>): string {
    Join(RewriteLines(EachLine(content), includes, excludes))
  }

  /** The body of `write_attributes` between reading and writing the file:
      the item list starts as the block, the old lines are streamed with a
      flag that says whether a start line has been seen, and the items are
      joined with line feeds. */
  method RewriteContent(content: string, includes: seq<string>, excludes: seq<string>)
    returns (text: string)
    ensures text == Rewrite(content, includes, excludes)
  {
    var items := [StartMarker];
    items := items + includes + ExcludeLines(excludes);
    items := items + [StopMarker];
    var lines := EachLine(content);
    var startLineFound := false;
    for i := 0 to |lines|
      invariant startLineFound == ScanFrom(Initial, lines[..i]).inBlock
      invariant items == Block(includes, excludes) + ScanFrom(Initial, lines[..i]).kept
    {
      assert lines[..i + 1][..i] == lines[..i];
      var stripped := Strip(lines[i]);
      if StartsWith(stripped, StopMarker) {
        startLineFound := false;
        continue;
      } else if StartsWith(stripped, StartMarker) {
        startLineFound := true;
      }
      if startLineFound {
        continue;
      }
      items := items + [stripped];
    }
    assert lines[..|lines|] == lines;
    text := Join(items);
  }
}
