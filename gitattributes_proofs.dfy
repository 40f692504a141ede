/** What the rewrite of `write_attributes` guarantees: which old lines are
    dropped and which are kept, where the kept lines go, and when running the
    rewrite a second time changes nothing. */
module GitattributesProofs {
  import opened Text
  import opened Gitattributes

  /** The two markers differ at their eighth character, so no line can start
      with both: the order of the two tests in the scan does not matter. */
  lemma MarkersExclusive(s: string)
    ensures !(StartsWith(s, StopMarker) && StartsWith(s, StartMarker))
  {
    assert StopMarker[7] == 'o';
    assert StartMarker[7] == 'a';
    if StartsWith(s, StopMarker) {
      StartsWithAt(s, StopMarker, 7);
      if StartsWith(s, StartMarker) {
        StartsWithAt(s, StartMarker, 7);
        assert false;
      }
    }
  }

  /** Scanning one more line is one more step. */
  lemma ScanLast(st: ScanState, lines: seq<string>, line: string)
    ensures ScanFrom(st, lines + [line]) == Advance(ScanFrom(st, lines), line)
  {
    assert (lines + [line])[..|lines|] == lines;
  }

  /** A start line opens a block, whatever the state. */
  lemma AdvanceStart(st: ScanState, line: string)
    requires IsStartLine(line)
    ensures Advance(st, line) == ScanState(true, st.kept)
  {
    MarkersExclusive(Strip(line));
  }

  /** A stop line closes a block, whatever the state. */
  lemma AdvanceStop(st: ScanState, line: string)
    requires IsStopLine(line)
    ensures Advance(st, line) == ScanState(false, st.kept)
  {
  }

  /** Scanning a concatenation is scanning its parts one after the other. */
  lemma {:induction false} ScanAppend(st: ScanState, a: seq<string>, b: seq<string>)
    ensures ScanFrom(st, a + b) == ScanFrom(ScanFrom(st, a), b)
    decreases |b|
  {
    if b == [] {
      assert a + b == a;
    } else {
      assert (a + b)[..|a + b| - 1] == a + b[..|b| - 1];
      assert (a + b)[|a + b| - 1] == b[|b| - 1];
      ScanAppend(st, a, b[..|b| - 1]);
    }
  }

  /** Lines kept before a stretch of the file stay, and the stretch only
      appends to them. */
  lemma {:induction false} ScanKeepsEarlierLines(inBlock: bool, k: seq<string>, lines: seq<string>)
    ensures ScanFrom(ScanState(inBlock, k), lines)
         == ScanState(ScanFrom(ScanState(inBlock, []), lines).inBlock,
                      k + ScanFrom(ScanState(inBlock, []), lines).kept)
    decreases |lines|
  {
    if lines != [] {
      ScanKeepsEarlierLines(inBlock, k, lines[..|lines| - 1]);
      var prev := ScanFrom(ScanState(inBlock, []), lines[..|lines| - 1]);
      assert (k + prev.kept) + [Strip(lines[|lines| - 1])] == k + (prev.kept + [Strip(lines[|lines| - 1])]);
    }
  }

  /** Inside a block, every line up to the next stop line is dropped. */
  lemma {:induction false} InsideBlockDropsLines(k: seq<string>, lines: seq<string>)
    requires forall i :: 0 <= i < |lines| ==> !IsStopLine(lines[i])
    ensures ScanFrom(ScanState(true, k), lines) == ScanState(true, k)
    decreases |lines|
  {
    if lines != [] {
      var init, last := lines[..|lines| - 1], lines[|lines| - 1];
      InsideBlockDropsLines(k, init);
      assert ScanFrom(ScanState(true, k), lines) == Advance(ScanState(true, k), last);
      assert !IsStopLine(last);
    }
  }

  /** The reference for what survives of a stretch without a start line:
      every line that is not a stop line, stripped, in order. */
  function Unmarked(lines: seq<string>): seq<string>
    decreases |lines|
  {
    if lines == [] then []
    else
      var last := lines[|lines| - 1];
      Unmarked(lines[..|lines| - 1]) + (if IsStopLine(last) then [] else [Strip(last)])
  }

  /** Outside a block and with no start line ahead, every line is kept
      stripped except stop lines, which are dropped without opening anything. */
  lemma {:induction false} NoStartLineKeepsLines(k: seq<string>, lines: seq<string>)
    requires forall i :: 0 <= i < |lines| ==> !IsStartLine(lines[i])
    ensures ScanFrom(ScanState(false, k), lines) == ScanState(false, k + Unmarked(lines))
    decreases |lines|
  {
    if lines != [] {
      var init, last := lines[..|lines| - 1], lines[|lines| - 1];
      NoStartLineKeepsLines(k, init);
      var st := ScanFrom(ScanState(false, k), init);
      assert ScanFrom(ScanState(false, k), lines) == Advance(st, last);
      assert !IsStartLine(last);
      assert Unmarked(lines) == Unmarked(init) + (if IsStopLine(last) then [] else [Strip(last)]);
    }
  }

  /** A file without a start line keeps all its lines but stop lines, stripped,
      and ends the scan outside any block. */
  lemma FileWithoutBlock(lines: seq<string>)
    requires forall i :: 0 <= i < |lines| ==> !IsStartLine(lines[i])
    ensures ScanFrom(Initial, lines) == ScanState(false, Unmarked(lines))
    ensures Kept(lines) == Unmarked(lines)
  {
    assert Initial == ScanState(false, []);
    assert [] + Unmarked(lines) == Unmarked(lines);
    NoStartLineKeepsLines([], lines);
  }

  /** The first start line of a file opens a block, with the lines before it
      kept. */
  lemma FirstStartLineOpens(pre: seq<string>, start: string)
    requires forall i :: 0 <= i < |pre| ==> !IsStartLine(pre[i])
    requires IsStartLine(start)
    ensures ScanFrom(Initial, pre + [start]) == ScanState(true, Unmarked(pre))
  {
    FileWithoutBlock(pre);
    ScanLast(Initial, pre, start);
    AdvanceStart(ScanFrom(Initial, pre), start);
  }

  /** An open block with only non-stop lines after it swallows them all. */
  lemma OpenBlockSwallows(st: ScanState, a: seq<string>, rest: seq<string>, k: seq<string>)
    requires ScanFrom(st, a) == ScanState(true, k)
    requires forall i :: 0 <= i < |rest| ==> !IsStopLine(rest[i])
    ensures ScanFrom(st, a + rest) == ScanState(true, k)
  {
    ScanAppend(st, a, rest);
    InsideBlockDropsLines(k, rest);
  }

  /** An old block (start line, anything without a stop line, stop line) is
      dropped whole; the lines before it are kept, and the rest of the file is
      scanned as if the old block had not been there. */
  lemma OldBlockReplaced(pre: seq<string>, start: string, inside: seq<string>, stop: string,
                         post: seq<string>)
    requires forall i :: 0 <= i < |pre| ==> !IsStartLine(pre[i])
    requires IsStartLine(start)
    requires forall i :: 0 <= i < |inside| ==> !IsStopLine(inside[i])
    requires IsStopLine(stop)
    ensures Kept(pre + [start] + inside + [stop] + post) == Unmarked(pre) + Kept(post)
  {
    var k := Unmarked(pre);
    FirstStartLineOpens(pre, start);
    OpenBlockSwallows(Initial, pre + [start], inside, k);
    var a := pre + [start] + inside;
    ScanLast(Initial, a, stop);
    AdvanceStop(ScanFrom(Initial, a), stop);
    ScanAppend(Initial, a + [stop], post);
    ScanKeepsEarlierLines(false, k, post);
  }

  /** A start line with no stop line after it drops everything to the end of
      the file. */
  lemma UnterminatedBlockDropsRest(pre: seq<string>, start: string, rest: seq<string>)
    requires forall i :: 0 <= i < |pre| ==> !IsStartLine(pre[i])
    requires IsStartLine(start)
    requires forall i :: 0 <= i < |rest| ==> !IsStopLine(rest[i])
    ensures Kept(pre + [start] + rest) == Unmarked(pre)
  {
    FirstStartLineOpens(pre, start);
    OpenBlockSwallows(Initial, pre + [start], rest, Unmarked(pre));
  }

  /** Some start line has been seen and no stop line since. */
  ghost predicate OpenBlock(lines: seq<string>) {
    exists j :: 0 <= j < |lines| && IsStartLine(lines[j]) &&
      forall k :: j < k < |lines| ==> !IsStopLine(lines[k])
  }

  /** After a stop line no block is open. */
  lemma StopLineCloses(lines: seq<string>, line: string)
    requires IsStopLine(line)
    ensures !OpenBlock(lines + [line])
  {
    var all := lines + [line];
    assert all[|lines|] == line;
    MarkersExclusive(Strip(line));
    assert IsStopLine(all[|lines|]) && !IsStartLine(all[|lines|]);
  }

  /** After a start line a block is open. */
  lemma StartLineOpens(lines: seq<string>, line: string)
    requires IsStartLine(line)
    ensures OpenBlock(lines + [line])
  {
    var all := lines + [line];
    assert IsStartLine(all[|lines|]);
  }

  /** Any other line leaves the question open or closed as it was. */
  lemma OtherLineKeepsOpen(lines: seq<string>, line: string)
    requires !IsStopLine(line) && !IsStartLine(line)
    ensures OpenBlock(lines + [line]) <==> OpenBlock(lines)
  {
    var all := lines + [line];
    if OpenBlock(lines) {
      var j :| 0 <= j < |lines| && IsStartLine(lines[j]) && forall k :: j < k < |lines| ==> !IsStopLine(lines[k]);
      assert all[j] == lines[j];
      assert forall k :: j < k < |all| ==> !IsStopLine(all[k]) by {
        forall k | j < k < |all|
          ensures !IsStopLine(all[k])
        {
          if k < |lines| {
            assert all[k] == lines[k];
          }
        }
      }
    }
    if OpenBlock(all) {
      var j :| 0 <= j < |all| && IsStartLine(all[j]) && forall k :: j < k < |all| ==> !IsStopLine(all[k]);
      assert j < |lines|;
      assert lines[j] == all[j];
      assert forall k :: j < k < |lines| ==> lines[k] == all[k];
    }
  }

  /** The scan's flag is exactly "a start line was seen and no stop line since". */
  lemma {:induction false} InBlockIffOpenBlock(lines: seq<string>)
    ensures ScanFrom(Initial, lines).inBlock <==> OpenBlock(lines)
    decreases |lines|
  {
    if lines != [] {
      var init, last := lines[..|lines| - 1], lines[|lines| - 1];
      assert lines == init + [last];
      InBlockIffOpenBlock(init);
      ScanLast(Initial, init, last);
      if IsStopLine(last) {
        AdvanceStop(ScanFrom(Initial, init), last);
        StopLineCloses(init, last);
      } else if IsStartLine(last) {
        AdvanceStart(ScanFrom(Initial, init), last);
        StartLineOpens(init, last);
      } else {
        OtherLineKeepsOpen(init, last);
      }
    }
  }

  /** A line is kept, stripped, exactly when it is neither a stop line nor a
      start line and no block is open before it. */
  lemma KeptStep(lines: seq<string>, line: string)
    ensures Kept(lines + [line]) == Kept(lines) +
      (if IsStopLine(line) || IsStartLine(line) || OpenBlock(lines) then [] else [Strip(line)])
  {
    InBlockIffOpenBlock(lines);
    assert (lines + [line])[..|lines|] == lines;
  }

  /** A file of one line reading just the start tag keeps that line: the
      one-line case of `BareStartTagLineKept`. */
  lemma BareStartTagIsKept()
    ensures Kept([StartTag + "\n"]) == [StartTag]
  {
    var line := StartTag + "\n";
    StripIgnoresTrailingWhitespace(StartTag, '\n');
    assert StartTag[0] == '#' && StartTag[|StartTag| - 1] == '>';
    StripShape(StartTag);
    assert Strip(line) == StartTag;
    assert [] + [line] == [line];
    BareStartTagLineKept([], line);
  }

  /** In any file, a line whose stripped text is just the start tag is
      neither a start line nor a stop line: outside a block it is kept. */
  lemma BareStartTagLineKept(lines: seq<string>, line: string)
    requires Strip(line) == StartTag
    ensures !IsStartLine(line) && !IsStopLine(line)
    ensures Kept(lines + [line]) == Kept(lines) + (if OpenBlock(lines) then [] else [StartTag])
  {
    assert |StartTag| < |StartMarker|;
    if StartsWith(StartTag, StopMarker) {
      StartsWithAt(StartTag, StopMarker, 7);
      assert false;
    }
    KeptStep(lines, line);
  }

  lemma {:induction false} KeptCount(st: ScanState, lines: seq<string>)
    ensures |ScanFrom(st, lines).kept| <= |st.kept| + |lines|
    decreases |lines|
  {
    if lines != [] {
      KeptCount(st, lines[..|lines| - 1]);
    }
  }

  /** The new file has one line per block line, then one per kept line, and
      never more kept lines than the old file had lines. */
  lemma LineCount(lines: seq<string>, includes: seq<string>, excludes: seq<string>)
    ensures |RewriteLines(lines, includes, excludes)| == 2 + |includes| + |excludes| + |Kept(lines)|
    ensures |Kept(lines)| <= |lines|
  {
    BlockLayout(includes, excludes);
    KeptCount(Initial, lines);
  }

  /** An empty or missing file gets exactly the block and nothing else. */
  lemma EmptyFileGetsBlock(includes: seq<string>, excludes: seq<string>)
    ensures Rewrite("", includes, excludes) == Join(Block(includes, excludes))
  {
    var b := Block(includes, excludes);
    assert EachLine("") == [];
    assert Kept([]) == [];
    assert b + [] == b;
  }

  // ---------------------------------------------------------------------------
  // Running the rewrite twice.

  /** Neither marker contains a line feed. */
  lemma MarkersLineFeedFree()
    ensures '\n' !in StartMarker && '\n' !in StopMarker
  {
    assert '\n' !in StartTag;
    assert '\n' !in " (lines up to `";
    assert '\n' !in StopMarker;
    assert '\n' !in "` are ";
    assert '\n' !in "autogenerated, ";
    assert '\n' !in "don't modify ";
    assert '\n' !in "this section)";
  }

  /** The start marker has no whitespace at its ends and no line feed, and it
      is a start line with or without a line feed after it. */
  lemma StartMarkerShape()
    ensures Stripped(StartMarker) && '\n' !in StartMarker
    ensures IsStartLine(StartMarker) && IsStartLine(StartMarker + "\n")
  {
    MarkersLineFeedFree();
    assert StartMarker[..|StartTag|] == StartTag;
    assert StartMarker[0] == '#' && StartMarker[|StartMarker| - 1] == ')';
    StripShape(StartMarker);
    StripIgnoresTrailingWhitespace(StartMarker, '\n');
    assert StartMarker[..|StartMarker|] == StartMarker;
  }

  /** The same for the stop marker. */
  lemma StopMarkerShape()
    ensures Stripped(StopMarker) && '\n' !in StopMarker
    ensures IsStopLine(StopMarker) && IsStopLine(StopMarker + "\n")
  {
    assert StopMarker[0] == '#' && StopMarker[|StopMarker| - 1] == '>';
    StripShape(StopMarker);
    StripIgnoresTrailingWhitespace(StopMarker, '\n');
    assert StopMarker[..|StopMarker|] == StopMarker;
  }

  /** A kept line comes back unchanged from a second scan: stripped, without a
      line feed, and starting with neither marker. */
  predicate Reproducible(x: string) {
    Stripped(x) && '\n' !in x && !StartsWith(x, StopMarker) && !StartsWith(x, StartMarker)
  }

  /** Patterns that the second scan sees as block content: none contains a
      line feed and none is a stop line. */
  predicate PatternsWellFormed(includes: seq<string>, excludes: seq<string>) {
    forall p :: p in Patterns(includes, excludes) ==> '\n' !in p && !IsStopLine(p)
  }

  /** A pattern that is safe to put in the block: non-empty, starting with
      neither whitespace nor `#`, and without a line feed. */
  predicate SafePattern(p: string) {
    p != [] && !IsWhitespace(p[0]) && p[0] != '#' && '\n' !in p
  }

  /** A safe pattern is no stop line. */
  lemma SafePatternIsNoStopLine(p: string)
    requires SafePattern(p)
    ensures !IsStopLine(p)
  {
    StripKeepsFirst(p);
    assert StopMarker[0] == '#';
  }

  /** An exclude line built from a safe pattern is safe. */
  lemma ExcludeLineSafe(x: string)
    requires SafePattern(x)
    ensures SafePattern(x + ExcludeSuffix)
  {
    assert '\n' !in ExcludeSuffix;
    assert (x + ExcludeSuffix)[0] == x[0];
  }

  /** Safe include and exclude patterns give a well-formed block. */
  lemma SafePatternsWellFormed(includes: seq<string>, excludes: seq<string>)
    requires forall i :: 0 <= i < |includes| ==> SafePattern(includes[i])
    requires forall i :: 0 <= i < |excludes| ==> SafePattern(excludes[i])
    ensures PatternsWellFormed(includes, excludes)
  {
    ExcludeLinesAt(excludes);
    var ps := Patterns(includes, excludes);
    forall p | p in ps
      ensures '\n' !in p && !IsStopLine(p)
    {
      var i :| 0 <= i < |ps| && ps[i] == p;
      if i < |includes| {
        assert p == includes[i];
      } else {
        var e := excludes[i - |includes|];
        assert p == e + ExcludeSuffix;
        ExcludeLineSafe(e);
      }
      SafePatternIsNoStopLine(p);
    }
  }

  /** The last kept line, if any, is not blank. */
  predicate NoTrailingBlank(kept: seq<string>) {
    kept == [] || kept[|kept| - 1] != []
  }

  /** The kept lines without a blank last one. */
  function DropTrailingBlank(kept: seq<string>): seq<string> {
    if NoTrailingBlank(kept) then kept else kept[..|kept| - 1]
  }

  /** Every line the scan keeps is reproducible. */
  lemma {:induction false} KeptAreReproducible(st: ScanState, lines: seq<string>)
    requires forall i :: 0 <= i < |lines| ==> IsLine(lines[i])
    requires forall i :: 0 <= i < |st.kept| ==> Reproducible(st.kept[i])
    ensures forall i :: 0 <= i < |ScanFrom(st, lines).kept| ==> Reproducible(ScanFrom(st, lines).kept[i])
    decreases |lines|
  {
    if lines != [] {
      var init, last := lines[..|lines| - 1], lines[|lines| - 1];
      KeptAreReproducible(st, init);
      var prev := ScanFrom(st, init);
      assert ScanFrom(st, lines) == Advance(prev, last);
      assert IsLine(last);
      StripRemovesLineFeed(last);
      StripShape(last);
      var stripped := Strip(last);
      if !StartsWith(stripped, StopMarker) && !StartsWith(stripped, StartMarker) && !prev.inBlock {
        assert Reproducible(stripped);
        assert ScanFrom(st, lines).kept == prev.kept + [stripped];
      } else {
        assert ScanFrom(st, lines).kept == prev.kept;
      }
    }
  }

  /** No line of the block contains a line feed. */
  lemma BlockLineFeedFree(includes: seq<string>, excludes: seq<string>)
    requires PatternsWellFormed(includes, excludes)
    ensures forall i :: 0 <= i < |Block(includes, excludes)| ==> '\n' !in Block(includes, excludes)[i]
  {
    MarkersLineFeedFree();
    var p := Patterns(includes, excludes);
    assert forall x :: x in p ==> '\n' !in x;
    LineFeedFreeBetween(StartMarker, p, StopMarker);
  }

  /** A reproducible line, with or without its line feed, is kept as it is. */
  lemma ReproducibleKept(k: seq<string>, x: string)
    requires Reproducible(x)
    ensures Advance(ScanState(false, k), x) == ScanState(false, k + [x])
    ensures Advance(ScanState(false, k), x + "\n") == ScanState(false, k + [x])
  {
    StripShape(x);
    StripIgnoresTrailingWhitespace(x, '\n');
  }

  lemma {:induction false} ReproducibleLinesKept(k: seq<string>, xs: seq<string>)
    requires forall i :: 0 <= i < |xs| ==> Reproducible(xs[i])
    ensures ScanFrom(ScanState(false, k), Terminated(xs)) == ScanState(false, k + xs)
    decreases |xs|
  {
    if xs != [] {
      var n := |xs| - 1;
      assert xs == xs[..n] + [xs[n]];
      ReproducibleLinesKept(k, xs[..n]);
      ReproducibleLineKept(k, xs[..n], xs[n]);
    }
  }

  /** The step of ReproducibleLinesKept: one more reproducible line. */
  lemma ReproducibleLineKept(k: seq<string>, init: seq<string>, x: string)
    requires ScanFrom(ScanState(false, k), Terminated(init)) == ScanState(false, k + init)
    requires Reproducible(x)
    ensures ScanFrom(ScanState(false, k), Terminated(init + [x])) == ScanState(false, k + (init + [x]))
  {
    TerminatedAppend(init, [x]);
    assert Terminated([x]) == [x + "\n"];
    ScanLast(ScanState(false, k), Terminated(init), x + "\n");
    ReproducibleKept(k + init, x);
    assert k + init + [x] == k + (init + [x]);
  }

  /** On a second scan the block written by the first one (its last line with
      or without a line feed) is dropped whole. */
  lemma GeneratedBlockDropped(k: seq<string>, includes: seq<string>, excludes: seq<string>, last: string)
    requires PatternsWellFormed(includes, excludes)
    requires last == StopMarker || last == StopMarker + "\n"
    ensures ScanFrom(ScanState(false, k), Terminated([StartMarker] + Patterns(includes, excludes)) + [last])
         == ScanState(false, k)
  {
    StartMarkerShape();
    StopMarkerShape();
    var p := Patterns(includes, excludes);
    var st := ScanState(false, k);
    assert Terminated([StartMarker] + p) == [StartMarker + "\n"] + Terminated(p);
    StartLineScanned(st, StartMarker + "\n");
    TerminatedPatternsNoStopLine(includes, excludes);
    OpenBlockSwallows(st, [StartMarker + "\n"], Terminated(p), k);
    ScanLast(st, Terminated([StartMarker] + p), last);
    AdvanceStop(ScanState(true, k), last);
  }

  /** A start line on its own opens a block. */
  lemma StartLineScanned(st: ScanState, line: string)
    requires IsStartLine(line)
    ensures ScanFrom(st, [line]) == ScanState(true, st.kept)
  {
    assert [] + [line] == [line];
    ScanLast(st, [], line);
    AdvanceStart(st, line);
  }

  /** The pattern lines of a well-formed block, each with its line feed,
      are no stop lines. */
  lemma TerminatedPatternsNoStopLine(includes: seq<string>, excludes: seq<string>)
    requires PatternsWellFormed(includes, excludes)
    ensures forall i :: 0 <= i < |Patterns(includes, excludes)| ==>
      !IsStopLine(Terminated(Patterns(includes, excludes))[i])
  {
    var p := Patterns(includes, excludes);
    TerminatedAt(p);
    forall i | 0 <= i < |p|
      ensures !IsStopLine(Terminated(p)[i])
    {
      assert p[i] in p;
      StripIgnoresTrailingWhitespace(p[i], '\n');
    }
  }

  /** The lines a second scan reads from the new text: the block with line
      feeds, then the kept lines with line feeds except the last one, which
      has none and is not there at all when blank. */
  lemma SecondPassLines(includes: seq<string>, excludes: seq<string>, kept: seq<string>)
    requires PatternsWellFormed(includes, excludes)
    requires forall i :: 0 <= i < |kept| ==> '\n' !in kept[i]
    ensures kept == [] ==>
      EachLine(Join(Block(includes, excludes) + kept))
        == Terminated([StartMarker] + Patterns(includes, excludes)) + [StopMarker]
    ensures kept != [] ==>
      EachLine(Join(Block(includes, excludes) + kept))
        == Terminated([StartMarker] + Patterns(includes, excludes)) + [StopMarker + "\n"]
           + Terminated(kept[..|kept| - 1])
           + (if kept[|kept| - 1] == [] then [] else [kept[|kept| - 1]])
  {
    var b := Block(includes, excludes);
    var head := [StartMarker] + Patterns(includes, excludes);
    BlockLineFeedFree(includes, excludes);
    StopMarkerShape();
    assert b == head + [StopMarker];
    if kept == [] {
      assert b + kept == b;
      EachLineOfJoin(b);
      assert b[..|b| - 1] == head;
    } else {
      EachLineOfJoinAppend(b, kept);
      TerminatedAppend(head, [StopMarker]);
      assert Terminated([StopMarker]) == [StopMarker + "\n"];
      assert Terminated(b) == Terminated(head) + [StopMarker + "\n"];
      var n := |kept| - 1;
      var tail := if kept[n] == [] then [] else [kept[n]];
      assert EachLine(Join(b + kept)) == Terminated(b) + Terminated(kept[..n]) + tail;
    }
  }

  /** A second scan of the kept lines but the last, each with a line feed,
      keeps them all. */
  lemma KeptInitRescanned(kept: seq<string>)
    requires kept != []
    requires forall i :: 0 <= i < |kept| ==> Reproducible(kept[i])
    ensures ScanFrom(Initial, Terminated(kept[..|kept| - 1])) == ScanState(false, kept[..|kept| - 1])
    ensures Reproducible(kept[|kept| - 1])
  {
    var init := kept[..|kept| - 1];
    ReproducibleLinesKept([], init);
    assert [] + init == init;
  }

  /** A second scan of the kept lines, as the new text presents them (the last
      one without a line feed, and not there at all when blank), keeps them
      all but a blank last one. */
  lemma SecondPassOfKept(kept: seq<string>)
    requires kept != []
    requires ScanFrom(Initial, Terminated(kept[..|kept| - 1])) == ScanState(false, kept[..|kept| - 1])
    requires Reproducible(kept[|kept| - 1])
    ensures var n := |kept| - 1;
      ScanFrom(Initial, Terminated(kept[..n]) + (if kept[n] == [] then [] else [kept[n]]))
        == ScanState(false, DropTrailingBlank(kept))
  {
    var n := |kept| - 1;
    if kept[n] != [] {
      LastLineKept(kept[..n], kept[n]);
      assert kept[..n] + [kept[n]] == kept;
    } else {
      assert Terminated(kept[..n]) + [] == Terminated(kept[..n]);
    }
  }

  /** A reproducible last line without a line feed is kept. */
  lemma LastLineKept(init: seq<string>, x: string)
    requires ScanFrom(Initial, Terminated(init)) == ScanState(false, init)
    requires Reproducible(x)
    ensures ScanFrom(Initial, Terminated(init) + [x]) == ScanState(false, init + [x])
  {
    ScanLast(Initial, Terminated(init), x);
    ReproducibleKept(init, x);
  }

  /** A second rewrite with the same patterns keeps the same lines as the
      first, except a blank last one, which the second scan never sees
      because the joined text ends in a line feed. */
  lemma SecondPassKeeps(content: string, includes: seq<string>, excludes: seq<string>)
    requires PatternsWellFormed(includes, excludes)
    ensures Kept(EachLine(Rewrite(content, includes, excludes))) == DropTrailingBlank(Kept(EachLine(content)))
  {
    var kept := Kept(EachLine(content));
    var head := Terminated([StartMarker] + Patterns(includes, excludes));
    KeptOfTextReproducible(content);
    SecondPassLines(includes, excludes, kept);
    if kept == [] {
      GeneratedBlockDropped([], includes, excludes, StopMarker);
    } else {
      var n := |kept| - 1;
      var rest := Terminated(kept[..n]) + (if kept[n] == [] then [] else [kept[n]]);
      assert EachLine(Rewrite(content, includes, excludes)) == (head + [StopMarker + "\n"]) + rest;
      GeneratedBlockDropped([], includes, excludes, StopMarker + "\n");
      ScanAppend(Initial, head + [StopMarker + "\n"], rest);
      KeptInitRescanned(kept);
      SecondPassOfKept(kept);
    }
  }

  /** Rewriting twice with the same patterns gives what rewriting once gave,
      unless the last kept line is blank. */
  lemma RewriteIdempotent(content: string, includes: seq<string>, excludes: seq<string>)
    requires PatternsWellFormed(includes, excludes)
    requires NoTrailingBlank(Kept(EachLine(content)))
    ensures Rewrite(Rewrite(content, includes, excludes), includes, excludes) == Rewrite(content, includes, excludes)
  {
    SecondPassKeeps(content, includes, excludes);
  }

  /** When the last kept line is blank, the second rewrite loses it, so the
      second output is one character shorter than the first. */
  lemma TrailingBlankLineLost(content: string, includes: seq<string>, excludes: seq<string>)
    requires PatternsWellFormed(includes, excludes)
    requires !NoTrailingBlank(Kept(EachLine(content)))
    ensures var kept := Kept(EachLine(content));
      Rewrite(Rewrite(content, includes, excludes), includes, excludes)
        == Join(Block(includes, excludes) + kept[..|kept| - 1])
    ensures |Rewrite(Rewrite(content, includes, excludes), includes, excludes)|
         == |Rewrite(content, includes, excludes)| - 1
  {
    var kept := Kept(EachLine(content));
    var shorter := Block(includes, excludes) + kept[..|kept| - 1];
    SecondPassKeeps(content, includes, excludes);
    assert Rewrite(Rewrite(content, includes, excludes), includes, excludes) == Join(shorter);
    BlankLineJoined(content, includes, excludes);
  }

  /** With a blank last kept line, the new text is the text without it plus
      a line feed. */
  lemma BlankLineJoined(content: string, includes: seq<string>, excludes: seq<string>)
    requires !NoTrailingBlank(Kept(EachLine(content)))
    ensures var kept := Kept(EachLine(content));
      Rewrite(content, includes, excludes) == Join(Block(includes, excludes) + kept[..|kept| - 1]) + "\n"
  {
    var kept := Kept(EachLine(content));
    var xs := Block(includes, excludes) + kept;
    assert xs[..|xs| - 1] == Block(includes, excludes) + kept[..|kept| - 1];
    JoinBlankLast(xs);
  }

  /** A file of one reproducible line and a blank line, "*.zip\n\n" say:
      the second rewrite differs from the first. */
  lemma TrailingBlankExample(x: string, includes: seq<string>, excludes: seq<string>)
    requires Reproducible(x)
    requires PatternsWellFormed(includes, excludes)
    ensures Rewrite(Rewrite(x + "\n\n", includes, excludes), includes, excludes)
         != Rewrite(x + "\n\n", includes, excludes)
  {
    LineThenBlank(x);
    TrailingBlankLineLost(x + "\n\n", includes, excludes);
  }

  /** The scan of a reproducible line followed by a blank line keeps both. */
  lemma LineThenBlank(x: string)
    requires Reproducible(x)
    ensures Kept(EachLine(x + "\n\n")) == [x, ""]
  {
    LineThenBlankLines(x);
    ReproducibleLineScanned(x);
    var first := x + "\n";
    var blank: string := [];
    assert blank + "\n" == "\n";
    assert [first, "\n"] == [first] + [blank + "\n"];
    ScanLast(Initial, [first], blank + "\n");
    assert Reproducible(blank);
    ReproducibleKept([x], blank);
  }

  /** A line-feed-free `x` followed by two line feeds is two lines. */
  lemma LineThenBlankLines(x: string)
    requires '\n' !in x
    ensures EachLine(x + "\n\n") == [x + "\n", "\n"]
  {
    assert EachLine("\n") == ["\n"];
    EachLineAfterLine(x, "\n");
    assert x + "\n" + "\n" == x + "\n\n";
  }

  /** A reproducible line with its line feed, scanned alone, is kept. */
  lemma ReproducibleLineScanned(x: string)
    requires Reproducible(x)
    ensures ScanFrom(Initial, [x + "\n"]) == ScanState(false, [x])
  {
    assert [] + [x + "\n"] == [x + "\n"];
    ScanLast(Initial, [], x + "\n");
    ReproducibleKept([], x);
  }

  /** "*.zip" is such a line. */
  lemma ZipIsReproducible()
    ensures Reproducible("*.zip")
  {
    var x := "*.zip";
    assert x[0] == '*' && x[|x| - 1] == 'p';
    assert x[0] != StopMarker[0] && x[0] != StartMarker[0];
  }

  /** The new text ends in a line feed exactly when the last kept line is
      blank; otherwise the join leaves no trailing line feed. */
  lemma EndsWithLineFeedIff(content: string, includes: seq<string>, excludes: seq<string>)
    ensures var t := Rewrite(content, includes, excludes);
      var kept := Kept(EachLine(content));
      (t != [] && t[|t| - 1] == '\n') <==> !NoTrailingBlank(kept)
  {
    var kept := Kept(EachLine(content));
    var b := Block(includes, excludes);
    var xs := b + kept;
    LastKeptLineFeedFree(content, includes, excludes);
    JoinEndsWithLineFeed(xs);
  }

  lemma LastKeptLineFeedFree(content: string, includes: seq<string>, excludes: seq<string>)
    ensures var xs := Block(includes, excludes) + Kept(EachLine(content));
      |xs| >= 2 && '\n' !in xs[|xs| - 1] &&
      (xs[|xs| - 1] == [] <==> !NoTrailingBlank(Kept(EachLine(content))))
  {
    var kept := Kept(EachLine(content));
    var b := Block(includes, excludes);
    var xs := b + kept;
    BlockLayout(includes, excludes);
    if kept == [] {
      StopMarkerShape();
      assert xs[|xs| - 1] == StopMarker;
    } else {
      KeptOfTextReproducible(content);
      assert xs[|xs| - 1] == kept[|kept| - 1];
    }
  }

  /** Every line kept from a text is reproducible. */
  lemma KeptOfTextReproducible(content: string)
    ensures forall i :: 0 <= i < |Kept(EachLine(content))| ==> Reproducible(Kept(EachLine(content))[i])
  {
    EachLineShape(content);
    KeptAreReproducible(Initial, EachLine(content));
  }
}
