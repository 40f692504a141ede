/** The Ruby String and Array operations the attribute rewriter relies on, over
    `seq<char>`: String#strip, String#start_with?, String#each_line (with the
    default "\n" separator) and Array#join("\n"). */
module Text {

  /** The characters String#strip removes: NUL, horizontal tab, line feed,
      vertical tab, form feed, carriage return and space. */
  predicate IsWhitespace(c: char) {
    c == ' ' || c == '\t' || c == '\n' || c == '\r' || c == '\0' || c as int == 11 || c as int == 12
  }

  /** Removes leading whitespace. */
  function TrimLeft(s: string): string
    decreases |s|
  {
    if s != [] && IsWhitespace(s[0]) then TrimLeft(s[1..]) else s
  }

  /** Removes trailing whitespace. */
  function TrimRight(s: string): string
    decreases |s|
  {
    if s != [] && IsWhitespace(s[|s| - 1]) then TrimRight(s[..|s| - 1]) else s
  }

  /** TrimLeft gives the longest suffix of `s` that does not start with
      whitespace: everything it removes is whitespace. */
  lemma {:induction false} TrimLeftShape(s: string)
    ensures |TrimLeft(s)| <= |s| && TrimLeft(s) == s[|s| - |TrimLeft(s)|..]
    ensures TrimLeft(s) == [] || !IsWhitespace(TrimLeft(s)[0])
    ensures forall i :: 0 <= i < |s| - |TrimLeft(s)| ==> IsWhitespace(s[i])
    decreases |s|
  {
    if s != [] && IsWhitespace(s[0]) {
      TrimLeftShape(s[1..]);
    }
  }

  /** TrimRight gives the longest prefix of `s` that does not end with
      whitespace: everything it removes is whitespace. */
  lemma {:induction false} TrimRightShape(s: string)
    ensures |TrimRight(s)| <= |s| && TrimRight(s) == s[..|TrimRight(s)|]
    ensures TrimRight(s) == [] || !IsWhitespace(TrimRight(s)[|TrimRight(s)| - 1])
    ensures forall i :: |TrimRight(s)| <= i < |s| ==> IsWhitespace(s[i])
    decreases |s|
  {
    if s != [] && IsWhitespace(s[|s| - 1]) {
      TrimRightShape(s[..|s| - 1]);
    }
  }

  /** Neither end of `s` is whitespace. */
  predicate Stripped(s: string) {
    s == [] || (!IsWhitespace(s[0]) && !IsWhitespace(s[|s| - 1]))
  }

  /** String#strip. */
  function Strip(s: string): string {
    TrimLeft(TrimRight(s))
  }

  /** The stripped form has no whitespace at either end, and a string that
      already has none is returned unchanged. */
  lemma StripShape(s: string)
    ensures Stripped(Strip(s))
    ensures Stripped(s) ==> Strip(s) == s
    ensures |Strip(s)| <= |s|
  {
    TrimRightShape(s);
    TrimLeftShape(TrimRight(s));
  }

  /** String#start_with?: `prefix` is an initial segment of `s`. */
  predicate StartsWith(s: string, prefix: string) {
    |prefix| <= |s| && s[..|prefix|] == prefix
  }

  /** A string that starts with `prefix` agrees with it position by position. */
  lemma StartsWithAt(s: string, prefix: string, i: nat)
    requires StartsWith(s, prefix) && i < |prefix|
    ensures i < |s| && s[i] == prefix[i]
  {
    assert s[..|prefix|][i] == s[i];
  }

  lemma StripIdempotent(s: string)
    ensures Strip(Strip(s)) == Strip(s)
  {
    StripShape(s);
    StripShape(Strip(s));
  }

  /** A trailing whitespace character, a line feed in particular, makes no
      difference to the stripped form. */
  lemma StripIgnoresTrailingWhitespace(s: string, c: char)
    requires IsWhitespace(c)
    ensures Strip(s + [c]) == Strip(s)
  {
    assert (s + [c])[..|s|] == s;
    assert TrimRight(s + [c]) == TrimRight(s);
  }

  /** A string that starts with a non-whitespace character keeps it first. */
  lemma StripKeepsFirst(s: string)
    requires s != [] && !IsWhitespace(s[0])
    ensures Strip(s) != [] && Strip(s)[0] == s[0]
  {
    TrimRightShape(s);
    var t := TrimRight(s);
    var first := s[0];
    assert |t| > 0 || IsWhitespace(first);
    assert t[0] == s[0];
    assert TrimLeft(t) == t;
  }

  /** A line that has a line feed at most at its end has none once its
      trailing whitespace is gone. */
  lemma {:induction false} TrimRightRemovesLineFeed(s: string)
    requires forall i :: 0 <= i < |s| - 1 ==> s[i] != '\n'
    ensures '\n' !in TrimRight(s)
    decreases |s|
  {
    if s != [] && IsWhitespace(s[|s| - 1]) {
      var init := s[..|s| - 1];
      assert forall i :: 0 <= i < |init| - 1 ==> init[i] == s[i];
      TrimRightRemovesLineFeed(init);
    } else if s != [] {
      forall i | 0 <= i < |s|
        ensures s[i] != '\n'
      {
      }
    }
  }

  /** Removing leading whitespace adds no line feed. */
  lemma {:induction false} TrimLeftKeepsLineFeedFree(s: string)
    requires '\n' !in s
    ensures '\n' !in TrimLeft(s)
    decreases |s|
  {
    if s != [] && IsWhitespace(s[0]) {
      assert forall c :: c in s[1..] ==> c in s;
      TrimLeftKeepsLineFeedFree(s[1..]);
    }
  }

  /** A line that has a line feed at most at its end has none once stripped. */
  lemma StripRemovesLineFeed(s: string)
    requires forall i :: 0 <= i < |s| - 1 ==> s[i] != '\n'
    ensures '\n' !in Strip(s)
  {
    TrimRightRemovesLineFeed(s);
    TrimLeftKeepsLineFeedFree(TrimRight(s));
  }

  /** What String#each_line yields: non-empty, with a line feed at most as its
      last character. */
  predicate IsLine(l: string) {
    l != [] && forall i :: 0 <= i < |l| - 1 ==> l[i] != '\n'
  }

  /** The lines glued back together, with nothing between them. */
  function Concat(ls: seq<string>): string {
    if ls == [] then [] else ls[0] + Concat(ls[1..])
  }

  /** String#each_line: cuts `t` after every line feed. */
  function EachLine(t: string): seq<string>
    decreases |t|
  {
    if t == [] then []
    else
      var rest := EachLine(t[1..]);
      if t[0] == '\n' || rest == [] then [[t[0]]] + rest
      else [[t[0]] + rest[0]] + rest[1..]
  }

  /** The pieces EachLine cuts glue back into `t`, each is a line, and every
      piece but the last ends in a line feed (the last one does too exactly
      when `t` does). */
  lemma {:induction false} EachLineShape(t: string)
    ensures Concat(EachLine(t)) == t
    ensures forall i :: 0 <= i < |EachLine(t)| ==> IsLine(EachLine(t)[i])
    ensures forall i :: 0 <= i < |EachLine(t)| - 1 ==>
      |EachLine(t)[i]| > 0 && EachLine(t)[i][|EachLine(t)[i]| - 1] == '\n'
    ensures t == [] <==> EachLine(t) == []
    decreases |t|
  {
    if t != [] {
      EachLineShape(t[1..]);
      var rest := EachLine(t[1..]);
      var lines := EachLine(t);
      if t[0] == '\n' || rest == [] {
        assert lines == [[t[0]]] + rest;
        assert Concat(lines) == [t[0]] + Concat(rest);
        assert forall i :: 1 <= i < |lines| ==> lines[i] == rest[i - 1];
      } else {
        var first := [t[0]] + rest[0];
        assert lines == [first] + rest[1..];
        assert Concat(rest) == rest[0] + Concat(rest[1..]);
        assert Concat(lines) == first + Concat(rest[1..]);
        assert forall i :: 1 <= i < |lines| ==> lines[i] == rest[i];
        assert IsLine(rest[0]);
        assert forall j :: 1 <= j < |first| ==> first[j] == rest[0][j - 1];
      }
    }
  }

  /** Array#join("\n"): the separator goes between elements, never after the last. */
  function Join(xs: seq<string>): string {
    if |xs| == 0 then []
    else if |xs| == 1 then xs[0]
    else xs[0] + "\n" + Join(xs[1..])
  }

  /** Each element followed by a line feed. */
  function Terminated(xs: seq<string>): (r: seq<string>)
    ensures |r| == |xs|
  {
    if xs == [] then [] else [xs[0] + "\n"] + Terminated(xs[1..])
  }

  /** Each line of Terminated(xs) is the matching element of `xs` followed by
      a line feed. */
  lemma {:induction false} TerminatedAt(xs: seq<string>)
    ensures forall i :: 0 <= i < |xs| ==> Terminated(xs)[i] == xs[i] + "\n"
    decreases |xs|
  {
    if xs != [] {
      TerminatedAt(xs[1..]);
      forall i | 0 <= i < |xs|
        ensures Terminated(xs)[i] == xs[i] + "\n"
      {
        if i > 0 {
          assert Terminated(xs)[i] == Terminated(xs[1..])[i - 1];
        }
      }
    }
  }

  /** Terminating a concatenation terminates each part. */
  lemma {:induction false} TerminatedAppend(xs: seq<string>, ys: seq<string>)
    ensures Terminated(xs + ys) == Terminated(xs) + Terminated(ys)
    decreases |xs|
  {
    if xs == [] {
      assert xs + ys == ys;
    } else {
      assert (xs + ys)[0] == xs[0];
      assert (xs + ys)[1..] == xs[1..] + ys;
      TerminatedAppend(xs[1..], ys);
    }
  }


  lemma {:induction false} JoinAppend(xs: seq<string>, y: string)
    requires |xs| > 0
    ensures Join(xs + [y]) == Join(xs) + "\n" + y
    decreases |xs|
  {
    if |xs| > 1 {
      assert (xs + [y])[1..] == xs[1..] + [y];
      JoinAppend(xs[1..], y);
    }
  }

  /** A text without a line feed is a single line, or none when it is empty. */
  lemma {:induction false} EachLineOfLineFeedFree(x: string)
    requires '\n' !in x
    ensures EachLine(x) == if x == [] then [] else [x]
    decreases |x|
  {
    if x != [] {
      assert x[0] in x;
      assert forall c :: c in x[1..] ==> c in x;
      EachLineOfLineFeedFree(x[1..]);
      assert x[0] != '\n';
      assert [x[0]] + x[1..] == x;
      if x[1..] == [] {
        assert x == [x[0]];
        assert EachLine(x) == [[x[0]]];
      } else {
        assert EachLine(x) == [[x[0]] + x[1..]];
      }
    }
  }

  /** A line-feed-free text followed by a line feed is the first line. */
  lemma {:induction false} EachLineAfterLine(x: string, rest: string)
    requires '\n' !in x
    ensures EachLine(x + "\n" + rest) == [x + "\n"] + EachLine(rest)
    decreases |x|
  {
    var t := x + "\n" + rest;
    if x == [] {
      assert t[0] == '\n' && t[1..] == rest;
      assert EachLine(t) == [[t[0]]] + EachLine(rest);
      assert x + "\n" == [t[0]];
    } else {
      assert x[0] in x;
      assert forall c :: c in x[1..] ==> c in x;
      assert t[0] == x[0];
      assert t[1..] == x[1..] + "\n" + rest;
      EachLineAfterLine(x[1..], rest);
      assert [x[0]] + (x[1..] + "\n") == x + "\n";
    }
  }

  /** Splitting a join of line-feed-free strings gives each of them back with
      its separator, except that an empty last element yields no line at all. */
  lemma {:induction false} EachLineOfJoin(xs: seq<string>)
    requires |xs| > 0
    requires forall i :: 0 <= i < |xs| ==> '\n' !in xs[i]
    ensures EachLine(Join(xs)) ==
      Terminated(xs[..|xs| - 1]) + (if xs[|xs| - 1] == [] then [] else [xs[|xs| - 1]])
    decreases |xs|
  {
    if |xs| == 1 {
      EachLineOfLineFeedFree(xs[0]);
    } else {
      var rest := xs[1..];
      assert Join(xs) == xs[0] + "\n" + Join(rest);
      assert '\n' !in xs[0];
      EachLineAfterLine(xs[0], Join(rest));
      assert forall i :: 0 <= i < |rest| ==> rest[i] == xs[i + 1];
      EachLineOfJoin(rest);
      assert rest[|rest| - 1] == xs[|xs| - 1];
      var init := xs[..|xs| - 1];
      assert init[1..] == rest[..|rest| - 1];
      assert Terminated(init) == [xs[0] + "\n"] + Terminated(rest[..|rest| - 1]);
    }
  }

  /** The lines of a join of two line-feed-free lists, the first non-empty:
      every element of the first list comes back with a line feed, then the
      second list as EachLineOfJoin gives it. */
  lemma EachLineOfJoinAppend(a: seq<string>, b: seq<string>)
    requires |a| > 0 && |b| > 0
    requires forall i :: 0 <= i < |a| ==> '\n' !in a[i]
    requires forall i :: 0 <= i < |b| ==> '\n' !in b[i]
    ensures EachLine(Join(a + b)) ==
      Terminated(a) + Terminated(b[..|b| - 1]) + (if b[|b| - 1] == [] then [] else [b[|b| - 1]])
  {
    var xs := a + b;
    forall i | 0 <= i < |xs|
      ensures '\n' !in xs[i]
    {
      if i < |a| {
        assert xs[i] == a[i];
      } else {
        assert xs[i] == b[i - |a|];
      }
    }
    EachLineOfJoin(xs);
    assert xs[..|xs| - 1] == a + b[..|b| - 1];
    assert xs[|xs| - 1] == b[|b| - 1];
    TerminatedAppend(a, b[..|b| - 1]);
  }

  /** Line-feed-free elements between two line-feed-free ends. */
  lemma LineFeedFreeBetween(a: string, xs: seq<string>, z: string)
    requires '\n' !in a && '\n' !in z
    requires forall x :: x in xs ==> '\n' !in x
    ensures forall i :: 0 <= i < |[a] + xs + [z]| ==> '\n' !in ([a] + xs + [z])[i]
  {
    var all := [a] + xs + [z];
    forall i | 0 <= i < |all|
      ensures '\n' !in all[i]
    {
      if 0 < i < |all| - 1 {
        assert all[i] == xs[i - 1];
        assert xs[i - 1] in xs;
      }
    }
  }

  /** A blank last element of a join leaves just the separator before it. */
  lemma JoinBlankLast(xs: seq<string>)
    requires |xs| >= 2 && xs[|xs| - 1] == []
    ensures Join(xs) == Join(xs[..|xs| - 1]) + "\n"
  {
    var m := |xs| - 1;
    assert xs == xs[..m] + [[]];
    JoinAppend(xs[..m], []);
  }

  /** A join of at least two elements ends in a line feed exactly when its last
      element is empty, provided that element has no line feed of its own. */
  lemma JoinEndsWithLineFeed(xs: seq<string>)
    requires |xs| >= 2
    requires '\n' !in xs[|xs| - 1]
    ensures (Join(xs) != [] && Join(xs)[|Join(xs)| - 1] == '\n') <==> xs[|xs| - 1] == []
  {
    var m := |xs| - 1;
    var last := xs[m];
    assert xs == xs[..m] + [last];
    JoinAppend(xs[..m], last);
    var t := Join(xs);
    assert t == Join(xs[..m]) + "\n" + last;
    if last != [] {
      assert t[|t| - 1] == last[|last| - 1];
      assert last[|last| - 1] in last;
    }
  }
}
