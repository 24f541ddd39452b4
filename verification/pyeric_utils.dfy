/** The helpers of the native-library package: the blank-line filter applied
    after pretty-printing XML, and the placeholder error body. Lines are
    separated by "\n" only. */
module PyericUtils {

  /** The characters `str.strip` removes, which are those `str.isspace`
      accepts: the ASCII controls "\t" to "\r" and "\x1c" to "\x1f", the
      space, NEL, and the Unicode space and line/paragraph separators. */
  predicate IsSpace(c: char) {
    || '\U{0009}' <= c <= '\U{000D}'
    || '\U{001C}' <= c <= '\U{0020}'
    || c == '\U{0085}' || c == '\U{00A0}' || c == '\U{1680}'
    || '\U{2000}' <= c <= '\U{200A}'
    || c == '\U{2028}' || c == '\U{2029}' || c == '\U{202F}' || c == '\U{205F}' || c == '\U{3000}'
  }

  /** `not s.strip()`: the line is empty or whitespace only. */
  predicate Blank(s: string) {
    forall i :: 0 <= i < |s| ==> IsSpace(s[i])
  }

  /** The index of the first "\n" in `s`, or `|s|`. */
  function LineEnd(s: string): (i: nat)
    ensures i <= |s| && '\n' !in s[..i]
    ensures i < |s| ==> s[i] == '\n'
  {
    if |s| == 0 || s[0] == '\n' then 0
    else
      var i := 1 + LineEnd(s[1..]);
      assert s[..i] == [s[0]] + s[1..][..i - 1];
      i
  }

  /** `s.splitlines()`: the lines of `s` without their terminators; a final
      "\n" does not start another line. */
  function SplitLines(s: string): (ls: seq<string>)
    ensures forall l <- ls :: '\n' !in l
    decreases |s|
  {
    if |s| == 0 then []
    else
      var i := LineEnd(s);
      if i == |s| then [s] else [s[..i]] + SplitLines(s[i + 1..])
  }

  /** `"\n".join(ls)`. */
  function Join(ls: seq<string>): (s: string)
  {
    if |ls| == 0 then ""
    else if |ls| == 1 then ls[0]
    else ls[0] + "\n" + Join(ls[1..])
  }

  /** Joining the split lines gives the text back, less a final "\n". */
  lemma {:induction false} JoinSplitLines(s: string)
    ensures Join(SplitLines(s)) == DropFinalNewline(s)
    decreases |s|
  {
    if |s| > 0 && LineEnd(s) < |s| {
      JoinSplitLines(s[LineEnd(s) + 1..]);
      if LineEnd(s) + 1 < |s| {
        assert |SplitLines(s[LineEnd(s) + 1..])| > 0;
        JoinCons(s[..LineEnd(s)], SplitLines(s[LineEnd(s) + 1..]));
      }
      NewlineSplit(s, LineEnd(s), Join(SplitLines(s[LineEnd(s) + 1..])));
    }
  }

  /** `s` without its last character when that is a "\n". */
  function DropFinalNewline(s: string): string {
    if |s| > 0 && s[|s| - 1] == '\n' then s[..|s| - 1] else s
  }

  /** A text cut at a "\n" is the part before it, the "\n" and the rest,
      whose final "\n" is the text's final "\n". */
  lemma NewlineSplit(s: string, i: nat, joined: string)
    requires i < |s| && s[i] == '\n'
    requires i + 1 < |s| ==> joined == DropFinalNewline(s[i + 1..])
    ensures (if i + 1 < |s| then s[..i] + "\n" + joined else s[..i]) == DropFinalNewline(s)
  {
    if i + 1 < |s| {
      assert s == s[..i] + "\n" + s[i + 1..];
      if s[|s| - 1] == '\n' {
        assert s[..|s| - 1] == s[..i] + "\n" + s[i + 1..][..|s| - i - 2];
      }
    }
  }

  /** Joining a line in front of at least one more line puts a "\n" between
      it and the rest. */
  lemma JoinCons(l: string, ls: seq<string>)
    requires |ls| > 0
    ensures Join([l] + ls) == l + "\n" + Join(ls)
  {
    assert ([l] + ls)[1..] == ls;
  }

  /** The list comprehension keeping the lines that are not blank. */
  function NonBlank(ls: seq<string>): (r: seq<string>)
    ensures forall l <- r :: !Blank(l)
    ensures forall l :: l in r <==> l in ls && !Blank(l)
    ensures |r| <= |ls|
  {
    if |ls| == 0 then []
    else if Blank(ls[0]) then NonBlank(ls[1..])
    else [ls[0]] + NonBlank(ls[1..])
  }

  /** The filter keeps the order of the lines: it maps a concatenation to
      the concatenation of the filtered parts. */
  lemma {:induction false} NonBlankAppend(a: seq<string>, b: seq<string>)
    ensures NonBlank(a + b) == NonBlank(a) + NonBlank(b)
    decreases |a|
  {
    if |a| > 0 {
      assert (a + b)[0] == a[0];
      assert (a + b)[1..] == a[1..] + b;
      NonBlankAppend(a[1..], b);
    } else {
      assert a + b == b;
    }
  }

  /** The line-level part of `pretty_xml_string`: the lines that are not
      blank, joined by "\n". */
  function DropBlankLines(s: string): (r: string)
  {
    Join(NonBlank(SplitLines(s)))
  }

  /** Splitting joined lines gives the lines back when none is empty or
      holds a "\n". */
  lemma {:induction false} SplitJoin(ls: seq<string>)
    requires forall l <- ls :: |l| > 0 && '\n' !in l
    ensures SplitLines(Join(ls)) == ls
    decreases |ls|
  {
    if |ls| == 1 {
      LineEndAbsent(ls[0]);
    } else if |ls| > 1 {
      var s := Join(ls);
      var head := ls[0];
      assert s == head + ("\n" + Join(ls[1..]));
      LineEndAt(head, "\n" + Join(ls[1..]));
      assert s[..|head|] == head;
      assert s[|head| + 1..] == Join(ls[1..]);
      SplitJoin(ls[1..]);
    }
  }

  /** Without a "\n" the line runs to the end. */
  lemma {:induction false} LineEndAbsent(s: string)
    requires '\n' !in s
    ensures LineEnd(s) == |s|
    decreases |s|
  {
    if |s| > 0 {
      assert s[0] in s;
      assert forall k :: 0 <= k < |s[1..]| ==> s[1..][k] in s;
      LineEndAbsent(s[1..]);
    }
  }

  /** A line followed by a "\n" ends right there. */
  lemma {:induction false} LineEndAt(head: string, rest: string)
    requires '\n' !in head && |rest| > 0 && rest[0] == '\n'
    ensures LineEnd(head + rest) == |head|
    decreases |head|
  {
    if |head| > 0 {
      var s := head + rest;
      assert head[0] in head && s[0] == head[0];
      assert s[1..] == head[1..] + rest;
      assert forall k :: 0 <= k < |head[1..]| ==> head[1..][k] in head;
      LineEndAt(head[1..], rest);
    }
  }

  /** No line of the result is blank. */
  lemma NoBlankLines(s: string)
    ensures forall l <- SplitLines(DropBlankLines(s)) :: !Blank(l)
  {
    NonBlankLinesSplit(s);
  }

  /** The result's lines are exactly the non-blank lines of the input. */
  lemma NonBlankLinesSplit(s: string)
    ensures SplitLines(DropBlankLines(s)) == NonBlank(SplitLines(s))
  {
    var ls := NonBlank(SplitLines(s));
    forall l | l in ls ensures |l| > 0 && '\n' !in l {
      assert l in SplitLines(s);
    }
    SplitJoin(ls);
  }

  /** Filtering twice is filtering once. */
  lemma DropBlankLinesIdempotent(s: string)
    ensures DropBlankLines(DropBlankLines(s)) == DropBlankLines(s)
  {
    NonBlankLinesSplit(s);
    NonBlankOfNonBlank(NonBlank(SplitLines(s)));
  }

  /** Lines that are all non-blank pass the filter unchanged. */
  lemma {:induction false} NonBlankOfNonBlank(ls: seq<string>)
    requires forall l <- ls :: !Blank(l)
    ensures NonBlank(ls) == ls
    decreases |ls|
  {
    if |ls| > 0 {
      assert ls[0] in ls;
      NonBlankOfNonBlank(ls[1..]);
      assert [ls[0]] + ls[1..] == ls;
    }
  }

  /** The result neither starts nor ends with a "\n". */
  lemma NoTrailingNewline(s: string)
    ensures var r := DropBlankLines(s);
      |r| > 0 ==> r[|r| - 1] != '\n' && r[0] != '\n'
  {
    var ls := NonBlank(SplitLines(s));
    forall l | l in ls ensures |l| > 0 && '\n' !in l {
      assert l in SplitLines(s);
    }
    JoinEnds(ls);
  }

  /** Joining non-empty lines without "\n" starts with the first line's first
      character and ends with the last line's last character. */
  lemma {:induction false} JoinEnds(ls: seq<string>)
    requires forall l <- ls :: |l| > 0 && '\n' !in l
    ensures var r := Join(ls);
      |r| > 0 ==> r[|r| - 1] != '\n' && r[0] != '\n'
    decreases |ls|
  {
    if |ls| == 1 {
      assert ls[0][0] in ls[0];
      assert ls[0][|ls[0]| - 1] in ls[0];
    } else if |ls| > 1 {
      JoinEnds(ls[1..]);
      assert ls[0][0] in ls[0];
      assert ls[1] in ls[1..];
      assert |Join(ls[1..])| > 0 by { JoinNonEmpty(ls[1..]); }
    }
  }

  /** Joining at least one non-empty line gives a non-empty text. */
  lemma {:induction false} JoinNonEmpty(ls: seq<string>)
    requires |ls| > 0 && forall l <- ls :: |l| > 0
    ensures |Join(ls)| > 0
  {
    assert ls[0] in ls;
  }

  /** `generate_dummy_error_response`. */
  datatype ErrorResponse = ErrorResponse(errorCode: int, errorMessage: string)

  const NOT_IMPLEMENTED_MESSAGE: string := "API resource not yet implemented."

  function DummyErrorResponse(): (r: ErrorResponse)
    ensures r.errorCode == -1 && r.errorMessage == NOT_IMPLEMENTED_MESSAGE
  {
    ErrorResponse(-1, NOT_IMPLEMENTED_MESSAGE)
  }
}
