/** The request path written to the log by the `log_requests` middleware:
    everything after the first `tax_number_validity` is a tax number and must
    not be logged. */
module RequestLogging {
  import opened Wrappers

  const MARKER: string := "tax_number_validity"

  /** `pat` occurs in `s` starting at `i`. */
  predicate OccursAt(s: string, pat: string, i: int) {
    0 <= i && i + |pat| <= |s| && s[i..i + |pat|] == pat
  }

  /** The first position at or after `from` where `pat` occurs in `s`. */
  function FindFrom(s: string, pat: string, from: nat): (r: Option<nat>)
    ensures r.Some? ==> from <= r.value && OccursAt(s, pat, r.value)
    ensures r.Some? ==> forall j :: from <= j < r.value ==> !OccursAt(s, pat, j)
    ensures r.None? ==> forall j :: from <= j ==> !OccursAt(s, pat, j)
    decreases |s| - from
  {
    if from + |pat| > |s| then None
    else if s[from..from + |pat|] == pat then Some(from)
    else FindFrom(s, pat, from + 1)
  }

  /** The first occurrence of `pat` in `s`, as `str.find` computes it. */
  function Find(s: string, pat: string): (r: Option<nat>)
    ensures r.Some? ==> OccursAt(s, pat, r.value) && forall j :: j < r.value ==> !OccursAt(s, pat, j)
    ensures r.None? ==> forall j :: !OccursAt(s, pat, j)
  {
    FindFrom(s, pat, 0)
  }

  /** `s.replace(pat, "")`: every non-overlapping occurrence of `pat`,
      scanning from the left, is removed. Python leaves `s` unchanged when
      `pat` is empty. */
  function RemoveAll(s: string, pat: string): (r: string)
    ensures |r| <= |s|
    ensures |pat| == 0 ==> r == s
    ensures (forall j :: !OccursAt(s, pat, j)) ==> r == s
    decreases |s|
  {
    if |pat| == 0 || |s| < |pat| then s
    else if s[..|pat|] == pat then
      assert OccursAt(s, pat, 0);
      RemoveAll(s[|pat|..], pat)
    else
      assert forall j :: OccursAt(s[1..], pat, j) ==> OccursAt(s, pat, j + 1) by {
        forall j | OccursAt(s[1..], pat, j) ensures OccursAt(s, pat, j + 1) {
          assert s[1..][j..j + |pat|] == s[j + 1..j + 1 + |pat|];
        }
      }
      [s[0]] + RemoveAll(s[1..], pat)
  }

  /** The logged path as the middleware computes it: when the marker occurs,
      the text after its first occurrence is removed from the path, and
      `replace` removes it wherever else it occurs too. */
  function RedactAsWritten(path: string): (r: string)
    ensures Find(path, MARKER).None? ==> r == path
    ensures |r| <= |path|
    ensures Find(path, MARKER).Some? ==>
      var tail := path[Find(path, MARKER).value + |MARKER|..];
      && (r == path <==> tail == "")
      && (tail != "" ==> |r| <= |path| - |tail|)
  {
    match Find(path, MARKER)
    case None => path
    case Some(i) =>
      var tail := path[i + |MARKER|..];
      if tail == "" then RemoveAll(path, tail)
      else
        assert OccursAt(path, tail, i + |MARKER|);
        RemoveAllShrinks(path, tail, i + |MARKER|);
        RemoveAll(path, tail)
  }

  /** `replace` in terms of `find`: with a non-empty pattern, the text before
      the first occurrence is kept, that occurrence is dropped, and the rest
      is treated the same way. With the two clauses of `RemoveAll` for an
      empty or absent pattern, this pins `RemoveAll` down on every input. */
  lemma RemoveAllByFind(s: string, pat: string)
    requires |pat| > 0 && Find(s, pat).Some?
    ensures RemoveAll(s, pat) == s[..Find(s, pat).value] + RemoveAll(s[Find(s, pat).value + |pat|..], pat)
  {
    FindFromFirst(s, pat, 0);
    RemoveAllFrom(s, pat, Find(s, pat).value, s[Find(s, pat).value + |pat|..]);
  }

  /** What `FindFrom` reports is an occurrence with none before it from
      `from` on. */
  lemma FindFromFirst(s: string, pat: string, from: nat)
    requires FindFrom(s, pat, from).Some?
    ensures OccursAt(s, pat, FindFrom(s, pat, from).value)
    ensures forall j :: from <= j < FindFrom(s, pat, from).value ==> !OccursAt(s, pat, j)
  {
  }

  /** `RemoveAllByFind` for an occurrence `i` with none before it, the text
      after that occurrence being `after`. */
  lemma {:induction false} RemoveAllFrom(s: string, pat: string, i: nat, after: string)
    requires |pat| > 0 && OccursAt(s, pat, i) && after == s[i + |pat|..]
    requires forall j :: 0 <= j < i ==> !OccursAt(s, pat, j)
    ensures RemoveAll(s, pat) == s[..i] + RemoveAll(after, pat)
    decreases i
  {
    RemoveAllStep(s, pat);
    if i == 0 {
      assert s[..i] == [] && s[|pat|..] == after;
    } else {
      assert !OccursAt(s, pat, 0);
      ShiftOccurs(s, pat, i - 1);
      NoneBeforeShifted(s, pat, i);
      SplitAfterFirst(s, i, |pat|);
      RemoveAllFrom(s[1..], pat, i - 1, after);
      ConsAssoc(RemoveAll(s, pat), s[0], RemoveAll(s[1..], pat), s[1..][..i - 1], RemoveAll(after, pat), s[..i]);
    }
  }

  /** A text that is `c` followed by `a + b` is `[c] + a` followed by `b`. */
  lemma ConsAssoc(x: string, c: char, r: string, a: string, b: string, p: string)
    requires x == [c] + r && r == a + b && p == [c] + a
    ensures x == p + b
  {
  }

  /** No occurrence before `i` in `s` means none before `i - 1` once the first
      character is gone. */
  lemma NoneBeforeShifted(s: string, pat: string, i: nat)
    requires |s| > 0 && i > 0
    requires forall j :: 0 <= j < i ==> !OccursAt(s, pat, j)
    ensures forall j :: 0 <= j < i - 1 ==> !OccursAt(s[1..], pat, j)
  {
    forall j | 0 <= j < i - 1 ensures !OccursAt(s[1..], pat, j) {
      ShiftOccurs(s, pat, j);
    }
  }

  /** Cutting `s` at `i` and after `i + n` relates to cutting `s[1..]` at
      `i - 1` and after `i - 1 + n`. */
  lemma SplitAfterFirst(s: string, i: nat, n: nat)
    requires 0 < i && i + n <= |s|
    ensures s[..i] == [s[0]] + s[1..][..i - 1]
    ensures s[1..][i - 1 + n..] == s[i + n..]
  {
  }

  /** One step of `replace`'s scan over a text that is at least as long as
      the non-empty pattern. */
  lemma RemoveAllStep(s: string, pat: string)
    requires 0 < |pat| <= |s|
    ensures OccursAt(s, pat, 0) ==> RemoveAll(s, pat) == RemoveAll(s[|pat|..], pat)
    ensures !OccursAt(s, pat, 0) ==> RemoveAll(s, pat) == [s[0]] + RemoveAll(s[1..], pat)
  {
  }

  /** An occurrence in the text without its first character is one position
      further on in the text. */
  lemma ShiftOccurs(s: string, pat: string, j: nat)
    requires |s| > 0
    ensures OccursAt(s[1..], pat, j) <==> OccursAt(s, pat, j + 1)
  {
    if j + 1 + |pat| <= |s| {
      assert s[1..][j..j + |pat|] == s[j + 1..j + 1 + |pat|];
    }
  }

  /** Removing a non-empty pattern that occurs shortens the text by at least
      the pattern's length. */
  lemma RemoveAllShrinks(s: string, pat: string, k: nat)
    requires |pat| > 0 && OccursAt(s, pat, k)
    ensures |RemoveAll(s, pat)| <= |s| - |pat|
  {
    RemoveAllByFind(s, pat);
  }

  /** The logged path as intended: the path up to and including the first
      marker. */
  function Redact(path: string): (r: string)
    ensures Find(path, MARKER).None? ==> r == path
    ensures Find(path, MARKER).Some? ==>
      |r| == Find(path, MARKER).value + |MARKER| && r == path[..|r|]
  {
    match Find(path, MARKER)
    case None => path
    case Some(i) => path[..i + |MARKER|]
  }

  /** The redacted path keeps the path's beginning, ends with the marker, and
      contains no earlier marker: nothing after the first marker is logged. */
  lemma RedactEndsAtMarker(path: string)
    requires Find(path, MARKER).Some?
    ensures var r := Redact(path);
      && |r| >= |MARKER| && r[|r| - |MARKER|..] == MARKER
      && forall j :: j < |r| - |MARKER| ==> !OccursAt(r, MARKER, j)
  {
    var i := Find(path, MARKER).value;
    var r := Redact(path);
    assert r[i..i + |MARKER|] == path[i..i + |MARKER|];
    forall j | 0 <= j && j + |MARKER| <= |r| ensures OccursAt(r, MARKER, j) == OccursAt(path, MARKER, j) {
      assert r[j..j + |MARKER|] == path[j..j + |MARKER|];
    }
  }

  /** Redacting a redacted path changes nothing. */
  lemma RedactIdempotent(path: string)
    ensures Redact(Redact(path)) == Redact(path)
  {
    if Find(path, MARKER).Some? {
      var r := Redact(path);
      RedactedMarker(path);
      assert r[..|r|] == r;
    }
  }

  /** In a redacted path the first marker is the one it ends with. */
  lemma RedactedMarker(path: string)
    requires Find(path, MARKER).Some?
    ensures Find(Redact(path), MARKER) == Some(|Redact(path)| - |MARKER|)
  {
    CutAtFirst(path, MARKER);
  }

  /** Cutting a text right after the first occurrence of `pat` keeps that
      occurrence as the first one. */
  lemma CutAtFirst(s: string, pat: string)
    requires Find(s, pat).Some?
    ensures var i := Find(s, pat).value;
      Find(s[..i + |pat|], pat) == Some(i)
  {
    var i := Find(s, pat).value;
    var r := s[..i + |pat|];
    forall j | 0 <= j && j + |pat| <= |r| ensures OccursAt(r, pat, j) == OccursAt(s, pat, j) {
      assert r[j..j + |pat|] == s[j..j + |pat|];
    }
    FindFirst(r, pat, i);
  }

  /** An occurrence with none before it is the one `Find` reports. */
  lemma FindFirst(s: string, pat: string, k: nat)
    requires OccursAt(s, pat, k) && forall j :: 0 <= j < k ==> !OccursAt(s, pat, j)
    ensures Find(s, pat) == Some(k)
  {
    var f := Find(s, pat);
    assert f.Some?;
    assert f.value <= k;
  }

  /** A path that ends at its first marker is logged whole by both
      versions. */
  lemma AgreeWhenNothingFollows(path: string)
    requires Find(path, MARKER).Some? && Find(path, MARKER).value + |MARKER| == |path|
    ensures RedactAsWritten(path) == path && Redact(path) == path
  {
  }

  /** When the text after the first marker occurs nowhere before its own
      position, `replace` removes just that text and both versions log the
      same path. */
  lemma AgreeWhenTailFirst(path: string)
    requires Find(path, MARKER).Some? && Find(path, MARKER).value + |MARKER| < |path|
    requires Find(path, path[Find(path, MARKER).value + |MARKER|..]) == Some(Find(path, MARKER).value + |MARKER|)
    ensures RedactAsWritten(path) == Redact(path)
  {
    RemoveAllByFind(path, path[Find(path, MARKER).value + |MARKER|..]);
  }

  /** Removing a one-character pattern distributes over concatenation. */
  lemma {:induction false} RemoveCharAppend(a: string, b: string, c: char)
    ensures RemoveAll(a + b, [c]) == RemoveAll(a, [c]) + RemoveAll(b, [c])
    decreases |a|
  {
    if |a| > 0 {
      var s := a + b;
      assert s[1..] == a[1..] + b;
      assert s[..1] == [a[0]] && a[..1] == [a[0]];
      RemoveCharAppend(a[1..], b, c);
      if a[0] == c {
        assert RemoveAll(s, [c]) == RemoveAll(s[1..], [c]);
        assert RemoveAll(a, [c]) == RemoveAll(a[1..], [c]);
      } else {
        assert RemoveAll(s, [c]) == [a[0]] + RemoveAll(s[1..], [c]);
        assert RemoveAll(a, [c]) == [a[0]] + RemoveAll(a[1..], [c]);
      }
    } else {
      assert a + b == b;
    }
  }

  /** A string without the character `c` has no occurrence of it. */
  lemma CharAbsent(s: string, c: char)
    requires c !in s
    ensures forall j :: !OccursAt(s, [c], j)
  {
    forall j | 0 <= j < |s| ensures !OccursAt(s, [c], j) {
      assert s[j] in s && s[j..j + 1][0] == s[j];
    }
  }

  /** A slash-free text `m` between two slashes: `m` first occurs right after
      the first slash, the text after it is "/", and removing every "/"
      leaves `m` alone. */
  lemma SlashAround(m: string)
    requires |m| > 0 && '/' !in m
    ensures Find("/" + m + "/", m) == Some(1)
    ensures ("/" + m + "/")[1 + |m|..] == "/" && ("/" + m + "/")[..1 + |m|] == "/" + m
    ensures RemoveAll("/" + m + "/", "/") == m
  {
    var path := "/" + m + "/";
    assert !OccursAt(path, m, 0) by { assert path[0] != m[0]; }
    assert OccursAt(path, m, 1) by { assert path[1..1 + |m|] == m; }
    assert path == "/" + (m + "/");
    RemoveCharAppend("/", m + "/", '/');
    RemoveCharAppend(m, "/", '/');
    CharAbsent(m, '/');
  }

  /** The path ending in a slash after the marker: the text after the marker
      is "/", so `replace` deletes every slash, the one before the marker
      included, while the intended redaction keeps it. */
  lemma TrailingSlashLosesPrefix()
    ensures RedactAsWritten("/" + MARKER + "/") == MARKER
    ensures Redact("/" + MARKER + "/") == "/" + MARKER
  {
    assert '/' !in MARKER;
    SlashAround(MARKER);
  }
}
