/** `TextFilter._final_cleanup` in text_filter.py: four `re.sub` passes and a
    `strip`, each written out as the left-to-right scan `re.sub` performs for
    its fixed pattern. */
module Cleanup {
  import opened Base
  import opened Strings
  import opened Subsequences

  // ---------------------------------------------------------------------
  // Occurrences of a fixed string

  predicate StartsWith(s: string, pat: string)
  {
    |pat| <= |s| && s[..|pat|] == pat
  }

  /** `pat in s`. */
  predicate Contains(s: string, pat: string)
    decreases |s|
  {
    StartsWith(s, pat) || (s != [] && Contains(s[1..], pat))
  }

  lemma {:induction false} ContainsSuffix(s: string, i: nat, pat: string)
    requires i <= |s| && Contains(s[i..], pat)
    ensures Contains(s, pat)
    decreases i
  {
    if i > 0 {
      assert s[1..][i - 1..] == s[i..];
      ContainsSuffix(s[1..], i - 1, pat);
    }
  }

  lemma {:induction false} ContainsPrefix(s: string, n: nat, pat: string)
    requires n <= |s| && Contains(s[..n], pat)
    ensures Contains(s, pat)
    decreases n
  {
    if StartsWith(s[..n], pat) {
      assert s[..n][..|pat|] == s[..|pat|];
    } else {
      assert s[..n][1..] == s[1..][..n - 1];
      ContainsPrefix(s[1..], n - 1, pat);
    }
  }

  /** An occurrence holds the pattern's first character. */
  lemma {:induction false} ContainsFirst(s: string, pat: string)
    requires pat != [] && Contains(s, pat)
    ensures pat[0] in s
    decreases |s|
  {
    if StartsWith(s, pat) {
      assert s[0] == s[..|pat|][0];
    } else {
      ContainsFirst(s[1..], pat);
    }
  }

  lemma Straddle(a: string, b: string, pat: string)
    ensures a != [] && |a| < |pat| && StartsWith(a + b, pat) ==>
      pat[|a| - 1] == a[|a| - 1] && b != [] && pat[|a|] == b[0]
  {
    if a != [] && |a| < |pat| && StartsWith(a + b, pat) {
      assert pat[|a| - 1] == (a + b)[..|pat|][|a| - 1];
      assert pat[|a|] == (a + b)[..|pat|][|a|];
    }
  }

  /** A pattern without a newline cannot straddle a junction next to a
      newline. */
  lemma {:induction false} ContainsSplit(a: string, b: string, pat: string)
    requires pat != [] && '\n' !in pat
    requires a == [] || a[|a| - 1] == '\n' || b == [] || b[0] == '\n'
    requires Contains(a + b, pat)
    ensures Contains(a, pat) || Contains(b, pat)
    decreases |a|
  {
    if a == [] {
      assert a + b == b;
    } else if StartsWith(a + b, pat) {
      if |pat| <= |a| {
        assert (a + b)[..|pat|] == a[..|pat|];
      } else {
        Straddle(a, b, pat);
        assert false;
      }
    } else {
      assert (a + b)[1..] == a[1..] + b;
      ContainsSplit(a[1..], b, pat);
    }
  }

  // ---------------------------------------------------------------------
  // Scanning helpers

  /** The first index at or after `from` holding `c`. */
  function FirstAt(s: string, c: char, from: nat): (r: Option<nat>)
    ensures r.Some? ==> from <= r.value < |s| && s[r.value] == c
    ensures r.None? ==> from >= |s| || c !in s[from..]
    decreases |s| - from
  {
    if from >= |s| then None
    else if s[from] == c then Some(from)
    else
      assert s[from..] == [s[from]] + s[from + 1..];
      FirstAt(s, c, from + 1)
  }

  /** Where `.*?(?=\n|$)` started at `from` stops: at the first newline, or
      at the end of the text. */
  function LineEnd(s: string, from: nat): (e: nat)
    requires from <= |s|
    ensures from <= e <= |s|
    ensures e == |s| || s[e] == '\n'
  {
    match FirstAt(s, '\n', from)
    case Some(k) => k
    case None => |s|
  }

  /** The number of newlines `s` starts with. */
  function Newlines(s: string): (n: nat)
    ensures n <= |s| && (n == |s| || s[n] != '\n')
  {
    if s != [] && s[0] == '\n' then 1 + Newlines(s[1..]) else 0
  }

  lemma {:induction false} NewlinesAre(s: string)
    ensures forall k :: 0 <= k < Newlines(s) ==> s[k] == '\n'
  {
    if s != [] && s[0] == '\n' {
      NewlinesAre(s[1..]);
      assert forall k :: 1 <= k < Newlines(s) ==> s[k] == s[1..][k - 1];
    }
  }

  lemma NewlinesTriple(s: string)
    ensures StartsWith(s, "\n\n\n") <==> Newlines(s) >= 3
  {
    NewlinesAre(s);
    if Newlines(s) >= 3 {
      assert s[..3] == "\n\n\n";
    }
    if StartsWith(s, "\n\n\n") {
      assert s[0] == '\n' && s[1..][0] == '\n' && s[1..][1..][0] == '\n';
    }
  }

  // ---------------------------------------------------------------------
  // 1. re.sub(r'<[^>]*>', '', text)

  /** At a '<' with a '>' somewhere after it, everything through the first
      such '>' goes; any other character stays. */
  function StripTags(s: string): string
    decreases |s|
  {
    if s == [] then []
    else if s[0] == '<' && FirstAt(s, '>', 1).Some? then StripTags(s[FirstAt(s, '>', 1).value + 1..])
    else [s[0]] + StripTags(s[1..])
  }

  /** No '<' is followed, anywhere later, by a '>': nothing is left that the
      tag pattern would match. */
  predicate NoTagPair(s: string)
  {
    forall i, j :: 0 <= i < j < |s| && s[i] == '<' ==> s[j] != '>'
  }

  lemma {:induction false} StripTagsRemovesTags(s: string)
    ensures NoTagPair(StripTags(s))
    ensures Sub(StripTags(s), s)
    decreases |s|
  {
    if s == [] {
    } else if s[0] == '<' && FirstAt(s, '>', 1).Some? {
      var e := FirstAt(s, '>', 1).value + 1;
      StripTagsRemovesTags(s[e..]);
      SubSlice(s, e, |s|);
      assert s[e..|s|] == s[e..];
      SubTrans(StripTags(s[e..]), s[e..], s);
    } else {
      var rest := StripTags(s[1..]);
      StripTagsRemovesTags(s[1..]);
      SubRefl([s[0]]);
      SubAppend([s[0]], [s[0]], rest, s[1..]);
      assert [s[0]] + s[1..] == s;
      var r := [s[0]] + rest;
      if s[0] == '<' {
        SubMembers(rest, s[1..]);
        assert '>' !in rest;
      }
      forall i, j | 0 <= i < j < |r| && r[i] == '<' ensures r[j] != '>' {
        assert r[j] == rest[j - 1];
        if i > 0 {
          assert r[i] == rest[i - 1];
        }
      }
    }
  }

  /** Deleting characters cannot create a tag. */
  lemma {:induction false} SubKeepsNoTagPair(t: string, s: string)
    requires Sub(t, s) && NoTagPair(s)
    ensures NoTagPair(t)
    decreases |s|
  {
    if t != [] {
      assert NoTagPair(s[1..]) by {
        forall i, j | 0 <= i < j < |s[1..]| && s[1..][i] == '<' ensures s[1..][j] != '>' {
          assert s[i + 1] == '<';
        }
      }
      if t[0] == s[0] {
        SubKeepsNoTagPair(t[1..], s[1..]);
        SubMembers(t[1..], s[1..]);
        forall i, j | 0 <= i < j < |t| && t[i] == '<' ensures t[j] != '>' {
          assert t[j] == t[1..][j - 1];
          if i > 0 {
            assert t[i] == t[1..][i - 1];
          } else {
            assert t[j] in s[1..];
            var k :| 0 <= k < |s[1..]| && s[1..][k] == t[j];
            assert s[k + 1] == t[j];
          }
        }
      } else {
        SubKeepsNoTagPair(t, s[1..]);
      }
    }
  }

  // ---------------------------------------------------------------------
  // 2. re.sub(r'DOI:.*?(?=\n|$)', '', text) and
  //    re.sub(r'Issue\s+\d+.*?(?=\n|$)', '', text)

  datatype Reference = Doi | Issue

  const DoiMark: string := "DOI:"
  const IssueMark: string := "Issue"

  /** `\d` on ASCII digits. */
  predicate IsDigit(c: char)
  {
    '0' <= c <= '9'
  }

  /** Where a match of the reference pattern starting at the head of `s`
      ends, if one starts there. `\s+` is greedy and backtracks only onto
      whitespace, so `\d` must follow the whole whitespace run. */
  function MatchEnd(s: string, k: Reference): (r: Option<nat>)
    ensures r.Some? ==> 0 < r.value <= |s| && (r.value == |s| || s[r.value] == '\n')
    ensures r.Some? ==> StartsWith(s, if k == Doi then DoiMark else IssueMark)
    ensures k == Doi ==> (r.Some? <==> StartsWith(s, DoiMark))
  {
    match k
    case Doi =>
      if StartsWith(s, DoiMark) then Some(LineEnd(s, |DoiMark|)) else None
    case Issue =>
      if StartsWith(s, IssueMark) then
        var w := LeadingSpaces(s[|IssueMark|..]);
        if 0 < w && 5 + w < |s| && IsDigit(s[5 + w]) then Some(LineEnd(s, 5 + w)) else None
      else None
  }

  /** One `re.sub` pass with the reference pattern `k`: a match is dropped
      and the scan resumes where it ended. */
  function CutRefs(s: string, k: Reference): string
    decreases |s|
  {
    if s == [] then []
    else match MatchEnd(s, k)
      case Some(e) => CutRefs(s[e..], k)
      case None => [s[0]] + CutRefs(s[1..], k)
  }

  lemma {:induction false} CutRefsDeletes(s: string, k: Reference)
    ensures Sub(CutRefs(s, k), s)
    decreases |s|
  {
    if s != [] {
      match MatchEnd(s, k)
      case Some(e) =>
        CutRefsDeletes(s[e..], k);
        SubSlice(s, e, |s|);
        assert s[e..|s|] == s[e..];
        SubTrans(CutRefs(s[e..], k), s[e..], s);
      case None =>
        CutRefsDeletes(s[1..], k);
        SubRefl([s[0]]);
        SubAppend([s[0]], [s[0]], CutRefs(s[1..], k), s[1..]);
        assert [s[0]] + s[1..] == s;
    }
  }

  /** A text at a line break stays at one after the pass. */
  lemma CutRefsAtLineBreak(t: string, k: Reference, m: nat)
    ensures (t == [] || t[0] == '\n') && 0 < m <= |CutRefs(t, k)| ==> '\n' in CutRefs(t, k)[..m]
    ensures t == [] ==> CutRefs(t, k) == []
  {
    if t != [] && t[0] == '\n' && 0 < m <= |CutRefs(t, k)| {
      assert MatchEnd(t, k).None?;
      assert CutRefs(t, k)[..m][0] == '\n';
    }
  }

  /** A cut leaves the text at a newline, so a newline-free start of the
      result is a start of the input. */
  lemma {:induction false} CutRefsKeepsLineStart(s: string, k: Reference, m: nat)
    requires m <= |CutRefs(s, k)| && '\n' !in CutRefs(s, k)[..m]
    ensures m <= |s| && CutRefs(s, k)[..m] == s[..m]
    decreases |s|
  {
    if m > 0 {
      match MatchEnd(s, k)
      case Some(e) =>
        assert CutRefs(s, k) == CutRefs(s[e..], k);
        assert e == |s| || s[e..][0] == '\n';
        CutRefsAtLineBreak(s[e..], k, m);
        assert false;
      case None =>
        var rest := CutRefs(s[1..], k);
        var r := CutRefs(s, k);
        assert r == [s[0]] + rest;
        assert rest[..m - 1] == r[..m][1..];
        CutRefsKeepsLineStart(s[1..], k, m - 1);
        assert s[..m] == [s[0]] + s[1..][..m - 1];
    }
  }

  /** A pattern without a newline occurs in a cut text only where it occurred
      in the input; the DOI pass leaves no "DOI:" at all. */
  lemma {:induction false} CutRefsAvoids(s: string, k: Reference, pat: string)
    requires pat != [] && '\n' !in pat
    requires !Contains(s, pat) || (k == Doi && pat == DoiMark)
    ensures !Contains(CutRefs(s, k), pat)
    decreases |s|
  {
    if s != [] {
      match MatchEnd(s, k)
      case Some(e) =>
        if Contains(s[e..], pat) {
          ContainsSuffix(s, e, pat);
        }
        CutRefsAvoids(s[e..], k, pat);
      case None =>
        var rest := CutRefs(s[1..], k);
        var r := [s[0]] + rest;
        assert r[1..] == rest;
        CutRefsAvoids(s[1..], k, pat);
        CutRefsHead(s, k, pat);
    }
  }

  /** An occurrence at the head of a pass's output where nothing was cut is
      an occurrence in the input. */
  lemma CutRefsHead(s: string, k: Reference, pat: string)
    ensures (s != [] && pat != [] && '\n' !in pat && MatchEnd(s, k).None?
             && StartsWith([s[0]] + CutRefs(s[1..], k), pat)) ==> StartsWith(s, pat)
  {
    if s != [] && pat != [] && '\n' !in pat && MatchEnd(s, k).None? && StartsWith([s[0]] + CutRefs(s[1..], k), pat) {
      var rest := CutRefs(s[1..], k);
      var m := |pat| - 1;
      assert rest[..m] == ([s[0]] + rest)[..|pat|][1..];
      CutRefsKeepsLineStart(s[1..], k, m);
      assert s[..|pat|] == [s[0]] + s[1..][..m];
    }
  }

  // ---------------------------------------------------------------------
  // 3. re.sub(r'\n{3,}', '\n\n', text)

  /** Every run of three or more newlines becomes exactly two. */
  function Collapse(s: string): string
    decreases |s|
  {
    if s == [] then []
    else if Newlines(s) >= 3 then "\n\n" + Collapse(s[Newlines(s)..])
    else [s[0]] + Collapse(s[1..])
  }

  lemma {:induction false} CollapseDeletes(s: string)
    ensures Sub(Collapse(s), s)
    decreases |s|
  {
    if s != [] {
      var n := Newlines(s);
      if n >= 3 {
        NewlinesAre(s);
        assert s[..2] == "\n\n";
        CollapseDeletes(s[n..]);
        assert s[2..] == s[2..n] + s[n..];
        SubPrefixRight(Collapse(s[n..]), s[2..n], s[n..]);
        SubRefl(s[..2]);
        SubAppend(s[..2], s[..2], Collapse(s[n..]), s[2..]);
        assert s[..2] + s[2..] == s;
      } else {
        CollapseDeletes(s[1..]);
        SubRefl([s[0]]);
        SubAppend([s[0]], [s[0]], Collapse(s[1..]), s[1..]);
        assert [s[0]] + s[1..] == s;
      }
    }
  }

  /** A run of newlines at the head is kept when short and cut to two when
      long. */
  lemma {:induction false} CollapseLeadingNewlines(s: string)
    ensures Newlines(Collapse(s)) == if Newlines(s) >= 3 then 2 else Newlines(s)
    decreases |s|
  {
    var n := Newlines(s);
    if s == [] {
    } else if n >= 3 {
      var rest := Collapse(s[n..]);
      var r := "\n\n" + rest;
      assert r[1..] == "\n" + rest && r[1..][1..] == rest;
      if rest != [] {
        assert rest[0] == s[n] && s[n..][0] == s[n];
      }
      assert Newlines(rest) == 0;
    } else {
      var rest := Collapse(s[1..]);
      var r := [s[0]] + rest;
      assert r[1..] == rest;
      if s[0] == '\n' {
        CollapseLeadingNewlines(s[1..]);
      }
    }
  }

  lemma CollapseAtLineBreak(s: string, m: nat)
    ensures Newlines(s) >= 3 && 0 < m <= |Collapse(s)| ==> '\n' in Collapse(s)[..m]
  {
    if Newlines(s) >= 3 && 0 < m <= |Collapse(s)| {
      assert Collapse(s)[..m][0] == '\n';
    }
  }

  lemma {:induction false} CollapseKeepsLineStart(s: string, m: nat)
    requires m <= |Collapse(s)| && '\n' !in Collapse(s)[..m]
    ensures m <= |s| && Collapse(s)[..m] == s[..m]
    decreases |s|
  {
    if m > 0 {
      if Newlines(s) >= 3 {
        CollapseAtLineBreak(s, m);
        assert false;
      } else {
        var rest := Collapse(s[1..]);
        var r := Collapse(s);
        assert r == [s[0]] + rest;
        assert rest[..m - 1] == r[..m][1..];
        CollapseKeepsLineStart(s[1..], m - 1);
        assert s[..m] == [s[0]] + s[1..][..m - 1];
      }
    }
  }

  /** No three newlines in a row are left. */
  lemma {:induction false} CollapseNoTriple(s: string)
    ensures !Contains(Collapse(s), "\n\n\n")
    decreases |s|
  {
    var nl := "\n\n\n";
    if s != [] {
      var n := Newlines(s);
      if n >= 3 {
        var rest := Collapse(s[n..]);
        CollapseNoTriple(s[n..]);
        CollapseLeadingNewlines(s[n..]);
        var r := "\n\n" + rest;
        assert r[1..] == "\n" + rest && r[1..][1..] == rest;
        NewlinesTriple(r);
        NewlinesTriple(r[1..]);
        assert Newlines(r) == 2 && Newlines(r[1..]) == 1;
      } else {
        var rest := Collapse(s[1..]);
        var r := [s[0]] + rest;
        assert r[1..] == rest;
        CollapseNoTriple(s[1..]);
        NewlinesTriple(r);
        if s[0] == '\n' {
          CollapseLeadingNewlines(s[1..]);
          assert Newlines(s[1..]) == n - 1;
        }
      }
    }
  }

  /** A pattern without a newline occurs after collapsing only where it
      occurred before. */
  lemma {:induction false} CollapseAvoids(s: string, pat: string)
    requires pat != [] && '\n' !in pat && !Contains(s, pat)
    ensures !Contains(Collapse(s), pat)
    decreases |s|
  {
    if s != [] {
      var n := Newlines(s);
      if n >= 3 {
        var rest := Collapse(s[n..]);
        if Contains(s[n..], pat) {
          ContainsSuffix(s, n, pat);
        }
        CollapseAvoids(s[n..], pat);
        if Contains("\n\n" + rest, pat) {
          ContainsSplit("\n\n", rest, pat);
          if Contains("\n\n", pat) {
            ContainsFirst("\n\n", pat);
          }
        }
      } else {
        var rest := Collapse(s[1..]);
        var r := [s[0]] + rest;
        assert r[1..] == rest;
        CollapseAvoids(s[1..], pat);
        CollapseHead(s, pat);
      }
    }
  }

  /** An occurrence at the head of the output where no run was collapsed is
      an occurrence in the input. */
  lemma CollapseHead(s: string, pat: string)
    ensures s != [] && pat != [] && '\n' !in pat && StartsWith([s[0]] + Collapse(s[1..]), pat) ==> StartsWith(s, pat)
  {
    if s != [] && pat != [] && '\n' !in pat && StartsWith([s[0]] + Collapse(s[1..]), pat) {
      var rest := Collapse(s[1..]);
      var m := |pat| - 1;
      assert rest[..m] == ([s[0]] + rest)[..|pat|][1..];
      CollapseKeepsLineStart(s[1..], m);
      assert s[..|pat|] == [s[0]] + s[1..][..m];
    }
  }

  // ---------------------------------------------------------------------
  // 4. strip()

  lemma StripDeletes(s: string)
    ensures Sub(Strip(s), s)
    ensures forall pat :: Contains(Strip(s), pat) ==> Contains(s, pat)
  {
    var l := StripLeft(s);
    SubSlice(s, LeadingSpaces(s), |s|);
    assert s[LeadingSpaces(s)..|s|] == l;
    SubSlice(l, 0, |l| - TrailingSpaces(l));
    assert l[0..|l| - TrailingSpaces(l)] == Strip(s);
    SubTrans(Strip(s), l, s);
    forall pat | Contains(Strip(s), pat) ensures Contains(s, pat) {
      ContainsPrefix(l, |l| - TrailingSpaces(l), pat);
      ContainsSuffix(s, LeadingSpaces(s), pat);
    }
  }

  // ---------------------------------------------------------------------

  const TripleBreak: string := "\n\n\n"

  /** The whole `_final_cleanup`. */
  function FinalCleanup(s: string): string
  {
    Strip(Collapse(CutRefs(CutRefs(StripTags(s), Doi), Issue)))
  }

  /** `_final_cleanup` only deletes characters. */
  lemma FinalCleanupDeletes(s: string)
    ensures Sub(FinalCleanup(s), StripTags(s))
    ensures Sub(FinalCleanup(s), s)
  {
    var tags := StripTags(s);
    var doi := CutRefs(tags, Doi);
    var issue := CutRefs(doi, Issue);
    var lines := Collapse(issue);
    StripTagsRemovesTags(s);
    CutRefsDeletes(tags, Doi);
    CutRefsDeletes(doi, Issue);
    CollapseDeletes(issue);
    StripDeletes(lines);
    SubTrans(issue, doi, tags);
    SubTrans(lines, issue, tags);
    SubTrans(FinalCleanup(s), lines, tags);
    SubTrans(FinalCleanup(s), tags, s);
  }

  /** `_final_cleanup` only deletes characters, and leaves no tag, no "DOI:",
      no three newlines in a row and no whitespace at either end. */
  lemma FinalCleanupCleans(s: string)
    ensures Sub(FinalCleanup(s), s)
    ensures NoTagPair(FinalCleanup(s))
    ensures !Contains(FinalCleanup(s), DoiMark)
    ensures !Contains(FinalCleanup(s), TripleBreak)
    ensures FinalCleanup(s) == [] || (!IsSpace(FinalCleanup(s)[0]) && !IsSpace(FinalCleanup(s)[|FinalCleanup(s)| - 1]))
  {
    var tags := StripTags(s);
    var doi := CutRefs(tags, Doi);
    var issue := CutRefs(doi, Issue);
    var lines := Collapse(issue);
    FinalCleanupDeletes(s);
    StripTagsRemovesTags(s);
    SubKeepsNoTagPair(FinalCleanup(s), tags);
    CutRefsAvoids(tags, Doi, DoiMark);
    CutRefsAvoids(doi, Issue, DoiMark);
    CollapseAvoids(issue, DoiMark);
    CollapseNoTriple(issue);
    StripDeletes(lines);
  }
}
