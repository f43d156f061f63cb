/** "t can be obtained from s by deleting characters": the relation every
    stage of the text filter keeps between its output and its input. */
module Subsequences {

  /** `t` is a subsequence of `s` (matched greedily, left to right). */
  predicate Sub<T(==)>(t: seq<T>, s: seq<T>)
    decreases |s|
  {
    if t == [] then true
    else if s == [] then false
    else if t[0] == s[0] then Sub(t[1..], s[1..])
    else Sub(t, s[1..])
  }

  lemma {:induction false} SubRefl<T>(s: seq<T>)
    ensures Sub(s, s)
    decreases |s|
  {
    if s != [] {
      SubRefl(s[1..]);
    }
  }

  lemma {:induction false} SubDropHead<T>(t: seq<T>, s: seq<T>)
    requires t != [] && Sub(t, s)
    ensures Sub(t[1..], s)
    decreases |s|, 0
  {
    if t[0] != s[0] {
      SubDropHead(t, s[1..]);
      SubConsRight(t[1..], s[1..], s[0]);
      assert ([s[0]] + s[1..]) == s;
    } else {
      SubConsRight(t[1..], s[1..], s[0]);
      assert ([s[0]] + s[1..]) == s;
    }
  }

  /** Putting a character in front of `s` keeps every subsequence. */
  lemma {:induction false} SubConsRight<T>(t: seq<T>, s: seq<T>, c: T)
    requires Sub(t, s)
    ensures Sub(t, [c] + s)
    decreases |s|, 1
  {
    assert ([c] + s)[1..] == s;
    if t != [] && t[0] == c {
      SubDropHead(t, s);
    }
  }

  /** A prefix may be put in front of `s`. */
  lemma {:induction false} SubPrefixRight<T>(t: seq<T>, p: seq<T>, s: seq<T>)
    requires Sub(t, s)
    ensures Sub(t, p + s)
    decreases |p|
  {
    if p != [] {
      SubPrefixRight(t, p[1..], s);
      SubConsRight(t, p[1..] + s, p[0]);
      assert [p[0]] + (p[1..] + s) == p + s;
    } else {
      assert p + s == s;
    }
  }

  /** Subsequences of the parts give a subsequence of the whole. */
  lemma {:induction false} SubAppend<T>(t1: seq<T>, s1: seq<T>, t2: seq<T>, s2: seq<T>)
    requires Sub(t1, s1) && Sub(t2, s2)
    ensures Sub(t1 + t2, s1 + s2)
    decreases |s1|
  {
    if t1 == [] {
      assert t1 + t2 == t2;
      SubPrefixRight(t2, s1, s2);
    } else {
      assert (s1 + s2)[1..] == s1[1..] + s2;
      if t1[0] == s1[0] {
        SubAppend(t1[1..], s1[1..], t2, s2);
        assert (t1 + t2)[1..] == t1[1..] + t2;
      } else {
        SubAppend(t1, s1[1..], t2, s2);
      }
    }
  }

  lemma {:induction false} SubTrans<T>(a: seq<T>, b: seq<T>, c: seq<T>)
    requires Sub(a, b) && Sub(b, c)
    ensures Sub(a, c)
    decreases |c|
  {
    if a != [] {
      if b[0] == c[0] {
        if a[0] == b[0] {
          SubTrans(a[1..], b[1..], c[1..]);
        } else {
          SubTrans(a, b[1..], c[1..]);
          SubConsRight(a, c[1..], c[0]);
          assert [c[0]] + c[1..] == c;
        }
      } else {
        SubTrans(a, b, c[1..]);
        SubConsRight(a, c[1..], c[0]);
        assert [c[0]] + c[1..] == c;
      }
    }
  }

  /** A slice is a subsequence. */
  lemma SubSlice<T>(s: seq<T>, i: nat, j: nat)
    requires i <= j <= |s|
    ensures Sub(s[i..j], s)
  {
    var p := s[..j];
    SubRefl(p[i..]);
    SubPrefixRight(p[i..], p[..i], p[i..]);
    assert p[..i] + p[i..] == p;
    SubRefl(p);
    assert Sub<T>([], s[j..]);
    SubAppend(p, p, [], s[j..]);
    assert p + [] == p;
    assert p + s[j..] == s;
    SubTrans(p[i..], p, s);
    assert p[i..] == s[i..j];
  }

  /** Deleting characters adds none: every element of a subsequence occurs
      in the sequence. */
  lemma {:induction false} SubMembers<T>(t: seq<T>, s: seq<T>)
    requires Sub(t, s)
    ensures forall x :: x in t ==> x in s
    decreases |s|
  {
    if t != [] {
      if t[0] == s[0] {
        SubMembers(t[1..], s[1..]);
        assert forall x :: x in t ==> x == t[0] || x in t[1..];
      } else {
        SubMembers(t, s[1..]);
      }
    }
  }
}
