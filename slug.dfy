/**
 * The tenant slug createTenant derives from a name in src/actions/tenants.ts:
 * lowercase, trim, turn every run of characters outside a-z0-9 into one "-",
 * then strip the dashes at both ends.
 */
module Slug {
  import Strings
  import Seqs

  predicate IsSlugChar(c: char)
  {
    'a' <= c <= 'z' || '0' <= c <= '9'
  }

  /** No two neighbouring dashes. */
  ghost predicate NoDoubleDash(s: string)
  {
    forall i, j :: 0 <= i && j == i + 1 && j < |s| ==> !(s[i] == '-' && s[j] == '-')
  }

  /** Only a-z, 0-9 and "-". */
  predicate SlugAlphabet(s: string)
  {
    forall i :: 0 <= i < |s| ==> IsSlugChar(s[i]) || s[i] == '-'
  }

  /** The shape of every generated slug. */
  ghost predicate IsSlug(s: string)
  {
    && SlugAlphabet(s)
    && NoDoubleDash(s)
    && (s != [] ==> s[0] != '-' && s[|s| - 1] != '-')
  }

  /** The rest of `s` after its leading characters outside a-z0-9. */
  function SkipOthers(s: string): (r: string)
    ensures |r| <= |s| && r == s[|s| - |r|..]
    ensures r != [] ==> IsSlugChar(r[0])
    ensures forall i :: 0 <= i < |s| - |r| ==> !IsSlugChar(s[i])
    decreases |s|
  {
    if s != [] && !IsSlugChar(s[0]) then SkipOthers(s[1..]) else s
  }

  /** `replace(/[^a-z0-9]+/g, "-")` */
  function DashRuns(s: string): (r: string)
    ensures r == [] <==> s == []
    ensures s != [] && IsSlugChar(s[0]) ==> r[0] == s[0]
    ensures s != [] && !IsSlugChar(s[0]) ==> r[0] == '-'
    ensures SlugAlphabet(r) && NoDoubleDash(r)
    decreases |s|
  {
    if s == [] then []
    else if IsSlugChar(s[0]) then [s[0]] + DashRuns(s[1..])
    else "-" + DashRuns(SkipOthers(s[1..]))
  }

  /** `replace(/^-+/, "")` */
  function StripStart(s: string): (r: string)
    ensures |r| <= |s| && r == s[|s| - |r|..]
    ensures r != [] ==> r[0] != '-'
    ensures forall i :: 0 <= i < |s| - |r| ==> s[i] == '-'
    decreases |s|
  {
    if s != [] && s[0] == '-' then StripStart(s[1..]) else s
  }

  /** `replace(/-+$/, "")` */
  function StripEnd(s: string): (r: string)
    ensures |r| <= |s| && r == s[..|r|]
    ensures r != [] ==> r[|r| - 1] != '-'
    ensures forall i :: |r| <= i < |s| ==> s[i] == '-'
    decreases |s|
  {
    if s != [] && s[|s| - 1] == '-' then StripEnd(s[..|s| - 1]) else s
  }

  /** `replace(/^-+|-+$/g, "")`: an infix of `s` that neither starts nor ends with a dash. */
  function StripDashes(s: string): (r: string)
    ensures r != [] ==> r[0] != '-' && r[|r| - 1] != '-'
    ensures SlugAlphabet(s) ==> SlugAlphabet(r)
    ensures NoDoubleDash(s) ==> NoDoubleDash(r)
  {
    StripKeepsShape(s);
    StripEnd(StripStart(s))
  }

  lemma StripKeepsShape(s: string)
    ensures SlugAlphabet(s) ==> SlugAlphabet(StripEnd(StripStart(s)))
    ensures NoDoubleDash(s) ==> NoDoubleDash(StripEnd(StripStart(s)))
  {
    var a := StripStart(s);
    StripInfix(s, a, StripEnd(a));
  }

  /** The stripped text is the infix of `s` at `|s| - |a|`, so it keeps the alphabet and the absence of "--". */
  lemma StripInfix(s: string, a: string, r: string)
    requires |a| <= |s| && a == s[|s| - |a|..]
    requires |r| <= |a| && r == a[..|r|]
    ensures SlugAlphabet(s) ==> SlugAlphabet(r)
    ensures NoDoubleDash(s) ==> NoDoubleDash(r)
  {
    var off := |s| - |a|;
    forall i | 0 <= i < |r|
      ensures r[i] == s[off + i]
    {
      assert r[i] == a[i];
    }
  }

  /** The slug of a tenant name. */
  function Slugify(name: string): (r: string)
    ensures IsSlug(r)
  {
    StripDashes(DashRuns(Strings.Trim(Strings.Lower(name))))
  }

  /** The dash replacement leaves a string of slug characters without "--" as it is. */
  lemma {:induction false} DashRunsFixed(s: string)
    requires SlugAlphabet(s) && NoDoubleDash(s)
    ensures DashRuns(s) == s
    decreases |s|
  {
    if s != [] {
      var t := s[1..];
      assert SlugAlphabet(t) && NoDoubleDash(t) by {
        assert forall i :: 0 <= i < |t| ==> t[i] == s[i + 1];
      }
      DashRunsFixed(t);
      if !IsSlugChar(s[0]) {
        assert t != [] ==> t[0] == s[1];
        assert SkipOthers(t) == t;
      }
    }
  }

  /** A slug is its own slug. */
  lemma SlugFixed(s: string)
    requires IsSlug(s)
    ensures Slugify(s) == s
  {
    assert Strings.Lower(s) == s;
    Strings.TrimNoop(s);
    DashRunsFixed(s);
    assert StripStart(s) == s;
    assert StripEnd(s) == s;
  }

  /** Generating a slug from a slug changes nothing. */
  lemma SlugifyIdempotent(name: string)
    ensures Slugify(Slugify(name)) == Slugify(name)
  {
    SlugFixed(Slugify(name));
  }

  /** A string of nothing but characters outside a-z0-9 dashes to at most one "-". */
  lemma {:induction false} DashRunsOthers(s: string)
    requires forall i :: 0 <= i < |s| ==> !IsSlugChar(s[i])
    ensures DashRuns(s) == [] || DashRuns(s) == "-"
  {
    if s != [] {
      var t := SkipOthers(s[1..]);
      assert t == [];
    }
  }

  /**
   * A name with no ASCII letter or digit in it, a name written in Greek for
   * instance, gets the empty slug.
   */
  lemma NoLatinEmpty(name: string)
    requires forall i :: 0 <= i < |name| ==> !IsSlugChar(Strings.LowerChar(name[i]))
    ensures Slugify(name) == ""
  {
    var t := Strings.Trim(Strings.Lower(name));
    TrimKeepsOthers(Strings.Lower(name));
    DashRunsOthers(t);
    assert StripStart("-") == "";
  }

  /** Trimming keeps a string free of slug characters. */
  lemma TrimKeepsOthers(l: string)
    requires forall i :: 0 <= i < |l| ==> !IsSlugChar(l[i])
    ensures forall i :: 0 <= i < |Strings.Trim(l)| ==> !IsSlugChar(Strings.Trim(l)[i])
  {
    var a := Strings.TrimStart(l);
    assert forall i :: 0 <= i < |a| ==> !IsSlugChar(a[i]) by {
      forall i | 0 <= i < |a| ensures !IsSlugChar(a[i]) {
        assert a[i] == l[|l| - |a| + i];
      }
    }
    var t := Strings.TrimEnd(a);
    assert forall i :: 0 <= i < |t| ==> t[i] == a[i];
  }

  /** The letters and digits of `s`, in order: what the slug keeps. */
  function Kept(s: string): string
  {
    Seqs.Filter(s, IsSlugChar)
  }

  /** Characters outside a-z0-9 on either side of `b` do not change what is kept. */
  lemma KeptDrop(a: string, b: string)
    requires forall i :: 0 <= i < |a| ==> !IsSlugChar(a[i])
    ensures Kept(a + b) == Kept(b) && Kept(b + a) == Kept(b)
  {
    Seqs.FilterAppend(a, b, IsSlugChar);
    Seqs.FilterAppend(b, a, IsSlugChar);
    Seqs.FilterNone(a, IsSlugChar);
  }

  /** Trimming drops only white space, so it keeps every letter and digit. */
  lemma TrimKept(l: string)
    ensures Kept(Strings.Trim(l)) == Kept(l)
  {
    TrimStartKept(l);
    TrimEndKept(Strings.TrimStart(l));
  }

  lemma TrimStartKept(l: string)
    ensures Kept(Strings.TrimStart(l)) == Kept(l)
  {
    var a := Strings.TrimStart(l);
    var pre := l[..|l| - |a|];
    assert l == pre + a;
    forall i | 0 <= i < |pre| ensures !IsSlugChar(pre[i]) {
      assert Strings.IsSpace(l[i]);
    }
    KeptDrop(pre, a);
  }

  lemma TrimEndKept(a: string)
    ensures Kept(Strings.TrimEnd(a)) == Kept(a)
  {
    var t := Strings.TrimEnd(a);
    var post := a[|t|..];
    assert a == t + post;
    forall i | 0 <= i < |post| ensures !IsSlugChar(post[i]) {
      assert Strings.IsSpace(a[|t| + i]);
    }
    KeptDrop(post, t);
  }

  /** Stripping the outer dashes keeps every letter and digit. */
  lemma StripKept(s: string)
    ensures Kept(StripDashes(s)) == Kept(s)
  {
    StripStartKept(s);
    StripEndKept(StripStart(s));
  }

  lemma StripStartKept(s: string)
    ensures Kept(StripStart(s)) == Kept(s)
  {
    var a := StripStart(s);
    var pre := s[..|s| - |a|];
    assert s == pre + a;
    forall i | 0 <= i < |pre| ensures !IsSlugChar(pre[i]) {
      assert pre[i] == s[i];
    }
    KeptDrop(pre, a);
  }

  lemma StripEndKept(a: string)
    ensures Kept(StripEnd(a)) == Kept(a)
  {
    var r := StripEnd(a);
    var post := a[|r|..];
    assert a == r + post;
    forall i | 0 <= i < |post| ensures !IsSlugChar(post[i]) {
      assert post[i] == a[|r| + i];
    }
    KeptDrop(post, r);
  }

  lemma SkipKept(s: string)
    ensures Kept(SkipOthers(s)) == Kept(s)
  {
    var r := SkipOthers(s);
    var pre := s[..|s| - |r|];
    assert s == pre + r;
    forall i | 0 <= i < |pre| ensures !IsSlugChar(pre[i]) {
      assert pre[i] == s[i];
    }
    KeptDrop(pre, r);
  }

  /** The dash replacement keeps the letters and digits, in order. */
  lemma {:induction false} DashRunsKept(s: string)
    ensures Kept(DashRuns(s)) == Kept(s)
    decreases |s|
  {
    if s != [] {
      assert s == [s[0]] + s[1..];
      Seqs.FilterAppend([s[0]], s[1..], IsSlugChar);
      if IsSlugChar(s[0]) {
        DashRunsKept(s[1..]);
        Seqs.FilterAppend([s[0]], DashRuns(s[1..]), IsSlugChar);
      } else {
        var t := SkipOthers(s[1..]);
        DashRunsKept(t);
        SkipKept(s[1..]);
        Seqs.FilterAppend("-", DashRuns(t), IsSlugChar);
      }
    }
  }

  /** A slug holds exactly the letters and digits of the lowercased name, in order. */
  lemma SlugifyKept(name: string)
    ensures Kept(Slugify(name)) == Kept(Strings.Lower(name))
  {
    var l := Strings.Lower(name);
    TrimKept(l);
    DashRunsKept(Strings.Trim(l));
    StripKept(DashRuns(Strings.Trim(l)));
  }

  /** Skipping a run of other characters stops at the letter or digit after it. */
  lemma {:induction false} SkipRun(o: string, y: string)
    requires forall i :: 0 <= i < |o| ==> !IsSlugChar(o[i])
    requires y == [] || IsSlugChar(y[0])
    ensures SkipOthers(o + y) == y
    decreases |o|
  {
    if o == [] {
      assert o + y == y;
    } else {
      assert (o + y)[1..] == o[1..] + y;
      SkipRun(o[1..], y);
    }
  }

  /** Skipping stops inside `a` when `a` ends with a letter or digit. */
  lemma {:induction false} SkipWithin(a: string, y: string)
    requires a != [] && IsSlugChar(a[|a| - 1])
    ensures SkipOthers(a + y) == SkipOthers(a) + y
    decreases |a|
  {
    if !IsSlugChar(a[0]) {
      assert (a + y)[1..] == a[1..] + y;
      SkipWithin(a[1..], y);
    }
  }

  /** A maximal run of characters outside a-z0-9 becomes exactly one "-". */
  lemma DashRunsRun(o: string, y: string)
    requires o != [] && forall i :: 0 <= i < |o| ==> !IsSlugChar(o[i])
    requires y == [] || IsSlugChar(y[0])
    ensures DashRuns(o + y) == "-" + DashRuns(y)
  {
    var o' := o[1..];
    assert (o + y)[1..] == o' + y;
    assert SkipOthers((o + y)[1..]) == y by {
      forall i | 0 <= i < |o'| ensures !IsSlugChar(o'[i]) {
        assert o'[i] == o[i + 1];
      }
      SkipRun(o', y);
    }
    DashRunsAfterSkip(o + y, y);
  }

  lemma DashRunsAfterSkip(s: string, y: string)
    requires s != [] && !IsSlugChar(s[0]) && SkipOthers(s[1..]) == y
    ensures DashRuns(s) == "-" + DashRuns(y)
  {
    DashRunsOther(s);
  }

  /** Text that ends with a letter or digit is replaced independently of what follows. */
  lemma {:induction false} DashRunsSplit(x: string, y: string)
    requires x == [] || IsSlugChar(x[|x| - 1])
    ensures DashRuns(x + y) == DashRuns(x) + DashRuns(y)
    decreases |x|
  {
    if x == [] {
      assert x + y == y;
    } else {
      var x' := x[1..];
      assert (x + y)[0] == x[0] && (x + y)[1..] == x' + y;
      if IsSlugChar(x[0]) {
        assert x' == [] || x'[|x'| - 1] == x[|x| - 1];
        DashRunsSplit(x', y);
        DashRunsSlug(x);
        DashRunsSlug(x + y);
        Regroup([x[0]], DashRuns(x'), DashRuns(y), DashRuns(x + y));
      } else {
        assert x'[|x'| - 1] == x[|x| - 1];
        SkipWithin(x', y);
        SkipKeepsLast(x');
        DashRunsSplit(SkipOthers(x'), y);
        DashRunsOther(x);
        DashRunsOther(x + y);
        Regroup("-", DashRuns(SkipOthers(x')), DashRuns(y), DashRuns(x + y));
      }
    }
  }

  lemma Regroup(p: string, a: string, b: string, l: string)
    requires l == p + (a + b)
    ensures l == (p + a) + b
  {
  }

  /** Skipping never reaches past a final letter or digit. */
  lemma {:induction false} SkipKeepsLast(a: string)
    requires a != [] && IsSlugChar(a[|a| - 1])
    ensures SkipOthers(a) != [] && SkipOthers(a)[|SkipOthers(a)| - 1] == a[|a| - 1]
    decreases |a|
  {
    if !IsSlugChar(a[0]) {
      SkipKeepsLast(a[1..]);
    }
  }

  lemma DashRunsSlug(s: string)
    requires s != [] && IsSlugChar(s[0])
    ensures DashRuns(s) == [s[0]] + DashRuns(s[1..])
  {
  }

  lemma DashRunsOther(s: string)
    requires s != [] && !IsSlugChar(s[0])
    ensures DashRuns(s) == "-" + DashRuns(SkipOthers(s[1..]))
  {
  }
}
