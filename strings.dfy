/**
 * The JavaScript string operations the CMS relies on, restricted to ASCII:
 * case mapping, `trim`, `startsWith`, `includes` and `split` on one character.
 */
module Strings {
  import opened Wrappers

  predicate IsUpper(c: char) { 'A' <= c <= 'Z' }

  predicate IsLower(c: char) { 'a' <= c <= 'z' }

  function LowerChar(c: char): (r: char)
    ensures !IsUpper(r)
    ensures !IsUpper(c) ==> r == c
  {
    if IsUpper(c) then (c as int + 32) as char else c
  }

  function UpperChar(c: char): (r: char)
    ensures !IsLower(r)
    ensures !IsLower(c) ==> r == c
  {
    if IsLower(c) then (c as int - 32) as char else c
  }

  /** `s.toLowerCase()` */
  function Lower(s: string): (r: string)
    ensures |r| == |s|
    ensures forall i :: 0 <= i < |s| ==> r[i] == LowerChar(s[i])
  {
    seq(|s|, i requires 0 <= i < |s| => LowerChar(s[i]))
  }

  /** `s.toUpperCase()` */
  function Upper(s: string): (r: string)
    ensures |r| == |s|
    ensures forall i :: 0 <= i < |s| ==> r[i] == UpperChar(s[i])
  {
    seq(|s|, i requires 0 <= i < |s| => UpperChar(s[i]))
  }

  /** ASCII whitespace as `trim` removes it: space, tab, line feed, vertical tab, form feed, carriage return. */
  predicate IsSpace(c: char)
  {
    c == ' ' || (9 <= c as int <= 13)
  }

  /** `s.trimStart()` */
  function TrimStart(s: string): (r: string)
    ensures |r| <= |s| && r == s[|s| - |r|..]
    ensures r != [] ==> !IsSpace(r[0])
    ensures forall i :: 0 <= i < |s| - |r| ==> IsSpace(s[i])
    decreases |s|
  {
    if s != [] && IsSpace(s[0]) then TrimStart(s[1..]) else s
  }

  /** `s.trimEnd()` */
  function TrimEnd(s: string): (r: string)
    ensures |r| <= |s| && r == s[..|r|]
    ensures r != [] ==> !IsSpace(r[|r| - 1])
    ensures forall i :: |r| <= i < |s| ==> IsSpace(s[i])
    decreases |s|
  {
    if s != [] && IsSpace(s[|s| - 1]) then TrimEnd(s[..|s| - 1]) else s
  }

  /** `s.trim()`: the longest infix of `s` that neither starts nor ends with whitespace. */
  function Trim(s: string): (r: string)
    ensures |r| <= |s|
    ensures r != [] ==> !IsSpace(r[0]) && !IsSpace(r[|r| - 1])
  {
    TrimEnd(TrimStart(s))
  }

  /** Trimming a string that has no whitespace at either end changes nothing; hence `Trim` is idempotent. */
  lemma TrimNoop(s: string)
    requires s != [] ==> !IsSpace(s[0]) && !IsSpace(s[|s| - 1])
    ensures Trim(s) == s
  {
  }

  lemma TrimIdempotent(s: string)
    ensures Trim(Trim(s)) == Trim(s)
  {
    TrimNoop(Trim(s));
  }

  /** `s.startsWith(p)` */
  predicate StartsWith(s: string, p: string)
  {
    |p| <= |s| && s[..|p|] == p
  }

  /** `s.includes(sub)` */
  predicate Contains(s: string, sub: string)
    decreases |s|
  {
    StartsWith(s, sub) || (s != [] && Contains(s[1..], sub))
  }

  /** Every string contains the empty string. */
  lemma ContainsEmpty(s: string)
    ensures Contains(s, "")
  {
  }

  /** The part of `s` before the first `c` (all of `s` when there is none). */
  function Before(s: string, c: char): (r: string)
    ensures |r| <= |s| && r == s[..|r|]
    ensures c !in r
    ensures c in s ==> |r| < |s| && s[|r|] == c
    ensures c !in s ==> r == s
  {
    if s == [] then []
    else if s[0] == c then []
    else [s[0]] + Before(s[1..], c)
  }

  /** `s.split(c)` for a one-character separator. */
  function Split(s: string, c: char): (parts: seq<string>)
    ensures |parts| >= 1
    ensures parts[0] == Before(s, c)
    ensures forall i :: 0 <= i < |parts| ==> c !in parts[i]
    decreases |s|
  {
    if c in s then
      var head := Before(s, c);
      [head] + Split(s[|head| + 1..], c)
    else [s]
  }

  /** `parts.join(c)` for a one-character separator. */
  function Join(parts: seq<string>, c: char): string
  {
    if parts == [] then ""
    else if |parts| == 1 then parts[0]
    else parts[0] + [c] + Join(parts[1..], c)
  }

  /** Splitting and re-joining with the same separator gives the string back. */
  lemma {:induction false} JoinSplit(s: string, c: char)
    ensures Join(Split(s, c), c) == s
    decreases |s|
  {
    if c in s {
      var head := Before(s, c);
      var rest := s[|head| + 1..];
      JoinSplit(rest, c);
      JoinCons(head, Split(rest, c), c);
      AroundFirst(s, c);
    }
  }

  /** Joining a head in front of non-empty parts puts one separator between them. */
  lemma JoinCons(head: string, tail: seq<string>, c: char)
    requires tail != []
    ensures Join([head] + tail, c) == head + [c] + Join(tail, c)
  {
    assert ([head] + tail)[1..] == tail;
  }

  /** A string with `c` in it is the part before the first `c`, that `c`, and the rest. */
  lemma AroundFirst(s: string, c: char)
    requires c in s
    ensures s == Before(s, c) + [c] + s[|Before(s, c)| + 1..]
  {
  }

  /** The number of occurrences of `c` in `s`. */
  function Count(s: string, c: char): nat
  {
    if s == [] then 0 else (if s[0] == c then 1 else 0) + Count(s[1..], c)
  }

  lemma {:induction false} CountPrefixFree(s: string, c: char, k: nat)
    requires k <= |s|
    requires c !in s[..k]
    ensures Count(s, c) == Count(s[k..], c)
    decreases k
  {
    if k > 0 {
      assert s[0] == s[..k][0];
      assert s[1..][..k - 1] == s[..k][1..];
      CountPrefixFree(s[1..], c, k - 1);
      assert s[1..][k - 1..] == s[k..];
    }
  }

  /** `s.split(c)` has one more part than `s` has occurrences of `c`. */
  lemma {:induction false} SplitLength(s: string, c: char)
    ensures |Split(s, c)| == Count(s, c) + 1
    decreases |s|
  {
    if c in s {
      var head := Before(s, c);
      var rest := s[|head| + 1..];
      SplitLength(rest, c);
      CountPrefixFree(s, c, |head|);
      var t := s[|head|..];
      assert t[0] == c && t[1..] == rest;
    } else {
      CountAbsent(s, c);
    }
  }

  /** Cutting at the first separator: the part before it, and one fewer separator after it. */
  lemma BeforeAndCountAt(a: string, b: string, c: char)
    requires c !in a
    ensures Before(a + [c] + b, c) == a
    ensures Count(a + [c] + b, c) == Count(b, c) + 1
  {
    var s := a + [c] + b;
    var r := Before(s, c);
    assert s[|a|] == c;
    assert s[..|a|] == a;
    CountPrefixFree(s, c, |a|);
    assert s[|a|..][1..] == b;
  }

  /** A character that occurs is counted at least once. */
  lemma {:induction false} CountPositive(s: string, c: char)
    requires c in s
    ensures Count(s, c) >= 1
    decreases |s|
  {
    if s[0] != c {
      assert s == [s[0]] + s[1..];
      CountPositive(s[1..], c);
    }
  }

  lemma {:induction false} CountAbsent(s: string, c: char)
    requires c !in s
    ensures Count(s, c) == 0
    decreases |s|
  {
    if s != [] {
      assert c !in s[1..];
      CountAbsent(s[1..], c);
    }
  }

  predicate IsDigit(c: char)
  {
    '0' <= c <= '9'
  }

  /** The value of a string of decimal digits. */
  function DigitsValue(s: string): (n: nat)
    requires forall i :: 0 <= i < |s| ==> IsDigit(s[i])
    decreases |s|
  {
    if s == [] then 0
    else
      assert IsDigit(s[|s| - 1]);
      DigitsValue(s[..|s| - 1]) * 10 + (s[|s| - 1] as int - '0' as int)
  }

  predicate AllDigits(s: string)
  {
    forall i :: 0 <= i < |s| ==> IsDigit(s[i])
  }

  /**
   * What `parseInt` reads its digits from: the text after leading white
   * space and an optional sign, and whether that sign is `-`.
   */
  function Unsigned(s: string): (r: (bool, string))
    ensures |r.1| <= |s|
  {
    var t := TrimStart(s);
    if t != [] && (t[0] == '-' || t[0] == '+') then (t[0] == '-', t[1..]) else (false, t)
  }

  /** The digits `parseInt` reads: those right after the optional sign. */
  function LeadingDigits(s: string): (r: string)
    ensures AllDigits(r)
  {
    DigitRun(Unsigned(s).1)
  }

  function DigitRun(s: string): (r: string)
    ensures AllDigits(r) && |r| <= |s| && r == s[..|r|]
    ensures |r| < |s| ==> !IsDigit(s[|r|])
  {
    if s != [] && IsDigit(s[0]) then [s[0]] + DigitRun(s[1..]) else []
  }

  /**
   * `parseInt(s)` in base 10; `None` is NaN. Reading stops at the first
   * character that is not a digit, so "2.5" reads 2 and "1e3" reads 1.
   */
  function ParseInt(s: string): (r: Option<int>)
    ensures r.None? <==> LeadingDigits(s) == []
    ensures AllDigits(s) && s != [] ==> r == Some(DigitsValue(s))
    ensures r.Some? ==> (r.value < 0 <==> Unsigned(s).0 && DigitsValue(LeadingDigits(s)) > 0)
    ensures r.Some? ==> r.value == (if Unsigned(s).0 then -(DigitsValue(LeadingDigits(s)) as int)
                                    else DigitsValue(LeadingDigits(s)) as int)
  {
    var d := LeadingDigits(s);
    if AllDigits(s) && s != [] then
      assert !IsSpace(s[0]);
      assert TrimStart(s) == s;
      DigitRunAll(s);
      Some(DigitsValue(s))
    else if d == [] then None
    else if Unsigned(s).0 then Some(-(DigitsValue(d) as int))
    else Some(DigitsValue(d))
  }

  lemma {:induction false} DigitRunAll(s: string)
    requires AllDigits(s)
    ensures DigitRun(s) == s
    decreases |s|
  {
    if s != [] {
      DigitRunAll(s[1..]);
    }
  }

  function DigitChar(d: nat): char
    requires d < 10
  {
    ('0' as int + d) as char
  }

  /** The decimal text of `n`, as `String(n)` renders it. */
  function NatToString(n: nat): (r: string)
    ensures |r| >= 1
  {
    if n < 10 then [DigitChar(n)] else NatToString(n / 10) + [DigitChar(n % 10)]
  }

  /** Code-point lexicographic order, as an `order by` on a text column without collation compares strings. */
  predicate LexLe(a: string, b: string)
    decreases |a|
  {
    a == [] || (b != [] && (a[0] < b[0] || (a[0] == b[0] && LexLe(a[1..], b[1..]))))
  }

  lemma {:induction false} LexTotal(a: string, b: string)
    ensures LexLe(a, b) || LexLe(b, a)
    decreases |a|
  {
    if a != [] && b != [] && a[0] == b[0] {
      LexTotal(a[1..], b[1..]);
    }
  }

  lemma {:induction false} LexTransitive(a: string, b: string, c: string)
    requires LexLe(a, b) && LexLe(b, c)
    ensures LexLe(a, c)
    decreases |a|
  {
    if a != [] && a[0] == b[0] && b[0] == c[0] {
      LexTransitive(a[1..], b[1..], c[1..]);
    }
  }
}
