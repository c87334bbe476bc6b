/**
 * The pieces of Go's `strings` package the core relies on, on `seq<char>`:
 * `Contains`, `ReplaceAll` (with a non-empty pattern, the only way the core
 * calls it) and `Split` on a one-character separator, together with the
 * facts about them that the controllers and the configuration checks need.
 */
module Strings {

  /** Number of occurrences of `c` in `s`. */
  function CountChar(s: string, c: char): nat
  {
    if s == [] then 0 else (if s[0] == c then 1 else 0) + CountChar(s[1..], c)
  }

  lemma {:induction false} CountCharConcat(a: string, b: string, c: char)
    ensures CountChar(a + b, c) == CountChar(a, c) + CountChar(b, c)
  {
    if a != [] {
      assert (a + b)[0] == a[0] && (a + b)[1..] == a[1..] + b;
      CountCharConcat(a[1..], b, c);
    } else {
      assert a + b == b;
    }
  }

  lemma {:induction false} CountCharZero(s: string, c: char)
    ensures CountChar(s, c) == 0 <==> forall j :: 0 <= j < |s| ==> s[j] != c
  {
    if s != [] {
      CountCharZero(s[1..], c);
      assert forall j :: 1 <= j < |s| ==> s[j] == s[1..][j - 1];
    }
  }

  /** A character that occurs is counted. */
  lemma {:induction false} CharCounted(s: string, c: char, j: int)
    requires 0 <= j < |s| && s[j] == c
    ensures CountChar(s, c) > 0
  {
    if j > 0 {
      CharCounted(s[1..], c, j - 1);
    }
  }

  predicate StartsWith(s: string, prefix: string)
  {
    |prefix| <= |s| && s[..|prefix|] == prefix
  }

  /** strings.Contains: `sub` occurs somewhere in `s`. */
  predicate Contains(s: string, sub: string)
    decreases |s|
  {
    StartsWith(s, sub) || (s != [] && Contains(s[1..], sub))
  }

  /** `sub` sits at position `i` of `s`. */
  predicate OccursAt(s: string, sub: string, i: int)
  {
    0 <= i <= |s| - |sub| && s[i..i + |sub|] == sub
  }

  /** `Contains` holds exactly when `sub` sits at some position of `s`. */
  lemma {:induction false} ContainsIffOccurs(s: string, sub: string)
    ensures Contains(s, sub) <==> exists i :: OccursAt(s, sub, i)
    decreases |s|
  {
    if s != [] {
      ContainsIffOccurs(s[1..], sub);
      if Contains(s[1..], sub) {
        var i :| OccursAt(s[1..], sub, i);
        assert s[i + 1..i + 1 + |sub|] == s[1..][i..i + |sub|];
        assert OccursAt(s, sub, i + 1);
      }
      if i :| OccursAt(s, sub, i) && i != 0 {
        assert s[1..][i - 1..i - 1 + |sub|] == s[i..i + |sub|];
        assert OccursAt(s[1..], sub, i - 1);
      }
      if OccursAt(s, sub, 0) {
        assert StartsWith(s, sub);
      }
    } else {
      if OccursAt(s, sub, 0) {
        assert StartsWith(s, sub);
      }
    }
  }

  /** An occurrence at a known position is found by `Contains`. */
  lemma {:induction false} ContainsAt(s: string, sub: string, i: nat)
    requires OccursAt(s, sub, i)
    ensures Contains(s, sub)
  {
    if i > 0 {
      assert s[1..][i - 1..i - 1 + |sub|] == s[i..i + |sub|];
      ContainsAt(s[1..], sub, i - 1);
    }
  }

  /** A string without the first character of `sub` does not contain `sub`. */
  lemma {:induction false} NotContainsWithoutHead(s: string, sub: string)
    requires sub != [] && CountChar(s, sub[0]) == 0
    ensures !Contains(s, sub)
  {
    if s != [] {
      assert s[0] != sub[0];
      NotContainsWithoutHead(s[1..], sub);
    }
  }

  /** strings.ReplaceAll(s, pat, rep): every leftmost, non-overlapping
      occurrence of `pat` is replaced by `rep`, scanning left to right. */
  function ReplaceAll(s: string, pat: string, rep: string): string
    requires pat != []
    decreases |s|
  {
    if |s| < |pat| then s
    else if s[..|pat|] == pat then rep + ReplaceAll(s[|pat|..], pat, rep)
    else [s[0]] + ReplaceAll(s[1..], pat, rep)
  }

  /** Without an occurrence of the pattern, ReplaceAll is the identity. */
  lemma {:induction false} ReplaceAllAbsent(s: string, pat: string, rep: string)
    requires pat != []
    requires !Contains(s, pat)
    ensures ReplaceAll(s, pat, rep) == s
    decreases |s|
  {
    if |s| >= |pat| {
      ReplaceAllAbsent(s[1..], pat, rep);
      assert [s[0]] + s[1..] == s;
    }
  }

  /** Substituting a pattern and a replacement that are free of `c` keeps the
      number of `c`s. */
  lemma {:induction false} ReplaceAllKeepsCount(s: string, pat: string, rep: string, c: char)
    requires pat != []
    requires CountChar(pat, c) == 0 && CountChar(rep, c) == 0
    ensures CountChar(ReplaceAll(s, pat, rep), c) == CountChar(s, c)
    decreases |s|
  {
    if |s| < |pat| {
    } else if s[..|pat|] == pat {
      ReplaceAllKeepsCount(s[|pat|..], pat, rep, c);
      CountCharConcat(rep, ReplaceAll(s[|pat|..], pat, rep), c);
      assert s == pat + s[|pat|..];
      CountCharConcat(pat, s[|pat|..], c);
    } else {
      ReplaceAllKeepsCount(s[1..], pat, rep, c);
      CountCharConcat([s[0]], ReplaceAll(s[1..], pat, rep), c);
      assert s == [s[0]] + s[1..];
      CountCharConcat([s[0]], s[1..], c);
    }
  }

  /** ReplaceAll on a string that does not start with the pattern keeps its
      first character and goes on with the rest. */
  lemma ReplaceAllHead(s: string, pat: string, rep: string)
    requires pat != [] && s != [] && !StartsWith(s, pat)
    ensures ReplaceAll(s, pat, rep) == [s[0]] + ReplaceAll(s[1..], pat, rep)
  {
    if |s| < |pat| {
      assert ReplaceAll(s[1..], pat, rep) == s[1..];
      assert [s[0]] + s[1..] == s;
    }
  }

  /** An occurrence of a separator-free pattern at the front of `a + [c] + b`
      lies inside `a`. */
  lemma PatternBeforeSeparator(a: string, b: string, c: char, pat: string)
    requires pat != [] && CountChar(pat, c) == 0
    requires StartsWith(a + [c] + b, pat)
    ensures StartsWith(a, pat)
  {
    var s := a + [c] + b;
    if |a| < |pat| {
      CharCounted(pat, c, |a|);
      assert false;
    }
    assert a[..|pat|] == s[..|pat|];
  }

  /** When the separator `c` does not occur in the pattern, ReplaceAll works
      independently on both sides of a separator. */
  lemma {:induction false} ReplaceAllAroundSeparator(a: string, b: string, c: char, pat: string, rep: string)
    requires pat != [] && CountChar(pat, c) == 0
    ensures ReplaceAll(a + [c] + b, pat, rep) == ReplaceAll(a, pat, rep) + [c] + ReplaceAll(b, pat, rep)
    decreases |a|
  {
    var s := a + [c] + b;
    if StartsWith(s, pat) {
      PatternBeforeSeparator(a, b, c, pat);
      ReplaceAllAroundSeparator(a[|pat|..], b, c, pat, rep);
      MatchBeforeSeparator(a, b, c, pat, rep);
    } else if a == [] {
      assert s == [c] + b;
      ReplaceAllHead(s, pat, rep);
    } else {
      ReplaceAllAroundSeparator(a[1..], b, c, pat, rep);
      NoMatchBeforeSeparator(a, b, c, pat, rep);
    }
  }

  /** The step of ReplaceAllAroundSeparator where the pattern starts `a`. */
  lemma MatchBeforeSeparator(a: string, b: string, c: char, pat: string, rep: string)
    requires pat != [] && StartsWith(a, pat) && StartsWith(a + [c] + b, pat)
    requires ReplaceAll(a[|pat|..] + [c] + b, pat, rep) == ReplaceAll(a[|pat|..], pat, rep) + [c] + ReplaceAll(b, pat, rep)
    ensures ReplaceAll(a + [c] + b, pat, rep) == ReplaceAll(a, pat, rep) + [c] + ReplaceAll(b, pat, rep)
  {
    var s := a + [c] + b;
    var a' := a[|pat|..];
    assert s[|pat|..] == a' + [c] + b;
    calc {
      ReplaceAll(s, pat, rep);
      rep + ReplaceAll(a' + [c] + b, pat, rep);
      rep + (ReplaceAll(a', pat, rep) + [c] + ReplaceAll(b, pat, rep));
      (rep + ReplaceAll(a', pat, rep)) + [c] + ReplaceAll(b, pat, rep);
    }
  }

  /** The step of ReplaceAllAroundSeparator where `a` is not empty and the
      pattern does not start it. */
  lemma NoMatchBeforeSeparator(a: string, b: string, c: char, pat: string, rep: string)
    requires pat != [] && a != [] && !StartsWith(a + [c] + b, pat)
    requires ReplaceAll(a[1..] + [c] + b, pat, rep) == ReplaceAll(a[1..], pat, rep) + [c] + ReplaceAll(b, pat, rep)
    ensures ReplaceAll(a + [c] + b, pat, rep) == ReplaceAll(a, pat, rep) + [c] + ReplaceAll(b, pat, rep)
  {
    var s := a + [c] + b;
    PrefixKeepsStart(a, b, c, pat);
    ReplaceAllHead(s, pat, rep);
    ReplaceAllHead(a, pat, rep);
    ConsAround(a, b, c);
    ConcatAround([a[0]], ReplaceAll(a[1..], pat, rep), c, ReplaceAll(b, pat, rep));
  }

  /** Dropping the first character of `a + [c] + b` drops it from `a`. */
  lemma ConsAround(a: string, b: string, c: char)
    requires a != []
    ensures (a + [c] + b)[0] == a[0] && (a + [c] + b)[1..] == a[1..] + [c] + b
  {
  }

  /** Concatenation regroups around a separator. */
  lemma ConcatAround(h: string, x: string, c: char, y: string)
    ensures h + (x + [c] + y) == (h + x) + [c] + y
  {
  }

  /** A string that starts with the pattern still does after anything is
      appended to it. */
  lemma PrefixKeepsStart(a: string, b: string, c: char, pat: string)
    ensures StartsWith(a, pat) ==> StartsWith(a + [c] + b, pat)
  {
    assert |pat| <= |a| ==> (a + [c] + b)[..|pat|] == a[..|pat|];
  }

  /** The first position of `c` in `s`, or -1 (strings.IndexByte). */
  function IndexOf(s: string, c: char): (i: int)
    ensures -1 <= i < |s|
    ensures i >= 0 ==> s[i] == c && forall j :: 0 <= j < i ==> s[j] != c
    ensures i < 0 ==> forall j :: 0 <= j < |s| ==> s[j] != c
    decreases |s|
  {
    if s == [] then -1
    else if s[0] == c then 0
    else var k := IndexOf(s[1..], c); if k < 0 then -1 else k + 1
  }

  /** strings.Split(s, sep) for a one-character `sep`: the pieces between
      separators, in order; an empty `s` gives one empty piece. */
  function Split(s: string, sep: char): (parts: seq<string>)
    decreases |s|
  {
    var i := IndexOf(s, sep);
    if i < 0 then [s] else [s[..i]] + Split(s[i + 1..], sep)
  }

  /** strings.Join(parts, sep). */
  function Join(parts: seq<string>, sep: char): string
  {
    if |parts| <= 1 then (if parts == [] then [] else parts[0])
    else parts[0] + [sep] + Join(parts[1..], sep)
  }

  /** Split yields one more piece than there are separators, and no piece
      holds a separator. */
  lemma {:induction false} SplitShape(s: string, sep: char)
    ensures |Split(s, sep)| == CountChar(s, sep) + 1
    ensures forall k :: 0 <= k < |Split(s, sep)| ==> CountChar(Split(s, sep)[k], sep) == 0
    decreases |s|
  {
    var i := IndexOf(s, sep);
    if i < 0 {
      CountCharZero(s, sep);
    } else {
      SplitShape(s[i + 1..], sep);
      CountAtFirstSeparator(s, sep, i);
      var parts := Split(s, sep);
      forall k | 0 <= k < |parts| ensures CountChar(parts[k], sep) == 0 {
        if k > 0 {
          assert parts[k] == Split(s[i + 1..], sep)[k - 1];
        }
      }
    }
  }

  /** Cutting `s` at its first separator, at `i`: the part before holds no
      separator and the part after holds all the others. */
  lemma CountAtFirstSeparator(s: string, sep: char, i: int)
    requires 0 <= i < |s| && s[i] == sep
    requires forall j :: 0 <= j < i ==> s[j] != sep
    ensures CountChar(s[..i], sep) == 0
    ensures CountChar(s, sep) == CountChar(s[i + 1..], sep) + 1
  {
    assert s == s[..i] + [sep] + s[i + 1..];
    CountCharConcat(s[..i] + [sep], s[i + 1..], sep);
    CountCharConcat(s[..i], [sep], sep);
    CountCharZero(s[..i], sep);
  }

  /** Joining the pieces with the separator gives back the original string. */
  lemma {:induction false} JoinSplit(s: string, sep: char)
    ensures Join(Split(s, sep), sep) == s
    decreases |s|
  {
    var i := IndexOf(s, sep);
    if i >= 0 {
      JoinSplit(s[i + 1..], sep);
      SplitShape(s[i + 1..], sep);
      assert s == s[..i] + [sep] + s[i + 1..];
    }
  }

  /** When the separator does not occur in the pattern, substituting in the
      joined string is joining the substituted pieces. */
  lemma {:induction false} ReplaceAllJoin(parts: seq<string>, sep: char, pat: string, rep: string)
    requires pat != [] && CountChar(pat, sep) == 0
    ensures ReplaceAll(Join(parts, sep), pat, rep) == Join(ReplaceEach(parts, pat, rep), sep)
    decreases |parts|
  {
    if |parts| >= 2 {
      ReplaceAllJoin(parts[1..], sep, pat, rep);
      ReplaceAllAroundSeparator(parts[0], Join(parts[1..], sep), sep, pat, rep);
      assert ReplaceEach(parts, pat, rep)[1..] == ReplaceEach(parts[1..], pat, rep);
    }
  }

  /** Cutting at the first separator. */
  lemma SplitAtSeparator(a: string, b: string, sep: char)
    requires CountChar(a, sep) == 0
    ensures Split(a + [sep] + b, sep) == [a] + Split(b, sep)
  {
    CountCharZero(a, sep);
    var s := a + [sep] + b;
    assert s[|a|] == sep;
    var i := IndexOf(s, sep);
    assert i == |a|;
    assert s[..i] == a && s[i + 1..] == b;
  }

  /** Apply ReplaceAll to every piece. */
  function ReplaceEach(parts: seq<string>, pat: string, rep: string): (r: seq<string>)
    requires pat != []
    ensures |r| == |parts|
    ensures forall k :: 0 <= k < |parts| ==> r[k] == ReplaceAll(parts[k], pat, rep)
  {
    seq(|parts|, k requires 0 <= k < |parts| => ReplaceAll(parts[k], pat, rep))
  }

  /** Substituting and then splitting is the same as splitting and then
      substituting in every piece, as long as neither the pattern nor the
      replacement contains the separator. */
  lemma {:induction false} SplitReplaceCommute(s: string, sep: char, pat: string, rep: string)
    requires pat != [] && CountChar(pat, sep) == 0 && CountChar(rep, sep) == 0
    ensures Split(ReplaceAll(s, pat, rep), sep) == ReplaceEach(Split(s, sep), pat, rep)
    decreases |s|
  {
    var i := IndexOf(s, sep);
    if i < 0 {
      SplitReplaceWithoutSeparator(s, sep, pat, rep);
    } else {
      SplitReplaceCommute(s[i + 1..], sep, pat, rep);
      SplitReplaceAtSeparator(s, sep, pat, rep, i);
    }
  }

  /** SplitReplaceCommute for a string without the separator. */
  lemma SplitReplaceWithoutSeparator(s: string, sep: char, pat: string, rep: string)
    requires pat != [] && CountChar(pat, sep) == 0 && CountChar(rep, sep) == 0
    requires IndexOf(s, sep) < 0
    ensures Split(ReplaceAll(s, pat, rep), sep) == ReplaceEach(Split(s, sep), pat, rep)
  {
    ReplaceAllKeepsCount(s, pat, rep, sep);
    CountCharZero(s, sep);
    var r := ReplaceAll(s, pat, rep);
    CountCharZero(r, sep);
    assert IndexOf(r, sep) < 0;
  }

  /** The step of SplitReplaceCommute at the first separator, at `i`, given
      the property for what follows it. */
  lemma SplitReplaceAtSeparator(s: string, sep: char, pat: string, rep: string, i: int)
    requires pat != [] && CountChar(pat, sep) == 0 && CountChar(rep, sep) == 0
    requires i == IndexOf(s, sep) && i >= 0
    requires Split(ReplaceAll(s[i + 1..], pat, rep), sep) == ReplaceEach(Split(s[i + 1..], sep), pat, rep)
    ensures Split(ReplaceAll(s, pat, rep), sep) == ReplaceEach(Split(s, sep), pat, rep)
  {
    var a, b := s[..i], s[i + 1..];
    CutAt(s, i);
    CountCharZero(a, sep);
    ReplaceAllAroundSeparator(a, b, sep, pat, rep);
    ReplaceAllKeepsCount(a, pat, rep, sep);
    SplitAtSeparator(ReplaceAll(a, pat, rep), ReplaceAll(b, pat, rep), sep);
    SplitAtSeparator(a, b, sep);
    ReplaceEachCons(a, Split(b, sep), pat, rep);
  }

  /** A string is what comes before position `i`, the character there, and
      what follows. */
  lemma CutAt(s: string, i: int)
    requires 0 <= i < |s|
    ensures s == s[..i] + [s[i]] + s[i + 1..]
  {
  }

  /** ReplaceEach works piece by piece from the front. */
  lemma ReplaceEachCons(first: string, rest: seq<string>, pat: string, rep: string)
    requires pat != []
    ensures ReplaceEach([first] + rest, pat, rep) == [ReplaceAll(first, pat, rep)] + ReplaceEach(rest, pat, rep)
  {
    var r := ReplaceEach([first] + rest, pat, rep);
    assert forall k :: 0 < k < |r| ==> r[k] == ReplaceEach(rest, pat, rep)[k - 1];
  }
}
