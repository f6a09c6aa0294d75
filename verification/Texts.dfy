/** Python's string operations: split, join, str.replace and the in operator. */
module Texts {

  /** True if no character of s is in cs. */
  predicate Free(s: string, cs: set<char>) {
    forall i :: 0 <= i < |s| ==> s[i] !in cs
  }

  /** Cut s at every separator: re.split with single-character separators, or s.split(sep). */
  function Split(s: string, seps: set<char>): (ts: seq<string>)
    ensures 1 <= |ts|
  {
    if s == "" then [""]
    else
      var ts := Split(s[1..], seps);
      if s[0] in seps then [""] + ts else [[s[0]] + ts[0]] + ts[1..]
  }

  /** Drop the empty parts, as split() without a separator does. */
  function NonEmpty(ts: seq<string>): seq<string> {
    if ts == [] then [] else (if ts[0] == "" then [] else [ts[0]]) + NonEmpty(ts[1..])
  }

  function Words(s: string): seq<string> {
    NonEmpty(Split(s, {' '}))
  }

  function Concat(ts: seq<string>): string {
    if ts == [] then "" else ts[0] + Concat(ts[1..])
  }

  /** s.replace(pat, rep): every non-overlapping occurrence, from the left. */
  function Replace(s: string, pat: string, rep: string): string
    requires pat != ""
  {
    if |s| < |pat| then s
    else if s[..|pat|] == pat then rep + Replace(s[|pat|..], pat, rep)
    else [s[0]] + Replace(s[1..], pat, rep)
  }

  /** pat in s */
  predicate Contains(s: string, pat: string) {
    |pat| <= |s| && (s[..|pat|] == pat || (s != "" && Contains(s[1..], pat)))
  }

  // ----- splitting

  lemma {:induction false} SplitFree(s: string, seps: set<char>)
    requires Free(s, seps)
    ensures Split(s, seps) == [s]
  {
    if s != "" {
      SplitFree(s[1..], seps);
      assert [s[0]] + s[1..] == s;
    }
  }

  lemma {:induction false} SplitAppend(s: string, sep: char, t: string, seps: set<char>)
    requires Free(s, seps) && sep in seps
    ensures Split(s + [sep] + t, seps) == [s] + Split(t, seps)
  {
    var u := s + [sep] + t;
    if s == "" {
      assert u[1..] == t;
    } else {
      SplitAppend(s[1..], sep, t, seps);
      assert u[1..] == s[1..] + [sep] + t;
      assert [s[0]] + s[1..] == s;
    }
  }

  // ----- replacing

  /** Text without the first character of the pattern stays as it is. */
  lemma {:induction false} ReplaceFree(s: string, pat: string, rep: string)
    requires pat != "" && Free(s, {pat[0]})
    ensures Replace(s, pat, rep) == s
  {
    if |pat| <= |s| {
      assert s[..|pat|][0] == s[0];
      ReplaceFree(s[1..], pat, rep);
    }
  }

  lemma ReplaceStep(c: char, s: string, pat: string, rep: string)
    requires pat != "" && c != pat[0]
    ensures Replace([c] + s, pat, rep) == [c] + Replace(s, pat, rep)
  {
    var u := [c] + s;
    assert u[1..] == s;
    if |pat| <= |u| {
      assert u[..|pat|][0] == c;
    }
  }

  lemma ReplaceHead(pat: string, s: string, rep: string)
    requires pat != ""
    ensures Replace(pat + s, pat, rep) == rep + Replace(s, pat, rep)
  {
    var u := pat + s;
    assert u[..|pat|] == pat && u[|pat|..] == s;
  }

  /** One occurrence, between texts that lack the first character of the pattern. */
  lemma {:induction false} ReplaceOnce(s: string, pat: string, t: string, rep: string)
    requires pat != "" && Free(s, {pat[0]}) && Free(t, {pat[0]})
    ensures Replace(s + pat + t, pat, rep) == s + rep + t
  {
    hide Replace;
    if s == "" {
      assert s + pat + t == pat + t;
      ReplaceHead(pat, t, rep);
      ReplaceFree(t, pat, rep);
    } else {
      ReplaceOnce(s[1..], pat, t, rep);
      assert s + pat + t == [s[0]] + (s[1..] + pat + t);
      ReplaceStep(s[0], s[1..] + pat + t, pat, rep);
      assert [s[0]] + (s[1..] + rep + t) == s + rep + t;
    }
  }

  /** Text that lacks some letter of the pattern stays as it is. */
  lemma {:induction false} ReplaceLacks(s: string, pat: string, rep: string, c: char)
    requires pat != "" && c in pat && Free(s, {c})
    ensures Replace(s, pat, rep) == s
  {
    if |pat| <= |s| {
      var i :| 0 <= i < |pat| && pat[i] == c;
      assert s[..|pat|][i] == s[i];
      ReplaceLacks(s[1..], pat, rep, c);
    }
  }

  /** Text in front that lacks the first character of the pattern is left alone. */
  lemma {:induction false} ReplaceAfter(s: string, t: string, pat: string, rep: string)
    requires pat != "" && Free(s, {pat[0]})
    ensures Replace(s + t, pat, rep) == s + Replace(t, pat, rep)
  {
    if s == "" {
      assert s + t == t;
    } else {
      ReplaceAfter(s[1..], t, pat, rep);
      assert s + t == [s[0]] + (s[1..] + t);
      ReplaceStep(s[0], s[1..] + t, pat, rep);
    }
  }

  lemma ReplaceMiss(s: string, pat: string, rep: string)
    requires pat != "" && s != "" && !(pat <= s)
    ensures Replace(s, pat, rep) == [s[0]] + Replace(s[1..], pat, rep)
  {
    if |s| < |pat| {
      assert [s[0]] + s[1..] == s;
    }
  }

  /** A pattern cannot reach into text that lacks its last character. */
  lemma PrefixInside(s: string, t: string, pat: string)
    requires pat != "" && Free(t, {pat[|pat| - 1]})
    ensures pat <= s + t <==> pat <= s
  {
  }

  /** A pattern without spaces cannot reach across one. */
  lemma PrefixInWord(s: string, t: string, pat: string)
    requires pat != "" && ' ' !in pat
    ensures pat <= s + (" " + t) <==> pat <= s
  {
    if |s| < |pat| {
      assert (s + (" " + t))[|s|] == ' ' && pat[|s|] in pat;
    }
  }

  /** Text behind that lacks the last character of the pattern is left alone. */
  lemma {:induction false} ReplaceBefore(s: string, t: string, pat: string, rep: string)
    requires pat != "" && Free(t, {pat[|pat| - 1]})
    ensures Replace(s + t, pat, rep) == Replace(s, pat, rep) + t
    decreases |s|
  {
    hide Free;
    PrefixInside(s, t, pat);
    if s == "" {
      assert s + t == t;
      ReplaceLacks(t, pat, rep, pat[|pat| - 1]);
    } else {
      hide Replace;
      if pat <= s {
        var rest := s[|pat|..];
        assert s == pat + rest && s + t == pat + (rest + t);
        ReplaceBefore(rest, t, pat, rep);
        ReplaceHead(pat, rest, rep);
        ReplaceHead(pat, rest + t, rep);
      } else {
        ReplaceBefore(s[1..], t, pat, rep);
        assert (s + t)[1..] == s[1..] + t;
        ReplaceMiss(s, pat, rep);
        ReplaceMiss(s + t, pat, rep);
      }
    }
  }

  lemma ReplaceNothing(pat: string, rep: string)
    requires pat != ""
    ensures Replace("", pat, rep) == ""
  {
  }

  /** A pattern without spaces is replaced on either side of a space. */
  lemma {:induction false} ReplaceWords(s: string, t: string, pat: string, rep: string)
    requires pat != "" && ' ' !in pat
    ensures Replace(s + (" " + t), pat, rep) == Replace(s, pat, rep) + (" " + Replace(t, pat, rep))
    decreases |s|
  {
    hide Replace;
    PrefixInWord(s, t, pat);
    var u, v := " " + t, " " + Replace(t, pat, rep);
    if s == "" {
      assert s + u == u && u == [' '] + t && v == [' '] + Replace(t, pat, rep);
      ReplaceStep(' ', t, pat, rep);
      ReplaceNothing(pat, rep);
    } else if pat <= s {
      var rest := s[|pat|..];
      assert s == pat + rest && s + u == pat + (rest + u);
      ReplaceWords(rest, t, pat, rep);
      ReplaceHead(pat, rest, rep);
      ReplaceHead(pat, rest + u, rep);
      assert rep + (Replace(rest, pat, rep) + v) == rep + Replace(rest, pat, rep) + v;
    } else {
      ReplaceWords(s[1..], t, pat, rep);
      assert (s + u)[1..] == s[1..] + u;
      ReplaceMiss(s, pat, rep);
      ReplaceMiss(s + u, pat, rep);
      assert [s[0]] + (Replace(s[1..], pat, rep) + v) == [s[0]] + Replace(s[1..], pat, rep) + v;
    }
  }

  /** How often a character occurs. */
  function Count(s: string, c: char): nat {
    if s == "" then 0 else (if s[0] == c then 1 else 0) + Count(s[1..], c)
  }

  lemma {:induction false} CountAppend(s: string, t: string, c: char)
    ensures Count(s + t, c) == Count(s, c) + Count(t, c)
  {
    if s == "" {
      assert s + t == t;
    } else {
      CountAppend(s[1..], t, c);
      assert (s + t)[1..] == s[1..] + t;
    }
  }

  lemma {:induction false} CountFree(s: string, c: char)
    ensures Free(s, {c}) ==> Count(s, c) == 0
    ensures c in s ==> 0 < Count(s, c)
  {
    if s != "" {
      CountFree(s[1..], c);
    }
  }

  /** A character that is not written never becomes more frequent, and less so where the pattern had it. */
  lemma {:induction false} ReplaceCounts(s: string, pat: string, rep: string, c: char)
    requires pat != "" && Free(rep, {c})
    ensures Count(Replace(s, pat, rep), c) <= Count(s, c)
    ensures Contains(s, pat) && c in pat ==> Count(Replace(s, pat, rep), c) < Count(s, c)
    decreases |s|
  {
    if |s| < |pat| {
    } else if s[..|pat|] == pat {
      ReplaceCounts(s[|pat|..], pat, rep, c);
      CountAppend(rep, Replace(s[|pat|..], pat, rep), c);
      CountFree(rep, c);
      CountFree(pat, c);
      CountAppend(pat, s[|pat|..], c);
      assert pat + s[|pat|..] == s;
    } else {
      ReplaceCounts(s[1..], pat, rep, c);
      CountAppend([s[0]], Replace(s[1..], pat, rep), c);
      CountAppend([s[0]], s[1..], c);
      assert [s[0]] + s[1..] == s;
    }
  }

  /** Replacing changes nothing in a text without the pattern. */
  lemma {:induction false} ReplaceAbsent(s: string, pat: string, rep: string)
    requires pat != "" && !Contains(s, pat)
    ensures Replace(s, pat, rep) == s
  {
    if |pat| <= |s| {
      ReplaceAbsent(s[1..], pat, rep);
    }
  }

  // ----- finding

  lemma {:induction false} ContainsAfter(s: string, t: string, pat: string)
    requires pat != "" && Free(s, {pat[0]})
    ensures Contains(s + t, pat) <==> Contains(t, pat)
  {
    if s == "" {
      assert s + t == t;
    } else {
      var u := s + t;
      assert u[1..] == s[1..] + t;
      ContainsAfter(s[1..], t, pat);
      if |pat| <= |u| {
        assert u[..|pat|][0] == s[0];
      } else {
        ContainsLength(t, pat);
      }
    }
  }

  lemma {:induction false} ContainsLength(s: string, pat: string)
    ensures Contains(s, pat) ==> |pat| <= |s|
  {
  }

  lemma {:induction false} ContainsBefore(s: string, t: string, pat: string)
    requires pat != "" && Free(t, {pat[|pat| - 1]})
    ensures Contains(s + t, pat) <==> Contains(s, pat)
  {
    var u := s + t;
    PrefixInside(s, t, pat);
    if s == "" {
      assert u == t;
      ContainsNoLetter(t, pat, pat[|pat| - 1]);
    } else {
      assert u[1..] == s[1..] + t;
      ContainsBefore(s[1..], t, pat);
      ContainsLength(s[1..], pat);
      assert |pat| <= |u| ==> (u[..|pat|] == pat <==> pat <= u);
      assert |pat| <= |s| ==> (s[..|pat|] == pat <==> pat <= s);
    }
  }

  lemma {:induction false} ContainsMiddle(s: string, pat: string, t: string)
    ensures Contains(s + pat + t, pat)
  {
    var u := s + pat + t;
    if s == "" {
      assert u[..|pat|] == pat;
    } else {
      ContainsMiddle(s[1..], pat, t);
      assert u[1..] == s[1..] + pat + t;
    }
  }

  lemma {:induction false} ContainsNot(s: string, pat: string)
    requires pat != "" && Free(s, {pat[0]})
    ensures !Contains(s, pat)
  {
    if |pat| <= |s| {
      assert s[..|pat|][0] == s[0];
      ContainsNot(s[1..], pat);
    }
  }

  lemma {:induction false} ContainsNoLetter(s: string, pat: string, c: char)
    requires c in pat && Free(s, {c})
    ensures !Contains(s, pat)
  {
    if |pat| <= |s| {
      var i :| 0 <= i < |pat| && pat[i] == c;
      assert s[..|pat|][i] == s[i];
      ContainsNoLetter(s[1..], pat, c);
    }
  }

  // ----- first parts

  lemma {:induction false} SplitLength(s: string, seps: set<char>)
    ensures |Split(s, seps)| <= |s| + 1
  {
    if s != "" {
      SplitLength(s[1..], seps);
    }
  }

  /** What comes before the first a is found inside what comes before the first b, if it has no b itself. */
  lemma {:induction false} FirstPart(s: string, a: char, b: char)
    requires Free(Split(s, {a})[0], {b})
    ensures Split(Split(s, {b})[0], {a})[0] == Split(s, {a})[0]
  {
    if s != "" {
      var first := Split(s[1..], {b})[0];
      if s[0] == a {
        if a != b {
          assert ([s[0]] + first)[0] == a;
        }
      } else {
        assert Split(s, {a})[0] == [s[0]] + Split(s[1..], {a})[0];
        assert Split(s, {a})[0][0] == s[0];
        assert forall i :: 0 <= i < |Split(s[1..], {a})[0]| ==> Split(s[1..], {a})[0][i] == Split(s, {a})[0][i + 1];
        FirstPart(s[1..], a, b);
        assert ([s[0]] + first)[1..] == first;
      }
    }
  }

  // ----- words

  lemma WordsCons(w: string, rest: string)
    requires w != "" && Free(w, {' '})
    ensures Words(w + " " + rest) == [w] + Words(rest)
  {
    SplitAppend(w, ' ', rest, {' '});
    var ts := [w] + Split(rest, {' '});
    assert ts[1..] == Split(rest, {' '});
  }

  lemma {:induction false} ConcatNonEmpty(ts: seq<string>)
    ensures Concat(NonEmpty(ts)) == Concat(ts)
  {
    if ts != [] {
      ConcatNonEmpty(ts[1..]);
      if ts[0] == "" {
        assert [] + NonEmpty(ts[1..]) == NonEmpty(ts[1..]);
      } else {
        assert ([ts[0]] + NonEmpty(ts[1..]))[1..] == NonEmpty(ts[1..]);
      }
    }
  }
}
