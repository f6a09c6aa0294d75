/**
 Message templates: hex bytes and named slots separated by spaces. A slot is filled with
 str.replace on the whole message; these lemmas say when that does what it should.
 */
module Templates {
  import opened Bytes
  import opened Numerals
  import opened Results
  import opened Texts

  /** A template after its leading word: literal bytes, and slots such as "ZZ ZZ". */
  datatype Template =
    | Done
    | Raw(bytes: seq<byte>, rest: Template)
    | Slot(pattern: string, rest: Template)

  /** Bytes as they stand in a message: two digits each, spaces between. */
  function Spaced(bs: seq<byte>): string {
    SplitByte(ToHex(bs))
  }

  /** The text of a template in which some slots are already filled. */
  function Tail(t: Template, env: map<string, string>): string {
    match t
    case Done => ""
    case Raw(bs, rest) => " " + Spaced(bs) + Tail(rest, env)
    case Slot(p, rest) => " " + (if p in env then env[p] else p) + Tail(rest, env)
  }

  /** The patterns of the slots that are still open. */
  function Open(t: Template, env: map<string, string>): set<string> {
    match t
    case Done => {}
    case Raw(_, rest) => Open(rest, env)
    case Slot(p, rest) => (if p in env then {} else {p}) + Open(rest, env)
  }

  predicate IsUpper(c: char) {
    'A' <= c <= 'Z'
  }

  predicate NoUpper(s: string) {
    forall i :: 0 <= i < |s| ==> !IsUpper(s[i])
  }

  /** Starts with an upper-case letter, which marks where it occurs. */
  predicate IsPattern(p: string) {
    p != "" && IsUpper(p[0])
  }

  predicate Apart(p: string, q: string) {
    forall c :: c in p && IsUpper(c) ==> c !in q
  }

  /** Every slot has letters of its own. */
  predicate Wellformed(t: Template) {
    match t
    case Done => true
    case Raw(_, rest) => Wellformed(rest)
    case Slot(p, rest) =>
      && IsPattern(p) && Wellformed(rest)
      && forall q :: q in Open(rest, map[]) ==> Apart(p, q) && Apart(q, p)
  }

  predicate Clean(env: map<string, string>) {
    forall p :: p in env ==> NoUpper(env[p])
  }

  /** Replacements made one after the other. */
  function Substitute(m: string, subs: seq<(string, string)>): string
    requires forall s :: s in subs ==> s.0 != ""
    decreases |subs|
  {
    if subs == [] then m else Substitute(Replace(m, subs[0].0, subs[0].1), subs[1..])
  }

  /** The slot contents they stand for, the earlier ones first. */
  function Bound(env: map<string, string>, subs: seq<(string, string)>): map<string, string>
    decreases |subs|
  {
    if subs == [] then env else Bound(env[subs[0].0 := subs[0].1], subs[1..])
  }

  // ----- replacing in a template

  lemma NoUpperFree(s: string, c: char)
    requires NoUpper(s) && IsUpper(c)
    ensures Free(s, {c})
  {
  }

  lemma {:induction false} SplitByteNoUpper(s: string)
    requires NoUpper(s)
    ensures NoUpper(SplitByte(s))
  {
    if 2 < |s| {
      SplitByteNoUpper(s[2..]);
    }
  }

  lemma PrintedNoUpper(s: string)
    requires IsPrinted(16, s)
    ensures NoUpper(s)
  {
  }

  lemma SpacedNoUpper(bs: seq<byte>)
    ensures NoUpper(Spaced(bs))
  {
    hide *;
    ToHexPrinted(bs);
    PrintedNoUpper(ToHex(bs));
    SplitByteNoUpper(ToHex(bs));
    SpacedIs(bs);
  }

  lemma SpacedIs(bs: seq<byte>)
    ensures Spaced(bs) == SplitByte(ToHex(bs))
  {
  }

  lemma {:induction false} OpenShrinks(t: Template, env: map<string, string>)
    ensures Open(t, env) == Open(t, map[]) - env.Keys
  {
    match t
    case Done =>
    case Raw(_, rest) => OpenShrinks(rest, env);
    case Slot(_, rest) => OpenShrinks(rest, env);
  }

  lemma {:induction false} OpenArePatterns(t: Template)
    requires Wellformed(t)
    ensures forall p :: p in Open(t, map[]) ==> IsPattern(p)
  {
    match t
    case Done =>
    case Raw(_, rest) => OpenArePatterns(rest);
    case Slot(_, rest) => OpenArePatterns(rest);
  }

  lemma FreeAppend(s: string, t: string, cs: set<char>)
    requires Free(s, cs) && Free(t, cs)
    ensures Free(s + t, cs)
  {
  }

  lemma SpaceFree(s: string, c: char)
    requires NoUpper(s) && IsUpper(c)
    ensures Free(" " + s, {c})
  {
  }

  lemma OtherPattern(q: string, c: char)
    requires c !in q && IsUpper(c)
    ensures Free(" " + q, {c})
  {
  }

  /** A letter no open slot has does not occur. */
  lemma {:induction false} TailFree(t: Template, env: map<string, string>, c: char)
    requires Wellformed(t) && Clean(env) && IsUpper(c)
    requires forall p :: p in Open(t, env) ==> c !in p
    ensures Free(Tail(t, env), {c})
  {
    hide Spaced, NoUpper;
    OpenArePatterns(t);
    match t
    case Done =>
    case Raw(bs, rest) =>
      TailFree(rest, env, c);
      SpacedNoUpper(bs);
      SpaceFree(Spaced(bs), c);
      FreeAppend(" " + Spaced(bs), Tail(rest, env), {c});
    case Slot(p, rest) =>
      TailFree(rest, env, c);
      var s := if p in env then env[p] else p;
      if p in env {
        SpaceFree(s, c);
      } else {
        assert p in Open(t, env);
        OtherPattern(p, c);
      }
      FreeAppend(" " + s, Tail(rest, env), {c});
  }

  lemma ShiftLeft(s: string, x: string, p: string, b: string)
    ensures s + (x + p + b) == s + x + p + b
  {
  }

  /** Where an open slot stands in the text. */
  lemma {:induction false} FindSlot(t: Template, env: map<string, string>, p: string, rep: string)
    returns (a: string, b: string)
    requires Wellformed(t) && Clean(env) && p in Open(t, env)
    ensures IsPattern(p) && Free(a, {p[0]}) && Free(b, {p[0]})
    ensures Tail(t, env) == a + p + b && Tail(t, env[p := rep]) == a + rep + b
  {
    hide Spaced, Free, NoUpper;
    OpenShrinks(t, env);
    OpenArePatterns(t);
    match t
    case Raw(bs, rest) =>
      var s := " " + Spaced(bs);
      var x;
      x, b := FindSlot(rest, env, p, rep);
      a := s + x;
      SpacedNoUpper(bs);
      SpaceFree(Spaced(bs), p[0]);
      FreeAppend(s, x, {p[0]});
      ShiftLeft(s, x, p, b);
      ShiftLeft(s, x, rep, b);
    case Slot(q, rest) =>
      OpenShrinks(rest, env);
      OpenShrinks(rest, env[p := rep]);
      if q == p {
        a, b := " ", Tail(rest, env);
        SpaceFree("", p[0]);
        assert " " + "" == " ";
        TailFree(rest, env, p[0]);
        Unused(rest, env, p, rep);
      } else {
        var s := " " + if q in env then env[q] else q;
        var x;
        x, b := FindSlot(rest, env, p, rep);
        a := s + x;
        if q in env {
          SpaceFree(env[q], p[0]);
        } else {
          OtherPattern(q, p[0]);
        }
        FreeAppend(s, x, {p[0]});
        ShiftLeft(s, x, p, b);
        ShiftLeft(s, x, rep, b);
      }
  }

  lemma {:induction false} Unused(t: Template, env: map<string, string>, p: string, rep: string)
    requires p !in Open(t, map[])
    ensures Tail(t, env[p := rep]) == Tail(t, env)
  {
    match t
    case Done =>
    case Raw(_, rest) => Unused(rest, env, p, rep);
    case Slot(_, rest) => Unused(rest, env, p, rep);
  }

  /** str.replace fills exactly the slot it names, and leaves the message alone without that slot. */
  lemma ReplaceFillsSlot(word: string, t: Template, env: map<string, string>, p: string, rep: string)
    requires NoUpper(word) && Wellformed(t) && Clean(env) && IsPattern(p) && p !in env
    requires forall q :: q in Open(t, env) ==> q == p || p[0] !in q
    ensures Replace(word + Tail(t, env), p, rep) == word + Tail(t, env[p := rep])
    ensures Contains(word + Tail(t, env), p) <==> p in Open(t, env)
  {
    hide Tail, Replace, Contains;
    OpenShrinks(t, env);
    NoUpperFree(word, p[0]);
    if p in Open(t, env) {
      var a, b := FindSlot(t, env, p, rep);
      FreeAppend(word, a, {p[0]});
      ReplaceOnce(word + a, p, b, rep);
      ContainsMiddle(word + a, p, b);
        ShiftLeft(word, a, p, b);
      ShiftLeft(word, a, rep, b);
    } else {
      TailFree(t, env, p[0]);
      FreeAppend(word, Tail(t, env), {p[0]});
      ReplaceFree(word + Tail(t, env), p, rep);
      ContainsNot(word + Tail(t, env), p);
      Unused(t, env, p, rep);
    }
  }

  /** Replacements of distinct slots never disturb one another, whatever the last one writes. */
  lemma {:induction false} SubstitutionFillsSlots(word: string, t: Template, env: map<string, string>, subs: seq<(string, string)>)
    requires NoUpper(word) && Wellformed(t) && Clean(env)
    requires forall i :: 0 <= i < |subs| ==> subs[i].0 in Open(t, env) && (i < |subs| - 1 ==> NoUpper(subs[i].1))
    requires forall i, j :: 0 <= i < j < |subs| ==> subs[i].0 != subs[j].0
    ensures forall s :: s in subs ==> s.0 != ""
    ensures Substitute(word + Tail(t, env), subs) == word + Tail(t, Bound(env, subs))
    decreases |subs|
  {
    OpenShrinks(t, env);
    OpenArePatterns(t);
    if subs != [] {
      var (p, rep) := subs[0];
      var env' := env[p := rep];
      SlotLetters(t);
      ReplaceFillsSlot(word, t, env, p, rep);
      OpenShrinks(t, env');
      if 1 < |subs| {
        SubstitutionFillsSlots(word, t, env', subs[1..]);
      }
    }
  }

  lemma {:induction false} SlotLetters(t: Template)
    requires Wellformed(t)
    ensures forall p, q :: p in Open(t, map[]) && q in Open(t, map[]) ==> p == q || Apart(p, q)
  {
    OpenArePatterns(t);
    match t
    case Done =>
    case Raw(_, rest) => SlotLetters(rest);
    case Slot(_, rest) =>
      SlotLetters(rest);
      OpenArePatterns(rest);
  }

  /** An open slot is filled by its replacement. */
  lemma FillOpenSlot(word: string, t: Template, env: map<string, string>, p: string, rep: string)
    requires NoUpper(word) && Wellformed(t) && Clean(env) && p in Open(t, map[]) && p !in env
    ensures p != "" && Replace(word + Tail(t, env), p, rep) == word + Tail(t, env[p := rep])
    ensures Contains(word + Tail(t, env), p)
  {
    hide Tail, Replace, Contains, Wellformed, Clean, NoUpper;
    OpenShrinks(t, env);
    OpenArePatterns(t);
    SlotLetters(t);
    ReplaceFillsSlot(word, t, env, p, rep);
  }

  /** A pattern with a letter of no open slot is not there. */
  lemma AbsentPattern(word: string, t: Template, env: map<string, string>, p: string, c: char)
    requires NoUpper(word) && Wellformed(t) && Clean(env) && IsUpper(c) && c in p
    requires forall q :: q in Open(t, env) ==> c !in q
    ensures !Contains(word + Tail(t, env), p)
  {
    hide Tail, Contains;
    TailFree(t, env, c);
    NoUpperFree(word, c);
    FreeAppend(word, Tail(t, env), {c});
    ContainsNoLetter(word + Tail(t, env), p, c);
  }

  // ----- replacing around text that may hold anything

  /** One template after the other. */
  function Join(t: Template, u: Template): Template {
    match t
    case Done => u
    case Raw(bs, rest) => Raw(bs, Join(rest, u))
    case Slot(p, rest) => Slot(p, Join(rest, u))
  }

  lemma {:induction false} TailJoin(t: Template, u: Template, env: map<string, string>)
    ensures Tail(Join(t, u), env) == Tail(t, env) + Tail(u, env)
  {
    hide Spaced;
    match t
    case Done => assert "" + Tail(u, env) == Tail(u, env);
    case Raw(bs, rest) =>
      TailJoin(rest, u, env);
      ConcatAssociative(" " + Spaced(bs), Tail(rest, env), Tail(u, env));
    case Slot(p, rest) =>
      TailJoin(rest, u, env);
      ConcatAssociative(" " + (if p in env then env[p] else p), Tail(rest, env), Tail(u, env));
  }

  /** Text between two parts of a template is replaced for itself; the parts are filled as ever. */
  lemma ReplaceAround(word: string, pre: Template, env: map<string, string>, c: string, post: Template, p: string, rep: string)
    requires NoUpper(word) && Wellformed(pre) && Wellformed(post) && post != Done && Clean(env)
    requires IsPattern(p) && p[|p| - 1] == p[0] && p !in env
    requires forall q :: q in Open(pre, env) + Open(post, env) ==> q == p || p[0] !in q
    requires p in Open(post, env) ==> ' ' !in p
    ensures Replace(word + Tail(pre, env) + (" " + c + Tail(post, env)), p, rep)
         == word + Tail(pre, env[p := rep]) + (" " + Replace(c, p, rep) + Tail(post, env[p := rep]))
  {
    hide Tail, Replace, Wellformed, Clean, NoUpper, Open;
    ReplaceFront(word, pre, env, " " + c + Tail(post, env), p, rep);
    ReplaceBack(env, c, post, p, rep);
  }

  lemma ReplaceFront(word: string, pre: Template, env: map<string, string>, rest: string, p: string, rep: string)
    requires NoUpper(word) && Wellformed(pre) && Clean(env) && IsPattern(p) && p !in env
    requires forall q :: q in Open(pre, env) ==> q == p || p[0] !in q
    ensures Replace(word + Tail(pre, env) + rest, p, rep) == word + Tail(pre, env[p := rep]) + Replace(rest, p, rep)
  {
    hide Tail, Replace, Wellformed, Clean, NoUpper;
    OpenShrinks(pre, env);
    NoUpperFree(word, p[0]);
    if p in Open(pre, env) {
      var a, b := FindSlot(pre, env, p, rep);
      FreeAppend(word, a, {p[0]});
      assert word + Tail(pre, env) + rest == (word + a) + (p + (b + rest));
      ReplaceAfter(word + a, p + (b + rest), p, rep);
      ReplaceHead(p, b + rest, rep);
      ReplaceAfter(b, rest, p, rep);
      assert (word + a) + (rep + (b + Replace(rest, p, rep))) == word + (a + rep + b) + Replace(rest, p, rep);
    } else {
      TailFree(pre, env, p[0]);
      FreeAppend(word, Tail(pre, env), {p[0]});
      ReplaceAfter(word + Tail(pre, env), rest, p, rep);
      Unused(pre, env, p, rep);
    }
  }

  lemma TailSpace(t: Template, env: map<string, string>)
    requires t != Done
    ensures Tail(t, env) != "" && Tail(t, env) == " " + Tail(t, env)[1..]
  {
    hide Spaced;
  }

  lemma ReplaceBack(env: map<string, string>, c: string, post: Template, p: string, rep: string)
    requires Wellformed(post) && post != Done && Clean(env) && IsPattern(p) && p[|p| - 1] == p[0] && p !in env
    requires forall q :: q in Open(post, env) ==> q == p || p[0] !in q
    requires p in Open(post, env) ==> ' ' !in p
    ensures Replace(" " + c + Tail(post, env), p, rep) == " " + Replace(c, p, rep) + Tail(post, env[p := rep])
  {
    hide Tail, Replace, Wellformed, Clean, NoUpper;
    var b := Tail(post, env);
    SpaceFree("", p[0]);
    assert " " + "" == " " && " " + c + b == " " + (c + b);
    ReplaceAfter(" ", c + b, p, rep);
    OpenShrinks(post, env);
    TailFills(post, env, p, rep);
    if p in Open(post, env) {
      TailSpace(post, env);
      ReplaceWords(c, b[1..], p, rep);
      ReplaceAfter(" ", b[1..], p, rep);
    } else {
      TailFree(post, env, p[0]);
      ReplaceBefore(c, b, p, rep);
      Unused(post, env, p, rep);
    }
  }

  lemma TailFills(t: Template, env: map<string, string>, p: string, rep: string)
    requires Wellformed(t) && Clean(env) && IsPattern(p) && p !in env
    requires forall q :: q in Open(t, env) ==> q == p || p[0] !in q
    ensures Replace(Tail(t, env), p, rep) == Tail(t, env[p := rep])
  {
    hide Tail, Replace, Contains, Wellformed, Clean, Open;
    ReplaceFillsSlot("", t, env, p, rep);
    assert "" + Tail(t, env) == Tail(t, env) && "" + Tail(t, env[p := rep]) == Tail(t, env[p := rep]);
  }

  /** A pattern that neither part can show is found exactly in the text between them. */
  lemma ContainsAround(word: string, pre: Template, env: map<string, string>, c: string, post: Template, p: string)
    requires NoUpper(word) && Wellformed(pre) && Wellformed(post) && Clean(env)
    requires IsPattern(p) && p[|p| - 1] == p[0]
    requires forall q :: q in Open(pre, env) + Open(post, env) ==> p[0] !in q
    ensures Contains(word + Tail(pre, env) + (" " + c + Tail(post, env)), p) <==> Contains(c, p)
  {
    hide Tail, Contains, Wellformed, Clean, NoUpper, Open;
    NoUpperFree(word, p[0]);
    TailFree(pre, env, p[0]);
    TailFree(post, env, p[0]);
    var a, b := word + Tail(pre, env), Tail(post, env);
    FreeAppend(word, Tail(pre, env), {p[0]});
    SpaceFree("", p[0]);
    assert " " + "" == " " && " " + c + b == " " + (c + b);
    ContainsAfter(a, " " + c + b, p);
    ContainsAfter(" ", c + b, p);
    ContainsBefore(c, b, p);
  }

  // ----- the bytes of a filled template

  /** The bytes a template stands for once every slot has bytes. */
  function Filled(t: Template, bytes: map<string, seq<byte>>): seq<byte>
    requires Open(t, map[]) <= bytes.Keys
  {
    match t
    case Done => []
    case Raw(bs, rest) => bs + Filled(rest, bytes)
    case Slot(p, rest) => bytes[p] + Filled(rest, bytes)
  }

  /** The text in a slot is read as those bytes. */
  ghost predicate Writes(env: map<string, string>, bytes: map<string, seq<byte>>, p: string) {
    p in env && p in bytes && FromHex(NoSpaces(env[p])) == Ok(bytes[p])
  }

  lemma SpacedHex(bs: seq<byte>)
    ensures NoSpaces(Spaced(bs)) == ToHex(bs)
  {
    hide *;
    ToHexPrinted(bs);
    PrintedHasNoSpace(16, ToHex(bs));
    SplitByteJoins(ToHex(bs));
    SpacedIs(bs);
  }

  lemma NoSpacesCons(s: string, t: string)
    ensures NoSpaces(" " + s + t) == NoSpaces(s) + NoSpaces(t)
  {
    assert (" " + s)[1..] == s;
    assert " " + s + t == (" " + s) + t;
    assert NoSpaces(" " + s) == NoSpaces(s);
    NoSpacesAppend(" " + s, t);
  }

  /** Without its spaces, a filled template is read as its bytes. */
  lemma {:induction false} FilledHex(t: Template, env: map<string, string>, bytes: map<string, seq<byte>>)
    requires Open(t, map[]) <= bytes.Keys
    requires forall p :: p in Open(t, map[]) ==> Writes(env, bytes, p)
    ensures FromHex(NoSpaces(Tail(t, env))) == Ok(Filled(t, bytes))
  {
    hide NoSpaces, ToHex, Spaced, FromHex;
    match t
    case Done =>
      EmptyTexts();
    case Raw(bs, rest) =>
      FilledHex(rest, env, bytes);
      NoSpacesCons(Spaced(bs), Tail(rest, env));
      SpacedHex(bs);
      HexRoundTrip(bs);
      FromHexAppend(ToHex(bs), NoSpaces(Tail(rest, env)));
    case Slot(p, rest) =>
      assert Writes(env, bytes, p);
      FilledHex(rest, env, bytes);
      NoSpacesCons(env[p], Tail(rest, env));
      FromHexAppend(NoSpaces(env[p]), NoSpaces(Tail(rest, env)));
  }

  lemma EmptyTexts()
    ensures FromHex(NoSpaces("")) == Ok([])
  {
  }
}
