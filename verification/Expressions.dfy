/**
 What makes two expressions the same one: the corpus's normal form (internal/corpus/service.go) and the
 hit detector's tokens (internal/session/voice_hit_detect.go).
 */
module Expressions {
  import opened Text

  predicate Alnum(c: char) { 'a' <= c <= 'z' || '0' <= c <= '9' }

  /** The characters a normal form keeps: lower-case letters, digits and CJK. */
  predicate KeyChar(c: char) { Alnum(c) || Cjk(c) }

  predicate Cjk(c: char) { '\U{4E00}' <= c <= '\U{9FFF}' }

  /** The maximal runs of characters that satisfy p, the first one continuing cur. */
  function Runs(s: string, p: char -> bool, cur: string): seq<string> {
    var closed := if cur == "" then [] else [cur];
    if s == "" then closed
    else if p(s[0]) then Runs(s[1..], p, cur + [s[0]])
    else closed + Runs(s[1..], p, "")
  }

  function Join(fields: seq<string>): string {
    if fields == [] then "" else if |fields| == 1 then fields[0] else fields[0] + [' '] + Join(fields[1..])
  }

  function NormalizeExpression(expression: string): string {
    Join(Runs(ToLower(TrimSpace(expression)), KeyChar, ""))
  }

  function Tokens(s: string): seq<string> { Runs(ToLower(s), Alnum, "") }

  /** The detector's tokenizer: one pass with a builder for the token being read. */
  method Tokenize(s: string) returns (out: seq<string>)
    ensures out == Tokens(s)
  {
    var lowered := ToLower(s);
    out := [];
    var b := "";
    for i := 0 to |lowered|
      invariant out + Runs(lowered[i..], Alnum, b) == Runs(lowered, Alnum, "")
    {
      assert lowered[i..][1..] == lowered[i + 1..];
      var c := lowered[i];
      if Alnum(c) {
        b := b + [c];
      } else if b != "" {
        out := out + [b];
        b := "";
      }
    }
    if b != "" {
      out := out + [b];
    }
  }

  predicate All(s: string, p: char -> bool) { forall i | 0 <= i < |s| :: p(s[i]) }

  predicate AreRuns(fields: seq<string>, p: char -> bool) {
    forall i | 0 <= i < |fields| :: fields[i] != "" && All(fields[i], p)
  }

  lemma {:induction false} RunsAreRuns(s: string, p: char -> bool, cur: string)
    requires All(cur, p)
    ensures AreRuns(Runs(s, p, cur), p)
  {
    if s != "" {
      if p(s[0]) { RunsAreRuns(s[1..], p, cur + [s[0]]); } else { RunsAreRuns(s[1..], p, ""); }
    }
  }

  /** A separator splits a string's runs into those before it and those after it. */
  lemma {:induction false} SeparatorSplits(a: string, sep: char, b: string, p: char -> bool, cur: string)
    requires !p(sep)
    ensures Runs(a + [sep] + b, p, cur) == Runs(a, p, cur) + Runs(b, p, "")
  {
    var s := a + [sep] + b;
    if a == "" {
      assert s[1..] == b;
    } else {
      assert s[1..] == a[1..] + [sep] + b;
      SeparatorSplits(a[1..], sep, b, p, if p(a[0]) then cur + [a[0]] else "");
    }
  }

  lemma {:induction false} OneRun(f: string, p: char -> bool, cur: string)
    requires All(f, p) && cur + f != ""
    ensures Runs(f, p, cur) == [cur + f]
  {
    if f != "" {
      assert cur + [f[0]] + f[1..] == cur + f;
      OneRun(f[1..], p, cur + [f[0]]);
    } else {
      assert cur + f == cur;
    }
  }

  /** Splitting what was joined gives the fields back. */
  lemma {:induction false} RunsOfJoin(fields: seq<string>, p: char -> bool)
    requires AreRuns(fields, p) && !p(' ')
    ensures Runs(Join(fields), p, "") == fields
  {
    if |fields| == 1 {
      OneRun(fields[0], p, "");
      assert "" + fields[0] == fields[0];
    } else if fields != [] {
      SeparatorSplits(fields[0], ' ', Join(fields[1..]), p, "");
      OneRun(fields[0], p, "");
      assert "" + fields[0] == fields[0];
      RunsOfJoin(fields[1..], p);
      assert fields == [fields[0]] + fields[1..];
    }
  }

  /** A join of runs holds only their characters and spaces, and neither starts nor ends with a space. */
  lemma {:induction false} JoinShape(fields: seq<string>)
    requires AreRuns(fields, KeyChar)
    ensures forall i | 0 <= i < |Join(fields)| :: KeyChar(Join(fields)[i]) || Join(fields)[i] == ' '
    ensures fields != [] ==> Join(fields) != "" && KeyChar(Join(fields)[0]) && KeyChar(Join(fields)[|Join(fields)| - 1])
  {
    if |fields| > 1 { JoinShape(fields[1..]); }
  }

  lemma NormalFormIsFixed(fields: seq<string>)
    requires AreRuns(fields, KeyChar)
    ensures ToLower(TrimSpace(Join(fields))) == Join(fields)
  {
    var s := Join(fields);
    JoinShape(fields);
    assert TrimLeft(s) == s;
    assert TrimRight(s) == s;
    assert forall i | 0 <= i < |s| :: Lower(s[i]) == s[i];
  }

  /** Normalising twice is normalising once. */
  lemma NormalizeIsIdempotent(x: string)
    ensures NormalizeExpression(NormalizeExpression(x)) == NormalizeExpression(x)
  {
    var fields := Runs(ToLower(TrimSpace(x)), KeyChar, "");
    RunsAreRuns(ToLower(TrimSpace(x)), KeyChar, "");
    NormalFormIsFixed(fields);
    RunsOfJoin(fields, KeyChar);
  }

  /** The tokens of each field in turn. */
  function TokensOf(fields: seq<string>): seq<string> {
    if fields == [] then [] else Runs(fields[0], Alnum, "") + TokensOf(fields[1..])
  }

  lemma {:induction false} TokensOfRuns(s: string, cur: string)
    requires All(cur, KeyChar)
    ensures TokensOf(Runs(s, KeyChar, cur)) == Runs(cur + s, Alnum, "")
  {
    if s == "" {
      assert cur + s == cur;
    } else if KeyChar(s[0]) {
      assert cur + s == cur + [s[0]] + s[1..];
      TokensOfRuns(s[1..], cur + [s[0]]);
    } else {
      assert cur + s == cur + [s[0]] + s[1..];
      SeparatorSplits(cur, s[0], s[1..], Alnum, "");
      TokensOfRuns(s[1..], "");
      assert "" + s[1..] == s[1..];
      if cur != "" {
        assert ([cur] + Runs(s[1..], KeyChar, ""))[1..] == Runs(s[1..], KeyChar, "");
      } else {
        assert [] + Runs(s[1..], KeyChar, "") == Runs(s[1..], KeyChar, "");
      }
    }
  }

  lemma {:induction false} TokensOfJoin(fields: seq<string>)
    ensures TokensOf(fields) == Runs(Join(fields), Alnum, "")
  {
    if |fields| == 1 {
      assert TokensOf(fields[1..]) == [];
    } else if fields != [] {
      SeparatorSplits(fields[0], ' ', Join(fields[1..]), Alnum, "");
      TokensOfJoin(fields[1..]);
    }
  }

  lemma {:induction false} LowerOfConcat(a: string, b: string)
    ensures ToLower(a + b) == ToLower(a) + ToLower(b)
  {
  }

  lemma {:induction false} TrimLeftKeepsTokens(s: string)
    ensures Tokens(TrimLeft(s)) == Tokens(s)
  {
    if s != "" && IsSpace(s[0]) {
      TrimLeftKeepsTokens(s[1..]);
      SeparatorSplits("", Lower(s[0]), ToLower(s[1..]), Alnum, "");
      assert "" + [Lower(s[0])] + ToLower(s[1..]) == ToLower(s);
    }
  }

  lemma {:induction false} TrimRightKeepsTokens(s: string)
    ensures Tokens(TrimRight(s)) == Tokens(s)
  {
    if s != "" && IsSpace(s[|s| - 1]) {
      var rest, last := s[..|s| - 1], s[|s| - 1];
      TrimRightKeepsTokens(rest);
      SeparatorSplits(ToLower(rest), Lower(last), "", Alnum, "");
      LowerOfConcat(rest, [last]);
      assert rest + [last] == s && ToLower([last]) == [Lower(last)];
      assert ToLower(rest) + [Lower(last)] + "" == ToLower(s);
    }
  }

  /** The hit detector cannot tell an expression from its normal form, CJK text included. */
  lemma NormalizeKeepsTokens(x: string)
    ensures Tokens(NormalizeExpression(x)) == Tokens(x)
  {
    var lowered := ToLower(TrimSpace(x));
    var fields := Runs(lowered, KeyChar, "");
    RunsAreRuns(lowered, KeyChar, "");
    TokensOfNormalForm(fields);
    TokensOfRuns(lowered, "");
    assert "" + lowered == lowered;
    TrimKeepsTokens(x);
  }

  lemma TokensOfNormalForm(fields: seq<string>)
    requires AreRuns(fields, KeyChar)
    ensures Tokens(Join(fields)) == TokensOf(fields)
  {
    JoinShape(fields);
    var s := Join(fields);
    assert forall i | 0 <= i < |s| :: Lower(s[i]) == s[i];
    assert ToLower(s) == s;
    TokensOfJoin(fields);
  }

  lemma TrimKeepsTokens(x: string)
    ensures Tokens(TrimSpace(x)) == Tokens(x)
  {
    TrimRightKeepsTokens(TrimLeft(x));
    TrimLeftKeepsTokens(x);
  }

  /** Expressions that the corpus merges are indistinguishable to the hit detector. */
  lemma MergedExpressionsHaveTheSameTokens(x: string, y: string)
    requires NormalizeExpression(x) == NormalizeExpression(y)
    ensures Tokens(x) == Tokens(y)
  {
    NormalizeKeepsTokens(x);
    NormalizeKeepsTokens(y);
  }

  predicate HasCjk(s: string) { exists i | 0 <= i < |s| :: Cjk(s[i]) }

  lemma {:induction false} RunsWithoutCjk(s: string, cur: string)
    requires !HasCjk(s)
    ensures Runs(ToLower(s), KeyChar, cur) == Runs(ToLower(s), Alnum, cur)
  {
    if s != "" {
      assert forall i | 0 <= i < |s[1..]| :: s[1..][i] == s[i + 1];
      assert !Cjk(s[0]);
      RunsWithoutCjk(s[1..], if Alnum(Lower(s[0])) then cur + [Lower(s[0])] else "");
    }
  }

  lemma CjkSplits(a: string, b: string)
    ensures HasCjk(a + b) <==> HasCjk(a) || HasCjk(b)
  {
    var s := a + b;
    assert forall i | 0 <= i < |a| :: s[i] == a[i];
    assert forall i | 0 <= i < |b| :: s[|a| + i] == b[i];
  }

  predicate SomeCjk(fields: seq<string>) { exists i | 0 <= i < |fields| :: HasCjk(fields[i]) }

  lemma SomeCjkSplits(a: seq<string>, b: seq<string>)
    ensures SomeCjk(a + b) <==> SomeCjk(a) || SomeCjk(b)
  {
    var s := a + b;
    assert forall i | 0 <= i < |a| :: s[i] == a[i];
    assert forall i | 0 <= i < |b| :: s[|a| + i] == b[i];
  }

  /** Key runs keep the CJK characters of the text. */
  lemma {:induction false} RunsKeepCjk(s: string, cur: string)
    ensures SomeCjk(Runs(s, KeyChar, cur)) <==> HasCjk(cur + s)
  {
    var closed := if cur == "" then [] else [cur];
    assert SomeCjk(closed) <==> HasCjk(cur) by {
      if HasCjk(cur) { assert HasCjk(closed[0]); }
    }
    if s == "" {
      assert cur + s == cur;
    } else {
      assert cur + s == (cur + [s[0]]) + s[1..];
      if KeyChar(s[0]) {
        RunsKeepCjk(s[1..], cur + [s[0]]);
      } else {
        RunsKeepCjk(s[1..], "");
        assert "" + s[1..] == s[1..];
        CjkSplits(cur + [s[0]], s[1..]);
        CjkSplits(cur, [s[0]]);
        SomeCjkSplits(closed, Runs(s[1..], KeyChar, ""));
      }
    }
  }

  lemma {:induction false} JoinKeepsCjk(fields: seq<string>)
    ensures HasCjk(Join(fields)) <==> SomeCjk(fields)
  {
    if |fields| == 1 {
      assert HasCjk(fields[0]) ==> SomeCjk(fields);
    } else if fields != [] {
      JoinKeepsCjk(fields[1..]);
      CjkSplits(fields[0] + [' '], Join(fields[1..]));
      CjkSplits(fields[0], [' ']);
      SomeCjkSplits([fields[0]], fields[1..]);
      assert fields == [fields[0]] + fields[1..];
      assert SomeCjk([fields[0]]) <==> HasCjk([fields[0]][0]);
    }
  }

  lemma LoweringKeepsCjk(s: string)
    ensures HasCjk(ToLower(s)) <==> HasCjk(s)
  {
    assert forall i | 0 <= i < |s| :: Cjk(Lower(s[i])) <==> Cjk(s[i]);
  }

  lemma {:induction false} TrimLeftKeepsCjk(s: string)
    ensures HasCjk(TrimLeft(s)) <==> HasCjk(s)
  {
    if s != "" && IsSpace(s[0]) {
      TrimLeftKeepsCjk(s[1..]);
      CjkSplits([s[0]], s[1..]);
      assert s == [s[0]] + s[1..];
    }
  }

  lemma {:induction false} TrimRightKeepsCjk(s: string)
    ensures HasCjk(TrimRight(s)) <==> HasCjk(s)
  {
    if s != "" && IsSpace(s[|s| - 1]) {
      var rest, last := s[..|s| - 1], s[|s| - 1];
      TrimRightKeepsCjk(rest);
      CjkSplits(rest, [last]);
      assert s == rest + [last];
    }
  }

  /** The normal form has CJK exactly when the text has. */
  lemma NormalFormKeepsCjk(x: string)
    ensures HasCjk(NormalizeExpression(x)) <==> HasCjk(x)
  {
    var lowered := ToLower(TrimSpace(x));
    JoinKeepsCjk(Runs(lowered, KeyChar, ""));
    RunsKeepCjk(lowered, "");
    assert "" + lowered == lowered;
    LoweringKeepsCjk(TrimSpace(x));
    TrimRightKeepsCjk(TrimLeft(x));
    TrimLeftKeepsCjk(x);
  }

  lemma TokensHaveNoCjk(x: string)
    ensures !HasCjk(Join(Tokens(x)))
  {
    RunsAreRuns(ToLower(x), Alnum, "");
    JoinKeepsCjk(Tokens(x));
  }

  /** The tokens of a text are all there is to its normal form exactly when the text has no CJK. */
  lemma TokensAreTheNormalFormIff(x: string)
    ensures NormalizeExpression(x) == Join(Tokens(x)) <==> !HasCjk(x)
  {
    NormalFormKeepsCjk(x);
    TokensHaveNoCjk(x);
    if !HasCjk(x) { NormalFormJoinsTokens(x); }
  }

  /**
   The detector and the corpus on a text x and a text y without CJK that the detector cannot tell apart:
   the corpus merges them exactly when x has no CJK either.
   */
  lemma CorpusAgreesIff(x: string, y: string)
    requires Tokens(x) == Tokens(y) && !HasCjk(y)
    ensures NormalizeExpression(x) == NormalizeExpression(y) <==> !HasCjk(x)
  {
    TokensAreTheNormalFormIff(x);
    TokensAreTheNormalFormIff(y);
  }

  /** On text without CJK the two notions of identity coincide: same tokens, same normal form. */
  lemma WithoutCjkTokensDecide(x: string, y: string)
    requires !HasCjk(x) && !HasCjk(y)
    ensures NormalizeExpression(x) == NormalizeExpression(y) <==> Tokens(x) == Tokens(y)
  {
    if Tokens(x) == Tokens(y) { CorpusAgreesIff(x, y); }
    if NormalizeExpression(x) == NormalizeExpression(y) { MergedExpressionsHaveTheSameTokens(x, y); }
  }

  lemma NormalFormJoinsTokens(x: string)
    requires !HasCjk(x)
    ensures NormalizeExpression(x) == Join(Tokens(x))
  {
    var t := TrimSpace(x);
    TrimRightKeepsCjk(TrimLeft(x));
    TrimLeftKeepsCjk(x);
    RunsWithoutCjk(t, "");
    TrimKeepsTokens(x);
  }

  /** CJK text is where they part: the detector sees no difference that the corpus keeps. */
  lemma CjkIsInvisibleToTheDetector()
    ensures Tokens("ok \U{4F60}") == Tokens("ok")
    ensures NormalizeExpression("ok \U{4F60}") != NormalizeExpression("ok")
  {
    var x, y := "ok \U{4F60}", "ok";
    assert ToLower(x) == x && ToLower(y) == y;
    SeparatorSplits("ok", ' ', "\U{4F60}", Alnum, "");
    assert "ok" + [' '] + "\U{4F60}" == x;
    assert Runs("\U{4F60}", Alnum, "") == [];
    assert Cjk(x[3]);
    CorpusAgreesIff(x, y);
  }

  /** A letter from a to z in either case, or a digit. */
  predicate Word(c: char) { 'a' <= c <= 'z' || 'A' <= c <= 'Z' || '0' <= c <= '9' }

  /** The two characters are the same, or the same letter in two cases. */
  predicate SameLetter(c: char, d: char) {
    || c == d
    || ('A' <= c <= 'Z' && d as int == c as int + 32)
    || ('A' <= d <= 'Z' && c as int == d as int + 32)
  }

  predicate SameButCase(x: string, y: string) { |x| == |y| && forall i | 0 <= i < |x| :: SameLetter(x[i], y[i]) }

  lemma SameLower(x: string, y: string)
    requires SameButCase(x, y)
    ensures ToLower(x) == ToLower(y)
  {
    assert forall i | 0 <= i < |x| :: Lower(x[i]) == Lower(y[i]);
  }

  /** Tokens do not depend on the case of letters. */
  lemma TokensIgnoreCase(x: string, y: string)
    requires SameButCase(x, y)
    ensures Tokens(x) == Tokens(y)
  {
    SameLower(x, y);
  }

  /** A text of letters and digits is one token, in lower case. */
  lemma TokenOfAWord(x: string)
    requires x != "" && forall i | 0 <= i < |x| :: Word(x[i])
    ensures |Tokens(x)| == 1 && SameButCase(Tokens(x)[0], x)
    ensures forall i | 0 <= i < |x| :: !('A' <= Tokens(x)[0][i] <= 'Z')
  {
    var lowered := ToLower(x);
    forall i | 0 <= i < |x| ensures Alnum(lowered[i]) && SameLetter(lowered[i], x[i]) { LowerOfAWord(x[i]); }
    OneRun(lowered, Alnum, "");
    assert "" + lowered == lowered;
  }

  lemma LowerOfAWord(c: char)
    requires Word(c)
    ensures Alnum(Lower(c)) && SameLetter(Lower(c), c)
  {
  }

  /** Any other ASCII character separates tokens. */
  lemma TokensAroundASeparator(a: string, sep: char, b: string)
    requires sep < '\U{80}' && !Word(sep)
    ensures Tokens(a + [sep] + b) == Tokens(a) + Tokens(b)
  {
    LowerOfConcat(a + [sep], b);
    LowerOfConcat(a, [sep]);
    assert ToLower([sep]) == [Lower(sep)];
    SeparatorSplits(ToLower(a), Lower(sep), ToLower(b), Alnum, "");
  }

  lemma {:induction false} TrimLeftIgnoresCase(x: string, y: string)
    requires SameButCase(x, y)
    ensures SameButCase(TrimLeft(x), TrimLeft(y))
  {
    if x != "" && IsSpace(x[0]) {
      assert SameLetter(x[0], y[0]) && IsSpace(y[0]);
      TrimLeftIgnoresCase(x[1..], y[1..]);
    }
  }

  lemma {:induction false} TrimRightIgnoresCase(x: string, y: string)
    requires SameButCase(x, y)
    ensures SameButCase(TrimRight(x), TrimRight(y))
  {
    var n := |x| - 1;
    if x != "" && IsSpace(x[n]) {
      assert SameLetter(x[n], y[n]) && IsSpace(y[n]);
      TrimRightIgnoresCase(x[..n], y[..n]);
    }
  }

  /** Nor does the corpus's normal form. */
  lemma NormalFormIgnoresCase(x: string, y: string)
    requires SameButCase(x, y)
    ensures NormalizeExpression(x) == NormalizeExpression(y)
  {
    TrimLeftIgnoresCase(x, y);
    TrimRightIgnoresCase(TrimLeft(x), TrimLeft(y));
    SameLower(TrimSpace(x), TrimSpace(y));
  }
}
