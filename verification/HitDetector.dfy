/** Which stored phrase, if any, a spoken turn hits (internal/session/voice_hit_detect.go). */
module HitDetector {
  import opened Wrappers
  import opened Text
  import opened Ordering
  import opened Expressions

  const HIT_MIN_SCORE: real := 0.65
  const HIT_CANDIDATE_CAP := 50
  const HIT_MAX_TEXT_LEN := 4 * 1024

  datatype Candidate = Candidate(id: string, expression: string, intent: string, anchor: string)

  datatype Hit = Hit(candidate: Candidate, score: real)

  /** The tokens a candidate offers: its expression's, then its anchor's. */
  function Offered(c: Candidate): seq<string> { Tokens(c.expression) + Tokens(c.anchor) }

  /** The distinct offered tokens that were spoken. */
  function Matched(spoken: seq<string>, offered: seq<string>): set<string> {
    set t | t in offered && t in spoken
  }

  function Least(x: nat, y: nat): nat { if y < x then y else x }

  /** Distinct matches over the smaller of the two token counts. */
  function Overlap(spoken: seq<string>, offered: seq<string>): real {
    if spoken == [] || offered == [] then 0.0
    else |Matched(spoken, offered)| as real / Least(|offered|, |spoken|) as real
  }

  function Score(text: string, c: Candidate): real { Overlap(Tokens(text), Offered(c)) }

  lemma MatchedGrows(spoken: seq<string>, offered: seq<string>, t: string)
    ensures Matched(spoken, offered + [t]) == Matched(spoken, offered) + if t in spoken then {t} else {}
  {
  }

  /** The counting loop of scoreCandidate, with its seen-set. */
  method CountMatched(spoken: seq<string>, offered: seq<string>) returns (matched: nat)
    ensures matched == |Matched(spoken, offered)|
  {
    var textSet := set t | t in spoken;
    matched := 0;
    var seen: set<string> := {};
    for i := 0 to |offered|
      invariant seen == set t | t in offered[..i]
      invariant matched == |Matched(spoken, offered[..i])|
    {
      var t := offered[i];
      assert offered[..i + 1] == offered[..i] + [t];
      MatchedGrows(spoken, offered[..i], t);
      if t in seen {
        assert Matched(spoken, offered[..i + 1]) == Matched(spoken, offered[..i]);
      } else {
        seen := seen + {t};
        if t in textSet { matched := matched + 1; }
      }
    }
    assert offered[..|offered|] == offered;
  }

  method ScoreCandidate(text: string, c: Candidate) returns (score: real)
    ensures score == Score(text, c)
  {
    var spoken := Tokenize(text);
    if |spoken| == 0 { return 0.0; }
    var expressionTokens := Tokenize(c.expression);
    var anchorTokens := Tokenize(c.anchor);
    var combined := expressionTokens + anchorTokens;
    if |combined| == 0 { return 0.0; }
    var matched := CountMatched(spoken, combined);
    if matched == 0 { return 0.0; }
    var denom := |combined|;
    if |spoken| < denom { denom := |spoken|; }
    score := matched as real / denom as real;
  }

  lemma SubsetIsSmaller<T>(x: set<T>, y: set<T>)
    requires x <= y
    ensures |x| <= |y|
  {
    if x != {} {
      var e :| e in x;
      SubsetIsSmaller(x - {e}, y - {e});
    }
  }

  lemma RatioInUnit(m: nat, d: nat)
    requires m <= d && d > 0
    ensures 0.0 <= m as real / d as real <= 1.0
    ensures m as real / d as real == 1.0 <==> m == d
  {
    var q := m as real / d as real;
    assert q * d as real == m as real;
    assert q > 1.0 ==> q * d as real > d as real;
    assert q < 0.0 ==> q * d as real < 0.0;
  }

  /** Scores lie between 0 and 1, although matches are counted without repeats and the tokens with them. */
  lemma ScoreInUnit(text: string, c: Candidate)
    ensures 0.0 <= Score(text, c) <= 1.0
  {
    var spoken, offered := Tokens(text), Offered(c);
    if spoken != [] && offered != [] {
      DistinctCount(spoken);
      DistinctCount(offered);
      SubsetIsSmaller(Matched(spoken, offered), set t | t in spoken);
      SubsetIsSmaller(Matched(spoken, offered), set t | t in offered);
      RatioInUnit(|Matched(spoken, offered)|, Least(|offered|, |spoken|));
    }
  }

  /**
   Speaking a stored expression (any text with its tokens, so any text with its normal form) scores the
   share of its tokens that are distinct, whatever the anchor text. It scores exactly 1 if and only if no
   token repeats.
   */
  lemma SpokenExpressionScore(text: string, c: Candidate)
    requires Tokens(text) == Tokens(c.expression) && Tokens(text) != []
    ensures Score(text, c) == |set t | t in Tokens(text)| as real / |Tokens(text)| as real
    ensures Score(text, c) == 1.0 <==> Distinct(Tokens(text))
  {
    var spoken := Tokens(text);
    assert Matched(spoken, Offered(c)) == set t | t in spoken;
    DistinctCount(spoken);
    RatioInUnit(|set t | t in spoken|, |spoken|);
  }

  /** A single hit is picked exactly when it reaches the threshold. */
  lemma PickOfOne(hit: Hit, minScore: real)
    ensures PickBest([hit], minScore) == if hit.score < minScore then None else Some(hit)
  {
    assert Sort(Better, [hit][1..]) == [];
  }

  lemma ShareReaches(m: nat, d: nat)
    requires d > 0
    ensures m as real / d as real >= HIT_MIN_SCORE <==> 100 * m >= 65 * d
  {
    var q, n := m as real / d as real, d as real;
    assert q * n == m as real;
    Scaled(q, HIT_MIN_SCORE, n);
    assert m as real >= HIT_MIN_SCORE * n <==> 100.0 * m as real >= 65.0 * n;
    assert (100 * m) as real == 100.0 * m as real && (65 * d) as real == 65.0 * n;
  }

  lemma Scaled(x: real, y: real, n: real)
    requires n > 0.0
    ensures x >= y <==> x * n >= y * n
  {
    assert (x - y) * n == x * n - y * n;
    assert x - y >= 0.0 <==> (x - y) * n >= 0.0;
  }

  /** At least 65 of 100 tokens are distinct. */
  predicate DistinctEnough(tokens: seq<string>) { 100 * |set t | t in tokens| >= 65 * |tokens| }

  /** A text without tokens scores nothing and is never detected, whatever the candidates. */
  lemma {:induction false} TokenlessScoresNothing(text: string, candidates: seq<Candidate>)
    requires Tokens(text) == []
    ensures Scored(text, candidates) == []
  {
    if candidates != [] { TokenlessScoresNothing(text, candidates[..|candidates| - 1]); }
  }

  lemma TokenlessIsNeverDetected(text: string, candidates: seq<Candidate>)
    requires Tokens(text) == []
    ensures Detected(text, candidates).None?
  {
    TokenlessScoresNothing(text, TrimCandidates(candidates, HIT_CANDIDATE_CAP));
  }

  /**
   A stored expression spoken word for word is detected if and only if it has tokens, at least 65 percent
   of them distinct, whatever the anchor text.
   */
  lemma SpokenExpressionIsDetectedIff(text: string, c: Candidate)
    requires Tokens(text) == Tokens(c.expression)
    ensures Detected(text, [c]).Some? <==> Tokens(text) != [] && DistinctEnough(Tokens(text))
  {
    var tokens := Tokens(text);
    if tokens == [] {
      TokenlessIsNeverDetected(text, [c]);
    } else {
      SpokenExpressionScore(text, c);
      ShareReaches(|set t | t in tokens|, |tokens|);
      ScoredOfOne(text, c);
      if Score(text, c) > 0.0 { PickOfOne(Hit(c, Score(text, c)), HIT_MIN_SCORE); }
    }
  }

  lemma ScoredOfOne(text: string, c: Candidate)
    ensures Scored(text, [c]) == if Score(text, c) <= 0.0 then [] else [Hit(c, Score(text, c))]
  {
    assert [c][..0] == [];
  }

  lemma MatchedIsShared(spoken: seq<string>, offered: seq<string>)
    ensures Matched(spoken, offered) == Matched(offered, spoken)
  {
  }

  /** Without an anchor, saying x against the stored y scores as much as saying y against the stored x. */
  lemma ScoreIsSymmetric(x: string, y: string, c: Candidate, d: Candidate)
    requires c.expression == y && d.expression == x && Tokens(c.anchor) == [] && Tokens(d.anchor) == []
    ensures Score(x, c) == Score(y, d)
  {
    assert Offered(c) == Tokens(y) && Offered(d) == Tokens(x);
    MatchedIsShared(Tokens(x), Tokens(y));
  }

  /** Texts of which one contains the other's tokens in a row score the share of distinct tokens of the shorter. */
  lemma OverlapOfPart(part: seq<string>, a: seq<string>, b: seq<string>)
    requires part != []
    ensures var whole, share := a + part + b, |set t | t in part| as real / |part| as real;
            Overlap(whole, part) == share && Overlap(part, whole) == share
  {
    var whole := a + part + b;
    assert forall t | t in part :: t in whole;
    assert Matched(whole, part) == set t | t in part;
    MatchedIsShared(whole, part);
  }

  lemma ShareIsOneIff(tokens: seq<string>)
    requires tokens != []
    ensures |set t | t in tokens| as real / |tokens| as real == 1.0 <==> Distinct(tokens)
    ensures |set t | t in tokens| as real / |tokens| as real > 0.0
    ensures |set t | t in tokens| as real / |tokens| as real >= HIT_MIN_SCORE <==> DistinctEnough(tokens)
  {
    DistinctCount(tokens);
    RatioInUnit(|set t | t in tokens|, |tokens|);
    ShareReaches(|set t | t in tokens|, |tokens|);
    var some := set t | t in tokens;
    assert tokens[0] in some;
    assert |some| > 0;
  }

  /** Detection of one candidate is its score reaching the threshold. */
  lemma DetectedOne(text: string, c: Candidate)
    ensures Detected(text, [c]).Some? <==> Score(text, c) >= HIT_MIN_SCORE
    ensures Detected(text, [c]).Some? ==> Detected(text, [c]).value == Hit(c, Score(text, c))
  {
    ScoredOfOne(text, c);
    if Score(text, c) > 0.0 { PickOfOne(Hit(c, Score(text, c)), HIT_MIN_SCORE); }
  }

  /**
   A stored phrase said inside longer speech is found if and only if enough of its tokens are distinct, and
   with score 1 if and only if all of them are.
   */
  lemma PhraseInsideSpeech(text: string, c: Candidate, a: seq<string>, b: seq<string>)
    requires Tokens(c.anchor) == [] && Tokens(c.expression) != [] && Tokens(text) == a + Tokens(c.expression) + b
    ensures Detected(text, [c]).Some? <==> DistinctEnough(Tokens(c.expression))
    ensures Score(text, c) == 1.0 <==> Distinct(Tokens(c.expression))
  {
    assert Offered(c) == Tokens(c.expression);
    OverlapOfPart(Tokens(c.expression), a, b);
    ShareIsOneIff(Tokens(c.expression));
    DetectedOne(text, c);
  }

  /** A part of a stored phrase, or of its anchor text, is found under the same condition on what was said. */
  lemma PartOfAPhrase(text: string, c: Candidate, a: seq<string>, b: seq<string>)
    requires Tokens(text) != [] && Tokens(c.expression) + Tokens(c.anchor) == a + Tokens(text) + b
    ensures Detected(text, [c]).Some? <==> DistinctEnough(Tokens(text))
    ensures Score(text, c) == 1.0 <==> Distinct(Tokens(text))
  {
    OverlapOfPart(Tokens(text), a, b);
    ShareIsOneIff(Tokens(text));
    DetectedOne(text, c);
  }

  /** The distinct words that two token lists share. */
  function Shared(x: seq<string>, y: seq<string>): set<string> { set t | t in x && t in y }

  /** The score is zero without words, and otherwise the shared words over the shorter list. */
  predicate IsShare(score: real, x: seq<string>, y: seq<string>) {
    if x == [] || y == [] then score == 0.0
    else score * (if |y| < |x| then |y| else |x|) as real == |Shared(x, y)| as real
  }

  /** Every score is the share of the words that the speech and the stored phrase with its anchor have in common. */
  lemma ScoreMeans(text: string, c: Candidate)
    ensures IsShare(Score(text, c), Tokens(text), Tokens(c.expression) + Tokens(c.anchor))
  {
    OverlapMeans(Tokens(text), Tokens(c.expression) + Tokens(c.anchor));
  }

  lemma OverlapMeans(x: seq<string>, y: seq<string>)
    ensures IsShare(Overlap(x, y), x, y)
  {
    assert Matched(x, y) == Shared(x, y);
    if x != [] && y != [] { Product(|Shared(x, y)| as real, (if |y| < |x| then |y| else |x|) as real); }
  }

  lemma Product(m: real, d: real)
    requires d > 0.0
    ensures m / d * d == m
  {
  }

  /** Repeating a word costs the hit: saying "no no no" word for word scores a third and misses. */
  lemma RepeatedWordsMiss(c: Candidate)
    requires Tokens(c.expression) == ["no", "no", "no"]
    ensures Score(c.expression, c) < HIT_MIN_SCORE
  {
    SpokenExpressionScore(c.expression, c);
    assert (set t | t in ["no", "no", "no"]) == {"no"};
  }

  predicate Shorter(x: Candidate, y: Candidate) { Utf8Len(x.expression) < Utf8Len(y.expression) }

  /** trimCandidates keeps a short list as it is and otherwise the shortest, ties in order. */
  function TrimCandidates(candidates: seq<Candidate>, limit: nat): seq<Candidate> {
    if |candidates| <= limit then candidates else Sort(Shorter, candidates)[..limit]
  }

  lemma ShorterIsAWeakOrder()
    ensures WeakOrder(Shorter)
  {
  }

  /** Sorted by length, everything past the limit is at least as long as everything before it. */
  lemma SortedCut(sorted: seq<Candidate>, limit: nat, kept: Candidate, dropped: Candidate)
    requires Sorted(Shorter, sorted) && limit <= |sorted|
    requires kept in sorted[..limit] && dropped in sorted[limit..]
    ensures !Shorter(dropped, kept)
  {
    var i :| 0 <= i < limit && sorted[i] == kept;
    var j :| 0 <= j < |sorted| - limit && sorted[limit..][j] == dropped;
    assert sorted[limit + j] == dropped;
  }

  /** Whatever was dropped is no shorter than anything kept. */
  lemma TrimKeepsTheShortest(candidates: seq<Candidate>, limit: nat) returns (dropped: seq<Candidate>)
    ensures |TrimCandidates(candidates, limit)| == Least(|candidates|, limit)
    ensures multiset(TrimCandidates(candidates, limit)) + multiset(dropped) == multiset(candidates)
    ensures forall x, y | x in TrimCandidates(candidates, limit) && y in dropped :: !Shorter(y, x)
  {
    if |candidates| > limit {
      var sorted := Sort(Shorter, candidates);
      ShorterIsAWeakOrder();
      SortSorts(Shorter, candidates);
      dropped := sorted[limit..];
      assert sorted == sorted[..limit] + dropped;
      forall x, y | x in sorted[..limit] && y in dropped ensures !Shorter(y, x) { SortedCut(sorted, limit, x, y); }
    } else {
      dropped := [];
    }
  }

  function Scored(text: string, candidates: seq<Candidate>): seq<Hit> {
    if candidates == [] then []
    else
      var n := |candidates| - 1;
      var c := candidates[n];
      Scored(text, candidates[..n]) + if Score(text, c) <= 0.0 then [] else [Hit(c, Score(text, c))]
  }

  method ScoreAll(text: string, candidates: seq<Candidate>) returns (out: seq<Hit>)
    ensures out == Scored(text, candidates)
  {
    out := [];
    for i := 0 to |candidates|
      invariant out == Scored(text, candidates[..i])
    {
      assert candidates[..i + 1][..i] == candidates[..i];
      var score := ScoreCandidate(text, candidates[i]);
      if score > 0.0 {
        out := out + [Hit(candidates[i], score)];
      }
    }
    assert candidates[..|candidates|] == candidates;
  }

  lemma {:induction false} ScoredHolds(text: string, candidates: seq<Candidate>)
    ensures forall h | h in Scored(text, candidates) :: h.candidate in candidates && h.score == Score(text, h.candidate)
    ensures forall c | c in candidates && Score(text, c) > 0.0 :: Hit(c, Score(text, c)) in Scored(text, candidates)
  {
    if candidates != [] {
      var n := |candidates| - 1;
      ScoredHolds(text, candidates[..n]);
      assert candidates == candidates[..n] + [candidates[n]];
    }
  }

  predicate Better(x: Hit, y: Hit) {
    x.score > y.score || (x.score == y.score && Shorter(x.candidate, y.candidate))
  }

  function PickBest(scored: seq<Hit>, minScore: real): Option<Hit> {
    if scored == [] then None
    else
      var best := Sort(Better, scored)[0];
      if best.score < minScore then None else Some(best)
  }

  /**
   pickBest picks a hit exactly when some candidate reaches the threshold. The pick has the greatest
   score, among those the shortest expression, and among those comes first.
   */
  lemma PickBestIsBest(scored: seq<Hit>, minScore: real)
    ensures PickBest(scored, minScore).Some? <==> exists h | h in scored :: h.score >= minScore
    ensures PickBest(scored, minScore).Some? ==>
              exists i | 0 <= i < |scored| ::
                && scored[i] == PickBest(scored, minScore).value
                && FirstLeast(Better, scored, i)
  {
    if scored != [] {
      var i := SortHead(Better, scored);
      forall h | h in scored ensures h.score <= scored[i].score {
        var j :| 0 <= j < |scored| && scored[j] == h;
        assert !Better(scored[j], scored[i]);
      }
    }
  }

  function Detected(text: string, candidates: seq<Candidate>): Option<Hit> {
    PickBest(Scored(text, TrimCandidates(candidates, HIT_CANDIDATE_CAP)), HIT_MIN_SCORE)
  }

  predicate ValidRequest(user: string, text: string) {
    !Blank(user) && !Blank(text) && Utf8Len(text) <= HIT_MAX_TEXT_LEN
  }

  /** Detect, given the learner's candidates. */
  method Detect(user: string, text: string, candidates: seq<Candidate>) returns (r: Result<Option<Hit>>)
    ensures r.Ok? <==> TrimSpace(user) != "" && TrimSpace(text) != "" && Utf8Len(text) <= 4096
    ensures r.Err? ==> r.error == InvalidArgument
    ensures r.Ok? ==> r.value == Detected(text, candidates)
  {
    if !ValidRequest(user, text) { return Err(InvalidArgument); }
    if |candidates| == 0 { return Ok(None); }
    var trimmed := TrimCandidates(candidates, HIT_CANDIDATE_CAP);
    var scored := ScoreAll(text, trimmed);
    return Ok(PickBest(scored, HIT_MIN_SCORE));
  }

  /**
   Saying a stored expression with enough distinct tokens always hits: if the corpus would merge the
   spoken text into a considered block, the detector recognises that block or one that scores no less,
   and with score 1 when no token repeats.
   */
  lemma SpokenExpressionHits(text: string, candidates: seq<Candidate>, c: Candidate)
    requires c in TrimCandidates(candidates, HIT_CANDIDATE_CAP)
    requires NormalizeExpression(text) == NormalizeExpression(c.expression)
    requires Tokens(text) != [] && DistinctEnough(Tokens(text))
    ensures Detected(text, candidates).Some?
    ensures Detected(text, candidates).value.score >= Score(text, c)
    ensures Distinct(Tokens(text)) ==> Detected(text, candidates).value.score == 1.0
    ensures Detected(text, candidates).value.candidate in candidates
  {
    var trimmed := TrimCandidates(candidates, HIT_CANDIDATE_CAP);
    MergedExpressionsHaveTheSameTokens(text, c.expression);
    SpokenExpressionScore(text, c);
    ScoredHolds(text, trimmed);
    PickBestIsBest(Scored(text, trimmed), HIT_MIN_SCORE);
    ShareReaches(|set t | t in Tokens(text)|, |Tokens(text)|);
    var hit := Hit(c, Score(text, c));
    assert hit in Scored(text, trimmed);
    var best := Detected(text, candidates).value;
    assert !Better(hit, best);
    ScoreInUnit(text, best.candidate);
    var dropped := TrimKeepsTheShortest(candidates, HIT_CANDIDATE_CAP);
    assert best.candidate in multiset(trimmed) + multiset(dropped);
  }

  /** The picked hit is the best of those that reach the threshold: by score, then shortest, then first. */
  predicate BestOf(text: string, candidates: seq<Candidate>, hit: Hit) {
    && hit.candidate in candidates && hit.score == Score(text, hit.candidate) && hit.score >= 0.65
    && (forall c | c in candidates ::
          && Score(text, c) <= hit.score
          && (Score(text, c) == hit.score ==> Utf8Len(hit.candidate.expression) <= Utf8Len(c.expression)))
  }

  /** Among up to fifty candidates a hit is found if and only if one of them scores 0.65 or more, and it is the best. */
  lemma DetectionMeans(text: string, candidates: seq<Candidate>)
    requires |candidates| <= 50
    ensures Detected(text, candidates).Some? <==> exists c | c in candidates :: Score(text, c) >= 0.65
    ensures Detected(text, candidates).Some? ==> BestOf(text, candidates, Detected(text, candidates).value)
  {
    var scored := Scored(text, candidates);
    ScoredHolds(text, candidates);
    PickBestIsBest(scored, HIT_MIN_SCORE);
    if exists c | c in candidates :: Score(text, c) >= 0.65 {
      var c :| c in candidates && Score(text, c) >= 0.65;
      assert Hit(c, Score(text, c)) in scored;
    }
    if Detected(text, candidates).Some? {
      var hit := Detected(text, candidates).value;
      forall c | c in candidates
        ensures Score(text, c) <= hit.score
        ensures Score(text, c) == hit.score ==> Utf8Len(hit.candidate.expression) <= Utf8Len(c.expression)
      {
        if Score(text, c) > 0.0 { NotBetter(scored, hit, Hit(c, Score(text, c))); }
      }
    }
  }

  lemma NotBetter(scored: seq<Hit>, hit: Hit, other: Hit)
    requires PickBest(scored, HIT_MIN_SCORE) == Some(hit) && other in scored
    ensures !Better(other, hit) && hit in scored
  {
    PickBestIsBest(scored, HIT_MIN_SCORE);
    var i :| 0 <= i < |scored| && scored[i] == hit && FirstLeast(Better, scored, i);
    var j :| 0 <= j < |scored| && scored[j] == other;
    assert !Better(scored[j], scored[i]);
  }

  /** At most fifty candidates are considered. */
  lemma AtMostFifty(candidates: seq<Candidate>)
    ensures |TrimCandidates(candidates, HIT_CANDIDATE_CAP)| == if |candidates| <= 50 then |candidates| else 50
  {
  }
}
