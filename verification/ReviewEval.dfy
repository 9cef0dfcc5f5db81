/** Per-utterance scoring and its summary (internal/review/service.go, evaluator.go). */
module ReviewEval {
  import opened Wrappers
  import opened Text
  import opened Ordering
  import opened SessionModel
  import opened SessionService

  /** What scoring meets: speech the recogniser was unsure of, no usable answer, or four numbers. */
  datatype ModelAnswer = LowConfidence | Unusable | Parsed(score: real, grammar: real, fluency: real, vocabulary: real)

  function Clamp01(v: real): real { if v < 0.0 then 0.0 else if v > 1.0 then 1.0 else v }

  predicate InUnit(v: real) { 0.0 <= v <= 1.0 }

  predicate EvalInUnit(e: UtteranceEval) {
    InUnit(e.score) && InUnit(e.grammar) && InUnit(e.fluency) && InUnit(e.vocabulary)
  }

  /** Blank or unsure text scores zero, an unusable answer a half, and model numbers are clamped. */
  function Evaluate(u: Utterance, answer: ModelAnswer): (e: UtteranceEval)
    ensures EvalInUnit(e)
  {
    if Blank(u.text) || answer.LowConfidence? then UtteranceEval(0.0, 0.0, 0.0, 0.0)
    else
      match answer
      case Unusable => UtteranceEval(0.5, 0.5, 0.5, 0.5)
      case Parsed(s, g, f, v) => UtteranceEval(Clamp01(s), Clamp01(g), Clamp01(f), Clamp01(v))
  }

  predicate Due(u: Utterance) { u.speaker == User && u.eval.None? }

  /** A row after a run that reached it or did not. */
  function After(u: Utterance, reached: bool, model: Utterance -> ModelAnswer): Utterance {
    if reached && Due(u) then u.(eval := Some(Evaluate(u, model(u)))) else u
  }

  /** Utterance ids are used once in the whole store. */
  ghost predicate RowsUnique(utterances: map<string, seq<Utterance>>) {
    && (forall s | s in utterances :: IdsDiffer(utterances[s]))
    && (forall s, t, i, j | s in utterances && t in utterances && s != t && 0 <= i < |utterances[s]|
        && 0 <= j < |utterances[t]| ::
          utterances[s][i].id != utterances[t][j].id)
  }

  ghost predicate IdsDiffer(rows: seq<Utterance>) { forall i, j | 0 <= i < j < |rows| :: rows[i].id != rows[j].id }

  lemma {:induction false} ScoredAt(rows: seq<Utterance>, k: nat, eval: UtteranceEval)
    requires k < |rows| && IdsDiffer(rows)
    ensures Scored(rows, rows[k].id, eval) == rows[k := rows[k].(eval := Some(eval))]
  {
    if k > 0 {
      var rest := rows[1..];
      assert forall i | 0 <= i < |rest| :: rest[i] == rows[i + 1];
      ScoredAt(rest, k - 1, eval);
      assert rows[0].id != rows[k].id;
      assert rows[k := rows[k].(eval := Some(eval))] == [rows[0]] + rest[k - 1 := rest[k - 1].(eval := Some(eval))];
    } else {
      assert rows[0 := rows[0].(eval := Some(eval))] == [rows[0].(eval := Some(eval))] + rows[1..];
    }
  }

  /** One run's effect on a transcript: scores are added to unscored user rows and nothing else moves. */
  ghost predicate Progress(rows: seq<Utterance>, rows': seq<Utterance>) {
    && |rows'| == |rows|
    && (forall i | 0 <= i < |rows| :: RowProgress(rows[i], rows'[i]))
  }

  /** Whatever was added to a row is what the model's answer on it comes to. */
  ghost predicate Faithful(rows: seq<Utterance>, rows': seq<Utterance>, model: Utterance -> ModelAnswer) {
    && |rows'| == |rows|
    && (forall i | 0 <= i < |rows| ::
          rows'[i] == rows[i] || rows'[i] == rows[i].(eval := Some(Evaluate(rows[i], model(rows[i])))))
  }

  predicate RowProgress(u: Utterance, u': Utterance) {
    u' == u || (Due(u) && u'.eval.Some? && EvalInUnit(u'.eval.value) && u' == u.(eval := u'.eval))
  }

  predicate AllScored(rows: seq<Utterance>) { forall i | 0 <= i < |rows| :: !Due(rows[i]) }

  lemma SortedRows(rows: seq<Utterance>)
    requires IdsDiffer(rows)
    ensures var utts := Sort(BySeqNo, rows); Distinct(utts) && forall u :: u in utts <==> u in rows
  {
    SortSorts(BySeqNo, rows);
    assert Distinct(rows);
    DistinctIsAMultisetMatter(rows);
    DistinctIsAMultisetMatter(Sort(BySeqNo, rows));
  }

  /**
   RunEvalJob scores the unscored user rows in order. It stops with an error when its context has run
   out, here after `lives` saves; everything saved until then stays.
   */
  method RunEvalJob(store: MemoryStore, session: string, model: Utterance -> ModelAnswer, lives: nat)
    returns (r: Result<()>)
    requires RowsUnique(store.utterances)
    modifies store`utterances
    ensures r.Ok? ==> session in store.sessions && AllScored(store.Value().Transcript(session))
    ensures Progress(old(store.Value().Transcript(session)), store.Value().Transcript(session))
    ensures Faithful(old(store.Value().Transcript(session)), store.Value().Transcript(session), model)
    ensures forall s | s in old(store.utterances) && s != session ::
              s in store.utterances && store.utterances[s] == old(store.utterances)[s]
  {
    var listed := store.ListUtterances(session);
    if listed.Err? { return Err(NotFound); }
    if session !in store.utterances { return Ok(()); }
    r := ScoreRows(store, session, listed.value, model, lives);
  }

  /** The scoring loop over the listed rows of a session. */
  method ScoreRows(store: MemoryStore, session: string, utts: seq<Utterance>, model: Utterance -> ModelAnswer,
                   lives: nat) returns (r: Result<()>)
    requires RowsUnique(store.utterances) && session in store.utterances
             && utts == Sort(BySeqNo, store.utterances[session])
    modifies store`utterances
    ensures store.utterances.Keys == old(store.utterances).Keys
    ensures Progress(old(store.utterances)[session], store.utterances[session])
    ensures Faithful(old(store.utterances)[session], store.utterances[session], model)
    ensures r.Ok? ==> AllScored(store.utterances[session])
    ensures forall s | s in old(store.utterances) && s != session :: store.utterances[s] == old(store.utterances)[s]
  {
    ghost var start := store.utterances;
    SortedRows(start[session]);
    var left := lives;
    for i := 0 to |utts|
      invariant Underway(start, store.utterances, session, utts, i, model)
    {
      ghost var k := PlaceOf(start[session], utts, i);
      if !Due(utts[i]) {
        ReachOne(start[session], store.utterances[session], utts, i, model, k);
      } else {
        SaveRow(store, session, utts, i, model, start, k);
        if left == 0 {
          ReachedIsProgress(start[session], store.utterances[session], utts, i + 1, model);
          return Err(Conflict);
        }
        left := left - 1;
      }
    }
    ReachedIsProgress(start[session], store.utterances[session], utts, |utts|, model);
    return Ok(());
  }

  /** One turn of the loop: evaluate the row and save its score. */
  method SaveRow(store: MemoryStore, session: string, utts: seq<Utterance>, i: nat, model: Utterance -> ModelAnswer,
                 ghost start: map<string, seq<Utterance>>, ghost k: nat)
    requires RowsUnique(start) && session in start && i < |utts| && Distinct(utts) && Due(utts[i])
    requires k < |start[session]| && start[session][k] == utts[i]
    requires Underway(start, store.utterances, session, utts, i, model)
    modifies store`utterances
    ensures Underway(start, store.utterances, session, utts, i + 1, model)
  {
    var eval := Evaluate(utts[i], model(utts[i]));
    UniqueHome(start, store.utterances, session, utts, i, model, k);
    ReachOne(start[session], store.utterances[session], utts, i, model, k);
    var saved, where := store.SaveUtteranceEval(utts[i].id, eval);
  }

  lemma PlaceOf(before: seq<Utterance>, utts: seq<Utterance>, i: nat) returns (k: nat)
    requires i < |utts| && forall u :: u in utts ==> u in before
    ensures k < |before| && before[k] == utts[i]
  {
    assert utts[i] in utts;
    k :| 0 <= k < |before| && before[k] == utts[i];
  }

  /** The store after the first i listed rows of the session were handled: no other session has changed. */
  ghost predicate Underway(start: map<string, seq<Utterance>>, now: map<string, seq<Utterance>>, session: string,
                           utts: seq<Utterance>, i: nat,
                           model: Utterance -> ModelAnswer)
    requires session in start && i <= |utts|
  {
    && now.Keys == start.Keys
    && (forall s | s in start && s != session :: now[s] == start[s])
    && Reached(start[session], now[session], utts, i, model)
  }

  /** The transcript after the first i listed rows were handled. */
  ghost predicate Reached(before: seq<Utterance>, rows: seq<Utterance>, utts: seq<Utterance>, i: nat,
                          model: Utterance -> ModelAnswer)
    requires i <= |utts|
  {
    && |rows| == |before|
    && (forall k | 0 <= k < |before| :: rows[k] == After(before[k], before[k] in utts[..i], model))
  }

  lemma ReachOne(before: seq<Utterance>, rows: seq<Utterance>, utts: seq<Utterance>, i: nat,
                 model: Utterance -> ModelAnswer, k: nat)
    requires i < |utts| && Reached(before, rows, utts, i, model) && IdsDiffer(before) && Distinct(utts)
    requires k < |before| && before[k] == utts[i]
    ensures IdsDiffer(rows)
    ensures Due(utts[i]) ==>
              Reached(before, Scored(rows, utts[i].id, Evaluate(utts[i], model(utts[i]))), utts, i + 1, model)
    ensures !Due(utts[i]) ==> Reached(before, rows, utts, i + 1, model)
  {
    assert utts[..i + 1] == utts[..i] + [utts[i]];
    assert forall j | 0 <= j < |rows| :: rows[j].id == before[j].id;
    ScoredAt(rows, k, Evaluate(utts[i], model(utts[i])));
    assert utts[i] !in utts[..i];
    assert rows[k] == before[k];
    forall j | 0 <= j < |before| && j != k ensures before[j] in utts[..i + 1] <==> before[j] in utts[..i] {
      assert before[j].id != before[k].id;
    }
  }

  /** The row to be scored lives in this session and nowhere else. */
  lemma UniqueHome(start: map<string, seq<Utterance>>, now: map<string, seq<Utterance>>, session: string,
                   utts: seq<Utterance>, i: nat,
                   model: Utterance -> ModelAnswer, k: nat)
    requires RowsUnique(start) && session in start && i < |utts| && Underway(start, now, session, utts, i, model)
    requires k < |start[session]| && start[session][k] == utts[i]
    ensures HasRow(now[session], utts[i].id)
    ensures forall s | s in now && s != session :: !HasRow(now[s], utts[i].id)
  {
    assert now[session][k].id == utts[i].id;
    forall s | s in now && s != session ensures !HasRow(now[s], utts[i].id) {
      assert forall j | 0 <= j < |start[s]| :: start[session][k].id != start[s][j].id;
    }
  }

  lemma ReachedIsProgress(before: seq<Utterance>, rows: seq<Utterance>, utts: seq<Utterance>, i: nat,
                          model: Utterance -> ModelAnswer)
    requires i <= |utts| && Reached(before, rows, utts, i, model)
    requires forall u :: u in before ==> u in utts
    ensures Progress(before, rows)
    ensures Faithful(before, rows, model)
    ensures i == |utts| ==> AllScored(rows)
  {
    assert utts[..|utts|] == utts;
    forall k | 0 <= k < |rows| ensures RowProgress(before[k], rows[k]) && (i == |utts| ==> !Due(rows[k])) {
      assert before[k] in before;
    }
  }

  /** The state of a transcript across a series of runs, each finished or interrupted. */
  ghost predicate Series(states: seq<seq<Utterance>>) {
    forall i | 0 <= i < |states| - 1 :: Progress(states[i], states[i + 1])
  }

  /** A stored score is written once: no later run, finished or not, changes it. */
  lemma {:induction false} ScoresAreWrittenOnce(states: seq<seq<Utterance>>, i: nat, j: nat, k: nat)
    requires Series(states) && i <= j < |states| && k < |states[i]|
    ensures |states[j]| == |states[i]|
    ensures states[i][k].eval.Some? ==> states[j][k] == states[i][k]
    ensures states[j][k].(eval := None) == states[i][k].(eval := None)
  {
    if i < j {
      ScoresAreWrittenOnce(states, i, j - 1, k);
      assert Progress(states[j - 1], states[j]);
      assert RowProgress(states[j - 1][k], states[j][k]);
    }
  }

  function UserRows(rows: seq<Utterance>): seq<Utterance> {
    if rows == [] then []
    else
      var n := |rows| - 1;
      UserRows(rows[..n]) + if rows[n].speaker == User then [rows[n]] else []
  }

  datatype Summary = Summary(score: real, grammar: real, fluency: real, vocabulary: real, count: nat, complete: bool)

  function Totals(rows: seq<Utterance>): UtteranceEval
    requires forall i | 0 <= i < |rows| :: rows[i].eval.Some?
  {
    if rows == [] then UtteranceEval(0.0, 0.0, 0.0, 0.0)
    else
      var n := |rows| - 1;
      var t, e := Totals(rows[..n]), rows[n].eval.value;
      UtteranceEval(t.score + e.score, t.grammar + e.grammar, t.fluency + e.fluency, t.vocabulary + e.vocabulary)
  }

  predicate Evaluated(rows: seq<Utterance>) { forall i | 0 <= i < |rows| :: rows[i].eval.Some? }

  /** The mean of a session's scores; incomplete while one is missing. */
  function Summarize(rows: seq<Utterance>): Summary {
    var user := UserRows(rows);
    if user == [] then Summary(0.0, 0.0, 0.0, 0.0, 0, true)
    else if !Evaluated(user) then Summary(0.0, 0.0, 0.0, 0.0, |user|, false)
    else
      var t, n := Totals(user), |user| as real;
      Summary(t.score / n, t.grammar / n, t.fluency / n, t.vocabulary / n, |user|, true)
  }

  /** Summary with its loops: filter, check, add up, divide. */
  method SummaryOf(rows: seq<Utterance>) returns (r: Summary)
    ensures r == Summarize(rows)
  {
    var user := FilterUser(rows);
    if |user| == 0 { return Summary(0.0, 0.0, 0.0, 0.0, 0, true); }
    var sum := AddUp(user);
    if sum.None? { return Summary(0.0, 0.0, 0.0, 0.0, |user|, false); }
    var t, n := sum.value, |user| as real;
    r := Summary(t.score / n, t.grammar / n, t.fluency / n, t.vocabulary / n, |user|, true);
  }

  method FilterUser(rows: seq<Utterance>) returns (user: seq<Utterance>)
    ensures user == UserRows(rows)
  {
    user := [];
    for i := 0 to |rows|
      invariant user == UserRows(rows[..i])
    {
      assert rows[..i + 1][..i] == rows[..i];
      if rows[i].speaker == User { user := user + [rows[i]]; }
    }
    assert rows[..|rows|] == rows;
  }

  /** The sums of the rows' scores, unless one is missing. */
  method AddUp(user: seq<Utterance>) returns (sum: Option<UtteranceEval>)
    ensures sum.Some? <==> Evaluated(user)
    ensures sum.Some? ==> sum.value == Totals(user)
  {
    var t := UtteranceEval(0.0, 0.0, 0.0, 0.0);
    for i := 0 to |user|
      invariant Evaluated(user[..i]) && t == Totals(user[..i])
    {
      if user[i].eval.None? { return None; }
      assert user[..i + 1][..i] == user[..i];
      var e := user[i].eval.value;
      t := UtteranceEval(t.score + e.score, t.grammar + e.grammar, t.fluency + e.fluency, t.vocabulary + e.vocabulary);
    }
    assert user[..|user|] == user;
    return Some(t);
  }

  /** The user rows are those of the transcript that the learner spoke. */
  lemma {:induction false} UserRowsAre(rows: seq<Utterance>)
    ensures forall u :: u in UserRows(rows) <==> u in rows && u.speaker == User
  {
    if rows != [] {
      UserRowsAre(rows[..|rows| - 1]);
      assert rows == rows[..|rows| - 1] + [rows[|rows| - 1]];
    }
  }

  /** Every score in the transcript is between 0 and 1. */
  predicate ScoresInUnit(rows: seq<Utterance>) {
    forall i | 0 <= i < |rows| :: rows[i].eval.Some? ==> EvalInUnit(rows[i].eval.value)
  }

  lemma {:induction false} TotalsBounded(rows: seq<Utterance>)
    requires Evaluated(rows) && ScoresInUnit(rows)
    ensures var t, n := Totals(rows), |rows| as real;
            0.0 <= t.score <= n && 0.0 <= t.grammar <= n && 0.0 <= t.fluency <= n && 0.0 <= t.vocabulary <= n
  {
    if rows != [] { TotalsBounded(rows[..|rows| - 1]); }
  }

  lemma MeanInUnit(total: real, n: nat)
    requires n > 0 && 0.0 <= total <= n as real
    ensures InUnit(total / n as real)
  {
    var q := total / n as real;
    assert q * n as real == total;
    assert q > 1.0 ==> q * n as real > n as real;
    assert q < 0.0 ==> q * n as real < 0.0;
  }

  /** The summary is complete exactly when no user row is unscored, and its means lie between 0 and 1. */
  lemma SummaryIsCompleteIff(rows: seq<Utterance>)
    ensures Summarize(rows).complete <==> AllScored(rows)
    ensures ScoresInUnit(rows) ==>
              var s := Summarize(rows);
                InUnit(s.score) && InUnit(s.grammar) && InUnit(s.fluency) && InUnit(s.vocabulary)
  {
    var user := UserRows(rows);
    UserRowsAre(rows);
    if Evaluated(user) {
      forall i | 0 <= i < |rows| ensures !Due(rows[i]) {
        if rows[i].speaker == User {
          assert rows[i] in user;
        }
      }
    } else {
      var i :| 0 <= i < |user| && user[i].eval.None?;
      assert user[i] in rows;
    }
    if user != [] && Evaluated(user) && ScoresInUnit(rows) {
      forall i | 0 <= i < |user| ensures EvalInUnit(user[i].eval.value) { assert user[i] in rows; }
      TotalsBounded(user);
      MeanInUnit(Totals(user).score, |user|);
      MeanInUnit(Totals(user).grammar, |user|);
      MeanInUnit(Totals(user).fluency, |user|);
      MeanInUnit(Totals(user).vocabulary, |user|);
    }
  }

  /**
   Over any series of finished and interrupted runs on a transcript without scores, from the first run
   that returned without error on (it leaves every user row scored) the summary is complete, with its
   means between 0 and 1, and never changes again.
   */
  lemma {:induction false} FinishedRunsStayComplete(states: seq<seq<Utterance>>, i: nat, j: nat)
    requires Series(states) && i <= j < |states|
    requires forall k | 0 <= k < |states[0]| :: states[0][k].eval.None?
    requires AllScored(states[i])
    ensures states[j] == states[i]
    ensures Summarize(states[j]).complete
    ensures InUnit(Summarize(states[j]).score)
  {
    SeriesInUnit(states, j);
    SummaryIsCompleteIff(states[j]);
    if i < j {
      FinishedRunsStayComplete(states, i, j - 1);
      assert Progress(states[j - 1], states[j]);
      assert forall k | 0 <= k < |states[j]| :: RowProgress(states[j - 1][k], states[j][k]) && !Due(states[j - 1][k]);
    }
  }

  lemma {:induction false} SeriesInUnit(states: seq<seq<Utterance>>, j: nat)
    requires Series(states) && j < |states|
    requires forall k | 0 <= k < |states[0]| :: states[0][k].eval.None?
    ensures ScoresInUnit(states[j])
  {
    if j > 0 {
      SeriesInUnit(states, j - 1);
      assert Progress(states[j - 1], states[j]);
      forall k | 0 <= k < |states[j]| ensures states[j][k].eval.Some? ==> EvalInUnit(states[j][k].eval.value) {
        assert RowProgress(states[j - 1][k], states[j][k]);
      }
    }
  }

  /** What each number of an evaluation is. */
  lemma EvaluateMeans(u: Utterance, answer: ModelAnswer)
    ensures var e := Evaluate(u, answer);
            && (TrimSpace(u.text) == "" || answer.LowConfidence? ==> e == UtteranceEval(0.0, 0.0, 0.0, 0.0))
            && (TrimSpace(u.text) != "" && answer.Unusable? ==> e == UtteranceEval(0.5, 0.5, 0.5, 0.5))
            && (TrimSpace(u.text) != "" && answer.Parsed? ==>
                  && Nearest(e.score, answer.score) && Nearest(e.grammar, answer.grammar)
                  && Nearest(e.fluency, answer.fluency) && Nearest(e.vocabulary, answer.vocabulary))
  {
  }

  /** v is the number from 0 to 1 that is nearest to x. */
  predicate Nearest(v: real, x: real) {
    0.0 <= v <= 1.0 && (0.0 <= x <= 1.0 ==> v == x) && (x < 0.0 ==> v == 0.0) && (x > 1.0 ==> v == 1.0)
  }

  datatype Number = Score | Grammar | Fluency | Vocabulary

  function NumberOf(e: UtteranceEval, number: Number): real {
    match number
    case Score => e.score
    case Grammar => e.grammar
    case Fluency => e.fluency
    case Vocabulary => e.vocabulary
  }

  function MeanOf(s: Summary, number: Number): real {
    match number
    case Score => s.score
    case Grammar => s.grammar
    case Fluency => s.fluency
    case Vocabulary => s.vocabulary
  }

  /** The sum of one number over the learner's scored rows. */
  function Sum(rows: seq<Utterance>, number: Number): real {
    if rows == [] then 0.0
    else
      var n := |rows| - 1;
      Sum(rows[..n], number) + if rows[n].speaker == User && rows[n].eval.Some?
          then NumberOf(rows[n].eval.value, number) else 0.0
  }

  function Learners(rows: seq<Utterance>): nat {
    if rows == [] then 0 else Learners(rows[..|rows| - 1]) + if rows[|rows| - 1].speaker == User then 1 else 0
  }

  lemma {:induction false} TotalsAreSums(rows: seq<Utterance>, number: Number)
    requires AllScored(rows)
    ensures Evaluated(UserRows(rows)) && |UserRows(rows)| == Learners(rows)
    ensures NumberOf(Totals(UserRows(rows)), number) == Sum(rows, number)
  {
    if rows != [] {
      var n := |rows| - 1;
      TotalsAreSums(rows[..n], number);
      if rows[n].speaker == User {
        assert !Due(rows[n]);
        TotalsMore(UserRows(rows[..n]), rows[n], number);
        assert UserRows(rows) == UserRows(rows[..n]) + [rows[n]];
      } else {
        assert UserRows(rows) == UserRows(rows[..n]);
      }
    }
  }

  lemma TotalsMore(user: seq<Utterance>, row: Utterance, number: Number)
    requires Evaluated(user) && row.eval.Some?
    ensures Evaluated(user + [row])
    ensures NumberOf(Totals(user + [row]), number) == NumberOf(Totals(user), number) + NumberOf(row.eval.value, number)
  {
    assert (user + [row])[..|user|] == user;
  }

  /** Each number of a complete summary is the mean of that number over the learner's rows, and zero without any. */
  lemma SummaryMeans(rows: seq<Utterance>, number: Number)
    requires forall i | 0 <= i < |rows| && rows[i].speaker == User :: rows[i].eval.Some?
    ensures Summarize(rows).complete && Summarize(rows).count == Learners(rows)
    ensures IsMean(MeanOf(Summarize(rows), number), Learners(rows), Sum(rows, number))
  {
    assert forall i | 0 <= i < |rows| :: !Due(rows[i]);
    TotalsAreSums(rows, number);
    if Learners(rows) > 0 {
      var total := NumberOf(Totals(UserRows(rows)), number);
      SharesAreMeans(total, Learners(rows));
      assert MeanOf(Summarize(rows), number) == total / Learners(rows) as real;
    }
  }

  /** The mean of n numbers with this sum, and zero for none. */
  predicate IsMean(mean: real, n: nat, sum: real) { if n == 0 then mean == 0.0 else mean * n as real == sum }

  lemma SharesAreMeans(total: real, n: nat)
    requires n > 0
    ensures IsMean(total / n as real, n, total)
  {
  }
}
