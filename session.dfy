/** The ask/recommend session of run_agent_hw3_simulator.py: a loop of at most
    `MAX_TURNS` turns that either asks a clarifying question and re-filters the BM25
    ranking, or shows the remaining candidates to the simulated user. The BM25 retriever,
    the language model and the simulator's replies are oracles; the loop's own rules are
    modelled exactly. */
module Session {
  import opened Scores
  import opened Prompts
  import opened Utils
  import opened Simulator

  const MAX_TURNS: nat := 10
  /** Pool size for the question prompt. */
  const TOP_K: nat := 100
  /** Declared beside the other parameters but never read: the filter uses `CUTOFF`. */
  const THRESHOLD: real := 1.0
  const N_REC: nat := 10
  /** The literal the recommendation filter compares scaled scores with. */
  const CUTOFF: real := 0.7

  datatype Action = Ask | Rec

  /** The loop's variables after some number of turns. */
  datatype State = State(
    turn: nat,
    action: Action,
    query: string,
    history: seq<Turn>,
    disrec: set<string>,
    recList: seq<Doc>)

  /** How `run_simulator` ends: returning its turn count, or raising from `min()` of an
      empty score list during the given turn. */
  datatype Outcome = Returned(turns: nat) | Raised(turns: nat)

  /** One turn's effect: go on with a new state, or leave the loop. */
  datatype Next = Continue(state: State) | Stop(outcome: Outcome)

  /** The variables before the loop: the simulator's first query, rewritten. */
  function Start(sim: UserSimulator): (s: State)
    ensures s.turn == 0 && s.action == Ask && s.history == [] && s.disrec == {} && s.recList == []
  {
    State(0, Ask, RewriteQuery(sim.llm, InitialAmbiguousQuery(sim)), [], {}, [])
  }

  // ---------------------------------------------------------------------------
  // Scaling and filtering

  function ScoresOf(hits: seq<Hit>): (r: seq<real>)
    ensures |r| == |hits|
    ensures forall i :: 0 <= i < |hits| ==> r[i] == hits[i].2
  {
    seq(|hits|, i requires 0 <= i < |hits| => hits[i].2)
  }

  /** `scaled_scores`: every hit with its score min-max scaled between `lo` and `hi`
      (the inner `min_max_scale` is the same rule as `norm`). */
  function Scaled(hits: seq<Hit>, lo: real, hi: real): (r: seq<Hit>)
    ensures |r| == |hits|
    ensures forall i :: 0 <= i < |hits| ==> r[i] == (hits[i].0, hits[i].1, Norm(hits[i].2, lo, hi))
  {
    seq(|hits|, i requires 0 <= i < |hits| => (hits[i].0, hits[i].1, Norm(hits[i].2, lo, hi)))
  }

  /** `[(pid, txt) for pid, txt, score in scaled if score > 0.7]`. */
  function AboveCutoff(scaled: seq<Hit>): (r: seq<Doc>)
    ensures |r| <= |scaled|
  {
    if scaled == [] then []
    else
      var last := scaled[|scaled| - 1];
      AboveCutoff(scaled[..|scaled| - 1]) + (if last.2 > CUTOFF then [(last.0, last.1)] else [])
  }

  /** The recommendation list of one ask turn, from a non-empty full ranking. */
  function RecList(allScores: seq<Hit>): seq<Doc>
    requires allScores != []
  {
    var scores := ScoresOf(allScores);
    AboveCutoff(Scaled(allScores, SeqMin(scores), SeqMax(scores)))
  }

  /** `to_show`: the recommendations whose id is not disliked, in order. */
  function Shown(recList: seq<Doc>, disrec: set<string>): (r: seq<Doc>)
    ensures |r| <= |recList|
  {
    if recList == [] then []
    else
      var last := recList[|recList| - 1];
      Shown(recList[..|recList| - 1], disrec) + (if last.0 !in disrec then [last] else [])
  }

  // ---------------------------------------------------------------------------
  // One turn and the whole loop

  /** The history after the question of an ask turn: the question generated from the
      top `TOP_K` hits for the current query, and the simulator's answer, appended. */
  function Interview(sim: UserSimulator, idx: LexicalIndex, s: State): seq<Turn> {
    var hits := idx.retrieve(s.query, TOP_K);
    var question := AskDisambiguation(sim.llm, hits, s.history);
    s.history + [(question, AnswerClarificationQuestion(sim, question))]
  }

  /** An ask turn (its turn number already counted): ask, record the answer, reformulate,
      rank the whole corpus and decide whether to ask again or recommend. */
  function AskTurn(sim: UserSimulator, idx: LexicalIndex, s: State): Next {
    var history := Interview(sim, idx, s);
    var query := ReformulateQuery(sim.llm, history);
    var allScores := idx.retrieve(query, |idx.corpus|);
    if allScores == [] then Stop(Raised(s.turn))
    else
      var recList := RecList(allScores);
      if |recList| - |s.disrec| > N_REC then Continue(State(s.turn, Ask, query, history, s.disrec, []))
      else Continue(State(s.turn, Rec, query, history, s.disrec, recList))
  }

  /** A recommendation turn (its turn number already counted): show the non-disliked
      candidates; stop on a selection among them, otherwise dislike them all and ask again. */
  function RecTurn(sim: UserSimulator, s: State): Next {
    var ids := Firsts(Shown(s.recList, s.disrec));
    var selection := ChooseItem(sim, ids);
    if selection in ids then Stop(Returned(s.turn))
    else Continue(s.(action := Ask, disrec := s.disrec + (set id | id in ids), recList := []))
  }

  /** One pass of the loop body: count the turn, then ask or recommend. */
  function Step(sim: UserSimulator, idx: LexicalIndex, s: State): (n: Next)
    requires s.turn < MAX_TURNS
    ensures n.Continue? ==> n.state.turn == s.turn + 1
    ensures n.Stop? ==> n.outcome.turns == s.turn + 1
  {
    var counted := s.(turn := s.turn + 1);
    if s.action == Ask then AskTurn(sim, idx, counted) else RecTurn(sim, counted)
  }

  /** What `run_simulator` does from state `s` on. */
  function Run(sim: UserSimulator, idx: LexicalIndex, s: State): Outcome
    requires s.turn <= MAX_TURNS
    decreases MAX_TURNS - s.turn
  {
    if s.turn == MAX_TURNS then Returned(s.turn)
    else
      match Step(sim, idx, s)
      case Continue(t) => Run(sim, idx, t)
      case Stop(o) => o
  }

  /** `run_simulator(sim)` against the BM25 index `idx`. */
  method RunSimulator(sim: UserSimulator, idx: LexicalIndex) returns (outcome: Outcome)
    ensures outcome == Run(sim, idx, Start(sim))
  {
    var llm := sim.llm;
    var disrec: set<string> := {};
    var recList: seq<Doc> := [];
    var history: seq<Turn> := [];
    var action := Ask;
    var turn: nat := 0;

    var rawQuery := InitialAmbiguousQuery(sim);
    var currentQuery := RewriteQuery(llm, rawQuery);
    while turn < MAX_TURNS
      invariant turn <= MAX_TURNS
      invariant Run(sim, idx, State(turn, action, currentQuery, history, disrec, recList)) == Run(sim, idx, Start(sim))
      decreases MAX_TURNS - turn
    {
      ghost var before := State(turn, action, currentQuery, history, disrec, recList);
      ghost var counted := before.(turn := before.turn + 1);
      turn := turn + 1;
      if action == Ask {
        StepAsk(sim, idx, before);
        RunStep(sim, idx, before, AskTurn(sim, idx, counted));
        var raised: bool;
        raised, action, currentQuery, history, recList := AskBranch(sim, idx, turn, currentQuery, history, disrec, recList);
        if raised {
          outcome := Raised(turn);
          return;
        }
        assert AskTurn(sim, idx, counted) == Continue(State(turn, action, currentQuery, history, disrec, recList));
      } else {
        StepRec(sim, idx, before);
        RunStep(sim, idx, before, RecTurn(sim, counted));
        var selected: bool;
        selected, action, disrec, recList := RecBranch(sim, turn, currentQuery, history, disrec, recList);
        if selected {
          outcome := Returned(turn);
          return;
        }
        assert RecTurn(sim, counted) == Continue(State(turn, action, currentQuery, history, disrec, recList));
      }
    }
    outcome := Returned(turn);
  }

  /** The `action == 'ask'` branch of the loop body, for the already counted `turn`. */
  method AskBranch(sim: UserSimulator, idx: LexicalIndex, turn: nat, query: string, history: seq<Turn>,
                   disrec: set<string>, recList: seq<Doc>)
    returns (raised: bool, action': Action, query': string, history': seq<Turn>, recList': seq<Doc>)
    ensures raised ==> AskTurn(sim, idx, State(turn, Ask, query, history, disrec, recList)) == Stop(Raised(turn))
    ensures !raised ==> AskTurn(sim, idx, State(turn, Ask, query, history, disrec, recList))
                          == Continue(State(turn, action', query', history', disrec, recList'))
  {
    var hits := idx.retrieve(query, TOP_K);
    var question := AskDisambiguation(sim.llm, hits, history);
    var answer := AnswerClarificationQuestion(sim, question);
    history' := history + [(question, answer)];
    query' := ReformulateQuery(sim.llm, history');

    var allScores := idx.retrieve(query', |idx.corpus|);
    if allScores == [] {
      // `min(scores)` raises on an empty list
      return true, Ask, query', history', recList;
    }
    raised := false;
    var scores := ScoresOf(allScores);
    var minScore := SeqMin(scores);
    var maxScore := SeqMax(scores);
    var scaledScores := Scaled(allScores, minScore, maxScore);
    recList' := AboveCutoff(scaledScores);
    if |recList'| - |disrec| > N_REC {
      recList' := [];
      action' := Ask;
    } else {
      action' := Rec;
    }
  }

  /** The `action == 'rec'` branch of the loop body, for the already counted `turn`. */
  method RecBranch(sim: UserSimulator, turn: nat, query: string, history: seq<Turn>,
                   disrec: set<string>, recList: seq<Doc>)
    returns (selected: bool, action': Action, disrec': set<string>, recList': seq<Doc>)
    ensures selected ==> RecTurn(sim, State(turn, Rec, query, history, disrec, recList)) == Stop(Returned(turn))
    ensures !selected ==> RecTurn(sim, State(turn, Rec, query, history, disrec, recList))
                            == Continue(State(turn, action', query, history, disrec', recList'))
  {
    var toShow := Shown(recList, disrec);
    var shownIds := Firsts(toShow);
    var selection := ChooseItem(sim, shownIds);
    if selection in shownIds {
      return true, Rec, disrec, recList;
    }
    selected := false;
    disrec' := disrec + (set id | id in shownIds);
    recList' := [];
    action' := Ask;
  }

  // ---------------------------------------------------------------------------
  // Properties of the loop

  /** A step from a state about to ask is its ask turn. */
  lemma StepAsk(sim: UserSimulator, idx: LexicalIndex, s: State)
    requires s.turn < MAX_TURNS && s.action == Ask
    ensures Step(sim, idx, s) == AskTurn(sim, idx, s.(turn := s.turn + 1))
  {
  }

  /** A step from a state about to recommend is its recommendation turn. */
  lemma StepRec(sim: UserSimulator, idx: LexicalIndex, s: State)
    requires s.turn < MAX_TURNS && s.action == Rec
    ensures Step(sim, idx, s) == RecTurn(sim, s.(turn := s.turn + 1))
  {
  }

  /** Running from a state is taking its step and running on, or stopping with the step's outcome. */
  lemma RunStep(sim: UserSimulator, idx: LexicalIndex, s: State, n: Next)
    requires s.turn < MAX_TURNS && Step(sim, idx, s) == n
    ensures n.Continue? ==> Run(sim, idx, s) == Run(sim, idx, n.state)
    ensures n.Stop? ==> Run(sim, idx, s) == n.outcome
  {
  }

  /** The loop returns or raises within `MAX_TURNS` turns, and never before the current one. */
  lemma {:induction false} RunTurns(sim: UserSimulator, idx: LexicalIndex, s: State)
    requires s.turn <= MAX_TURNS
    ensures s.turn <= Run(sim, idx, s).turns <= MAX_TURNS
    ensures s.turn < MAX_TURNS ==> s.turn < Run(sim, idx, s).turns
    decreases MAX_TURNS - s.turn
  {
    if s.turn < MAX_TURNS {
      match Step(sim, idx, s)
      case Continue(t) => RunTurns(sim, idx, t);
      case Stop(o) =>
    }
  }

  /** Every turn, ask or recommend, appends at most one question and answer to the history,
      and an ask turn exactly one; earlier turns are never rewritten. */
  lemma StepHistory(sim: UserSimulator, idx: LexicalIndex, s: State)
    requires s.turn < MAX_TURNS && Step(sim, idx, s).Continue?
    ensures var t := Step(sim, idx, s).state;
            && (s.action == Ask ==> t.history == Interview(sim, idx, s) && |t.history| == |s.history| + 1)
            && (s.action == Rec ==> t.history == s.history)
            && t.history[..|s.history|] == s.history
  {
  }

  /** The disliked ids only grow: an ask turn keeps them, a recommendation turn adds to them. */
  lemma StepDisrec(sim: UserSimulator, idx: LexicalIndex, s: State)
    requires s.turn < MAX_TURNS && Step(sim, idx, s).Continue?
    ensures s.disrec <= Step(sim, idx, s).state.disrec
    ensures s.action == Ask ==> Step(sim, idx, s).state.disrec == s.disrec
  {
  }

  /** `t` is the state some number of completed turns after `s`. */
  ghost predicate Reaches(sim: UserSimulator, idx: LexicalIndex, s: State, t: State)
    decreases MAX_TURNS - s.turn
  {
    s == t || (s.turn < MAX_TURNS && Step(sim, idx, s).Continue? && Reaches(sim, idx, Step(sim, idx, s).state, t))
  }

  /** Across any number of turns the turn count and the disliked ids only grow, the history
      is only appended to, and it gains at most one entry per turn. */
  lemma {:induction false} ReachesGrows(sim: UserSimulator, idx: LexicalIndex, s: State, t: State)
    requires Reaches(sim, idx, s, t)
    ensures s.turn <= t.turn
    ensures s.disrec <= t.disrec
    ensures |s.history| <= |t.history| && t.history[..|s.history|] == s.history
    ensures |t.history| - |s.history| <= t.turn - s.turn
    decreases MAX_TURNS - s.turn
  {
    if s != t {
      var u := Step(sim, idx, s).state;
      StepHistory(sim, idx, s);
      StepDisrec(sim, idx, s);
      ReachesGrows(sim, idx, u, t);
      assert t.history[..|s.history|] == t.history[..|u.history|][..|s.history|];
    }
  }

  /** Every state the loop reaches from its start has a turn count within `MAX_TURNS`. */
  lemma {:induction false} ReachesBound(sim: UserSimulator, idx: LexicalIndex, s: State, t: State)
    requires s.turn <= MAX_TURNS && Reaches(sim, idx, s, t)
    ensures t.turn <= MAX_TURNS
    decreases MAX_TURNS - s.turn
  {
    if s != t {
      ReachesBound(sim, idx, Step(sim, idx, s).state, t);
    }
  }

  /** An ask turn raises exactly when the full ranking for the reformulated query is empty;
      otherwise it keeps the disliked ids and either clears the recommendations and asks
      again, when there are more than `N_REC` of them beyond the number of disliked ids,
      or recommends them all, even when there are none. */
  lemma AskDecision(sim: UserSimulator, idx: LexicalIndex, s: State)
    requires s.turn < MAX_TURNS && s.action == Ask
    ensures var query := ReformulateQuery(sim.llm, Interview(sim, idx, s));
            var all := idx.retrieve(query, |idx.corpus|);
            var n := Step(sim, idx, s);
            && (n.Stop? <==> all == [])
            && (n.Stop? ==> n.outcome == Raised(s.turn + 1))
            && (n.Continue? ==>
                  && n.state.query == query && n.state.disrec == s.disrec
                  && (|RecList(all)| - |s.disrec| > N_REC ==> n.state.action == Ask && n.state.recList == [])
                  && (|RecList(all)| - |s.disrec| <= N_REC ==> n.state.action == Rec && n.state.recList == RecList(all)))
  {
    assert Interview(sim, idx, s.(turn := s.turn + 1)) == Interview(sim, idx, s);
  }

  /** A recommendation turn ends the session exactly when the selection is among the shown
      ids; otherwise every shown id becomes disliked, the list is cleared and the next turn
      asks, with the history and query untouched. */
  lemma RecDecision(sim: UserSimulator, idx: LexicalIndex, s: State)
    requires s.turn < MAX_TURNS && s.action == Rec
    ensures var ids := Firsts(Shown(s.recList, s.disrec));
            var n := Step(sim, idx, s);
            && (n.Stop? <==> ChooseItem(sim, ids) in ids)
            && (n.Stop? ==> n.outcome == Returned(s.turn + 1))
            && (n.Continue? ==>
                  n.state == State(s.turn + 1, Ask, s.query, s.history, s.disrec + (set id | id in ids), []))
  {
  }

  /** Showing the wanted product ends the session on that turn. */
  lemma TargetShownEnds(sim: UserSimulator, idx: LexicalIndex, s: State)
    requires s.turn < MAX_TURNS && s.action == Rec
    requires sim.parentAsin in Firsts(Shown(s.recList, s.disrec))
    ensures Step(sim, idx, s) == Stop(Returned(s.turn + 1))
    ensures Run(sim, idx, s) == Returned(s.turn + 1)
  {
  }

  /** A shown document is a recommended one whose id is not disliked, and every such one is shown. */
  lemma {:induction false} ShownIff(recList: seq<Doc>, disrec: set<string>, d: Doc)
    ensures d in Shown(recList, disrec) <==> d in recList && d.0 !in disrec
    decreases |recList|
  {
    if recList != [] {
      var init := recList[..|recList| - 1];
      ShownIff(init, disrec, d);
      assert recList == init + [recList[|recList| - 1]];
    }
  }

  /** A disliked id is never shown. */
  lemma ShownNoDisliked(recList: seq<Doc>, disrec: set<string>)
    ensures forall i :: 0 <= i < |Shown(recList, disrec)| ==> Shown(recList, disrec)[i].0 !in disrec
  {
    forall i | 0 <= i < |Shown(recList, disrec)| ensures Shown(recList, disrec)[i].0 !in disrec {
      ShownIff(recList, disrec, Shown(recList, disrec)[i]);
    }
  }

  /** A document passes the filter exactly when some hit carries it with a scaled score
      above `CUTOFF`; whether its id is disliked plays no part. */
  lemma AboveCutoffIff(scaled: seq<Hit>, d: Doc)
    ensures d in AboveCutoff(scaled) <==>
              exists i :: 0 <= i < |scaled| && scaled[i].0 == d.0 && scaled[i].1 == d.1 && scaled[i].2 > CUTOFF
  {
    if d in AboveCutoff(scaled) {
      KeptIsAbove(scaled, d);
    }
    if i :| 0 <= i < |scaled| && scaled[i].0 == d.0 && scaled[i].1 == d.1 && scaled[i].2 > CUTOFF {
      AboveIsKept(scaled, i);
    }
  }

  /** Filtering a list is filtering all but its last hit, then the last. */
  lemma AboveCutoffSnoc(scaled: seq<Hit>)
    requires scaled != []
    ensures var last := scaled[|scaled| - 1];
            AboveCutoff(scaled) == AboveCutoff(scaled[..|scaled| - 1]) + (if last.2 > CUTOFF then [(last.0, last.1)] else [])
  {
  }

  lemma {:induction false} KeptIsAbove(scaled: seq<Hit>, d: Doc)
    requires d in AboveCutoff(scaled)
    ensures exists i :: 0 <= i < |scaled| && scaled[i].0 == d.0 && scaled[i].1 == d.1 && scaled[i].2 > CUTOFF
    decreases |scaled|
  {
    var init := scaled[..|scaled| - 1];
    AboveCutoffSnoc(scaled);
    if d in AboveCutoff(init) {
      KeptIsAbove(init, d);
      var i :| 0 <= i < |init| && init[i].0 == d.0 && init[i].1 == d.1 && init[i].2 > CUTOFF;
      assert scaled[i] == init[i];
    } else {
      assert scaled[|scaled| - 1].0 == d.0 && scaled[|scaled| - 1].1 == d.1;
    }
  }

  lemma {:induction false} AboveIsKept(scaled: seq<Hit>, i: nat)
    requires i < |scaled| && scaled[i].2 > CUTOFF
    ensures (scaled[i].0, scaled[i].1) in AboveCutoff(scaled)
    decreases |scaled|
  {
    var init := scaled[..|scaled| - 1];
    AboveCutoffSnoc(scaled);
    if i < |init| {
      assert init[i] == scaled[i];
      AboveIsKept(init, i);
    }
  }

  /** The filter keeps the ranking's order: filtering a concatenation filters each part
      and concatenates the results. */
  lemma {:induction false} AboveCutoffAppend(a: seq<Hit>, b: seq<Hit>)
    ensures AboveCutoff(a + b) == AboveCutoff(a) + AboveCutoff(b)
    decreases |b|
  {
    if b == [] {
      assert a + b == a;
    } else {
      var init := b[..|b| - 1];
      AboveCutoffAppend(a, init);
      assert (a + b)[..|a + b| - 1] == a + init;
      assert (a + b)[|a + b| - 1] == b[|b| - 1];
    }
  }

  /** Showing keeps the recommendations' order in the same sense. */
  lemma {:induction false} ShownAppend(a: seq<Doc>, b: seq<Doc>, disrec: set<string>)
    ensures Shown(a + b, disrec) == Shown(a, disrec) + Shown(b, disrec)
    decreases |b|
  {
    if b == [] {
      assert a + b == a;
    } else {
      var init := b[..|b| - 1];
      ShownAppend(a, init, disrec);
      assert (a + b)[..|a + b| - 1] == a + init;
      assert (a + b)[|a + b| - 1] == b[|b| - 1];
    }
  }

  /** Every scaled score lies in [0, 1]; when the scores differ the lowest scales to 0 and
      the highest to 1, and when they all tie every scaled score is 0. */
  lemma ScaledRange(all: seq<Hit>)
    requires all != []
    ensures var scores := ScoresOf(all);
            var scaled := Scaled(all, SeqMin(scores), SeqMax(scores));
            && (forall i :: 0 <= i < |all| ==> 0.0 <= scaled[i].2 <= 1.0)
            && (SeqMin(scores) == SeqMax(scores) ==> forall i :: 0 <= i < |all| ==> scaled[i].2 == 0.0)
            && (SeqMin(scores) < SeqMax(scores) ==>
                  (exists i :: 0 <= i < |all| && scaled[i].2 == 0.0) && (exists i :: 0 <= i < |all| && scaled[i].2 == 1.0))
  {
    var scores := ScoresOf(all);
    var lo, hi := SeqMin(scores), SeqMax(scores);
    var scaled := Scaled(all, lo, hi);
    forall i | 0 <= i < |all| ensures 0.0 <= scaled[i].2 <= 1.0 {
      assert lo <= scores[i] <= hi;
    }
    if lo < hi {
      var i :| 0 <= i < |scores| && scores[i] == lo;
      var j :| 0 <= j < |scores| && scores[j] == hi;
      assert scaled[i].2 == 0.0 && scaled[j].2 == 1.0;
    }
  }

  /** When every full-ranking score ties, nothing passes the filter, so the ask turn
      recommends an empty list instead of asking again. */
  lemma TiedScoresRecommendNothing(sim: UserSimulator, idx: LexicalIndex, s: State)
    requires s.turn < MAX_TURNS && s.action == Ask
    requires var all := idx.retrieve(ReformulateQuery(sim.llm, Interview(sim, idx, s)), |idx.corpus|);
             all != [] && forall i :: 0 <= i < |all| ==> all[i].2 == all[0].2
    ensures Step(sim, idx, s).Continue?
    ensures Step(sim, idx, s).state.action == Rec && Step(sim, idx, s).state.recList == []
  {
    var all := idx.retrieve(ReformulateQuery(sim.llm, Interview(sim, idx, s)), |idx.corpus|);
    var scores := ScoresOf(all);
    assert SeqMin(scores) == SeqMax(scores) by {
      var i :| 0 <= i < |scores| && scores[i] == SeqMin(scores);
      var j :| 0 <= j < |scores| && scores[j] == SeqMax(scores);
    }
    ScaledRange(all);
    var scaled := Scaled(all, SeqMin(scores), SeqMax(scores));
    if RecList(all) != [] {
      var d := RecList(all)[0];
      AboveCutoffIff(scaled, d);
    }
    AskDecision(sim, idx, s);
  }

  /** A recommendation turn with nothing to show selects "none" and goes back to asking
      with the disliked ids unchanged, so tied rankings make the session alternate. */
  lemma EmptyRecAsksAgain(sim: UserSimulator, idx: LexicalIndex, s: State)
    requires s.turn < MAX_TURNS && s.action == Rec && s.recList == []
    ensures Step(sim, idx, s) == Continue(s.(turn := s.turn + 1, action := Ask))
  {
    var ids := Firsts(Shown(s.recList, s.disrec));
    assert ids == [];
    assert (set id | id in ids) == {};
  }
}
