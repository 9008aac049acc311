/** Retrieval fusion and the text shaping around the language model (utils.py).
    The BM25 and vector retrievers are library calls and appear as oracles inside
    the two index values; the model proves what the fusion does with their hits. */
module Utils {
  import opened Text
  import opened Scores
  import opened Prompts

  /** A retrieved document: (id, text, score). */
  type Hit = (string, string, real)
  /** A corpus document: (id, text). */
  type Doc = (string, string)
  /** A question asked and the answer given. */
  type Turn = (string, string)

  /** `bm25_idx`: the corpus with its BM25 retriever, `retrieve(query, k)` being `bm25_search`. */
  datatype LexicalIndex = LexicalIndex(corpus: seq<Doc>, retrieve: (string, nat) -> seq<Hit>)
  /** `vec_idx`: the vector retriever, `retrieve(query, k)` being `semantic_search`. */
  datatype VectorIndex = VectorIndex(retrieve: (string, nat) -> seq<(string, real)>)

  const SEM_K_FACTOR: nat := 2
  const HYBRID_WEIGHT: real := 0.5

  // ---------------------------------------------------------------------------
  // Dictionaries built from (key, value) lists

  function KeysOf<V>(entries: seq<(string, V)>): set<string> {
    set i | 0 <= i < |entries| :: entries[i].0
  }

  /** Listing one more entry adds its key. */
  lemma KeysOfSnoc<V>(init: seq<(string, V)>, last: (string, V))
    ensures KeysOf(init + [last]) == KeysOf(init) + {last.0}
  {
    var entries := init + [last];
    forall k | k in KeysOf(entries) ensures k in KeysOf(init) + {last.0} {
      var i :| 0 <= i < |entries| && entries[i].0 == k;
      if i < |init| { assert init[i] == entries[i]; }
    }
    forall k | k in KeysOf(init) ensures k in KeysOf(entries) {
      var i :| 0 <= i < |init| && init[i].0 == k;
      assert entries[i] == init[i];
    }
    assert entries[|init|] == last;
  }

  /** No entry after the `i`-th has the same key. */
  ghost predicate LastFor<V>(entries: seq<(string, V)>, i: nat)
    requires i < |entries|
  {
    forall j :: i < j < |entries| ==> entries[j].0 != entries[i].0
  }

  /** An entry last for its key, other than the final one, is last for its key among the
      entries before the final one, and its key differs from the final key. */
  lemma LastForInit<V>(entries: seq<(string, V)>)
    requires entries != []
    ensures forall i :: 0 <= i < |entries| - 1 && LastFor(entries, i) ==>
              LastFor(entries[..|entries| - 1], i) && entries[i].0 != entries[|entries| - 1].0
  {
  }

  /** `{k: v for k, v in entries}`: every key listed, a repeated key keeping its last value. */
  function Dict<V>(entries: seq<(string, V)>): (d: map<string, V>)
    ensures d.Keys == KeysOf(entries)
    ensures forall k :: k in d ==> (k, d[k]) in entries
    ensures entries != [] ==> d[entries[|entries| - 1].0] == entries[|entries| - 1].1
    ensures forall i :: 0 <= i < |entries| && LastFor(entries, i) ==> d[entries[i].0] == entries[i].1
  {
    if entries == [] then map[]
    else
      var init := entries[..|entries| - 1];
      var last := entries[|entries| - 1];
      KeysOfSnoc(init, last);
      assert init + [last] == entries;
      LastForInit(entries);
      Dict(init)[last.0 := last.1]
  }

  /** The (id, score) pairs of BM25 hits. */
  function ScorePairs(hits: seq<Hit>): (r: seq<(string, real)>)
    ensures |r| == |hits|
    ensures forall i :: 0 <= i < |hits| ==> r[i] == (hits[i].0, hits[i].2)
  {
    seq(|hits|, i requires 0 <= i < |hits| => (hits[i].0, hits[i].2))
  }

  /** `bm25_dict` of `hybrid_search(query, ..., k)`. */
  function Bm25Dict(query: string, idx: LexicalIndex, k: nat): map<string, real> {
    Dict(ScorePairs(idx.retrieve(query, k * SEM_K_FACTOR)))
  }

  /** `sem_dict` of `hybrid_search(query, ..., k)`. */
  function SemDict(query: string, vec: VectorIndex, k: nat): map<string, real> {
    Dict(vec.retrieve(query, k * SEM_K_FACTOR))
  }

  /** `docs_all`: every id either modality returned. */
  function Candidates(query: string, idx: LexicalIndex, vec: VectorIndex, k: nat): set<string> {
    Bm25Dict(query, idx, k).Keys + SemDict(query, vec, k).Keys
  }

  // ---------------------------------------------------------------------------
  // Normalisation and fusion

  /** The modality minimum, 0 for a modality with no hits. */
  ghost function Low(d: map<string, real>): real {
    if d == map[] then 0.0 else Least(d.Values)
  }

  /** The modality maximum, 0 for a modality with no hits. */
  ghost function High(d: map<string, real>): real {
    if d == map[] then 0.0 else Greatest(d.Values)
  }

  /** `norm(d.get(pid, min), min, max)`: an absent id takes the modality minimum. */
  ghost function Normalised(d: map<string, real>, pid: string): real {
    Norm(if pid in d then d[pid] else Low(d), Low(d), High(d))
  }

  /** `w * bm + (1 - w) * sm`. */
  function Mix(w: real, bm: real, sm: real): real {
    w * bm + (1.0 - w) * sm
  }

  /** The hybrid score `hybrid_search` gives `pid`. */
  ghost function HybridScore(bm: map<string, real>, sm: map<string, real>, w: real, pid: string): real {
    Mix(w, Normalised(bm, pid), Normalised(sm, pid))
  }

  /** Every normalised score lies in [0, 1]. */
  lemma NormalisedInUnit(d: map<string, real>, pid: string)
    ensures 0.0 <= Normalised(d, pid) <= 1.0
  {
    if pid in d {
      assert d[pid] in d.Values;
    }
  }

  /** An id a modality did not return scores 0 there, and so does every id of an empty modality. */
  lemma AbsentScoresZero(d: map<string, real>, pid: string)
    requires pid !in d
    ensures Normalised(d, pid) == 0.0
  {
  }

  /** Within one modality the highest hit normalises to 1 and the lowest to 0, unless all tie. */
  lemma NormalisedExtremes(d: map<string, real>, hiId: string, loId: string)
    requires hiId in d && loId in d
    requires forall p :: p in d ==> d[loId] <= d[p] <= d[hiId]
    ensures d[hiId] == d[loId] ==> forall p :: Normalised(d, p) == 0.0
    ensures d[hiId] != d[loId] ==> Normalised(d, hiId) == 1.0 && Normalised(d, loId) == 0.0
  {
    assert d[hiId] in d.Values && d[loId] in d.Values;
    assert Low(d) == d[loId] by {
      forall v | v in d.Values ensures d[loId] <= v { var p :| p in d && d[p] == v; }
    }
    assert High(d) == d[hiId] by {
      forall v | v in d.Values ensures v <= d[hiId] { var p :| p in d && d[p] == v; }
    }
  }

  /** With a weight in [0, 1] every hybrid score lies in [0, 1]. */
  lemma HybridScoreInUnit(bm: map<string, real>, sm: map<string, real>, w: real, pid: string)
    requires 0.0 <= w <= 1.0
    ensures 0.0 <= HybridScore(bm, sm, w, pid) <= 1.0
  {
    NormalisedInUnit(bm, pid);
    NormalisedInUnit(sm, pid);
    Convex(w, Normalised(bm, pid), Normalised(sm, pid));
  }

  /** `id_to_text.get(pid, "")` with `id_to_text = {d["id"]: d["text"] for d in corpus}`. */
  function TextOf(corpus: seq<Doc>, pid: string): (t: string)
    ensures pid in KeysOf(corpus) ==> (pid, t) in corpus
    ensures pid !in KeysOf(corpus) ==> t == ""
  {
    var texts := Dict(corpus);
    if pid in texts then texts[pid] else ""
  }

  function IdsOf(hits: seq<Hit>): seq<string> {
    seq(|hits|, i requires 0 <= i < |hits| => hits[i].0)
  }

  /** `hybrid_search(query, idx, vec, k, w)`: fuse both modalities' top `k * SEM_K_FACTOR`
      hits and return the `k` best ids with their corpus text and hybrid score. */
  method HybridSearch(query: string, idx: LexicalIndex, vec: VectorIndex, k: nat, w: real)
    returns (topk: seq<Hit>)
    ensures |topk| == if k <= |Candidates(query, idx, vec, k)| then k else |Candidates(query, idx, vec, k)|
    ensures forall i :: 0 <= i < |topk| ==> topk[i].0 in Candidates(query, idx, vec, k)
    ensures forall i, j :: 0 <= i < j < |topk| ==> topk[i].0 != topk[j].0
    ensures forall i :: 0 <= i < |topk| ==>
              topk[i].2 == HybridScore(Bm25Dict(query, idx, k), SemDict(query, vec, k), w, topk[i].0)
    ensures forall i, j :: 0 <= i < j < |topk| ==> topk[i].2 >= topk[j].2
    ensures forall pid :: pid in Candidates(query, idx, vec, k) && pid !in IdsOf(topk) ==>
              forall i :: 0 <= i < |topk| ==>
                HybridScore(Bm25Dict(query, idx, k), SemDict(query, vec, k), w, pid) <= topk[i].2
    ensures forall i :: 0 <= i < |topk| ==> topk[i].1 == TextOf(idx.corpus, topk[i].0)
  {
    var scoredDocs := FuseScores(query, idx, vec, k, w);
    ghost var bm, sm, cands := Bm25Dict(query, idx, k), SemDict(query, vec, k), Candidates(query, idx, vec, k);
    topk := RankTop(scoredDocs, k, idx.corpus);
    forall i | 0 <= i < |topk| ensures topk[i].0 in cands && topk[i].2 == HybridScore(bm, sm, w, topk[i].0) {
      assert (topk[i].0, topk[i].2) in scoredDocs;
    }
    forall pid | pid in cands && pid !in IdsOf(topk)
      ensures forall i :: 0 <= i < |topk| ==> HybridScore(bm, sm, w, pid) <= topk[i].2
    {
      assert (pid, HybridScore(bm, sm, w, pid)) in scoredDocs;
    }
  }

  /** The scoring half of `hybrid_search`: retrieve `k * SEM_K_FACTOR` hits per modality,
      find each modality's range and give every candidate its hybrid score, once. */
  method FuseScores(query: string, idx: LexicalIndex, vec: VectorIndex, k: nat, w: real)
    returns (scoredDocs: seq<(string, real)>)
    ensures forall i, j :: 0 <= i < j < |scoredDocs| ==> scoredDocs[i].0 != scoredDocs[j].0
    ensures |scoredDocs| == |Candidates(query, idx, vec, k)|
    ensures forall e :: e in scoredDocs ==>
              e.0 in Candidates(query, idx, vec, k) &&
              e.1 == HybridScore(Bm25Dict(query, idx, k), SemDict(query, vec, k), w, e.0)
    ensures forall pid :: pid in Candidates(query, idx, vec, k) ==>
              (pid, HybridScore(Bm25Dict(query, idx, k), SemDict(query, vec, k), w, pid)) in scoredDocs
  {
    var bm25Hits := idx.retrieve(query, k * SEM_K_FACTOR);
    var semHits := vec.retrieve(query, k * SEM_K_FACTOR);
    var bm25Dict := Dict(ScorePairs(bm25Hits));
    var semDict := Dict(semHits);

    var bmMin, bmMax := DictRange(bm25Dict);
    var smMin, smMax := DictRange(semDict);

    var docsAll := bm25Dict.Keys + semDict.Keys;
    scoredDocs := ScoreCandidates(docsAll, bm25Dict, semDict, w, bmMin, bmMax, smMin, smMax);
    ScoredEntries(docsAll, scoredDocs, bm25Dict, semDict, w);
    DistinctKeysCount(scoredDocs);
  }

  /** `min(d.values())` and `max(d.values())`, both 0 for an empty modality. */
  method DictRange(d: map<string, real>) returns (lo: real, hi: real)
    ensures lo == Low(d) && hi == High(d)
  {
    lo, hi := 0.0, 0.0;
    if d != map[] {
      assert d.Values != {} by { var p :| p in d; assert d[p] in d.Values; }
      lo, hi := MinMax(d.Values);
    }
  }

  /** Entries listing each key once with its hybrid score hold exactly the keys' scored pairs. */
  lemma ScoredEntries(keys: set<string>, entries: seq<(string, real)>, bm: map<string, real>, sm: map<string, real>, w: real)
    requires KeysOf(entries) == keys
    requires forall i :: 0 <= i < |entries| ==> entries[i].1 == HybridScore(bm, sm, w, entries[i].0)
    ensures forall pid :: pid in keys ==> (pid, HybridScore(bm, sm, w, pid)) in entries
    ensures forall e :: e in entries ==> e.0 in keys && e.1 == HybridScore(bm, sm, w, e.0)
  {
    forall pid | pid in keys ensures (pid, HybridScore(bm, sm, w, pid)) in entries {
      var j :| 0 <= j < |entries| && entries[j].0 == pid;
    }
    forall e | e in entries ensures e.0 in keys && e.1 == HybridScore(bm, sm, w, e.0) {
      var j :| 0 <= j < |entries| && entries[j] == e;
    }
  }

  /** The tail of `hybrid_search`: sort the (id, score) entries by descending score, keep
      the first `k` and attach each id's corpus text. The result holds `min(k, n)` distinct
      ids in non-increasing score order, each with its own entry's score, and no entry
      left out scores above one kept. */
  function RankTop(scored: seq<(string, real)>, k: nat, corpus: seq<Doc>): (topk: seq<Hit>)
    requires forall i, j :: 0 <= i < j < |scored| ==> scored[i].0 != scored[j].0
    ensures |topk| == if k <= |scored| then k else |scored|
    ensures forall i :: 0 <= i < |topk| ==> (topk[i].0, topk[i].2) in scored
    ensures forall i, j :: 0 <= i < j < |topk| ==> topk[i].0 != topk[j].0
    ensures forall i, j :: 0 <= i < j < |topk| ==> topk[i].2 >= topk[j].2
    ensures forall e :: e in scored && e.0 !in IdsOf(topk) ==>
              forall i :: 0 <= i < |topk| ==> e.1 <= topk[i].2
    ensures forall i :: 0 <= i < |topk| ==> topk[i].1 == TextOf(corpus, topk[i].0)
  {
    var top := Take(SortDesc(scored), k);
    TopFacts(scored, k);
    IdsOfWithTexts(top, corpus);
    WithTexts(top, corpus)
  }

  /** Every kept entry is one of the input entries. */
  lemma TopMembers(scored: seq<(string, real)>, k: nat)
    ensures forall i :: 0 <= i < |Take(SortDesc(scored), k)| ==> Take(SortDesc(scored), k)[i] in scored
  {
    var sorted := SortDesc(scored);
    forall i | 0 <= i < |Take(sorted, k)| ensures Take(sorted, k)[i] in scored {
      assert sorted[i] in multiset(scored);
    }
  }

  /** The first `k` of a stable descending sort of entries with distinct keys: as many as
      there are, sorted, distinct, drawn from the input, and none left out scores higher. */
  lemma TopFacts(scored: seq<(string, real)>, k: nat)
    requires DistinctKeys(scored)
    ensures var top := Take(SortDesc(scored), k);
            && |top| == (if k <= |scored| then k else |scored|)
            && SortedDesc(top) && DistinctKeys(top)
            && (forall i :: 0 <= i < |top| ==> top[i] in scored)
            && (forall e :: e in scored && e.0 !in KeysOf(top) ==> forall i :: 0 <= i < |top| ==> e.1 <= top[i].1)
  {
    SortDescSorted(scored);
    SortDescDistinct(scored);
    TopMembers(scored, k);
    TopBeatsRest(scored, k);
  }

  /** Every key of the ranked entries is an id of the hits built from them. */
  lemma IdsOfWithTexts(top: seq<(string, real)>, corpus: seq<Doc>)
    ensures forall pid :: pid in KeysOf(top) ==> pid in IdsOf(WithTexts(top, corpus))
  {
    var hits := WithTexts(top, corpus);
    forall pid | pid in KeysOf(top) ensures pid in IdsOf(hits) {
      var i :| 0 <= i < |top| && top[i].0 == pid;
      assert IdsOf(hits)[i] == pid;
    }
  }

  /** No entry outside the first `k` of the sorted list scores above an entry inside. */
  lemma TopBeatsRest(scored: seq<(string, real)>, k: nat)
    requires SortedDesc(SortDesc(scored))
    ensures forall e :: e in scored && e.0 !in KeysOf(Take(SortDesc(scored), k)) ==>
              forall i :: 0 <= i < |Take(SortDesc(scored), k)| ==> e.1 <= Take(SortDesc(scored), k)[i].1
  {
    var sorted := SortDesc(scored);
    var top := Take(sorted, k);
    forall e | e in scored && e.0 !in KeysOf(top)
      ensures forall i :: 0 <= i < |top| ==> e.1 <= top[i].1
    {
      assert e in multiset(sorted);
      var j :| 0 <= j < |sorted| && sorted[j] == e;
    }
  }

  /** `[(pid, id_to_text.get(pid, ""), score) for pid, score in top]`. */
  function WithTexts(top: seq<(string, real)>, corpus: seq<Doc>): (r: seq<Hit>)
    ensures |r| == |top|
    ensures forall i :: 0 <= i < |top| ==> r[i] == (top[i].0, TextOf(corpus, top[i].0), top[i].1)
  {
    var idToText := Dict(corpus);
    seq(|top|, i requires 0 <= i < |top| =>
          (top[i].0, if top[i].0 in idToText then idToText[top[i].0] else "", top[i].1))
  }

  /** The `for pid in docs_all` loop of `hybrid_search`: one (id, hybrid score) entry per
      candidate, in the set's iteration order, which the model leaves unspecified. */
  method ScoreCandidates(docsAll: set<string>, bm25Dict: map<string, real>, semDict: map<string, real>,
                         w: real, bmMin: real, bmMax: real, smMin: real, smMax: real)
    returns (scoredDocs: seq<(string, real)>)
    requires bmMin == Low(bm25Dict) && bmMax == High(bm25Dict)
    requires smMin == Low(semDict) && smMax == High(semDict)
    ensures forall i, j :: 0 <= i < j < |scoredDocs| ==> scoredDocs[i].0 != scoredDocs[j].0
    ensures KeysOf(scoredDocs) == docsAll
    ensures forall i :: 0 <= i < |scoredDocs| ==>
              scoredDocs[i].1 == HybridScore(bm25Dict, semDict, w, scoredDocs[i].0)
  {
    scoredDocs := [];
    var rest := docsAll;
    while rest != {}
      invariant rest <= docsAll
      invariant DistinctKeys(scoredDocs) && KeysOf(scoredDocs) == docsAll - rest
      invariant AllHybrid(scoredDocs, bm25Dict, semDict, w)
      decreases |rest|
    {
      var pid :| pid in rest;
      var bm := Norm(if pid in bm25Dict then bm25Dict[pid] else bmMin, bmMin, bmMax);
      var sm := Norm(if pid in semDict then semDict[pid] else smMin, smMin, smMax);
      var hybrid := Mix(w, bm, sm);
      assert hybrid == HybridScore(bm25Dict, semDict, w, pid);
      KeysOfSnoc(scoredDocs, (pid, hybrid));
      ScoredSnoc(scoredDocs, (pid, hybrid), bm25Dict, semDict, w);
      scoredDocs := scoredDocs + [(pid, hybrid)];
      rest := rest - {pid};
    }
  }

  ghost predicate DistinctKeys<V>(entries: seq<(string, V)>) {
    forall i, j :: 0 <= i < j < |entries| ==> entries[i].0 != entries[j].0
  }

  ghost predicate AllHybrid(entries: seq<(string, real)>, bm: map<string, real>, sm: map<string, real>, w: real) {
    forall i :: 0 <= i < |entries| ==> entries[i].1 == HybridScore(bm, sm, w, entries[i].0)
  }

  /** Appending a correctly scored entry under a new key keeps both loop facts. */
  lemma ScoredSnoc(entries: seq<(string, real)>, e: (string, real), bm: map<string, real>, sm: map<string, real>, w: real)
    requires DistinctKeys(entries) && AllHybrid(entries, bm, sm, w)
    requires e.0 !in KeysOf(entries) && e.1 == HybridScore(bm, sm, w, e.0)
    ensures DistinctKeys(entries + [e]) && AllHybrid(entries + [e], bm, sm, w)
  {
    var all := entries + [e];
    forall i | 0 <= i < |entries| ensures all[i] == entries[i] && all[i].0 != e.0 {
      assert entries[i].0 in KeysOf(entries);
    }
  }

  /** A list whose keys are pairwise distinct has as many entries as keys. */
  lemma {:induction false} DistinctKeysCount<V>(entries: seq<(string, V)>)
    requires forall i, j :: 0 <= i < j < |entries| ==> entries[i].0 != entries[j].0
    ensures |KeysOf(entries)| == |entries|
    decreases |entries|
  {
    if entries != [] {
      var init := entries[..|entries| - 1];
      var last := entries[|entries| - 1];
      DistinctKeysCount(init);
      KeysOfSnoc(init, last);
      assert init + [last] == entries;
      assert last.0 !in KeysOf(init);
    }
  }

  // ---------------------------------------------------------------------------
  // Text shaping around the language model

  /** `f"Q: {q}\nA: {a}"`, one turn of the reformulation history. */
  function HistoryLine(t: Turn): string {
    "Q: " + t.0 + "\nA: " + t.1
  }

  /** `history_txt` of `reformulate_query`: the turns' lines joined by newlines. */
  function HistoryText(turns: seq<Turn>): string {
    Join("\n", seq(|turns|, i requires 0 <= i < |turns| => HistoryLine(turns[i])))
  }

  /** `f"Q: {turn[0]} A: {turn[1]}"`, one turn of the disambiguation context. */
  function ContextLine(t: Turn): string {
    "Q: " + t.0 + " A: " + t.1
  }

  /** `context` of `ask_disambiguation`. */
  function Context(turns: seq<Turn>): string {
    if turns == [] then "None so far."
    else Join("\n", seq(|turns|, i requires 0 <= i < |turns| => ContextLine(turns[i])))
  }

  /** `f"{pid} · {text}"` for each hit given to the question prompt. */
  function Snippets(docs: seq<Hit>): (r: seq<string>)
    ensures |r| == |docs|
    ensures forall i :: 0 <= i < |docs| ==> r[i] == docs[i].0 + " \U{00B7} " + docs[i].1
  {
    seq(|docs|, i requires 0 <= i < |docs| => docs[i].0 + " \U{00B7} " + docs[i].1)
  }

  /** Appending a hit extends the question prompt's items text by a newline and that hit's
      snippet; the earlier text is never rewritten. */
  lemma SnippetsTextAppend(docs: seq<Hit>, d: Hit)
    ensures Join("\n", Snippets(docs + [d])) ==
              (if docs == [] then "" else Join("\n", Snippets(docs)) + "\n") + d.0 + " \U{00B7} " + d.1
  {
    assert Snippets(docs + [d]) == Snippets(docs) + [d.0 + " \U{00B7} " + d.1];
    if docs != [] { JoinSnoc("\n", Snippets(docs), d.0 + " \U{00B7} " + d.1); }
  }

  /** The items text starts with the first hit's id followed by a middle dot, so it is empty
      exactly when there are no hits. */
  lemma SnippetsTextStartsWithFirstId(docs: seq<Hit>)
    requires docs != []
    ensures |docs[0].0| + 3 <= |Join("\n", Snippets(docs))|
    ensures Join("\n", Snippets(docs))[..|docs[0].0| + 3] == docs[0].0 + " \U{00B7} "
  {
    JoinStartsWithFirst("\n", Snippets(docs));
    var first := Snippets(docs)[0];
    assert first[..|docs[0].0| + 3] == docs[0].0 + " \U{00B7} ";
  }

  /** `flat` of `summarise_docs`: each document as `[pid]\ntext`, separated by a blank line. */
  function SummaryInput(docs: seq<Doc>): string {
    Join("\n\n", seq(|docs|, i requires 0 <= i < |docs| => SummaryBlock(docs[i])))
  }

  /** One document of the summary input: its id in brackets, then its text on the next line. */
  function SummaryBlock(d: Doc): string {
    "[" + d.0 + "]\n" + d.1
  }

  /** Appending a document extends the summary input by a blank line and that document's
      block; the earlier text is never rewritten. */
  lemma SummaryInputAppend(docs: seq<Doc>, d: Doc)
    ensures SummaryInput(docs + [d]) ==
              (if docs == [] then "" else SummaryInput(docs) + "\n\n") + SummaryBlock(d)
  {
    var blocks := seq(|docs|, i requires 0 <= i < |docs| => SummaryBlock(docs[i]));
    var blocks' := seq(|docs + [d]|, i requires 0 <= i < |docs + [d]| => SummaryBlock((docs + [d])[i]));
    assert blocks' == blocks + [SummaryBlock(d)];
    if docs != [] { JoinSnoc("\n\n", blocks, SummaryBlock(d)); }
  }

  /** The summary input is empty exactly when there are no documents. */
  lemma SummaryInputEmptyIff(docs: seq<Doc>)
    ensures SummaryInput(docs) == "" <==> docs == []
  {
    if docs != [] {
      var blocks := seq(|docs|, i requires 0 <= i < |docs| => SummaryBlock(docs[i]));
      JoinStartsWithFirst("\n\n", blocks);
      assert SummaryInput(docs)[0] == '[';
    }
  }

  /** Appending a turn extends the reformulation history by a newline and that turn's line;
      the earlier text is never rewritten. */
  lemma HistoryTextAppend(turns: seq<Turn>, t: Turn)
    ensures HistoryText(turns + [t]) ==
              (if turns == [] then "" else HistoryText(turns) + "\n") + HistoryLine(t)
  {
    var lines := seq(|turns|, i requires 0 <= i < |turns| => HistoryLine(turns[i]));
    var lines' := seq(|turns + [t]|, i requires 0 <= i < |turns + [t]| => HistoryLine((turns + [t])[i]));
    assert lines' == lines + [HistoryLine(t)];
    if turns != [] { JoinSnoc("\n", lines, HistoryLine(t)); }
  }

  /** The history text is empty exactly when there are no turns. */
  lemma HistoryTextEmptyIff(turns: seq<Turn>)
    ensures HistoryText(turns) == "" <==> turns == []
  {
    if turns != [] {
      var lines := seq(|turns|, i requires 0 <= i < |turns| => HistoryLine(turns[i]));
      JoinStartsWithFirst("\n", lines);
      assert HistoryText(turns)[0] == 'Q';
    }
  }

  /** The context is the literal "None so far." exactly when there are no turns. */
  lemma ContextNoneIff(turns: seq<Turn>)
    ensures Context(turns) == "None so far." <==> turns == []
  {
    if turns != [] {
      var lines := seq(|turns|, i requires 0 <= i < |turns| => ContextLine(turns[i]));
      JoinStartsWithFirst("\n", lines);
      assert Context(turns)[0] == 'Q';
    }
  }

  /** `reformulate_query`: the model's stripped reply to the history prompt. */
  function ReformulateQuery(llm: Llm, turns: seq<Turn>): (q: string)
    ensures q == [] || (!IsSpace(q[0]) && !IsSpace(q[|q| - 1]))
  {
    Strip(llm(ReformPrompt(HistoryText(turns))))
  }

  /** `rewrite_query`: the model's stripped reply to the rewrite prompt. */
  function RewriteQuery(llm: Llm, userInput: string): (q: string)
    ensures q == [] || (!IsSpace(q[0]) && !IsSpace(q[|q| - 1]))
  {
    Strip(llm(RewritePrompt(userInput)))
  }

  /** `summarise_docs`: the model's stripped reply to the summary prompt. */
  function SummariseDocs(llm: Llm, docs: seq<Doc>): (s: string)
    ensures s == [] || (!IsSpace(s[0]) && !IsSpace(s[|s| - 1]))
  {
    Strip(llm(SummaryPrompt(SummaryInput(docs))))
  }

  /** `ask_disambiguation`: the model's stripped reply to the question prompt built from
      the hits' snippets and the conversation context. */
  function AskDisambiguation(llm: Llm, docs: seq<Hit>, turns: seq<Turn>): (q: string)
    ensures q == [] || (!IsSpace(q[0]) && !IsSpace(q[|q| - 1]))
  {
    Strip(llm(QuestionPrompt(Join("\n", Snippets(docs)), Context(turns))))
  }

  /** The reformulated query is the model's reply to the history prompt with only
      leading and trailing whitespace removed. */
  lemma ReformulateQueryIsReply(llm: Llm, turns: seq<Turn>)
    ensures var r := llm(ReformPrompt(HistoryText(turns)));
              exists i, j :: 0 <= i <= j <= |r| && ReformulateQuery(llm, turns) == r[i..j]
                && (forall k :: 0 <= k < i ==> IsSpace(r[k]))
                && (forall k :: j <= k < |r| ==> IsSpace(r[k]))
  {
    StripInfix(llm(ReformPrompt(HistoryText(turns))));
  }

  /** The rewritten query is the model's reply to the rewrite prompt with only leading
      and trailing whitespace removed. */
  lemma RewriteQueryIsReply(llm: Llm, userInput: string)
    ensures var r := llm(RewritePrompt(userInput));
              exists i, j :: 0 <= i <= j <= |r| && RewriteQuery(llm, userInput) == r[i..j]
                && (forall k :: 0 <= k < i ==> IsSpace(r[k]))
                && (forall k :: j <= k < |r| ==> IsSpace(r[k]))
  {
    StripInfix(llm(RewritePrompt(userInput)));
  }

  /** The summary is the model's reply to the summary prompt with only leading and
      trailing whitespace removed. */
  lemma SummariseDocsIsReply(llm: Llm, docs: seq<Doc>)
    ensures var r := llm(SummaryPrompt(SummaryInput(docs)));
              exists i, j :: 0 <= i <= j <= |r| && SummariseDocs(llm, docs) == r[i..j]
                && (forall k :: 0 <= k < i ==> IsSpace(r[k]))
                && (forall k :: j <= k < |r| ==> IsSpace(r[k]))
  {
    StripInfix(llm(SummaryPrompt(SummaryInput(docs))));
  }

  /** The clarifying question is the model's reply to the question prompt with only
      leading and trailing whitespace removed. */
  lemma AskDisambiguationIsReply(llm: Llm, docs: seq<Hit>, turns: seq<Turn>)
    ensures var r := llm(QuestionPrompt(Join("\n", Snippets(docs)), Context(turns)));
              exists i, j :: 0 <= i <= j <= |r| && AskDisambiguation(llm, docs, turns) == r[i..j]
                && (forall k :: 0 <= k < i ==> IsSpace(r[k]))
                && (forall k :: j <= k < |r| ==> IsSpace(r[k]))
  {
    var r := llm(QuestionPrompt(Join("\n", Snippets(docs)), Context(turns)));
    StripInfix(r);
    var i, j :| 0 <= i <= j <= |r| && Strip(r) == r[i..j]
      && (forall k :: 0 <= k < i ==> IsSpace(r[k]))
      && (forall k :: j <= k < |r| ==> IsSpace(r[k]));
    assert AskDisambiguation(llm, docs, turns) == r[i..j];
    assert r == llm(QuestionPrompt(Join("\n", Snippets(docs)), Context(turns)));
  }
}
