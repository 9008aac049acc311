# Conversational book search: a verified model of its core

The repository runs a conversational product search over Amazon book data. A
simulated shopper, played by a language model, knows the book it wants. The search
agent then repeats two moves:

- it asks a clarifying question, reformulates the query and re-ranks the whole
  corpus with BM25;
- it recommends the candidates whose min–max scaled score clears a cutoff.

Around this loop sit a hybrid (lexical plus vector) score fusion, a rule-based
enrichment step that turns raw book metadata and reviews into genres, themes,
aspects, complexity and audience, and a preference profile. The profile is
generated from an enriched book, updated from feedback, and used to answer
questions.

The Dafny project models these pieces:

| file | module | models |
|---|---|---|
| `text.dfy` | `Text` | the string operations the code relies on: `in`, `count`, `strip`, `lower`, `join` |
| `scores.dfy` | `Scores` | the min–max `norm` rule, `min`/`max`, and the stable descending sort |
| `prompts.dfy` | `Prompts` | the language model as an oracle from filled-in prompt to reply |
| `utils.dfy` | `Utils` | `hybrid_search` and the history, context and summary texts fed to the model |
| `simulator.dfy` | `Simulator` | the simulated user and its `choose_item` rule |
| `session.dfy` | `Session` | `run_simulator`, the ask/recommend state machine |
| `productinfo.dfy` | `ProductInfo` | `BooksProductInfo`, the search document, and the rule-based extractor with its two memo caches |
| `profile.dfy` | `Profile` | `BooksUserProfile` and `BooksUserProfileGenerator` |

The following are oracles: the BM25 and vector retrievers, the language model,
`json.loads` and the clock. They are parameters or function-valued fields, so every
property below holds for every answer they could give.

Scores, weights and confidences are `real`. Python's `str.lower()` is modelled for
ASCII capitals only. `str.isspace` uses its fixed character list, and the regular
expression classes `\d` and `\s` are ASCII digits and that same list.

How the state is modelled follows the source:

- Loops in the source are `method`s whose loops carry invariants: the session
  loop, the score fusion, the genre and theme scans, the confidence nudge, conflict
  removal, genre expansion and contrast genres. Each is proved equal to a
  specification function, or stated directly.
- The two objects the source updates in place are classes: the extractor, with its
  caches, and the profile, with its weight and confidence maps.
- Everything else is a function.

### Behaviour of the code worth noting

- **Recommendation cutoff.** The filter compares scaled scores with the literal
  `0.7` (run_agent_hw3_simulator.py:71). `THRESHOLD = 1.0` is never read; it appears
  as `Session.THRESHOLD`, unused.
- **Disliked ids.** The list built on an ask turn does not exclude disliked ids. Only
  the recommendation turn filters them out (run_agent_hw3_simulator.py:71, 81).
- **"Too many" test.** The test is a difference of counts,
  `len(rec_list) - len(disrec) > N_REC`, not the size of a set difference.
- **Tied scores.** When every score ties, nothing passes the filter. An empty list
  passes the "too many" test, so the session does not stay in ASK. It alternates
  between an ask turn and a recommendation turn with nothing to show
  (`Session.TiedScoresRecommendNothing`, `Session.EmptyRecAsksAgain`).
- **Conflicts after an update.** `update_from_interaction` never re-runs conflict
  resolution (books_user_profile.py:46-54).
- **Selecting a new item.** Selecting an item with no weight sets the weight to
  exactly 0.7. Its confidence ends at 0.5 + 0.1 + 0.01 = 0.61.
- **Rejecting a new item.** Rejecting an item with no weight creates no weight at
  all.

## Model

| member | source | states |
|---|---|---|
| `Text.Strip` | utils.py:220 | `str.strip()`: the result is empty or neither begins nor ends with whitespace |
| `Text.StripInfix` | utils.py:220 | the stripped text is an infix of the input with only whitespace before and after it |
| `Text.StripIdempotent` | utils.py:220 | stripping a stripped text changes nothing |
| `Text.CountPositiveIffContains` | books_product_info.py:245 | a non-empty keyword is counted at least once exactly when it is a substring |
| `Text.CountBound` | books_product_info.py:245 | non-overlapping occurrences times the keyword length never exceed the text length |
| `Text.ContainsIffOccurs` | books_product_info.py:216 | `kw in text` holds exactly when some window of the text equals `kw` |
| `Text.JoinStartsWithFirst` | utils.py:237 | a join of a non-empty list begins with its first part |
| `Text.JoinLength` | books_product_info.py:61 | a join's length is the parts' lengths plus one separator between each two |
| `Scores.Norm` | utils.py:178-179 | 0.0 for a degenerate range; a value within the range maps into [0,1], the minimum to 0 and the maximum to 1 |
| `Scores.NormMonotone` | utils.py:178-179 | normalisation preserves the order of scores |
| `Scores.Convex` | utils.py:189 | `w*bm + (1-w)*sm` lies in [0,1] when w, bm and sm do |
| `Scores.SeqMin` | run_agent_hw3_simulator.py:58 | `min(scores)` is one of the scores and no score is smaller |
| `Scores.SeqMax` | run_agent_hw3_simulator.py:59 | `max(scores)` is one of the scores and no score is larger |
| `Scores.HasExtremes` | utils.py:170 | a non-empty set of scores has a least and a greatest member |
| `Scores.MinMax` | utils.py:169-176 | the loop over a non-empty set of values returns its least and greatest members |
| `Scores.SortDesc` | utils.py:193 | `sort(key=score, reverse=True)` returns a permutation of its input |
| `Scores.SortDescSorted` | utils.py:193 | the sorted list is non-increasing by score |
| `Scores.SortDescStable` | books_product_info.py:248 | entries with equal scores keep their input order |
| `Scores.SortDescDistinct` | utils.py:193 | sorting introduces no repeated ids |
| `Scores.InsertDescSorted` | utils.py:193 | inserting an entry into a non-increasing list keeps it non-increasing |
| `Scores.InsertDescWithScore` | books_product_info.py:248 | an inserted entry goes after every entry of its score already in the list |
| `Scores.SortDescFrontIsFirstMaximal` | books_user_profile.py:92-94 | the first sorted entry is the earliest input entry with the greatest score |
| `Utils.Dict` | utils.py:165-166 | a dict comprehension has exactly the listed keys, each value comes from the list, and every key maps to the value of its last entry |
| `Utils.NormalisedInUnit` | utils.py:168-179 | every normalised modality score lies in [0,1] |
| `Utils.AbsentScoresZero` | utils.py:187-188 | an id missing from a modality (or an empty modality) is scored at that modality's minimum, so it normalises to 0 |
| `Utils.NormalisedExtremes` | utils.py:169-179 | when all scores tie every normalised score is 0; otherwise the top id gets 1 and the bottom id gets 0 |
| `Utils.HybridScoreInUnit` | utils.py:189 | the fused score lies in [0,1] for a weight in [0,1] |
| `Utils.TextOf` | utils.py:197-201 | the text of an id is its corpus text, or "" when the id is not in the corpus |
| `Utils.HybridSearch` | utils.py:159-203 | min(k, number of candidates) results; ids distinct and drawn from the union of both hit lists; each score is the fused score; non-increasing order; no omitted candidate beats a returned one; each text comes from the corpus |
| `Utils.FuseScores` | utils.py:164-190 | one entry per id of the union, carrying that id's fused score |
| `Utils.ScoreCandidates` | utils.py:185-190 | the loop over the id set scores every id exactly once |
| `Utils.RankTop` | utils.py:192-202 | the top k of the scored list, in non-increasing order, with distinct ids, beating every entry left out, and with corpus texts |
| `Utils.TopFacts` | utils.py:193-201 | the first k of the sorted entries are as many as there are, non-increasing, distinct, drawn from the input, and none left out scores higher |
| `Utils.DictRange` | utils.py:169-176 | the range of one modality's scores, 0.0 and 0.0 when it is empty |
| `Utils.TopBeatsRest` | utils.py:193-202 | an entry cut off by the truncation scores no higher than any entry kept |
| `Utils.DistinctKeysCount` | utils.py:182 | a list with distinct ids has as many ids as entries |
| `Utils.SnippetsTextAppend` | utils.py:293-301 | appending a hit extends the question prompt's items text by a newline and `id · text`; earlier text is unchanged |
| `Utils.SnippetsTextStartsWithFirstId` | utils.py:293-301 | with hits, the items text starts with the first hit's id and a middle dot, so it is never empty |
| `Utils.SummaryInputAppend` | utils.py:253-254 | adding a document extends the summary input by a blank line and `[id]` over the document's text; earlier text is unchanged |
| `Utils.SummaryInputEmptyIff` | utils.py:253-254 | the summary input is empty exactly when there are no documents |
| `Utils.HistoryTextAppend` | utils.py:237 | appending a turn extends the history text by a newline and `Q: q\nA: a`; earlier text is unchanged |
| `Utils.HistoryTextEmptyIff` | utils.py:237 | the history text is empty exactly when there are no turns |
| `Utils.ContextNoneIff` | utils.py:299 | the context is "None so far." exactly when there are no turns |
| `Utils.ReformulateQuery` | utils.py:235-238 | the reformulated query is empty or begins and ends with a non-whitespace character |
| `Utils.ReformulateQueryIsReply` | utils.py:235-238 | the reformulated query is a slice of the model's reply to the history prompt, and only whitespace lies before and after that slice |
| `Utils.RewriteQuery` | utils.py:219-220 | the rewritten query is empty or begins and ends with a non-whitespace character |
| `Utils.RewriteQueryIsReply` | utils.py:219-220 | the rewritten query is a slice of the model's reply to the rewrite prompt, and only whitespace lies before and after that slice |
| `Utils.SummariseDocs` | utils.py:253-255 | the summary is empty or begins and ends with a non-whitespace character |
| `Utils.SummariseDocsIsReply` | utils.py:253-255 | the summary is a slice of the model's reply to the summary prompt, and only whitespace lies before and after that slice |
| `Utils.AskDisambiguation` | utils.py:291-302 | the question is empty or begins and ends with a non-whitespace character |
| `Utils.AskDisambiguationIsReply` | utils.py:291-302 | the question is a slice of the model's reply to the question prompt built from the hits' snippets and the context, and only whitespace lies before and after that slice |
| `Simulator.NewSimulator` | user_simulator_hw3.py:9-15 | the simulator keeps its id, facts and model, and both result lists start empty |
| `Simulator.ChooseItem` | user_simulator_hw3.py:93-97 | the selection is always the wanted id or "none" |
| `Simulator.ChooseItemTarget` | user_simulator_hw3.py:94-97 | the wanted id is returned exactly when it was shown, and "none" exactly when it was not |
| `Simulator.ChooseItemShownIff` | user_simulator_hw3.py:93-97 | the selection is among the shown ids exactly when the wanted id, or an id named "none", was shown |
| `Session.Start` | run_agent_hw3_simulator.py:29-37 | the loop starts at turn 0 in the ask state with empty history, dislikes and recommendations |
| `Session.AboveCutoff` | run_agent_hw3_simulator.py:71 | the filter keeps at most as many documents as it is given |
| `Session.Shown` | run_agent_hw3_simulator.py:81 | the shown list is no longer than the recommendation list |
| `Session.Step` | run_agent_hw3_simulator.py:39-95 | each pass of the loop counts exactly one turn, whether it continues or stops |
| `Session.RunSimulator` | run_agent_hw3_simulator.py:24-100 | the loop returns (or raises) exactly as the turn-by-turn specification `Run` from the initial state; `Session.RunTurns` bounds that outcome's turn count |
| `Session.AskBranch` | run_agent_hw3_simulator.py:41-78 | the ask branch raises exactly when the specification's ask turn raises, and otherwise yields its next state |
| `Session.RecBranch` | run_agent_hw3_simulator.py:80-95 | the recommendation branch stops exactly when the specification's turn stops, and otherwise yields its next state |
| `Session.RunStep` | run_agent_hw3_simulator.py:39-40 | running from a state is running from its successor, or the outcome of the turn that stops |
| `Session.RunTurns` | run_agent_hw3_simulator.py:39-100 | the turn count returned is at most `MAX_TURNS` and larger than the turn the run started from, so a run from the initial state takes between 1 and `MAX_TURNS` turns |
| `Session.StepHistory` | run_agent_hw3_simulator.py:49 | an ask turn appends exactly one question–answer pair and keeps earlier pairs; a recommendation turn keeps the history |
| `Session.StepDisrec` | run_agent_hw3_simulator.py:93 | the disliked ids never shrink, and an ask turn leaves them unchanged |
| `Session.ReachesGrows` | run_agent_hw3_simulator.py:29-95 | across any number of turns the dislikes only grow and the history only extends, by at most one pair per turn |
| `Session.ReachesBound` | run_agent_hw3_simulator.py:39-40 | every reachable state has a turn count of at most `MAX_TURNS` |
| `Session.AskDecision` | run_agent_hw3_simulator.py:41-78 | an ask turn raises exactly when the full ranking is empty; otherwise it keeps the dislikes and either clears the list and asks again (count difference above `N_REC`) or recommends the whole filtered list, even an empty one |
| `Session.RecDecision` | run_agent_hw3_simulator.py:80-95 | a recommendation turn stops exactly when the selection is among the shown ids; otherwise every shown id becomes disliked, the list is cleared and the next turn asks, with history and query unchanged |
| `Session.TargetShownEnds` | run_agent_hw3_simulator.py:86-91 | showing the wanted id ends the session on that turn |
| `Session.ShownIff` | run_agent_hw3_simulator.py:81 | a document is shown exactly when it was recommended and its id is not disliked |
| `Session.ShownNoDisliked` | run_agent_hw3_simulator.py:81 | no shown id is disliked |
| `Session.AboveCutoffIff` | run_agent_hw3_simulator.py:71 | a document passes the filter exactly when some hit for it scaled above 0.7; disliked ids are not excluded |
| `Session.KeptIsAbove` | run_agent_hw3_simulator.py:71 | every document that passes the filter comes from a hit scaled above 0.7 |
| `Session.AboveIsKept` | run_agent_hw3_simulator.py:71 | every hit scaled above 0.7 passes the filter |
| `Session.AboveCutoffAppend` | run_agent_hw3_simulator.py:71 | the filter works hit by hit and keeps the search order |
| `Session.ShownAppend` | run_agent_hw3_simulator.py:81 | the shown list keeps the recommendation order |
| `Session.ScaledRange` | run_agent_hw3_simulator.py:57-69 | every scaled score is in [0,1]; all 0 when the scores tie; otherwise some score is 0 and some is 1 |
| `Session.TiedScoresRecommendNothing` | run_agent_hw3_simulator.py:57-78 | when all scores tie, the ask turn moves to recommending an empty list |
| `Session.EmptyRecAsksAgain` | run_agent_hw3_simulator.py:80-95 | a recommendation turn with nothing to show goes back to asking, changing nothing else |
| `ProductInfo.NewProductInfo` | books_product_info.py:13-47 | a fresh record has the given id, no title and no authors or genres |
| `ProductInfo.LegacyTextParts` | books_product_info.py:53-60 | there are always six labelled slots |
| `ProductInfo.LegacyPartPresent` | books_product_info.py:53-60 | each labelled part is non-empty exactly when its field is set and non-empty |
| `ProductInfo.NonEmpty` | books_product_info.py:61 | `filter(None, parts)` keeps only non-empty parts |
| `ProductInfo.NonEmptyAppend` | books_product_info.py:61 | the filter keeps the order of the parts |
| `ProductInfo.CreateEnhancedBookDocument` | books_product_info.py:49-80 | the document id is the product's `parent_asin` |
| `ProductInfo.DocumentTextEmptyIff` | books_product_info.py:53-64 | the document text is empty exactly when none of the six fields is set |
| `ProductInfo.DocumentTextStartsWithTitle` | books_product_info.py:53-64 | with a title, the text begins with `Title: <title>` |
| `ProductInfo.CreateLegacyDocument` | books_product_info.py:402-407 | the legacy document has the product id and the enhanced document's text |
| `ProductInfo.CalculateSearchWeights` | books_product_info.py:82-91 | title 1.0, genres 0.6 and themes 0.5; authors 1.2 exactly when the query contains "by" or "author", and 0.8 otherwise |
| `ProductInfo.CalculateQualityScore` | books_product_info.py:93-103 | overall quality in [0,1] and 0.5 with no aspects; consistency in (0,1], equal to 1 exactly when liked and disliked counts agree; confidence is the rating count over 100, with none read as 0 |
| `ProductInfo.QualityExtremes` | books_product_info.py:94-95 | quality is 1 exactly when only liked aspects exist, and 0 exactly when only disliked ones do |
| `ProductInfo.AnyInIff` | books_product_info.py:216 | `any(kw in text for kw in kws)` holds exactly when some keyword is a substring |
| `ProductInfo.FoundKeywordsIff` | books_product_info.py:357 | a keyword is found exactly when it is in the table and in the text |
| `ProductInfo.SumCountsPositive` | books_product_info.py:378-379 | the summed counts are positive exactly when some keyword occurs |
| `ProductInfo.RatedAtLeastIff` | books_product_info.py:355 | a review is kept exactly when it is listed and rated at least the bound |
| `ProductInfo.RatedAtLeastAppend` | books_product_info.py:355 | filtering a concatenation filters each part, so kept reviews stay in order |
| `ProductInfo.RatedAtMostIff` | books_product_info.py:367 | a review is kept exactly when it is listed and rated at most the bound |
| `ProductInfo.RatedAtMostAppend` | books_product_info.py:367 | filtering a concatenation filters each part, so kept reviews stay in order |
| `ProductInfo.FoundKeywordsAppend` | books_product_info.py:357 | filtering a concatenated keyword table filters each part, so found keywords keep the table's order |
| `ProductInfo.FoundIfContained` | books_product_info.py:357-358 | a keyword the text contains is among the first n found when fewer than n keywords before it were found |
| `ProductInfo.ExtractLikedAspects` | books_product_info.py:347-358 | at most 10 aspects, each a positive keyword found in the highly rated reviews |
| `ProductInfo.FirstFound` | books_product_info.py:347-358 | the first n keywords found are keywords of the list, each contained in the text |
| `ProductInfo.ExtractDislikedAspects` | books_product_info.py:360-370 | at most 5 aspects, each a negative keyword found in the poorly rated reviews |
| `ProductInfo.LikedAspectListed` | books_product_info.py:347-358 | a positive keyword the liked text contains is listed when fewer than 10 keywords before it were found |
| `ProductInfo.LikedAspectsIff` | books_product_info.py:347-358 | when at most 10 keywords are found, the liked aspects are exactly the positive keywords in the liked text |
| `ProductInfo.DislikedAspectListed` | books_product_info.py:360-370 | a negative keyword the disliked text contains is listed when fewer than 5 keywords before it were found |
| `ProductInfo.DislikedAspectsIff` | books_product_info.py:360-370 | when at most 5 keywords are found, the disliked aspects are exactly the negative keywords in the disliked text |
| `ProductInfo.LikedIgnoresLowRated` | books_product_info.py:353-356 | a review rated below 4.0 does not change the liked aspects |
| `ProductInfo.DislikedIgnoresHighRated` | books_product_info.py:365-368 | a review rated above 2.0 does not change the disliked aspects |
| `ProductInfo.AnalyzeComplexity` | books_product_info.py:372-385 | "beginner" exactly when the beginner count exceeds twice the advanced count, "advanced" exactly in the mirror case, "medium" otherwise |
| `ProductInfo.ComplexityWithoutIndicators` | books_product_info.py:376-385 | reviews with no indicator at all are "medium" |
| `ProductInfo.Matching` | books_product_info.py:215-217 | the matched names are at most the table's rows |
| `ProductInfo.MatchingIff` | books_product_info.py:215-217 | a name is matched exactly when its row has a keyword in the text |
| `ProductInfo.MatchingAppend` | books_product_info.py:215-217 | matches come in table order |
| `ProductInfo.IdentifyTargetAudience` | books_product_info.py:387-399 | the audience is never empty and has at most one entry per table row |
| `ProductInfo.GeneralReadersIff` | books_product_info.py:394-399 | "general_readers" is named exactly when its own keywords occur or nothing else matched |
| `ProductInfo.KeepStripped` | books_product_info.py:161 | the kept entries are non-empty and stripped |
| `ProductInfo.KeepStrippedIff` | books_product_info.py:169 | an entry is kept exactly when it is the non-empty strip of an input entry |
| `ProductInfo.KeptIsStripped` | books_product_info.py:169 | every kept entry is the non-empty strip of some input entry |
| `ProductInfo.StrippedIsKept` | books_product_info.py:169 | every input entry with a non-empty strip is kept |
| `ProductInfo.LongerThanOne` | books_product_info.py:170 | every kept author is longer than one character and came from the input |
| `ProductInfo.ParseAuthorFromStr` | books_product_info.py:152-170 | falsy input gives no authors; every author is stripped and longer than one character |
| `ProductInfo.AuthorListIff` | books_product_info.py:168-170 | for a list, an author is returned exactly when it is the strip of an entry and longer than one character |
| `ProductInfo.SplitOnSeparators` | books_product_info.py:264 | splitting on newlines and commas gives at least one piece, and no piece holds a separator |
| `ProductInfo.SplitJoinRoundTrip` | books_product_info.py:264 | for text without newlines, joining the pieces with commas gives back the text |
| `ProductInfo.LlmExtractList` | books_product_info.py:259-265 | no reply (or an empty one) gives no items; every item is non-empty and stripped |
| `ProductInfo.LlmItemsHaveNoSeparator` | books_product_info.py:264 | no item holds a comma or newline |
| `ProductInfo.KeptHasNoSeparator` | books_product_info.py:169 | stripping and filtering pieces that hold no comma or newline yields items that hold none |
| `ProductInfo.SkipDigits` | books_product_info.py:326 | `\d+` consumes the longest run of digits |
| `ProductInfo.MatchAt` | books_product_info.py:326 | a series match starting at a position ends inside the title |
| `ProductInfo.SearchFrom` | books_product_info.py:327 | `re.search` finds the leftmost match, or reports that no position matches |
| `ProductInfo.FirstOccurrence` | books_product_info.py:330 | the first position where the matched text occurs, none earlier |
| `ProductInfo.BeforeFirst` | books_product_info.py:330 | `s.split(m)[0]` is the prefix before the first occurrence of `m` |
| `ProductInfo.ExtractSeriesInfo` | books_product_info.py:324-334 | no series exactly when no position of the title matches the pattern |
| `ProductInfo.MatchRecurs` | books_product_info.py:327-330 | where the matched text occurs again, the pattern matches again |
| `ProductInfo.BeforeLeftmostMatch` | books_product_info.py:330 | splitting at the matched text cuts the title at the leftmost match |
| `ProductInfo.SeriesNameIsPrefix` | books_product_info.py:327-333 | the series name is the stripped title before the leftmost match and the position is its number; the description is not read |
| `ProductInfo.ClassifyGenres` | books_product_info.py:202-218 | at most five genres |
| `ProductInfo.GenreListedOnlyIfMatched` | books_product_info.py:213-218 | every listed genre has a keyword in the lowercased text |
| `ProductInfo.GenreListedIfMatched` | books_product_info.py:213-218 | a matching genre is listed unless five earlier genres already matched |
| `ProductInfo.ListedIfMatched` | books_product_info.py:213-218 | for any table: a matching row's name is listed when fewer than five earlier rows matched |
| `ProductInfo.NotListedIfUnmatched` | books_product_info.py:213-218 | for any table: a name none of whose rows matches is not listed |
| `ProductInfo.GenresIffMatched` | books_product_info.py:213-218 | with at most five matches, a genre is listed exactly when one of its keywords occurs |
| `ProductInfo.MatchGenres` | books_product_info.py:214-217 | for any genre table, the loop collects exactly the matching genres, in table order; the extractor runs it on the genre mapping |
| `ProductInfo.ScoredThemes` | books_product_info.py:243-247 | at most one entry per theme, each with score at least 2 |
| `ProductInfo.ScoredThemesIff` | books_product_info.py:243-247 | a theme is scored exactly when its summed keyword count is at least 2, and with that count |
| `ProductInfo.ScoreThemes` | books_product_info.py:243-247 | for any theme table, the loop produces exactly the scored themes, in table order; the extractor runs it on the theme keywords |
| `ProductInfo.RankedThemes` | books_product_info.py:248-249 | at most six themes are kept |
| `ProductInfo.ExtractThemes` | books_product_info.py:222-251 | no reviews gives no themes; at most six themes |
| `ProductInfo.TopSix` | books_product_info.py:248-249 | the top six are sorted, drawn from the scored list, and score at least as high as any theme left out |
| `ProductInfo.RankedThemesFacts` | books_product_info.py:248-249 | the ranked themes are non-increasing, all scored, and beat every scored theme left out |
| `ProductInfo.TopSixDrawn` | books_product_info.py:248-249 | each of the six best themes is a scored theme |
| `ProductInfo.TopSixBeatLeftOut` | books_product_info.py:248-249 | no scored theme left out of the six scores above one kept |
| `ProductInfo.ThemeTiesInTableOrder` | books_product_info.py:248 | themes with equal counts stay in table order |
| `ProductInfo.BooksProductInfoExtractor.constructor` | books_product_info.py:107-110 | both caches start empty |
| `ProductInfo.BooksProductInfoExtractor.ClassifyGenresRuleBased` | books_product_info.py:198-220 | the result is always the rule's answer for the inputs; a cached entry is returned as is; the genre cache records the inputs and leaves the theme cache alone |
| `ProductInfo.BooksProductInfoExtractor.ExtractThemesRuleBased` | books_product_info.py:222-251 | the result is always the rule's answer; no reviews leaves the cache alone, otherwise the cache records the text; the genre cache is unchanged |
| `ProductInfo.CachedGenresAsWritten` | books_product_info.py:199-220 | the source's cache keyed by the `"|"`-joined inputs: a hit returns the stored list whatever the inputs, a miss computes and stores the rule's answer |
| `ProductInfo.GenreKeysCollide` | books_product_info.py:199 | two different inputs build the same `"|"`-joined key |
| `ProductInfo.FirstInputIsSciFi` | books_product_info.py:205-216 | the first colliding input is classified sci-fi |
| `ProductInfo.SecondInputIsNotSciFi` | books_product_info.py:205-216 | the second colliding input is not classified sci-fi |
| `ProductInfo.SciFiListed` | books_product_info.py:205-216 | a lowercased text holding "science fiction", "sci-fi", "fantasy" or "space" is classified sci-fi |
| `ProductInfo.SciFiNotListed` | books_product_info.py:205-216 | a lowercased text holding none of the four is not classified sci-fi |
| `ProductInfo.GenreKeyCollision` | books_product_info.py:198-220 | after the first input, the string-keyed cache answers the second with sci-fi, which differs from the rule's answer for it |
| `Profile.StrengthenWeights` | books_user_profile.py:58-61 | an existing weight becomes itself plus 0.1 or the cap 1.0, whichever is lower; an absent item gets exactly 0.7; other weights unchanged |
| `Profile.WeakenWeights` | books_user_profile.py:65-66 | an existing weight becomes itself minus 0.2 or the floor 0.0, whichever is higher; an absent item gets no weight; other weights unchanged |
| `Profile.StrengthenConfidence` | books_user_profile.py:62 | the item's confidence (default 0.5) plus 0.1, capped at 1.0, so an absent item gets 0.6; other keys unchanged; values stay in [0,1] |
| `Profile.WeakenConfidence` | books_user_profile.py:67 | the item's confidence (default 0.5) minus 0.2, floored at 0.0, so an absent item gets 0.3; other keys unchanged; values stay in [0,1] |
| `Profile.Nudged` | books_user_profile.py:69-72 | every confidence becomes itself plus 0.01, capped at 1.0; keys unchanged |
| `Profile.Interact` | books_user_profile.py:46-72 | which keys each action adds; any other action leaves the weights unchanged; a new selected item ends with weight 0.7 and confidence 0.61, a new rejected one with confidence 0.31; values stay in [0,1] |
| `Profile.InteractAllUnit` | books_user_profile.py:59-72 | weights and confidences that start in [0,1] stay there after any sequence of updates |
| `Profile.RejectionsCreateNoWeight` | books_user_profile.py:64-66 | any number of rejections of an absent item create no weight for it |
| `Profile.IndexOf` | books_user_profile.py:105 | the first position of the item |
| `Profile.RemoveFirst` | books_user_profile.py:105 | `list.remove` drops exactly the first occurrence |
| `Profile.DropFirstOfNone` | books_user_profile.py:103-105 | removing no conflict leaves the dislikes as they are |
| `Profile.DropFirstOfStep` | books_user_profile.py:103-105 | one more removal of a value not yet removed drops its first occurrence |
| `Profile.RemovalsCommute` | books_user_profile.py:102-105 | removals of two different genres commute, so the set's iteration order does not change the result |
| `Profile.DropFirstOfDistinct` | books_user_profile.py:103-105 | in a list without repeats, a genre survives exactly when it is listed and not removed |
| `Profile.RemoveResolved` | books_user_profile.py:102-105 | the kept list is the original with the first occurrence of each conflict weighted above 0.7 dropped, whatever the visiting order; kept plus removed is the original as a multiset |
| `Profile.ResolvedLeavesNoConflict` | books_user_profile.py:100-105 | with no duplicates among the dislikes, no removed genre remains disliked |
| `Profile.BooksUserProfile.constructor` | books_user_profile.py:124-135 | the profile holds the given tastes, maps and defaults, with no updates counted |
| `Profile.BooksUserProfile.UpdateFromInteraction` | books_user_profile.py:46-54 | weights and confidences become `Interact` of the old ones; the count rises by one; the timestamp is set; the tastes, including the dislikes, are untouched, so no conflict is resolved |
| `Profile.BooksUserProfile.StrengthenPreference` | books_user_profile.py:56-62 | the maps are strengthened for the item and nothing else changes |
| `Profile.BooksUserProfile.WeakenPreference` | books_user_profile.py:64-67 | the maps are weakened for the item and nothing else changes |
| `Profile.BooksUserProfile.RecalculateConfidence` | books_user_profile.py:69-72 | the confidence map becomes its nudge and nothing else changes |
| `Profile.BooksUserProfile.ResolvePreferenceConflicts` | books_user_profile.py:100-105 | the new dislikes are the old ones with the first occurrence of each genre both preferred, disliked and weighted above 0.7 dropped; as a multiset, new dislikes plus those genres are the old dislikes; nothing else changes |
| `Profile.BooksUserProfile.AnswerBasedOnProfile` | books_user_profile.py:82-94 | no answer exactly when there are no options, where both styles raise IndexError; otherwise the answer is one of the options. Brief style gives the first option naming a preferred genre, or the first option. Any other style gives the earliest option with the greatest summed weight |
| `Profile.BooksUserProfile.FirstNamingPreferred` | books_user_profile.py:86-89 | the first option from a position on that names a preferred genre, or the first option when none does |
| `Profile.GenerateReadingPattern` | books_user_profile.py:162-183 | unknown complexity falls back to "medium"; brief style exactly for beginners, detailed exactly for advanced; length is short, medium or long |
| `Profile.DistinctSize` | books_user_profile.py:160 | deduplicating never lengthens a list |
| `Profile.ListOfSet` | books_user_profile.py:160 | `list(set(...))` lists every member exactly once |
| `Profile.BooksUserProfileGenerator.constructor` | books_user_profile.py:109-111 | the generator holds the genre-relationship and contrast tables |
| `Profile.BooksUserProfileGenerator.ExpandGenresSafely` | books_user_profile.py:142-153 | expanded genres start with the base genres, weighted 0.9; each added genre is one of the first two relatives of a base genre, weighted 0.6; no duplicates; at most three per base genre |
| `Profile.BooksUserProfileGenerator.BaseWeights` | books_user_profile.py:144-146 | every base genre, and nothing else, is weighted 0.9 |
| `Profile.BooksUserProfileGenerator.AddRelated` | books_user_profile.py:148-152 | adding relatives keeps the expansion invariant and adds exactly the candidates not yet present |
| `Profile.BooksUserProfileGenerator.GenerateContrastGenresSafely` | books_user_profile.py:155-160 | a genre is disliked exactly when it is the first contrast of some preferred genre; no duplicates; at most one per preferred genre |
| `Profile.BooksUserProfileGenerator.GenerateFromProductInfo` | books_user_profile.py:113-137 | the profile's genres start with the first three of the book's genres, at most nine; the first three themes and first author; the complexity, defaulting to "medium", and its interaction style; confidence 0.8 for exactly the preferred genres; weights in [0,1] for exactly the preferred genres; no conflict left after resolution; no updates counted. The genres are the expansion of the first three book genres, 0.9 for those and 0.6 for each added relative, and a genre is preferred exactly when it is a base genre or one of the first two relatives of one. A genre is disliked exactly when it is the first contrast of a preferred genre and not a preferred genre weighted above 0.7. Length, purposes and contexts come from the complexity's reading pattern; recency is "any"; no author or theme is disliked |
| `Profile.BooksUserProfileGenerator.ExpansionUnit` | books_user_profile.py:142-153 | the weights an expansion gives, 0.9 and 0.6, all lie in [0, 1] |
| `Profile.BooksUserProfileGenerator.ResolvedDislikes` | books_user_profile.py:100-105 | after conflict resolution on distinct dislikes, a genre is disliked exactly when it was disliked and is not a preferred genre weighted above 0.7 |
| `Profile.BooksUserProfileGenerator.StrongGenresNotDisliked` | books_user_profile.py:100-105 | after conflict resolution on distinct dislikes, no preferred genre weighted above 0.7 is still disliked |

## Left out

- Replies are modelled as a function of the prompt (`Llm = Prompt -> string`). The
  source samples at temperature 0.2 (utils.py:31, run_agent_hw3_simulator.py:108),
  so the same prompt sent twice may get two different replies. Where a
  specification function recomputes a reply, it stands for the one call the source
  makes; every property holds for whichever reply that call returns.
- The BM25 and vector retrievers (`bm25_search`, `semantic_search`), the index build
  and load, and dataset loading are library and file I/O. They appear as oracle
  functions inside the index values.
- Every language model call, the simulator's query and answer prompts, and
  `json.loads` in author parsing are foreign calls. They appear as oracles; only
  the text shaping around them is modelled.
- `datetime.now()` is a parameter `now` of `UpdateFromInteraction`. `print` output
  and the catch-all `try/except` fallbacks are not modelled.
- Floating point: scores, weights and confidences are exact reals, so rounding
  (whether 0.7 + 0.1 equals 0.8) is not modelled.
- Python `set` iteration order in `hybrid_search` and in `list(set(...))` is
  nondeterministic. The model picks an arbitrary member each time, so no tie order
  is promised.
- Utils.HybridSearch: among equal fused scores the order is left unspecified,
  because the source sorts a list built from set iteration.
- `str.lower()` is modelled for ASCII capitals only; `\d` and `int()` are modelled
  for ASCII digits only.
- `_parse_price_safe` is a regular expression plus a float conversion, and the
  price field is not modelled.
- `extract_product_info` and `_extract_basic_info_safe`,
  `_extract_content_features_safe` and `_extract_user_insights_safe` are left out.
  They are the field-by-field orchestration, with `print` on error, that calls the
  modelled extractors.
- `_llm_extract_string` and `_enhance_with_llm` are model calls. Their list
  splitting is modelled as `LlmExtractList`.
- `BooksProductInfo` fields that no modelled rule reads are left out: publisher,
  dates, pages, ISBN, language, image, price, average rating, writing style, book
  type, awards, reading summary, comparisons and use cases. The hierarchical and
  structured parts of the search document are modelled as values, without further
  properties.
- `analyze_qa_pattern` probes attributes that are never set, so it always returns
  "balanced_reader". `get_context_based_preference` is a dictionary lookup on
  `contextual_preferences`. Neither, nor the fields `question_answering_pattern`,
  `current_session_context` and `contextual_preferences`, is modelled.
- `conversational_search` and `run_all_simulators` are console loops and JSONL file
  reading.
- Profile.BooksUserProfile.AnswerBasedOnProfile: the IndexError an empty option list
  raises is the result `None` rather than an exception.
- Session.RunSimulator: the index is given as a value rather than built inside the
  call. A failure of `min()` on an empty score list is an outcome `Raised` rather
  than an exception.

## Findings

| source | as written | input that shows it | evidently intended | confidence | as-written member | corrected member |
|---|---|---|---|---|---|---|
| books_product_info.py:199-201 | the genre cache key joins categories, title and description with a vertical bar, so different inputs can share a key and get each other's cached genres | classify categories ["science"] with title "fiction" and an empty description, then no categories with the title "science" + bar + "fiction" and an empty description: both keys are "science", bar, "fiction", bar, so the second call returns the first call's genres, which include sci-fi, although its own text contains no "science fiction" and is not sci-fi | cache keyed by the inputs themselves, so a hit always equals the rule's answer | not executed | `ProductInfo.GenreKeyCollision` | `ProductInfo.BooksProductInfoExtractor.ClassifyGenresRuleBased` |
