/** Book metadata and its rule-based enrichment (books_product_info.py): the product
    record, the search document built from it, and the keyword classifiers that fill in
    genres, themes, liked and disliked aspects, complexity and audience. */
module ProductInfo {
  import opened Text
  import opened Scores

  datatype Option<T> = None | Some(value: T)

  /** Python truthiness of an optional string: present and non-empty. */
  predicate Truthy(s: Option<string>) {
    s.Some? && s.value != ""
  }

  /** `s or ""`. */
  function OrEmpty(s: Option<string>): string {
    if s.Some? then s.value else ""
  }

  /** `SeriesInfo`. */
  datatype SeriesInfo = SeriesInfo(
    seriesName: string,
    positionInSeries: nat,
    totalBooksInSeries: nat,
    relatedBooks: seq<string>)

  /** `BooksProductInfo`, with the fields the core reads or writes. */
  datatype BooksProductInfo = BooksProductInfo(
    parentAsin: string,
    title: Option<string>,
    authors: seq<string>,
    ratingCount: Option<int>,
    categories: seq<string>,
    genres: seq<string>,
    themes: seq<string>,
    complexity: Option<string>,
    targetAudience: seq<string>,
    seriesInfo: Option<SeriesInfo>,
    description: Option<string>,
    likedAspects: seq<string>,
    dislikedAspects: seq<string>,
    searchBoostTerms: seq<string>,
    negativeSignals: seq<string>)

  /** `BooksProductInfo(parent_asin=...)`: every other field at its default. */
  function NewProductInfo(parentAsin: string): (p: BooksProductInfo)
    ensures p.parentAsin == parentAsin && p.title == None && p.authors == [] && p.genres == []
  {
    BooksProductInfo(parentAsin, None, [], None, [], [], [], None, [], None, None, [], [], [], [])
  }

  /** One review; a missing rating reads as 0 and a missing title or text as "". */
  datatype Review = Review(rating: real, title: string, text: string)

  // ---------------------------------------------------------------------------
  // The search document

  datatype Hierarchical = Hierarchical(primary: string, secondary: string, tertiary: string)

  datatype Structured = Structured(
    title: Option<string>,
    authors: seq<string>,
    genres: seq<string>,
    themes: seq<string>,
    complexity: Option<string>,
    targetAudience: seq<string>)

  /** The dictionary `create_enhanced_book_document` returns. */
  datatype Document = Document(
    id: string,
    text: string,
    hierarchical: Hierarchical,
    structured: Structured,
    searchBoostTerms: seq<string>,
    negativeSignals: seq<string>)

  /** `legacy_text_parts`: each labelled part, or "" when its field is empty. */
  function LegacyTextParts(p: BooksProductInfo): (parts: seq<string>)
    ensures |parts| == 6
  {
    [ if Truthy(p.title) then "Title: " + p.title.value else "",
      if p.authors != [] then "Authors: " + Join(", ", p.authors) else "",
      if p.categories != [] then "Categories: " + Join(" ", p.categories) else "",
      if p.genres != [] then "Genres: " + Join(" ", p.genres) else "",
      if Truthy(p.description) then "Description: " + p.description.value else "",
      if p.themes != [] then "Themes: " + Join(" ", p.themes) else "" ]
  }

  /** `filter(None, parts)`: the non-empty strings, in order. */
  function NonEmpty(parts: seq<string>): (r: seq<string>)
    ensures |r| <= |parts|
    ensures forall i :: 0 <= i < |r| ==> r[i] != ""
  {
    if parts == [] then []
    else NonEmpty(parts[..|parts| - 1]) + (if parts[|parts| - 1] != "" then [parts[|parts| - 1]] else [])
  }

  /** `create_enhanced_book_document`. */
  function CreateEnhancedBookDocument(p: BooksProductInfo): (doc: Document)
    ensures doc.id == p.parentAsin
  {
    Document(
      p.parentAsin,
      Join(" ", NonEmpty(LegacyTextParts(p))),
      Hierarchical(
        OrEmpty(p.title) + " " + Join(" ", p.authors),
        Join(" ", p.genres) + " " + Join(" ", p.themes),
        Join(" ", p.targetAudience) + " " + OrEmpty(p.complexity)),
      Structured(p.title, p.authors, p.genres, p.themes, p.complexity, p.targetAudience),
      p.searchBoostTerms,
      p.negativeSignals)
  }

  /** `create_legacy_document`: the id and the text of the enhanced document. */
  function CreateLegacyDocument(p: BooksProductInfo): (doc: (string, string))
    ensures doc.0 == p.parentAsin
    ensures doc.1 == CreateEnhancedBookDocument(p).text
  {
    var enhanced := CreateEnhancedBookDocument(p);
    (p.parentAsin, enhanced.text)
  }

  /** A part is non-empty exactly when its field is set, since every present part carries a label. */
  lemma LegacyPartPresent(p: BooksProductInfo)
    ensures LegacyTextParts(p)[0] != "" <==> Truthy(p.title)
    ensures LegacyTextParts(p)[1] != "" <==> p.authors != []
    ensures LegacyTextParts(p)[2] != "" <==> p.categories != []
    ensures LegacyTextParts(p)[3] != "" <==> p.genres != []
    ensures LegacyTextParts(p)[4] != "" <==> Truthy(p.description)
    ensures LegacyTextParts(p)[5] != "" <==> p.themes != []
  {
  }

  /** Filtering keeps exactly the non-empty parts, in order. */
  lemma {:induction false} NonEmptyAppend(a: seq<string>, b: seq<string>)
    ensures NonEmpty(a + b) == NonEmpty(a) + NonEmpty(b)
    decreases |b|
  {
    if b == [] {
      assert a + b == a;
    } else {
      NonEmptyAppend(a, b[..|b| - 1]);
      assert (a + b)[..|a + b| - 1] == a + b[..|b| - 1];
    }
  }

  lemma {:induction false} NonEmptyNone(parts: seq<string>)
    ensures NonEmpty(parts) == [] <==> forall i :: 0 <= i < |parts| ==> parts[i] == ""
    decreases |parts|
  {
    if parts != [] {
      NonEmptyNone(parts[..|parts| - 1]);
      assert forall i :: 0 <= i < |parts| - 1 ==> parts[..|parts| - 1][i] == parts[i];
    }
  }

  /** A join of non-empty parts is empty exactly when there are no parts. */
  lemma JoinEmptyIff(sep: string, parts: seq<string>)
    requires forall i :: 0 <= i < |parts| ==> parts[i] != ""
    ensures Join(sep, parts) == "" <==> parts == []
  {
    if parts != [] {
      JoinLength(sep, parts);
      TotalLengthPositive(parts);
    }
  }

  lemma TotalLengthPositive(parts: seq<string>)
    requires parts != [] && forall i :: 0 <= i < |parts| ==> parts[i] != ""
    ensures TotalLength(parts) > 0
  {
  }

  /** The document text is empty exactly when the product has no title, authors,
      categories, genres, description or themes. */
  lemma DocumentTextEmptyIff(p: BooksProductInfo)
    ensures CreateEnhancedBookDocument(p).text == "" <==>
              !Truthy(p.title) && p.authors == [] && p.categories == [] && p.genres == []
              && !Truthy(p.description) && p.themes == []
  {
    var parts := LegacyTextParts(p);
    LegacyPartPresent(p);
    NonEmptyNone(parts);
    JoinEmptyIff(" ", NonEmpty(parts));
  }

  /** A product with a title has a document text that begins with its labelled title. */
  lemma DocumentTextStartsWithTitle(p: BooksProductInfo)
    requires Truthy(p.title)
    ensures var t := "Title: " + p.title.value;
            var text := CreateEnhancedBookDocument(p).text;
            |t| <= |text| && text[..|t|] == t
  {
    var parts := LegacyTextParts(p);
    NonEmptyAppend([parts[0]], parts[1..]);
    assert [parts[0]] + parts[1..] == parts;
    assert NonEmpty([parts[0]]) == [parts[0]] by {
      assert [parts[0]][..0] == [];
    }
    JoinStartsWithFirst(" ", NonEmpty(parts));
  }

  // ---------------------------------------------------------------------------
  // Search weights and quality

  /** `calculate_search_weights(query_context)`. */
  function CalculateSearchWeights(queryContext: string): (w: map<string, real>)
    ensures w.Keys == {"title", "authors", "genres", "themes"}
    ensures w["title"] == 1.0 && w["genres"] == 0.6 && w["themes"] == 0.5
    ensures w["authors"] == 1.2 <==> Contains(queryContext, "by") || Contains(queryContext, "author")
    ensures w["authors"] == 0.8 <==> !(Contains(queryContext, "by") || Contains(queryContext, "author"))
  {
    var weights := map["title" := 1.0, "authors" := 0.8, "genres" := 0.6, "themes" := 0.5];
    if Contains(queryContext, "by") || Contains(queryContext, "author") then weights["authors" := 1.2]
    else weights
  }

  datatype Quality = Quality(overallQuality: real, confidence: real, consistency: real)

  /** A share `a / b` of a positive whole lies in [0, 1], is 1 only for the whole and 0
      only for nothing. */
  lemma ShareBounds(a: real, b: real)
    requires 0.0 <= a <= b && 0.0 < b
    ensures 0.0 <= a / b <= 1.0
    ensures a / b == 1.0 <==> a == b
    ensures a / b == 0.0 <==> a == 0.0
  {
    var x := a / b;
    assert x * b == a;
    ProductSigns(x, b);
  }

  /** Multiplying by a positive number keeps a number's place relative to 0 and 1. */
  lemma ProductSigns(x: real, b: real)
    requires 0.0 < b
    ensures x < 0.0 ==> x * b < 0.0
    ensures x > 1.0 ==> x * b > b
    ensures x == 1.0 <==> x * b == b
  {
  }

  /** `calculate_quality_score`. */
  function CalculateQualityScore(p: BooksProductInfo): (q: Quality)
    ensures 0.0 <= q.overallQuality <= 1.0
    ensures p.likedAspects == [] && p.dislikedAspects == [] ==> q.overallQuality == 0.5
    ensures 0.0 < q.consistency <= 1.0
    ensures q.consistency == 1.0 <==> |p.likedAspects| == |p.dislikedAspects|
    ensures q.confidence * 100.0 == (if p.ratingCount.Some? then p.ratingCount.value as real else 0.0)
  {
    var liked := |p.likedAspects|;
    var disliked := |p.dislikedAspects|;
    var total := liked + disliked;
    var positiveRatio := if total > 0 then liked as real / total as real else 0.5;
    var count := if p.ratingCount.Some? then p.ratingCount.value else 0;
    var gap := if liked >= disliked then liked - disliked else disliked - liked;
    var consistency := 1.0 - gap as real / (total + 1) as real;
    ShareBounds(gap as real, (total + 1) as real);
    if total > 0 then
      ShareBounds(liked as real, total as real);
      Quality(positiveRatio, count as real / 100.0, consistency)
    else
      Quality(positiveRatio, count as real / 100.0, consistency)
  }

  /** Overall quality is 1 exactly when there are liked aspects and no disliked ones, and 0
      exactly when there are disliked aspects and no liked ones. */
  lemma QualityExtremes(p: BooksProductInfo)
    ensures CalculateQualityScore(p).overallQuality == 1.0 <==> p.likedAspects != [] && p.dislikedAspects == []
    ensures CalculateQualityScore(p).overallQuality == 0.0 <==> p.likedAspects == [] && p.dislikedAspects != []
  {
    var liked := |p.likedAspects|;
    var total := liked + |p.dislikedAspects|;
    if total > 0 {
      ShareBounds(liked as real, total as real);
    }
  }

  // ---------------------------------------------------------------------------
  // Keyword matching

  /** `any(kw in text for kw in keywords)`. */
  predicate AnyIn(text: string, keywords: seq<string>)
    decreases |keywords|
  {
    keywords != [] && (Contains(text, keywords[0]) || AnyIn(text, keywords[1..]))
  }

  lemma {:induction false} AnyInIff(text: string, keywords: seq<string>)
    ensures AnyIn(text, keywords) <==> exists i :: 0 <= i < |keywords| && Contains(text, keywords[i])
    decreases |keywords|
  {
    if keywords != [] {
      AnyInIff(text, keywords[1..]);
      if i :| 0 <= i < |keywords| && Contains(text, keywords[i]) {
        if i > 0 { assert keywords[1..][i - 1] == keywords[i]; }
      }
    }
  }

  /** `[kw for kw in keywords if kw in text]`. */
  function FoundKeywords(text: string, keywords: seq<string>): (r: seq<string>)
    ensures |r| <= |keywords|
    decreases |keywords|
  {
    if keywords == [] then []
    else (if Contains(text, keywords[0]) then [keywords[0]] else []) + FoundKeywords(text, keywords[1..])
  }

  /** A keyword is found exactly when it is listed and contained in the text. */
  lemma {:induction false} FoundKeywordsIff(text: string, keywords: seq<string>, kw: string)
    ensures kw in FoundKeywords(text, keywords) <==> kw in keywords && Contains(text, kw)
    decreases |keywords|
  {
    if keywords != [] {
      FoundKeywordsIff(text, keywords[1..], kw);
      assert keywords == [keywords[0]] + keywords[1..];
    }
  }

  /** The filter works keyword by keyword, so found keywords keep the table's order. */
  lemma {:induction false} FoundKeywordsAppend(text: string, a: seq<string>, b: seq<string>)
    ensures FoundKeywords(text, a + b) == FoundKeywords(text, a) + FoundKeywords(text, b)
    decreases |a|
  {
    if a != [] {
      var head := if Contains(text, a[0]) then [a[0]] else [];
      assert (a + b)[0] == a[0];
      assert (a + b)[1..] == a[1..] + b;
      FoundKeywordsAppend(text, a[1..], b);
      calc {
        FoundKeywords(text, a + b);
        head + FoundKeywords(text, a[1..] + b);
        head + (FoundKeywords(text, a[1..]) + FoundKeywords(text, b));
        (head + FoundKeywords(text, a[1..])) + FoundKeywords(text, b);
      }
    } else {
      assert a + b == b;
    }
  }

  /** A keyword the text contains is among the first `n` found when fewer than `n` of the
      keywords before it were found. */
  lemma FoundIfContained(text: string, keywords: seq<string>, i: nat, n: nat)
    requires i < |keywords| && Contains(text, keywords[i])
    requires |FoundKeywords(text, keywords[..i])| < n
    ensures keywords[i] in Take(FoundKeywords(text, keywords), n)
  {
    var pre, kw, post := keywords[..i], keywords[i], keywords[i + 1..];
    assert keywords == pre + ([kw] + post);
    FoundKeywordsAppend(text, pre, [kw] + post);
    assert ([kw] + post)[1..] == post;
    assert FoundKeywords(text, [kw] + post) == [kw] + FoundKeywords(text, post);
    var found := FoundKeywords(text, keywords);
    assert found[|FoundKeywords(text, pre)|] == kw;
    assert Take(found, n)[|FoundKeywords(text, pre)|] == kw;
  }

  /** `sum(text.count(kw) for kw in keywords)`. */
  function SumCounts(text: string, keywords: seq<string>): nat
    decreases |keywords|
  {
    if keywords == [] then 0 else Count(text, keywords[0]) + SumCounts(text, keywords[1..])
  }

  /** A positive total needs some keyword to occur. */
  lemma {:induction false} SumCountsPositive(text: string, keywords: seq<string>)
    requires forall i :: 0 <= i < |keywords| ==> keywords[i] != []
    ensures SumCounts(text, keywords) > 0 <==> AnyIn(text, keywords)
    decreases |keywords|
  {
    if keywords != [] {
      CountPositiveIffContains(text, keywords[0]);
      SumCountsPositive(text, keywords[1..]);
    }
  }

  // ---------------------------------------------------------------------------
  // Review texts

  function TitleAndText(r: Review): string {
    r.title + " " + r.text
  }

  function Texts(reviews: seq<Review>): (r: seq<string>)
    ensures |r| == |reviews|
  {
    seq(|reviews|, i requires 0 <= i < |reviews| => reviews[i].text)
  }

  function TitlesAndTexts(reviews: seq<Review>): (r: seq<string>)
    ensures |r| == |reviews|
  {
    seq(|reviews|, i requires 0 <= i < |reviews| => TitleAndText(reviews[i]))
  }

  /** The reviews rated at least `lo`, in order. */
  function RatedAtLeast(reviews: seq<Review>, lo: real): (r: seq<Review>)
    ensures forall i :: 0 <= i < |r| ==> r[i] in reviews && r[i].rating >= lo
  {
    if reviews == [] then []
    else
      var last := reviews[|reviews| - 1];
      RatedAtLeast(reviews[..|reviews| - 1], lo) + (if last.rating >= lo then [last] else [])
  }

  /** The reviews rated at most `hi`, in order. */
  function RatedAtMost(reviews: seq<Review>, hi: real): (r: seq<Review>)
    ensures forall i :: 0 <= i < |r| ==> r[i] in reviews && r[i].rating <= hi
  {
    if reviews == [] then []
    else
      var last := reviews[|reviews| - 1];
      RatedAtMost(reviews[..|reviews| - 1], hi) + (if last.rating <= hi then [last] else [])
  }

  /** A review is kept exactly when it is listed and rated at least `lo`. */
  lemma {:induction false} RatedAtLeastIff(reviews: seq<Review>, lo: real, r: Review)
    ensures r in RatedAtLeast(reviews, lo) <==> r in reviews && r.rating >= lo
    decreases |reviews|
  {
    if reviews != [] {
      var init := reviews[..|reviews| - 1];
      RatedAtLeastIff(init, lo, r);
      assert reviews == init + [reviews[|reviews| - 1]];
    }
  }

  /** The filter works review by review, so kept reviews keep their order. */
  lemma {:induction false} RatedAtLeastAppend(a: seq<Review>, b: seq<Review>, lo: real)
    ensures RatedAtLeast(a + b, lo) == RatedAtLeast(a, lo) + RatedAtLeast(b, lo)
    decreases |b|
  {
    if b == [] {
      assert a + b == a;
    } else {
      var init := b[..|b| - 1];
      assert (a + b)[..|a + b| - 1] == a + init;
      assert (a + b)[|a + b| - 1] == b[|b| - 1];
      RatedAtLeastAppend(a, init, lo);
    }
  }

  /** A review is kept exactly when it is listed and rated at most `hi`. */
  lemma {:induction false} RatedAtMostIff(reviews: seq<Review>, hi: real, r: Review)
    ensures r in RatedAtMost(reviews, hi) <==> r in reviews && r.rating <= hi
    decreases |reviews|
  {
    if reviews != [] {
      var init := reviews[..|reviews| - 1];
      RatedAtMostIff(init, hi, r);
      assert reviews == init + [reviews[|reviews| - 1]];
    }
  }

  /** The filter works review by review, so kept reviews keep their order. */
  lemma {:induction false} RatedAtMostAppend(a: seq<Review>, b: seq<Review>, hi: real)
    ensures RatedAtMost(a + b, hi) == RatedAtMost(a, hi) + RatedAtMost(b, hi)
    decreases |b|
  {
    if b == [] {
      assert a + b == a;
    } else {
      var init := b[..|b| - 1];
      assert (a + b)[..|a + b| - 1] == a + init;
      assert (a + b)[|a + b| - 1] == b[|b| - 1];
      RatedAtMostAppend(a, init, hi);
    }
  }

  const POSITIVE_KEYWORDS: seq<string> := [
    "engaging", "compelling", "well-written", "fascinating", "brilliant",
    "captivating", "thought-provoking", "insightful", "entertaining",
    "gripping", "touching", "inspiring", "educational", "informative"]

  const NEGATIVE_KEYWORDS: seq<string> := [
    "boring", "confusing", "difficult", "slow", "repetitive",
    "predictable", "disappointing", "unclear", "dry", "verbose"]

  /** The lower-cased text of the reviews rated 4.0 or more. */
  function LikedText(reviews: seq<Review>): string {
    Lower(Join(" ", TitlesAndTexts(RatedAtLeast(reviews, 4.0))))
  }

  /** The lower-cased text of the reviews rated 2.0 or less. */
  function DislikedText(reviews: seq<Review>): string {
    Lower(Join(" ", TitlesAndTexts(RatedAtMost(reviews, 2.0))))
  }

  /** `_extract_liked_aspects`. */
  function ExtractLikedAspects(reviews: seq<Review>): (aspects: seq<string>)
    ensures |aspects| <= 10
    ensures forall i :: 0 <= i < |aspects| ==> aspects[i] in POSITIVE_KEYWORDS && Contains(LikedText(reviews), aspects[i])
  {
    FirstFound(LikedText(reviews), POSITIVE_KEYWORDS, 10);
    Take(FoundKeywords(LikedText(reviews), POSITIVE_KEYWORDS), 10)
  }

  /** The first `n` keywords found are keywords, each contained in the text. */
  lemma FirstFound(text: string, keywords: seq<string>, n: nat)
    ensures forall i :: 0 <= i < |Take(FoundKeywords(text, keywords), n)| ==>
              Take(FoundKeywords(text, keywords), n)[i] in keywords && Contains(text, Take(FoundKeywords(text, keywords), n)[i])
  {
    var found := FoundKeywords(text, keywords);
    forall i | 0 <= i < |Take(found, n)| ensures Take(found, n)[i] in keywords && Contains(text, Take(found, n)[i]) {
      FoundKeywordsIff(text, keywords, found[i]);
    }
  }

  /** `_extract_disliked_aspects`. */
  function ExtractDislikedAspects(reviews: seq<Review>): (aspects: seq<string>)
    ensures |aspects| <= 5
    ensures forall i :: 0 <= i < |aspects| ==> aspects[i] in NEGATIVE_KEYWORDS && Contains(DislikedText(reviews), aspects[i])
  {
    FirstFound(DislikedText(reviews), NEGATIVE_KEYWORDS, 5);
    Take(FoundKeywords(DislikedText(reviews), NEGATIVE_KEYWORDS), 5)
  }

  /** A positive keyword the liked text contains is a liked aspect when fewer than ten
      keywords before it in the table were found. */
  lemma LikedAspectListed(reviews: seq<Review>, i: nat)
    requires i < |POSITIVE_KEYWORDS| && Contains(LikedText(reviews), POSITIVE_KEYWORDS[i])
    requires |FoundKeywords(LikedText(reviews), POSITIVE_KEYWORDS[..i])| < 10
    ensures POSITIVE_KEYWORDS[i] in ExtractLikedAspects(reviews)
  {
    FoundIfContained(LikedText(reviews), POSITIVE_KEYWORDS, i, 10);
  }

  /** When at most ten keywords are found, the liked aspects are exactly the positive
      keywords the liked text contains. */
  lemma LikedAspectsIff(reviews: seq<Review>, kw: string)
    requires |FoundKeywords(LikedText(reviews), POSITIVE_KEYWORDS)| <= 10
    ensures kw in ExtractLikedAspects(reviews) <==> kw in POSITIVE_KEYWORDS && Contains(LikedText(reviews), kw)
  {
    FoundKeywordsIff(LikedText(reviews), POSITIVE_KEYWORDS, kw);
  }

  /** A negative keyword the disliked text contains is a disliked aspect when fewer than
      five keywords before it in the table were found. */
  lemma DislikedAspectListed(reviews: seq<Review>, i: nat)
    requires i < |NEGATIVE_KEYWORDS| && Contains(DislikedText(reviews), NEGATIVE_KEYWORDS[i])
    requires |FoundKeywords(DislikedText(reviews), NEGATIVE_KEYWORDS[..i])| < 5
    ensures NEGATIVE_KEYWORDS[i] in ExtractDislikedAspects(reviews)
  {
    FoundIfContained(DislikedText(reviews), NEGATIVE_KEYWORDS, i, 5);
  }

  /** When at most five keywords are found, the disliked aspects are exactly the negative
      keywords the disliked text contains. */
  lemma DislikedAspectsIff(reviews: seq<Review>, kw: string)
    requires |FoundKeywords(DislikedText(reviews), NEGATIVE_KEYWORDS)| <= 5
    ensures kw in ExtractDislikedAspects(reviews) <==> kw in NEGATIVE_KEYWORDS && Contains(DislikedText(reviews), kw)
  {
    FoundKeywordsIff(DislikedText(reviews), NEGATIVE_KEYWORDS, kw);
  }

  /** A review rated below 4.0 never changes the liked aspects. */
  lemma LikedIgnoresLowRated(reviews: seq<Review>, r: Review)
    requires r.rating < 4.0
    ensures ExtractLikedAspects(reviews + [r]) == ExtractLikedAspects(reviews)
  {
    assert LikedText(reviews + [r]) == LikedText(reviews) by {
      assert (reviews + [r])[..|reviews|] == reviews;
      assert RatedAtLeast(reviews + [r], 4.0) == RatedAtLeast(reviews, 4.0);
    }
  }

  /** A review rated above 2.0 never changes the disliked aspects. */
  lemma DislikedIgnoresHighRated(reviews: seq<Review>, r: Review)
    requires r.rating > 2.0
    ensures ExtractDislikedAspects(reviews + [r]) == ExtractDislikedAspects(reviews)
  {
    assert DislikedText(reviews + [r]) == DislikedText(reviews) by {
      assert (reviews + [r])[..|reviews|] == reviews;
      assert RatedAtMost(reviews + [r], 2.0) == RatedAtMost(reviews, 2.0);
    }
  }

  const BEGINNER_INDICATORS: seq<string> := ["easy", "simple", "basic", "beginner", "accessible"]
  const ADVANCED_INDICATORS: seq<string> := ["complex", "advanced", "difficult", "challenging", "deep"]

  /** The lower-cased review texts (titles left out). */
  function ReviewsText(reviews: seq<Review>): string {
    Lower(Join(" ", Texts(reviews)))
  }

  /** `_analyze_complexity`: one label by a two-to-one majority of indicator occurrences. */
  function AnalyzeComplexity(reviews: seq<Review>): (level: string)
    ensures var b := SumCounts(ReviewsText(reviews), BEGINNER_INDICATORS);
            var a := SumCounts(ReviewsText(reviews), ADVANCED_INDICATORS);
            && (level == "beginner" <==> b > a * 2)
            && (level == "advanced" <==> a > b * 2)
            && (level == "medium" <==> b <= a * 2 && a <= b * 2)
  {
    var text := ReviewsText(reviews);
    var beginnerCount := SumCounts(text, BEGINNER_INDICATORS);
    var advancedCount := SumCounts(text, ADVANCED_INDICATORS);
    if beginnerCount > advancedCount * 2 then "beginner"
    else if advancedCount > beginnerCount * 2 then "advanced"
    else "medium"
  }

  /** With no indicator in the reviews at all the label is "medium". */
  lemma ComplexityWithoutIndicators(reviews: seq<Review>)
    requires !AnyIn(ReviewsText(reviews), BEGINNER_INDICATORS) && !AnyIn(ReviewsText(reviews), ADVANCED_INDICATORS)
    ensures AnalyzeComplexity(reviews) == "medium"
  {
    SumCountsPositive(ReviewsText(reviews), BEGINNER_INDICATORS);
    SumCountsPositive(ReviewsText(reviews), ADVANCED_INDICATORS);
  }

  const AUDIENCE_KEYWORDS: seq<(string, seq<string>)> := [
    ("students", ["student", "college", "university", "academic"]),
    ("professionals", ["professional", "work", "career", "business"]),
    ("general_readers", ["anyone", "everyone", "general"]),
    ("young_adults", ["young adult", "teen", "teenager"]),
    ("adults", ["adult", "mature"])]

  /** The names of the table entries with a keyword in `text`, in table order. */
  function Matching(text: string, table: seq<(string, seq<string>)>): (r: seq<string>)
    ensures |r| <= |table|
  {
    if table == [] then []
    else
      var last := table[|table| - 1];
      Matching(text, table[..|table| - 1]) + (if AnyIn(text, last.1) then [last.0] else [])
  }

  /** A name is matched exactly when its table entry has a keyword in the text. */
  lemma {:induction false} MatchingIff(text: string, table: seq<(string, seq<string>)>, name: string)
    ensures name in Matching(text, table) <==>
              exists i :: 0 <= i < |table| && table[i].0 == name && AnyIn(text, table[i].1)
    decreases |table|
  {
    if table != [] {
      var init := table[..|table| - 1];
      MatchingIff(text, init, name);
      if i :| 0 <= i < |init| && init[i].0 == name && AnyIn(text, init[i].1) {
        assert table[i] == init[i];
      }
      if i :| 0 <= i < |table| && table[i].0 == name && AnyIn(text, table[i].1) {
        if i < |init| { assert init[i] == table[i]; }
      }
    }
  }

  /** Matching keeps the table's order: matching a concatenated table matches each part. */
  lemma {:induction false} MatchingAppend(text: string, a: seq<(string, seq<string>)>, b: seq<(string, seq<string>)>)
    ensures Matching(text, a + b) == Matching(text, a) + Matching(text, b)
    decreases |b|
  {
    if b == [] {
      assert a + b == a;
    } else {
      MatchingAppend(text, a, b[..|b| - 1]);
      assert (a + b)[..|a + b| - 1] == a + b[..|b| - 1];
    }
  }

  /** `_identify_target_audience`: the matching audiences, or "general_readers" when none match. */
  function IdentifyTargetAudience(reviews: seq<Review>): (audience: seq<string>)
    ensures audience != []
    ensures |audience| <= |AUDIENCE_KEYWORDS|
  {
    var identified := Matching(ReviewsText(reviews), AUDIENCE_KEYWORDS);
    if identified != [] then identified else ["general_readers"]
  }

  /** "general_readers" is named exactly when its own keywords occur or no audience matched. */
  lemma GeneralReadersIff(reviews: seq<Review>)
    ensures "general_readers" in IdentifyTargetAudience(reviews) <==>
              AnyIn(ReviewsText(reviews), ["anyone", "everyone", "general"])
              || Matching(ReviewsText(reviews), AUDIENCE_KEYWORDS) == []
  {
    MatchingIff(ReviewsText(reviews), AUDIENCE_KEYWORDS, "general_readers");
    var text := ReviewsText(reviews);
    if AnyIn(text, ["anyone", "everyone", "general"]) {
      assert AUDIENCE_KEYWORDS[2].0 == "general_readers";
    }
  }

  // ---------------------------------------------------------------------------
  // Authors and model-produced lists

  /** The raw `author` field: absent, a string (possibly JSON), or a list. */
  datatype AuthorData = NoAuthor | AuthorText(text: string) | AuthorList(items: seq<string>)

  /** What `json.loads` makes of a string, its items already rendered with `str`. */
  datatype Json = JsonList(items: seq<string>) | JsonDict(values: seq<string>) | JsonOther | JsonInvalid

  /** `[x.strip() for x in xs if x.strip()]`. */
  function KeepStripped(xs: seq<string>): (r: seq<string>)
    ensures |r| <= |xs|
    ensures forall i :: 0 <= i < |r| ==> r[i] != [] && !IsSpace(r[i][0]) && !IsSpace(r[i][|r[i]| - 1])
  {
    if xs == [] then []
    else KeepStripped(xs[..|xs| - 1]) + (if Strip(xs[|xs| - 1]) != "" then [Strip(xs[|xs| - 1])] else [])
  }

  lemma KeepStrippedIff(xs: seq<string>, s: string)
    ensures s in KeepStripped(xs) <==> s != "" && exists i :: 0 <= i < |xs| && Strip(xs[i]) == s
  {
    if s in KeepStripped(xs) {
      KeptIsStripped(xs, s);
    }
    if i :| 0 <= i < |xs| && Strip(xs[i]) == s && s != "" {
      StrippedIsKept(xs, i);
    }
  }

  lemma {:induction false} KeptIsStripped(xs: seq<string>, s: string)
    requires s in KeepStripped(xs)
    ensures s != "" && exists i :: 0 <= i < |xs| && Strip(xs[i]) == s
    decreases |xs|
  {
    var init := xs[..|xs| - 1];
    var last := Strip(xs[|xs| - 1]);
    assert KeepStripped(xs) == KeepStripped(init) + (if last != "" then [last] else []);
    if s in KeepStripped(init) {
      KeptIsStripped(init, s);
      var i :| 0 <= i < |init| && Strip(init[i]) == s;
      assert xs[i] == init[i];
    } else {
      assert s == last && last != "";
    }
  }

  lemma {:induction false} StrippedIsKept(xs: seq<string>, i: nat)
    requires i < |xs| && Strip(xs[i]) != ""
    ensures Strip(xs[i]) in KeepStripped(xs)
    decreases |xs|
  {
    var init := xs[..|xs| - 1];
    KeepStrippedSnoc(xs);
    if i < |init| {
      assert init[i] == xs[i];
      StrippedIsKept(init, i);
    }
  }

  /** Keeping over a list is keeping over all but its last entry, then the last. */
  lemma KeepStrippedSnoc(xs: seq<string>)
    requires xs != []
    ensures KeepStripped(xs) == KeepStripped(xs[..|xs| - 1])
              + (if Strip(xs[|xs| - 1]) != "" then [Strip(xs[|xs| - 1])] else [])
  {
  }

  /** `[a for a in authors if len(a) > 1]`. */
  function LongerThanOne(xs: seq<string>): (r: seq<string>)
    ensures |r| <= |xs|
    ensures forall i :: 0 <= i < |r| ==> |r[i]| > 1 && r[i] in xs
  {
    if xs == [] then []
    else LongerThanOne(xs[..|xs| - 1]) + (if |xs[|xs| - 1]| > 1 then [xs[|xs| - 1]] else [])
  }

  predicate FalsyAuthor(data: AuthorData) {
    data.NoAuthor? || (data.AuthorText? && data.text == "") || (data.AuthorList? && data.items == [])
  }

  /** `_parse_author_from_str`, with `json.loads` given as `parseJson`. */
  function ParseAuthorFromStr(data: AuthorData, parseJson: string -> Json): (authors: seq<string>)
    ensures FalsyAuthor(data) ==> authors == []
    ensures forall i :: 0 <= i < |authors| ==>
              |authors[i]| > 1 && !IsSpace(authors[i][0]) && !IsSpace(authors[i][|authors[i]| - 1])
  {
    if FalsyAuthor(data) then []
    else
      var candidates :=
        match data
        case AuthorList(items) => KeepStripped(items)
        case AuthorText(s) =>
          (match parseJson(s)
           case JsonList(items) => KeepStripped(items)
           case JsonDict(values) => KeepStripped(values)
           case _ => [Strip(s)])
        case NoAuthor => [];
      LongerThanOne(candidates)
  }

  /** For a list the authors are exactly the stripped entries longer than one character. */
  lemma AuthorListIff(items: seq<string>, parseJson: string -> Json, a: string)
    ensures a in ParseAuthorFromStr(AuthorList(items), parseJson) <==>
              |a| > 1 && exists i :: 0 <= i < |items| && Strip(items[i]) == a
  {
    var kept := KeepStripped(items);
    KeepStrippedIff(items, a);
    LongerThanOneIff(kept, a);
  }

  lemma {:induction false} LongerThanOneIff(xs: seq<string>, a: string)
    ensures a in LongerThanOne(xs) <==> a in xs && |a| > 1
    decreases |xs|
  {
    if xs != [] {
      LongerThanOneIff(xs[..|xs| - 1], a);
      assert xs == xs[..|xs| - 1] + [xs[|xs| - 1]];
    }
  }

  predicate IsListSeparator(c: char) {
    c == ',' || c == '\n'
  }

  /** `re.split(r'[\n,]', s)`: the pieces between separators, empty ones included. */
  function SplitOnSeparators(s: string): (pieces: seq<string>)
    ensures pieces != []
    ensures forall i, k :: 0 <= i < |pieces| && 0 <= k < |pieces[i]| ==> !IsListSeparator(pieces[i][k])
    decreases |s|
  {
    if s == [] then [""]
    else if IsListSeparator(s[0]) then [""] + SplitOnSeparators(s[1..])
    else
      var rest := SplitOnSeparators(s[1..]);
      [[s[0]] + rest[0]] + rest[1..]
  }

  /** Joining with one more part in front. */
  lemma {:induction false} JoinCons(sep: string, p: string, rest: seq<string>)
    requires rest != []
    ensures Join(sep, [p] + rest) == p + sep + Join(sep, rest)
    decreases |rest|
  {
    if |rest| > 1 {
      var init := rest[..|rest| - 1];
      JoinCons(sep, p, init);
      assert ([p] + rest)[..|rest|] == [p] + init;
    } else {
      assert ([p] + rest)[..1] == [p];
    }
  }

  /** Gluing a character to the front of the first piece glues it to the front of the join. */
  lemma PrependToFirst(c: char, rest: seq<string>)
    requires rest != []
    ensures Join(",", [[c] + rest[0]] + rest[1..]) == [c] + Join(",", rest)
  {
    if |rest| > 1 {
      JoinCons(",", [c] + rest[0], rest[1..]);
      JoinCons(",", rest[0], rest[1..]);
      assert [rest[0]] + rest[1..] == rest;
    }
  }

  /** Splitting a text with no newline at its commas and joining the pieces with commas
      gives the text back. */
  lemma {:induction false} SplitJoinRoundTrip(s: string)
    requires forall k :: 0 <= k < |s| ==> s[k] != '\n'
    ensures Join(",", SplitOnSeparators(s)) == s
    decreases |s|
  {
    if s != [] {
      var rest := SplitOnSeparators(s[1..]);
      SplitJoinRoundTrip(s[1..]);
      if IsListSeparator(s[0]) {
        JoinCons(",", "", rest);
      } else {
        PrependToFirst(s[0], rest);
      }
      assert s == [s[0]] + s[1..];
    }
  }

  /** `_llm_extract_list` given the model's stripped reply (`None` without a model). */
  function LlmExtractList(reply: Option<string>): (items: seq<string>)
    ensures !Truthy(reply) ==> items == []
    ensures forall i :: 0 <= i < |items| ==> items[i] != [] && !IsSpace(items[i][0]) && !IsSpace(items[i][|items[i]| - 1])
  {
    if !Truthy(reply) then [] else KeepStripped(SplitOnSeparators(reply.value))
  }

  /** A character of a kept item is a character of one of the pieces. */
  lemma KeptHasNoSeparator(pieces: seq<string>, item: string, k: nat)
    requires forall i, k :: 0 <= i < |pieces| && 0 <= k < |pieces[i]| ==> !IsListSeparator(pieces[i][k])
    requires item in KeepStripped(pieces) && k < |item|
    ensures !IsListSeparator(item[k])
  {
    KeepStrippedIff(pieces, item);
    var j :| 0 <= j < |pieces| && Strip(pieces[j]) == item;
    StripNoSeparator(pieces[j]);
  }

  /** Stripping adds no character, so no separator either. */
  lemma StripNoSeparator(p: string)
    requires forall k :: 0 <= k < |p| ==> !IsListSeparator(p[k])
    ensures forall k :: 0 <= k < |Strip(p)| ==> !IsListSeparator(Strip(p)[k])
  {
    var r := Strip(p);
    StripInfix(p);
    var a, b :| 0 <= a <= b <= |p| && r == p[a..b];
    forall k | 0 <= k < |r| ensures !IsListSeparator(r[k]) {
      assert r[k] == p[a + k];
    }
  }

  /** No listed item holds a comma or a newline. */
  lemma LlmItemsHaveNoSeparator(reply: Option<string>)
    ensures forall i, k :: 0 <= i < |LlmExtractList(reply)| && 0 <= k < |LlmExtractList(reply)[i]| ==>
              !IsListSeparator(LlmExtractList(reply)[i][k])
  {
    if Truthy(reply) {
      var pieces := SplitOnSeparators(reply.value);
      var items := LlmExtractList(reply);
      assert items == KeepStripped(pieces);
      forall i, k | 0 <= i < |items| && 0 <= k < |items[i]| ensures !IsListSeparator(items[i][k]) {
        KeptHasNoSeparator(pieces, items[i], k);
      }
    }
  }

  // ---------------------------------------------------------------------------
  // Series titles: the pattern (Book|Volume|Part)\s+(\d+)

  /** Length of the series word at `i` ("Book", "Volume" or "Part"), 0 when none is there. */
  function SeriesWordLen(t: string, i: nat): (w: nat)
    ensures w == 0 || w == 4 || w == 6
    ensures w > 0 ==> i + w <= |t|
  {
    if OccursAt(t, "Book", i) then 4
    else if OccursAt(t, "Volume", i) then 6
    else if OccursAt(t, "Part", i) then 4
    else 0
  }

  /** End of the run of ASCII digits starting at `i`. */
  function SkipDigits(t: string, i: nat): (j: nat)
    requires i <= |t|
    ensures i <= j <= |t|
    ensures forall k :: i <= k < j ==> IsDigit(t[k])
    ensures j < |t| ==> !IsDigit(t[j])
    decreases |t| - i
  {
    if i < |t| && IsDigit(t[i]) then SkipDigits(t, i + 1) else i
  }

  /** `int(ds)` for a run of ASCII digits. */
  function DigitsValue(ds: string): nat
    requires forall k :: 0 <= k < |ds| ==> IsDigit(ds[k])
  {
    if ds == [] then 0
    else
      assert IsDigit(ds[|ds| - 1]);
      DigitsValue(ds[..|ds| - 1]) * 10 + (ds[|ds| - 1] as int - '0' as int)
  }

  /** The pattern at position `i`: the end of the match and the number it carries. */
  datatype SeriesMatch = SeriesMatch(start: nat, end: nat, number: nat)

  function MatchAt(t: string, i: nat): (m: Option<SeriesMatch>)
    requires i <= |t|
    ensures m.Some? ==> m.value.start == i && i < m.value.end <= |t|
  {
    var w := SeriesWordLen(t, i);
    if w == 0 then None
    else
      var sp := SkipSpace(t, i + w);
      if sp == i + w then None
      else
        var e := SkipDigits(t, sp);
        if e == sp then None else Some(SeriesMatch(i, e, DigitsValue(t[sp..e])))
  }

  /** `re.search`: the leftmost position from `i` on where the pattern matches. */
  function SearchFrom(t: string, i: nat): (m: Option<SeriesMatch>)
    requires i <= |t|
    ensures m.Some? ==> i <= m.value.start <= |t| && MatchAt(t, m.value.start) == m
    ensures m.Some? ==> forall j :: i <= j < m.value.start ==> MatchAt(t, j).None?
    ensures m.None? ==> forall j :: i <= j <= |t| ==> MatchAt(t, j).None?
    decreases |t| - i
  {
    if MatchAt(t, i).Some? then MatchAt(t, i)
    else if i == |t| then None
    else SearchFrom(t, i + 1)
  }

  /** Position of the first occurrence of `m` at or after `i`, or `|s|` when there is none. */
  function FirstOccurrence(s: string, m: string, i: nat): (j: nat)
    requires i <= |s|
    ensures i <= j <= |s|
    ensures j < |s| ==> OccursAt(s, m, j)
    ensures forall k :: i <= k < j ==> !OccursAt(s, m, k)
    decreases |s| - i
  {
    if i == |s| || OccursAt(s, m, i) then i else FirstOccurrence(s, m, i + 1)
  }

  /** `s.split(m)[0]`: the text before the first occurrence of the non-empty `m`. */
  function BeforeFirst(s: string, m: string): (r: string)
    requires m != []
    ensures |r| <= |s| && r == s[..|r|]
    ensures |r| < |s| ==> OccursAt(s, m, |r|)
    ensures forall j :: 0 <= j < |r| ==> !OccursAt(s, m, j)
  {
    s[..FirstOccurrence(s, m, 0)]
  }

  /** `_extract_series_info(title, description)`; the description is not consulted. */
  function ExtractSeriesInfo(title: string, description: string): (info: Option<SeriesInfo>)
    ensures info.None? <==> forall j :: 0 <= j <= |title| ==> MatchAt(title, j).None?
  {
    match SearchFrom(title, 0)
    case None => None
    case Some(m) =>
      Some(SeriesInfo(Strip(BeforeFirst(title, title[m.start..m.end])), m.number, 0, []))
  }

  /** Two equal windows of a text hold the same short patterns at their starts. */
  lemma SameWindow(t: string, i: nat, j: nat, n: nat, p: string)
    requires i + n <= |t| && j + n <= |t| && t[i..i + n] == t[j..j + n] && |p| <= n
    ensures OccursAt(t, p, i) <==> OccursAt(t, p, j)
  {
    assert t[i..i + |p|] == t[i..i + n][..|p|];
    assert t[j..j + |p|] == t[j..j + n][..|p|];
  }

  /** The series word is the same at the starts of two equal windows of six or more characters. */
  lemma SameWord(t: string, i: nat, j: nat, n: nat)
    requires 6 <= n && i + n <= |t| && j + n <= |t| && t[i..i + n] == t[j..j + n]
    ensures SeriesWordLen(t, i) == SeriesWordLen(t, j)
  {
    SameWindow(t, i, j, n, "Book");
    SameWindow(t, i, j, n, "Volume");
    SameWindow(t, i, j, n, "Part");
  }

  /** `SkipSpace` stops at the first non-space character. */
  lemma {:induction false} SkipSpaceAt(s: string, i: nat, e: nat)
    requires i <= e < |s| && !IsSpace(s[e])
    requires forall k :: i <= k < e ==> IsSpace(s[k])
    ensures SkipSpace(s, i) == e
    decreases e - i
  {
    if i < e { SkipSpaceAt(s, i + 1, e); }
  }

  /** The run of spaces after the word is as long in both windows when a digit ends it. */
  lemma SameSpaces(t: string, i: nat, j: nat, n: nat, a: nat)
    requires i + n <= |t| && j + n <= |t| && t[i..i + n] == t[j..j + n] && a <= n
    requires SkipSpace(t, j + a) - j < n && IsDigit(t[SkipSpace(t, j + a)])
    ensures SkipSpace(t, i + a) == i + (SkipSpace(t, j + a) - j)
  {
    var u, v := t[i..i + n], t[j..j + n];
    var d := SkipSpace(t, j + a) - j;
    forall k | i + a <= k < i + d ensures IsSpace(t[k]) {
      assert t[k] == u[k - i] == v[k - i] == t[j + (k - i)];
    }
    assert t[i + d] == u[d] == v[d] == t[j + d];
    SkipSpaceAt(t, i + a, i + d);
  }

  /** The text of a match at `j` is matched again wherever it recurs. */
  lemma MatchRecurs(t: string, j: nat, m: SeriesMatch, i: nat)
    requires j <= |t| && MatchAt(t, j) == Some(m)
    requires OccursAt(t, t[m.start..m.end], i)
    ensures MatchAt(t, i).Some?
  {
    var len := m.end - m.start;
    var w := SeriesWordLen(t, j);
    MatchShape(t, j, m);
    assert t[i..i + len] == t[j..j + len];
    WindowMatches(t, i, j, len, w, SkipSpace(t, j + w));
  }

  /** A window equal to one that holds a series word, spaces and a digit holds them too. */
  lemma WindowMatches(t: string, i: nat, j: nat, n: nat, w: nat, sp: nat)
    requires 6 <= n && i + n <= |t| && j + n <= |t| && t[i..i + n] == t[j..j + n]
    requires SeriesWordLen(t, j) == w > 0 && SkipSpace(t, j + w) == sp && j + w < sp < j + n && IsDigit(t[sp])
    ensures MatchAt(t, i).Some?
  {
    SameWord(t, i, j, n);
    SameSpaces(t, i, j, n, w);
    var d := sp - j;
    assert t[i + d] == t[i..i + n][d] == t[j..j + n][d];
    MatchAtDigit(t, i, w, d);
  }

  /** A match is a series word, at least one space and a digit, six characters at least. */
  lemma MatchShape(t: string, j: nat, m: SeriesMatch)
    requires j <= |t| && MatchAt(t, j) == Some(m)
    ensures var w := SeriesWordLen(t, j); var sp := SkipSpace(t, j + w);
            m.start == j && m.end <= |t| && w > 0 && j + w < sp < m.end && IsDigit(t[sp]) && m.end - j >= 6
  {
  }

  /** A series word, then at least one space, then a digit, is a match. */
  lemma MatchAtDigit(t: string, i: nat, w: nat, d: nat)
    requires i <= |t| && SeriesWordLen(t, i) == w > 0
    requires SkipSpace(t, i + w) == i + d && d != w && i + d < |t| && IsDigit(t[i + d])
    ensures MatchAt(t, i).Some?
  {
    assert SkipDigits(t, i + d) != i + d;
  }

  /** The matched text does not occur before the leftmost match. */
  lemma BeforeLeftmostMatch(t: string, m: SeriesMatch)
    requires SearchFrom(t, 0) == Some(m)
    ensures BeforeFirst(t, t[m.start..m.end]) == t[..m.start]
  {
    var text := t[m.start..m.end];
    var before := BeforeFirst(t, text);
    assert OccursAt(t, text, m.start);
    if |before| < m.start {
      MatchRecurs(t, m.start, m, |before|);
    }
  }

  /** The series name is the stripped title text before the leftmost match, and the
      position is the number the match carries. */
  lemma SeriesNameIsPrefix(title: string, description: string, m: SeriesMatch)
    requires SearchFrom(title, 0) == Some(m)
    ensures ExtractSeriesInfo(title, description)
            == Some(SeriesInfo(Strip(title[..m.start]), m.number, 0, []))
  {
    BeforeLeftmostMatch(title, m);
  }

  // ---------------------------------------------------------------------------
  // Genres

  const GENRE_MAPPING: seq<(string, seq<string>)> := [
    ("fiction", ["fiction", "literature", "novel", "story"]),
    ("mystery", ["mystery", "thriller", "crime", "detective"]),
    ("sci-fi", ["science fiction", "sci-fi", "fantasy", "space"]),
    ("romance", ["romance", "love", "romantic"]),
    ("biography", ["biography", "memoir", "autobiography"]),
    ("history", ["history", "historical"]),
    ("self-help", ["self-help", "personal development", "self improvement"]),
    ("business", ["business", "economics", "finance", "management"]),
    ("academic", ["academic", "textbook", "university", "scholarly"])
  ]

  /** The text the genre rules read: categories, title and description joined by spaces, lowercased. */
  function GenreText(categories: seq<string>, title: string, description: string): string {
    Lower(Join(" ", categories + [title, description]))
  }

  /** The memo key the source builds: the same parts joined by `"|"`. */
  function GenreKey(categories: seq<string>, title: string, description: string): string {
    Join("|", categories + [title, description])
  }

  /** The genres of a text: the first five, in table order, of those with a keyword in the text. */
  function ClassifyGenres(text: string): (genres: seq<string>)
    ensures |genres| <= 5
  {
    Take(Matching(text, GENRE_MAPPING), 5)
  }

  /** Every listed genre has a keyword in the text. */
  lemma GenreListedOnlyIfMatched(text: string, g: string)
    requires g in ClassifyGenres(text)
    ensures exists i :: 0 <= i < |GENRE_MAPPING| && GENRE_MAPPING[i].0 == g && AnyIn(text, GENRE_MAPPING[i].1)
  {
    MatchingIff(text, GENRE_MAPPING, g);
  }

  /** A name whose row has a keyword in the text is among the first five matches when
      fewer than five rows before it matched. */
  lemma ListedIfMatched(text: string, table: seq<(string, seq<string>)>, i: nat)
    requires i < |table| && AnyIn(text, table[i].1)
    requires |Matching(text, table[..i])| < 5
    ensures table[i].0 in Take(Matching(text, table), 5)
  {
    var pre, mid, post := table[..i], [table[i]], table[i + 1..];
    assert table == pre + mid + post;
    MatchingAppend(text, pre + mid, post);
    MatchingAppend(text, pre, mid);
    assert mid[..0] == [];
    assert Matching(text, mid) == [table[i].0];
    var all := Matching(text, table);
    assert all[|Matching(text, pre)|] == table[i].0;
  }

  /** A name none of whose rows has a keyword in the text is not among the matches. */
  lemma NotListedIfUnmatched(text: string, table: seq<(string, seq<string>)>, name: string)
    requires forall i :: 0 <= i < |table| && table[i].0 == name ==> !AnyIn(text, table[i].1)
    ensures name !in Take(Matching(text, table), 5)
  {
    MatchingIff(text, table, name);
  }

  /** A genre with a keyword in the text is listed when fewer than five genres before it matched. */
  lemma GenreListedIfMatched(text: string, i: nat)
    requires i < |GENRE_MAPPING| && AnyIn(text, GENRE_MAPPING[i].1)
    requires |Matching(text, GENRE_MAPPING[..i])| < 5
    ensures GENRE_MAPPING[i].0 in ClassifyGenres(text)
  {
    ListedIfMatched(text, GENRE_MAPPING, i);
  }

  /** When at most five genres match, the list is exactly the matching genres. */
  lemma GenresIffMatched(text: string, g: string)
    requires |Matching(text, GENRE_MAPPING)| <= 5
    ensures g in ClassifyGenres(text) <==>
              exists i :: 0 <= i < |GENRE_MAPPING| && GENRE_MAPPING[i].0 == g && AnyIn(text, GENRE_MAPPING[i].1)
  {
    MatchingIff(text, GENRE_MAPPING, g);
  }

  /** The loop of `_classify_genres_rule_based` over the genre table. */
  method MatchGenres(text: string, table: seq<(string, seq<string>)>) returns (identified: seq<string>)
    ensures identified == Matching(text, table)
  {
    identified := [];
    var i := 0;
    while i < |table|
      invariant 0 <= i <= |table|
      invariant identified == Matching(text, table[..i])
    {
      assert table[..i + 1][..i] == table[..i];
      var (genre, keywords) := table[i];
      if AnyIn(text, keywords) {
        identified := identified + [genre];
      }
      i := i + 1;
    }
    assert table[..i] == table;
  }

  // ---------------------------------------------------------------------------
  // Themes

  const THEME_KEYWORDS: seq<(string, seq<string>)> := [
    ("coming-of-age", ["growing up", "adolescence", "teenager", "youth"]),
    ("family", ["family", "parents", "children", "home", "mother", "father"]),
    ("love", ["love", "romance", "relationship", "heart", "romantic"]),
    ("friendship", ["friendship", "friends", "companion", "buddy"]),
    ("survival", ["survival", "struggle", "overcome", "endure"]),
    ("adventure", ["adventure", "journey", "quest", "travel"]),
    ("power", ["power", "authority", "control", "dominance"]),
    ("justice", ["justice", "fairness", "right", "wrong", "law"]),
    ("war", ["war", "battle", "conflict", "military", "soldier"]),
    ("technology", ["technology", "tech", "digital", "computer", "ai"])
  ]

  /** The text the theme rules read: every review's title and text, joined and lowercased. */
  function ThemeText(reviews: seq<Review>): string {
    Lower(Join(" ", TitlesAndTexts(reviews)))
  }

  /** `(theme, score)` for each table theme whose keywords occur at least twice, in table order. */
  function ScoredThemes(text: string, table: seq<(string, seq<string>)>): (r: seq<(string, real)>)
    ensures |r| <= |table|
    ensures forall i :: 0 <= i < |r| ==> r[i].1 >= 2.0
  {
    if table == [] then []
    else
      var last := table[|table| - 1];
      var score := SumCounts(text, last.1);
      ScoredThemes(text, table[..|table| - 1]) + (if score >= 2 then [(last.0, score as real)] else [])
  }

  /** A theme is scored exactly when its keyword counts sum to two or more, with that sum. */
  lemma {:induction false} ScoredThemesIff(text: string, table: seq<(string, seq<string>)>, e: (string, real))
    ensures e in ScoredThemes(text, table) <==>
              exists i :: 0 <= i < |table| && table[i].0 == e.0 && SumCounts(text, table[i].1) >= 2
                          && e.1 == SumCounts(text, table[i].1) as real
    decreases |table|
  {
    if table != [] {
      var init := table[..|table| - 1];
      ScoredThemesIff(text, init, e);
      if i :| 0 <= i < |init| && init[i].0 == e.0 && SumCounts(text, init[i].1) >= 2
               && e.1 == SumCounts(text, init[i].1) as real {
        assert table[i] == init[i];
      }
      if i :| 0 <= i < |table| && table[i].0 == e.0 && SumCounts(text, table[i].1) >= 2
               && e.1 == SumCounts(text, table[i].1) as real {
        if i < |init| { assert init[i] == table[i]; }
      }
    }
  }

  /** The loop of `_extract_themes_rule_based` over a theme table. */
  method ScoreThemes(text: string, table: seq<(string, seq<string>)>) returns (themeScores: seq<(string, real)>)
    ensures themeScores == ScoredThemes(text, table)
  {
    themeScores := [];
    var i := 0;
    while i < |table|
      invariant 0 <= i <= |table|
      invariant themeScores == ScoredThemes(text, table[..i])
    {
      assert table[..i + 1][..i] == table[..i];
      var (theme, keywords) := table[i];
      var score := SumCounts(text, keywords);
      if score >= 2 {
        themeScores := themeScores + [(theme, score as real)];
      }
      i := i + 1;
    }
    assert table[..i] == table;
  }

  /** The scoring loop followed by the sort and the cut to six names. */
  method RankThemes(text: string) returns (themes: seq<string>)
    ensures themes == Firsts(RankedThemes(text))
  {
    var themeScores := ScoreThemes(text, THEME_KEYWORDS);
    var ranked := SortDesc(themeScores);
    themes := Firsts(Take(ranked, 6));
  }

  /** The six best-scored themes, by non-increasing score, ties in table order. */
  function RankedThemes(text: string): (ranked: seq<(string, real)>)
    ensures |ranked| <= 6
  {
    Take(SortDesc(ScoredThemes(text, THEME_KEYWORDS)), 6)
  }

  /** `_extract_themes_rule_based` without its memo table. */
  function ExtractThemes(reviews: seq<Review>): (themes: seq<string>)
    ensures reviews == [] ==> themes == []
    ensures |themes| <= 6
  {
    if reviews == [] then [] else Firsts(RankedThemes(ThemeText(reviews)))
  }

  /** The first six of a stable descending sort: sorted, drawn from the input, and no entry
      left out beats one kept. */
  lemma TopSix(scored: seq<(string, real)>)
    ensures SortedDesc(Take(SortDesc(scored), 6))
    ensures forall i :: 0 <= i < |Take(SortDesc(scored), 6)| ==> Take(SortDesc(scored), 6)[i] in scored
    ensures forall e, i :: e in scored && e !in Take(SortDesc(scored), 6) && 0 <= i < |Take(SortDesc(scored), 6)| ==>
              e.1 <= Take(SortDesc(scored), 6)[i].1
  {
    SortDescSorted(scored);
    TopSixDrawn(scored);
    TopSixBeatLeftOut(scored);
  }

  lemma TopSixDrawn(scored: seq<(string, real)>)
    ensures forall i :: 0 <= i < |Take(SortDesc(scored), 6)| ==> Take(SortDesc(scored), 6)[i] in scored
  {
    var sorted := SortDesc(scored);
    var ranked := Take(sorted, 6);
    forall i | 0 <= i < |ranked| ensures ranked[i] in scored {
      assert ranked[i] == sorted[i] && sorted[i] in multiset(sorted);
    }
  }

  lemma TopSixBeatLeftOut(scored: seq<(string, real)>)
    ensures forall e, i :: e in scored && e !in Take(SortDesc(scored), 6) && 0 <= i < |Take(SortDesc(scored), 6)| ==>
              e.1 <= Take(SortDesc(scored), 6)[i].1
  {
    var sorted := SortDesc(scored);
    var ranked := Take(sorted, 6);
    SortDescSorted(scored);
    forall e, i | e in scored && e !in ranked && 0 <= i < |ranked| ensures e.1 <= ranked[i].1 {
      assert e in multiset(sorted);
      var j :| 0 <= j < |sorted| && sorted[j] == e;
      assert ranked[i] == sorted[i];
    }
  }

  /** The ranked themes are scored themes, each counted at least twice, in non-increasing
      score order, and no scored theme left out beats one kept. */
  lemma RankedThemesFacts(text: string)
    ensures SortedDesc(RankedThemes(text))
    ensures forall i :: 0 <= i < |RankedThemes(text)| ==>
              RankedThemes(text)[i] in ScoredThemes(text, THEME_KEYWORDS) && RankedThemes(text)[i].1 >= 2.0
    ensures forall e, i :: e in ScoredThemes(text, THEME_KEYWORDS) && e !in RankedThemes(text) && 0 <= i < |RankedThemes(text)| ==>
              e.1 <= RankedThemes(text)[i].1
  {
    TopSix(ScoredThemes(text, THEME_KEYWORDS));
  }

  /** Themes with equal scores keep the theme table's order. */
  lemma ThemeTiesInTableOrder(text: string, v: real)
    ensures WithScore(SortDesc(ScoredThemes(text, THEME_KEYWORDS)), v) == WithScore(ScoredThemes(text, THEME_KEYWORDS), v)
  {
    SortDescStable(ScoredThemes(text, THEME_KEYWORDS), v);
  }

  // ---------------------------------------------------------------------------
  // The extractor and its memo tables

  /** `BooksProductInfoExtractor`: the genre and theme memo tables it keeps between calls.
      The genre table is keyed by the inputs themselves; `CachedGenresAsWritten` models the
      `"|"`-joined string key of the source. */
  class BooksProductInfoExtractor {
    var genreCache: map<(seq<string>, string, string), seq<string>>
    var themeCache: map<string, seq<string>>

    /** Every memoised answer is the answer the rules give. */
    ghost predicate Valid()
      reads this
    {
      && (forall key :: key in genreCache ==> genreCache[key] == ClassifyGenres(GenreText(key.0, key.1, key.2)))
      && (forall text :: text in themeCache ==> themeCache[text] == Firsts(RankedThemes(text)))
    }

    constructor ()
      ensures Valid()
      ensures genreCache == map[] && themeCache == map[]
    {
      genreCache := map[];
      themeCache := map[];
    }

    /** `_classify_genres_rule_based`: a repeated call is answered from the table, and every
        answer is the rule-based one. */
    method ClassifyGenresRuleBased(categories: seq<string>, title: string, description: string) returns (genres: seq<string>)
      requires Valid()
      modifies this
      ensures Valid()
      ensures genres == ClassifyGenres(GenreText(categories, title, description))
      ensures (categories, title, description) in old(genreCache) ==> genres == old(genreCache)[(categories, title, description)]
      ensures genreCache == old(genreCache)[(categories, title, description) := genres]
      ensures themeCache == old(themeCache)
    {
      var key := (categories, title, description);
      if key in genreCache {
        return genreCache[key];
      }
      var identified := MatchGenres(GenreText(categories, title, description), GENRE_MAPPING);
      genres := Take(identified, 5);
      genreCache := genreCache[key := genres];
    }

    /** `_extract_themes_rule_based`: no reviews give no themes and leave the table alone;
        otherwise the answer is memoised under the review text. */
    method ExtractThemesRuleBased(reviews: seq<Review>) returns (themes: seq<string>)
      requires Valid()
      modifies this
      ensures Valid()
      ensures themes == ExtractThemes(reviews)
      ensures reviews == [] ==> themeCache == old(themeCache)
      ensures reviews != [] ==> themeCache == old(themeCache)[ThemeText(reviews) := themes]
      ensures genreCache == old(genreCache)
    {
      if reviews == [] {
        return [];
      }
      var text := ThemeText(reviews);
      if text in themeCache {
        return themeCache[text];
      }
      themes := RankThemes(text);
      themeCache := themeCache[text := themes];
    }
  }

  // ---------------------------------------------------------------------------
  // The genre memo table as written

  /** The genre lookup as the source writes it: the memo table is keyed by the `"|"`-joined
      inputs; the result and the new table. */
  function CachedGenresAsWritten(cache: map<string, seq<string>>, categories: seq<string>, title: string, description: string)
    : (r: (seq<string>, map<string, seq<string>>))
    ensures GenreKey(categories, title, description) in r.1
    ensures r.1[GenreKey(categories, title, description)] == r.0
    ensures GenreKey(categories, title, description) !in cache ==> r.0 == ClassifyGenres(GenreText(categories, title, description))
    ensures GenreKey(categories, title, description) in cache ==> r == (cache[GenreKey(categories, title, description)], cache)
  {
    var key := GenreKey(categories, title, description);
    if key in cache then (cache[key], cache)
    else
      var genres := ClassifyGenres(GenreText(categories, title, description));
      (genres, cache[key := genres])
  }

  /** A pattern holding a character the text lacks is not in the text. */
  lemma MissingChar(text: string, pat: string, k: nat)
    requires k < |pat|
    requires forall j :: 0 <= j < |text| ==> text[j] != pat[k]
    ensures !Contains(text, pat)
  {
    forall i | 0 <= i ensures !OccursAt(text, pat, i) {
      if i + |pat| <= |text| { assert text[i..i + |pat|][k] == text[i + k]; }
    }
    ContainsIffOccurs(text, pat);
  }

  lemma LowerNoCapitals(s: string)
    requires forall j :: 0 <= j < |s| ==> !('A' <= s[j] <= 'Z')
    ensures Lower(s) == s
  {
  }

  /** The inputs (["science"], "fiction", "") and ([], "science|fiction", "") share one key. */
  lemma GenreKeysCollide()
    ensures GenreKey(["science"], "fiction", "") == "science|fiction|"
    ensures GenreKey([], "science|fiction", "") == "science|fiction|"
  {
    JoinSnoc("|", ["science"], "fiction");
    assert ["science"] + ["fiction", ""] == ["science", "fiction"] + [""];
    JoinSnoc("|", ["science", "fiction"], "");
    JoinSnoc("|", ["science|fiction"], "");
    assert [] + ["science|fiction", ""] == ["science|fiction"] + [""];
  }

  /** The text of the inputs `[a]`, `b`, `""` is `a + " " + b + " "`. */
  lemma TwoPartText(a: string, b: string)
    ensures Join(" ", [a] + [b, ""]) == a + " " + b + " "
  {
    assert [a] + [b] == [a, b];
    JoinSnoc(" ", [a], b);
    assert [a] + [b, ""] == [a, b] + [""];
    JoinSnoc(" ", [a, b], "");
  }

  /** The genre text of the first colliding input. */
  lemma FirstText()
    ensures GenreText(["science"], "fiction", "") == "science fiction "
  {
    TwoPartText("science", "fiction");
    assert "science" + " " + "fiction" + " " == "science fiction ";
    assert Join(" ", ["science"] + ["fiction", ""]) == "science fiction ";
    LowerNoCapitals("science fiction ");
  }

  /** The genre text of the second colliding input. */
  lemma SecondText()
    ensures GenreText([], "science|fiction", "") == "science|fiction "
  {
    var parts: seq<string> := [];
    SecondJoin(parts);
    assert GenreText(parts, "science|fiction", "") == Lower("science|fiction ");
    SecondLower("science|fiction ");
  }

  lemma SecondLower(text: string)
    requires text == "science|fiction "
    ensures Lower(text) == text
  {
    forall j | 0 <= j < |text| ensures !('A' <= text[j] <= 'Z') {
      assert text[j] in "science|fiction ";
    }
    LowerNoCapitals(text);
  }

  lemma SecondJoin(parts: seq<string>)
    requires parts == []
    ensures Join(" ", parts + ["science|fiction", ""]) == "science|fiction "
  {
    JoinSnoc(" ", ["science|fiction"], "");
    assert parts + ["science|fiction", ""] == ["science|fiction"] + [""];
  }

  lemma SciFiKeywords()
    ensures GENRE_MAPPING[2] == ("sci-fi", ["science fiction", "sci-fi", "fantasy", "space"])
  {
  }

  /** Row 2 is the only sci-fi row of the genre table. */
  lemma SciFiRow(i: nat)
    requires i < |GENRE_MAPPING| && GENRE_MAPPING[i].0 == "sci-fi"
    ensures i == 2
  {
    var names := Firsts(seq(|GENRE_MAPPING|, j requires 0 <= j < |GENRE_MAPPING| => (GENRE_MAPPING[j].0, 0.0)));
    assert names == ["fiction", "mystery", "sci-fi", "romance", "biography", "history", "self-help", "business", "academic"];
    assert names[i] == "sci-fi";
  }

  /** A text with a sci-fi keyword is classified sci-fi. */
  lemma SciFiListed(text: string)
    requires AnyIn(text, ["science fiction", "sci-fi", "fantasy", "space"])
    ensures "sci-fi" in ClassifyGenres(text)
  {
    SciFiKeywords();
    ListedIfMatched(text, GENRE_MAPPING, 2);
  }

  /** A text with no sci-fi keyword is not classified sci-fi. */
  lemma SciFiNotListed(text: string)
    requires !AnyIn(text, ["science fiction", "sci-fi", "fantasy", "space"])
    ensures "sci-fi" !in ClassifyGenres(text)
  {
    forall i | 0 <= i < |GENRE_MAPPING| && GENRE_MAPPING[i].0 == "sci-fi"
      ensures !AnyIn(text, GENRE_MAPPING[i].1)
    {
      SciFiRow(i);
      SciFiKeywords();
    }
    NotListedIfUnmatched(text, GENRE_MAPPING, "sci-fi");
  }

  /** The first input's text names science fiction, so sci-fi is among its genres. */
  lemma FirstInputIsSciFi()
    ensures "sci-fi" in ClassifyGenres(GenreText(["science"], "fiction", ""))
  {
    FirstText();
    SciFiIn("science fiction ");
    SciFiListed("science fiction ");
  }

  /** The second input's text names no sci-fi keyword, so sci-fi is not among its genres. */
  lemma SecondInputIsNotSciFi()
    ensures "sci-fi" !in ClassifyGenres(GenreText([], "science|fiction", ""))
  {
    SecondText();
    SciFiNotIn("science|fiction ");
    SciFiNotListed("science|fiction ");
  }

  /** Once the first input is looked up, the second is answered with the first one's genres,
      which include sci-fi, although the second one's own text matches no sci-fi keyword. */
  lemma GenreKeyCollision()
    ensures var first := CachedGenresAsWritten(map[], ["science"], "fiction", "");
            var second := CachedGenresAsWritten(first.1, [], "science|fiction", "");
            "sci-fi" in second.0 && second.0 != ClassifyGenres(GenreText([], "science|fiction", ""))
  {
    GenreKeysCollide();
    FirstInputIsSciFi();
    SecondInputIsNotSciFi();
  }

  /** "science fiction " names science fiction. */
  lemma SciFiIn(text: string)
    requires text == "science fiction "
    ensures AnyIn(text, ["science fiction", "sci-fi", "fantasy", "space"])
  {
    assert OccursAt(text, "science fiction", 0);
    ContainsIffOccurs(text, "science fiction");
  }

  /** A text holding none of four keywords holds none of the list of them. */
  lemma NoneOfFour(text: string, a: string, b: string, c: string, d: string)
    requires !Contains(text, a) && !Contains(text, b) && !Contains(text, c) && !Contains(text, d)
    ensures !AnyIn(text, [a, b, c, d])
  {
    assert [d][1..] == [];
    assert !AnyIn(text, [d]);
    assert [c, d][1..] == [d];
    assert !AnyIn(text, [c, d]);
    assert [b, c, d][1..] == [c, d];
    assert !AnyIn(text, [b, c, d]);
    assert [a, b, c, d][1..] == [b, c, d];
  }

  /** "science|fiction " breaks "science fiction" at the bar. */
  lemma NoScienceFiction(text: string)
    requires text == "science|fiction "
    ensures !Contains(text, "science fiction")
  {
    forall i | 0 <= i ensures !OccursAt(text, "science fiction", i) {
      if i == 0 {
        assert text[0..15][7] == '|';
      } else if i == 1 {
        assert text[1..16][0] == 'c';
      }
    }
    ContainsIffOccurs(text, "science fiction");
  }

  /** "science|fiction " has no '-', so no "sci-fi". */
  lemma NoSciFiWord(text: string)
    requires text == "science|fiction "
    ensures !Contains(text, "sci-fi")
  {
    MissingChar(text, "sci-fi", 3);
  }

  /** "science|fiction " has no 'y', so no "fantasy". */
  lemma NoFantasyWord(text: string)
    requires text == "science|fiction "
    ensures !Contains(text, "fantasy")
  {
    MissingChar(text, "fantasy", 6);
  }

  /** "science|fiction " has no 'p', so no "space". */
  lemma NoSpaceWord(text: string)
    requires text == "science|fiction "
    ensures !Contains(text, "space")
  {
    MissingChar(text, "space", 1);
  }

  /** No sci-fi keyword occurs in "science|fiction ". */
  lemma SciFiNotIn(text: string)
    requires text == "science|fiction "
    ensures !AnyIn(text, ["science fiction", "sci-fi", "fantasy", "space"])
  {
    NoSciFiWord(text);
    NoFantasyWord(text);
    NoSpaceWord(text);
    NoScienceFiction(text);
    NoneOfFour(text, "science fiction", "sci-fi", "fantasy", "space");
  }
}
