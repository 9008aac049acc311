/** The reader profile of `books_user_profile.py`: genre weights and confidences that
    interactions strengthen, weaken and nudge in place, the pass that settles genres both
    preferred and disliked, the profile-driven answer policy, and the generator that derives
    a profile from one book's product information. */
module Profile {
  import opened Text
  import opened Scores
  import opened ProductInfo

  /** `d.get(k, default)` on a map of reals. */
  function Get(d: map<string, real>, k: string, default: real): real {
    if k in d then d[k] else default
  }

  /** Every value of the map lies in [0, 1]. */
  ghost predicate Unit(d: map<string, real>) {
    forall k :: k in d ==> 0.0 <= d[k] <= 1.0
  }

  // ---------------------------------------------------------------------------
  // The effect of one interaction on the weight and confidence maps

  /** `_strengthen_preference` on the weights: an existing weight rises by 0.1 up to 1.0,
      an absent one is set to 0.7. */
  function StrengthenWeights(weights: map<string, real>, item: string): (w: map<string, real>)
    ensures w.Keys == weights.Keys + {item}
    ensures forall k :: k in weights && k != item ==> w[k] == weights[k]
    ensures item !in weights ==> w[item] == 0.7
    ensures item in weights && weights[item] <= 1.0 ==> weights[item] <= w[item] <= 1.0
    ensures item in weights ==> w[item] <= weights[item] + 0.1 && w[item] <= 1.0
    ensures item in weights ==> w[item] == weights[item] + 0.1 || w[item] == 1.0
    ensures Unit(weights) ==> Unit(w)
  {
    if item in weights then weights[item := Min(weights[item] + 0.1, 1.0)] else weights[item := 0.7]
  }

  /** `_weaken_preference` on the weights: an existing weight falls by 0.2 down to 0.0, an
      absent one stays absent. */
  function WeakenWeights(weights: map<string, real>, item: string): (w: map<string, real>)
    ensures w.Keys == weights.Keys
    ensures forall k :: k in weights && k != item ==> w[k] == weights[k]
    ensures item in weights && 0.0 <= weights[item] ==> 0.0 <= w[item] <= weights[item]
    ensures item in weights ==> w[item] >= weights[item] - 0.2 && w[item] >= 0.0
    ensures item in weights ==> w[item] == weights[item] - 0.2 || w[item] == 0.0
    ensures Unit(weights) ==> Unit(w)
  {
    if item in weights then weights[item := Max(weights[item] - 0.2, 0.0)] else weights
  }

  /** The confidence half of `_strengthen_preference`: up by 0.1 from the default 0.5, at most 1.0. */
  function StrengthenConfidence(conf: map<string, real>, item: string): (c: map<string, real>)
    ensures c.Keys == conf.Keys + {item}
    ensures forall k :: k in conf && k != item ==> c[k] == conf[k]
    ensures item !in conf ==> c[item] == 0.6
    ensures c[item] <= Get(conf, item, 0.5) + 0.1 && c[item] <= 1.0
    ensures c[item] == Get(conf, item, 0.5) + 0.1 || c[item] == 1.0
    ensures Unit(conf) ==> Unit(c)
  {
    conf[item := Min(Get(conf, item, 0.5) + 0.1, 1.0)]
  }

  /** The confidence half of `_weaken_preference`: down by 0.2 from the default 0.5, at least 0.0. */
  function WeakenConfidence(conf: map<string, real>, item: string): (c: map<string, real>)
    ensures c.Keys == conf.Keys + {item}
    ensures forall k :: k in conf && k != item ==> c[k] == conf[k]
    ensures item !in conf ==> c[item] == 0.3
    ensures c[item] >= Get(conf, item, 0.5) - 0.2 && c[item] >= 0.0
    ensures c[item] == Get(conf, item, 0.5) - 0.2 || c[item] == 0.0
    ensures Unit(conf) ==> Unit(c)
  {
    conf[item := Max(Get(conf, item, 0.5) - 0.2, 0.0)]
  }

  /** `_recalculate_confidence`: every confidence rises by 0.01, at most 1.0. */
  function Nudged(conf: map<string, real>): (c: map<string, real>)
    ensures c.Keys == conf.Keys
    ensures forall k :: k in conf && conf[k] <= 1.0 ==> conf[k] <= c[k] <= 1.0
    ensures forall k :: k in conf ==> c[k] <= conf[k] + 0.01 && c[k] <= 1.0
    ensures forall k :: k in conf ==> c[k] == conf[k] + 0.01 || c[k] == 1.0
    ensures Unit(conf) ==> Unit(c)
  {
    map k | k in conf :: Min(conf[k] + 0.01, 1.0)
  }

  /** The weight and confidence maps of a profile. */
  datatype Prefs = Prefs(weights: map<string, real>, confidence: map<string, real>)

  /** What `update_from_interaction` does to the two maps. */
  function Interact(p: Prefs, action: string, item: string): (r: Prefs)
    ensures action == "selected" ==> r.weights.Keys == p.weights.Keys + {item}
    ensures action != "selected" ==> r.weights.Keys == p.weights.Keys
    ensures action != "selected" && action != "rejected" ==> r.weights == p.weights
    ensures action == "selected" || action == "rejected" ==> r.confidence.Keys == p.confidence.Keys + {item}
    ensures action != "selected" && action != "rejected" ==> r.confidence.Keys == p.confidence.Keys
    ensures action == "selected" && item !in p.weights ==> r.weights[item] == 0.7
    ensures action == "selected" && item !in p.confidence ==> r.confidence[item] == 0.61
    ensures action == "rejected" && item !in p.confidence ==> r.confidence[item] == 0.31
    ensures Unit(p.weights) && Unit(p.confidence) ==> Unit(r.weights) && Unit(r.confidence)
  {
    if action == "selected" then
      Prefs(StrengthenWeights(p.weights, item), Nudged(StrengthenConfidence(p.confidence, item)))
    else if action == "rejected" then
      Prefs(WeakenWeights(p.weights, item), Nudged(WeakenConfidence(p.confidence, item)))
    else
      Prefs(p.weights, Nudged(p.confidence))
  }

  /** A series of `(action, item)` interactions applied in order. */
  function InteractAll(p: Prefs, steps: seq<(string, string)>): Prefs
    decreases |steps|
  {
    if steps == [] then p else InteractAll(Interact(p, steps[0].0, steps[0].1), steps[1..])
  }

  /** Weights and confidences that start in [0, 1] stay there over any series of interactions. */
  lemma {:induction false} InteractAllUnit(p: Prefs, steps: seq<(string, string)>)
    requires Unit(p.weights) && Unit(p.confidence)
    ensures Unit(InteractAll(p, steps).weights) && Unit(InteractAll(p, steps).confidence)
    decreases |steps|
  {
    if steps != [] {
      InteractAllUnit(Interact(p, steps[0].0, steps[0].1), steps[1..]);
    }
  }

  /** A rejection never creates a weight: an item without one still has none after any
      series of rejections of it. */
  lemma {:induction false} RejectionsCreateNoWeight(p: Prefs, item: string, n: nat)
    requires item !in p.weights
    ensures item !in InteractAll(p, seq(n, _ => ("rejected", item))).weights
    decreases n
  {
    if n > 0 {
      var steps := seq(n, _ => ("rejected", item));
      var q := Interact(p, "rejected", item);
      assert steps[0] == ("rejected", item);
      assert steps[1..] == seq(n - 1, _ => ("rejected", item));
      assert InteractAll(p, steps) == InteractAll(q, steps[1..]);
      RejectionsCreateNoWeight(q, item, n - 1);
    }
  }

  // ---------------------------------------------------------------------------
  // Removing one occurrence

  /** `xs.index(x)`: the position of the first occurrence. */
  function IndexOf(xs: seq<string>, x: string): (i: nat)
    requires x in xs
    ensures i < |xs| && xs[i] == x && x !in xs[..i]
  {
    if xs[0] == x then 0
    else
      var k := IndexOf(xs[1..], x);
      assert xs[..k + 1] == [xs[0]] + xs[1..][..k];
      k + 1
  }

  /** `xs.remove(x)`: drop the first occurrence. */
  function RemoveFirst(xs: seq<string>, x: string): (r: seq<string>)
    requires x in xs
    ensures multiset(r) == multiset(xs) - multiset{x}
    ensures r == xs[..IndexOf(xs, x)] + xs[IndexOf(xs, x) + 1..]
  {
    var i := IndexOf(xs, x);
    assert xs == xs[..i] + [x] + xs[i + 1..];
    xs[..i] + xs[i + 1..]
  }

  /** A list without repeats holds each value at most once. */
  lemma {:induction false} NoRepeatsCountAtMostOne(xs: seq<string>, x: string)
    requires forall i, j :: 0 <= i < j < |xs| ==> xs[i] != xs[j]
    ensures multiset(xs)[x] <= 1
    decreases |xs|
  {
    if xs != [] {
      var init := xs[..|xs| - 1];
      NoRepeatsCountAtMostOne(init, x);
      assert xs == init + [xs[|xs| - 1]];
      if xs[|xs| - 1] == x {
        assert x !in init;
      }
    }
  }

  /** One removal keeps the account: what is left plus what was removed is what there was. */
  lemma RemoveStep(disliked: seq<string>, removed: set<string>, before: seq<string>, c: string)
    requires multiset(disliked) + multiset(removed) == multiset(before)
    requires c !in removed && c in before
    ensures c in disliked
    ensures multiset(RemoveFirst(disliked, c)) + multiset(removed + {c}) == multiset(before)
  {
    assert multiset(before)[c] > 0;
    assert multiset(removed)[c] == 0;
    assert c in multiset(disliked);
    assert multiset(removed + {c}) == multiset(removed) + multiset{c};
  }

  /** `xs` with the first occurrence of each value of `S` dropped: what a sequence of
      `xs.remove(g)` calls, one per `g` in `S`, leaves in whatever order they run. */
  function DropFirstOf(xs: seq<string>, S: set<string>): seq<string>
    decreases |xs|
  {
    if xs == [] then []
    else if xs[0] in S then DropFirstOf(xs[1..], S - {xs[0]})
    else [xs[0]] + DropFirstOf(xs[1..], S)
  }

  /** Dropping nothing leaves the list as it is. */
  lemma {:induction false} DropFirstOfNone(xs: seq<string>)
    ensures DropFirstOf(xs, {}) == xs
    decreases |xs|
  {
    if xs != [] {
      DropFirstOfNone(xs[1..]);
      assert xs == [xs[0]] + xs[1..];
    }
  }

  /** Removing the first occurrence of a value other than the head leaves the head in place. */
  lemma RemoveFirstCons(x0: string, rest: seq<string>, c: string)
    requires x0 != c && c in rest
    ensures RemoveFirst([x0] + rest, c) == [x0] + RemoveFirst(rest, c)
  {
    var xs := [x0] + rest;
    assert xs[1..] == rest;
    var i := IndexOf(rest, c);
    assert IndexOf(xs, c) == i + 1;
    assert xs[..i + 1] == [x0] + rest[..i];
    assert xs[i + 2..] == rest[i + 1..];
  }

  /** One more `remove` of a value not yet dropped drops its first occurrence too. */
  lemma {:induction false} DropFirstOfStep(xs: seq<string>, S: set<string>, c: string)
    requires c !in S && c in xs
    ensures c in DropFirstOf(xs, S)
    ensures RemoveFirst(DropFirstOf(xs, S), c) == DropFirstOf(xs, S + {c})
    decreases |xs|
  {
    var x0, rest := xs[0], xs[1..];
    assert xs == [x0] + rest;
    if x0 == c {
      var d := DropFirstOf(rest, S);
      assert DropFirstOf(xs, S) == [c] + d;
      assert IndexOf([c] + d, c) == 0;
      assert ([c] + d)[1..] == d;
      assert (S + {c}) - {c} == S;
      assert DropFirstOf(xs, S + {c}) == d;
    } else if x0 in S {
      DropFirstOfStep(rest, S - {x0}, c);
      assert (S + {c}) - {x0} == (S - {x0}) + {c};
      assert DropFirstOf(xs, S + {c}) == DropFirstOf(rest, (S - {x0}) + {c});
    } else {
      DropFirstOfStep(rest, S, c);
      RemoveFirstCons(x0, DropFirstOf(rest, S), c);
      assert DropFirstOf(xs, S + {c}) == [x0] + DropFirstOf(rest, S + {c});
    }
  }

  /** Two removals of different values drop the first occurrence of each. */
  lemma RemoveTwice(xs: seq<string>, a: string, b: string)
    requires a != b && a in xs && b in xs
    ensures b in RemoveFirst(xs, a)
    ensures RemoveFirst(RemoveFirst(xs, a), b) == DropFirstOf(xs, {a, b})
  {
    var first := DropFirstOf(xs, {a});
    assert RemoveFirst(xs, a) == first by {
      var none: set<string> := {};
      DropFirstOfNone(xs);
      DropFirstOfStep(xs, none, a);
      assert none + {a} == {a};
    }
    assert b in first && RemoveFirst(first, b) == DropFirstOf(xs, {a, b}) by {
      DropFirstOfStep(xs, {a}, b);
      assert {a} + {b} == {a, b};
    }
  }

  /** Removals of two different values commute, so the order in which the conflicts are
      visited does not change the result. */
  lemma RemovalsCommute(xs: seq<string>, a: string, b: string)
    requires a != b && a in xs && b in xs
    ensures b in RemoveFirst(xs, a) && a in RemoveFirst(xs, b)
    ensures RemoveFirst(RemoveFirst(xs, a), b) == RemoveFirst(RemoveFirst(xs, b), a)
  {
    RemoveTwice(xs, a, b);
    RemoveTwice(xs, b, a);
    assert {a, b} == {b, a};
  }

  /** In a list without repeats, a value survives exactly when it is listed and not dropped. */
  lemma {:induction false} DropFirstOfDistinct(xs: seq<string>, S: set<string>, x: string)
    requires forall i, j :: 0 <= i < j < |xs| ==> xs[i] != xs[j]
    ensures x in DropFirstOf(xs, S) <==> x in xs && x !in S
    decreases |xs|
  {
    if xs != [] {
      var x0, rest := xs[0], xs[1..];
      assert xs == [x0] + rest;
      assert forall j :: 0 <= j < |rest| ==> rest[j] == xs[j + 1] && xs[0] != xs[j + 1];
      if x0 in S {
        DropFirstOfDistinct(rest, S - {x0}, x);
      } else {
        DropFirstOfDistinct(rest, S, x);
      }
    }
  }

  /** `kept` is `before` with the first occurrence of each value of `removed` dropped. */
  ghost predicate Dropped(before: seq<string>, removed: set<string>, kept: seq<string>) {
    multiset(kept) + multiset(removed) == multiset(before) && kept == DropFirstOf(before, removed)
  }

  /** Dropping one more value keeps the loop's account. */
  lemma DroppedStep(before: seq<string>, removed: set<string>, kept: seq<string>, c: string)
    requires Dropped(before, removed, kept) && c !in removed && c in before
    ensures c in kept && Dropped(before, removed + {c}, RemoveFirst(kept, c))
  {
    RemoveStep(kept, removed, before, c);
    DropFirstOfStep(before, removed, c);
  }

  /** The loop of `resolve_preference_conflicts`: for each conflict, in whatever order the set
      yields them, drop one occurrence from the dislikes when its weight (default 0) exceeds
      0.7. The result does not depend on that order. */
  method RemoveResolved(disliked: seq<string>, conflicts: set<string>, weights: map<string, real>) returns (kept: seq<string>)
    requires forall g :: g in conflicts ==> g in disliked
    ensures multiset(kept) + multiset(set g | g in conflicts && Get(weights, g, 0.0) > 0.7) == multiset(disliked)
    ensures kept == DropFirstOf(disliked, set g | g in conflicts && Get(weights, g, 0.0) > 0.7)
  {
    kept := disliked;
    ghost var removed: set<string> := {};
    DropFirstOfNone(disliked);
    assert Dropped(disliked, removed, kept);
    var remaining := conflicts;
    while remaining != {}
      invariant remaining <= conflicts && removed <= conflicts && removed !! remaining
      invariant forall g :: g in removed ==> Get(weights, g, 0.0) > 0.7
      invariant forall g :: g in conflicts && g !in remaining && Get(weights, g, 0.0) > 0.7 ==> g in removed
      invariant Dropped(disliked, removed, kept)
      decreases |remaining|
    {
      var conflict :| conflict in remaining;
      if Get(weights, conflict, 0.0) > 0.7 {
        DroppedStep(disliked, removed, kept, conflict);
        kept := RemoveFirst(kept, conflict);
        removed := removed + {conflict};
      }
      remaining := remaining - {conflict};
    }
    assert removed == set g | g in conflicts && Get(weights, g, 0.0) > 0.7;
  }

  // ---------------------------------------------------------------------------
  // The profile

  /** The profile fields no interaction changes. */
  datatype Tastes = Tastes(
    preferredGenres: seq<string>,
    dislikedGenres: seq<string>,
    preferredAuthors: seq<string>,
    dislikedAuthors: seq<string>,
    preferredThemes: seq<string>,
    dislikedThemes: seq<string>,
    complexityPreference: Option<string>,
    lengthPreference: string,
    recencyPreference: string,
    readingPurposes: seq<string>,
    readingContexts: seq<string>,
    interactionStyle: string)

  /** The reading-pattern fields the generator fills from one table row. */
  datatype ReadingPattern = ReadingPattern(
    lengthPreference: string,
    readingPurposes: seq<string>,
    readingContexts: seq<string>,
    interactionStyle: string)

  /** The genres both preferred and disliked whose weight (default 0) exceeds 0.7. */
  function Resolvable(preferred: seq<string>, disliked: seq<string>, weights: map<string, real>): (r: set<string>)
    ensures forall g :: g in r <==> g in preferred && g in disliked && Get(weights, g, 0.0) > 0.7
  {
    set g | g in preferred && g in disliked && Get(weights, g, 0.0) > 0.7
  }

  /** With no repeated disliked genre, removing one occurrence of each resolvable genre leaves
      none of them disliked. */
  lemma ResolvedLeavesNoConflict(before: seq<string>, after: seq<string>, removed: set<string>)
    requires forall i, j :: 0 <= i < j < |before| ==> before[i] != before[j]
    requires multiset(after) + multiset(removed) == multiset(before)
    ensures forall g :: g in removed ==> g !in after
  {
    forall g | g in removed ensures g !in after {
      NoRepeatsCountAtMostOne(before, g);
      assert multiset(removed)[g] == 1;
    }
  }

  class BooksUserProfile {
    var preferredGenres: seq<string>
    var dislikedGenres: seq<string>
    var genreWeights: map<string, real>
    var preferredAuthors: seq<string>
    var dislikedAuthors: seq<string>
    var preferredThemes: seq<string>
    var dislikedThemes: seq<string>
    var complexityPreference: Option<string>
    var lengthPreference: string
    var recencyPreference: string
    var readingPurposes: seq<string>
    var readingContexts: seq<string>
    var interactionStyle: string
    var profileConfidence: map<string, real>
    var lastUpdated: Option<int>
    var interactionCount: int

    function TastesOf(): Tastes
      reads this
    {
      Tastes(preferredGenres, dislikedGenres, preferredAuthors, dislikedAuthors, preferredThemes,
             dislikedThemes, complexityPreference, lengthPreference, recencyPreference,
             readingPurposes, readingContexts, interactionStyle)
    }

    /** The profile's weight and confidence maps. */
    function PrefsOf(): Prefs
      reads this
    {
      Prefs(genreWeights, profileConfidence)
    }

    /** The dataclass constructor as the generator calls it; the remaining fields take their
        defaults. */
    constructor (preferred: seq<string>, disliked: seq<string>, weights: map<string, real>,
                 authors: seq<string>, themes: seq<string>, complexity: string,
                 confidence: map<string, real>, pattern: ReadingPattern)
      ensures TastesOf() == Tastes(preferred, disliked, authors, [], themes, [], Some(complexity),
                                   pattern.lengthPreference, "any", pattern.readingPurposes,
                                   pattern.readingContexts, pattern.interactionStyle)
      ensures PrefsOf() == Prefs(weights, confidence)
      ensures lastUpdated == None && interactionCount == 0
    {
      preferredGenres := preferred;
      dislikedGenres := disliked;
      genreWeights := weights;
      preferredAuthors := authors;
      dislikedAuthors := [];
      preferredThemes := themes;
      dislikedThemes := [];
      complexityPreference := Some(complexity);
      lengthPreference := pattern.lengthPreference;
      recencyPreference := "any";
      readingPurposes := pattern.readingPurposes;
      readingContexts := pattern.readingContexts;
      interactionStyle := pattern.interactionStyle;
      profileConfidence := confidence;
      lastUpdated := None;
      interactionCount := 0;
    }

    /** `update_from_interaction(action, item, feedback)`, the clock reading given as `now`. */
    method UpdateFromInteraction(action: string, item: string, feedback: string, now: int)
      modifies this
      ensures PrefsOf() == Interact(old(PrefsOf()), action, item)
      ensures interactionCount == old(interactionCount) + 1
      ensures lastUpdated == Some(now)
      ensures TastesOf() == old(TastesOf())
    {
      if action == "selected" {
        StrengthenPreference(item);
      } else if action == "rejected" {
        WeakenPreference(item);
      }
      interactionCount := interactionCount + 1;
      lastUpdated := Some(now);
      RecalculateConfidence();
    }

    /** `_strengthen_preference`. */
    method StrengthenPreference(item: string)
      modifies this
      ensures genreWeights == StrengthenWeights(old(genreWeights), item)
      ensures profileConfidence == StrengthenConfidence(old(profileConfidence), item)
      ensures TastesOf() == old(TastesOf())
      ensures interactionCount == old(interactionCount) && lastUpdated == old(lastUpdated)
    {
      if item in genreWeights {
        genreWeights := genreWeights[item := Min(genreWeights[item] + 0.1, 1.0)];
      } else {
        genreWeights := genreWeights[item := 0.7];
      }
      profileConfidence := profileConfidence[item := Min(Get(profileConfidence, item, 0.5) + 0.1, 1.0)];
    }

    /** `_weaken_preference`. */
    method WeakenPreference(item: string)
      modifies this
      ensures genreWeights == WeakenWeights(old(genreWeights), item)
      ensures profileConfidence == WeakenConfidence(old(profileConfidence), item)
      ensures TastesOf() == old(TastesOf())
      ensures interactionCount == old(interactionCount) && lastUpdated == old(lastUpdated)
    {
      if item in genreWeights {
        genreWeights := genreWeights[item := Max(genreWeights[item] - 0.2, 0.0)];
      }
      profileConfidence := profileConfidence[item := Max(Get(profileConfidence, item, 0.5) - 0.2, 0.0)];
    }

    /** `_recalculate_confidence`: one key at a time, in any order. */
    method RecalculateConfidence()
      modifies this
      ensures profileConfidence == Nudged(old(profileConfidence))
      ensures genreWeights == old(genreWeights)
      ensures TastesOf() == old(TastesOf())
      ensures interactionCount == old(interactionCount) && lastUpdated == old(lastUpdated)
    {
      ghost var before := profileConfidence;
      var keys := profileConfidence.Keys;
      while keys != {}
        invariant keys <= before.Keys
        invariant profileConfidence.Keys == before.Keys
        invariant forall k :: k in keys ==> profileConfidence[k] == before[k]
        invariant forall k :: k in before && k !in keys ==> profileConfidence[k] == Min(before[k] + 0.01, 1.0)
        invariant genreWeights == old(genreWeights) && TastesOf() == old(TastesOf())
        invariant interactionCount == old(interactionCount) && lastUpdated == old(lastUpdated)
        decreases |keys|
      {
        var k :| k in keys;
        profileConfidence := profileConfidence[k := Min(profileConfidence[k] + 0.01, 1.0)];
        keys := keys - {k};
      }
    }

    /** `resolve_preference_conflicts`: for each genre both preferred and disliked, the first
        occurrence is dropped from the dislikes when its weight exceeds 0.7; the order of the
        conflicts does not matter. */
    method ResolvePreferenceConflicts()
      modifies this
      ensures multiset(dislikedGenres) + multiset(Resolvable(old(preferredGenres), old(dislikedGenres), old(genreWeights)))
              == multiset(old(dislikedGenres))
      ensures dislikedGenres == DropFirstOf(old(dislikedGenres), Resolvable(old(preferredGenres), old(dislikedGenres), old(genreWeights)))
      ensures preferredGenres == old(preferredGenres) && PrefsOf() == old(PrefsOf())
      ensures interactionCount == old(interactionCount) && lastUpdated == old(lastUpdated)
      ensures TastesOf() == old(TastesOf()).(dislikedGenres := dislikedGenres)
    {
      var conflicts := set g | g in preferredGenres && g in dislikedGenres;
      dislikedGenres := RemoveResolved(dislikedGenres, conflicts, genreWeights);
      assert (set g | g in conflicts && Get(genreWeights, g, 0.0) > 0.7)
             == Resolvable(old(preferredGenres), old(dislikedGenres), old(genreWeights));
    }

    /** The summed weight (default 0) of the preferred genres an option names. */
    function OptionScore(opt: string, genres: seq<string>): real
      reads this
      decreases |genres|
    {
      if genres == [] then 0.0
      else OptionScore(opt, genres[..|genres| - 1])
           + (if Contains(opt, genres[|genres| - 1]) then Get(genreWeights, genres[|genres| - 1], 0.0) else 0.0)
    }

    /** The options paired with their scores, in order. */
    function Scored(options: seq<string>): (scored: seq<(string, real)>)
      reads this
      ensures |scored| == |options|
      ensures forall i :: 0 <= i < |options| ==> scored[i] == (options[i], OptionScore(options[i], preferredGenres))
    {
      seq(|options|, i requires 0 <= i < |options| reads this => (options[i], OptionScore(options[i], preferredGenres)))
    }

    /** Whether an option names a preferred genre. */
    predicate NamesPreferred(opt: string)
      reads this
    {
      AnyIn(opt, preferredGenres)
    }

    /** `answer_based_on_profile(question, options)`. In the brief style: the first option
        naming a preferred genre, else the first option. Otherwise: the first option with the
        greatest score, as the stable descending sort puts it in front. An empty option list
        raises IndexError in both styles (`options[0]`); that outcome is `None`. */
    function AnswerBasedOnProfile(question: string, options: seq<string>): (answer: Option<string>)
      reads this
      ensures answer == None <==> options == []
      ensures answer.Some? ==> answer.value in options
      ensures interactionStyle == "brief" && answer.Some? ==>
                (exists i :: 0 <= i < |options| && answer.value == options[i] &&
                   (forall j :: 0 <= j < i ==> !NamesPreferred(options[j])) &&
                   (NamesPreferred(options[i]) || (i == 0 && forall j :: 0 <= j < |options| ==> !NamesPreferred(options[j]))))
      ensures interactionStyle != "brief" && answer.Some? ==>
                (exists i :: 0 <= i < |options| && answer.value == options[i] &&
                   (forall j :: 0 <= j < |options| ==> OptionScore(options[j], preferredGenres) <= OptionScore(options[i], preferredGenres)) &&
                   (forall j :: 0 <= j < i ==> OptionScore(options[j], preferredGenres) < OptionScore(options[i], preferredGenres)))
    {
      if options == [] then None
      else if interactionStyle == "brief" then Some(FirstNamingPreferred(options, 0))
      else
        var scored := Scored(options);
        var sorted := SortDesc(scored);
        SortDescFrontIsFirstMaximal(scored);
        Some(sorted[0].0)
    }

    /** The brief style's scan from position `i` on. */
    function FirstNamingPreferred(options: seq<string>, i: nat): (answer: string)
      reads this
      requires 0 <= i < |options|
      requires forall j :: 0 <= j < i ==> !NamesPreferred(options[j])
      ensures exists k :: 0 <= k < |options| && answer == options[k] &&
                (forall j :: 0 <= j < k ==> !NamesPreferred(options[j])) &&
                (NamesPreferred(options[k]) || (k == 0 && forall j :: 0 <= j < |options| ==> !NamesPreferred(options[j])))
      decreases |options| - i
    {
      if NamesPreferred(options[i]) then options[i]
      else if i + 1 < |options| then FirstNamingPreferred(options, i + 1)
      else
        assert forall j :: 0 <= j < |options| ==> !NamesPreferred(options[j]);
        options[0]
    }
  }

  // ---------------------------------------------------------------------------
  // The profile generator

  const GENRE_RELATIONSHIPS: map<string, seq<string>> := map[
    "mystery" := ["thriller", "crime", "suspense"],
    "thriller" := ["mystery", "suspense", "crime"],
    "sci-fi" := ["fantasy", "dystopian"],
    "fantasy" := ["sci-fi", "urban_fantasy"],
    "romance" := ["contemporary_fiction", "drama"],
    "biography" := ["memoir", "history"],
    "self-help" := ["psychology", "personal_development"],
    "business" := ["economics", "management"],
    "fiction" := ["literary_fiction", "contemporary_fiction"]
  ]

  const CONTRAST_GENRES: map<string, seq<string>> := map[
    "mystery" := ["romance", "self-help"],
    "sci-fi" := ["biography", "history"],
    "romance" := ["mystery", "academic"],
    "biography" := ["fantasy", "sci-fi"],
    "self-help" := ["fiction"],
    "business" := ["fiction"],
    "fiction" := ["academic", "business"]
  ]

  const READING_PATTERNS: map<string, ReadingPattern> := map[
    "beginner" := ReadingPattern("short", ["entertainment"], ["bedtime", "commute"], "brief"),
    "medium" := ReadingPattern("medium", ["entertainment", "learning"], ["evening", "weekend"], "balanced"),
    "advanced" := ReadingPattern("long", ["learning", "professional"], ["study_time"], "detailed")
  ]

  /** `d.get(k, [])` on a table of genre lists. */
  function Lookup(table: map<string, seq<string>>, g: string): seq<string> {
    if g in table then table[g] else []
  }

  /** `_generate_reading_pattern`: the row for the complexity, the medium row for any other. */
  function GenerateReadingPattern(complexity: string): (r: ReadingPattern)
    ensures complexity != "beginner" && complexity != "advanced" ==> r == READING_PATTERNS["medium"]
    ensures r.interactionStyle == "brief" <==> complexity == "beginner"
    ensures r.interactionStyle == "detailed" <==> complexity == "advanced"
    ensures r.lengthPreference in {"short", "medium", "long"}
  {
    if complexity in READING_PATTERNS then READING_PATTERNS[complexity] else READING_PATTERNS["medium"]
  }

  /** The distinct values of a list, as a set. */
  function Distinct(xs: seq<string>): set<string> {
    set g | g in xs
  }

  lemma {:induction false} DistinctSize(xs: seq<string>)
    ensures |Distinct(xs)| <= |xs|
    decreases |xs|
  {
    if xs != [] {
      var init := xs[..|xs| - 1];
      DistinctSize(init);
      assert Distinct(xs) == Distinct(init) + {xs[|xs| - 1]} by {
        assert xs == init + [xs[|xs| - 1]];
      }
    }
  }

  /** `list(s)` of a set: every element once, in no particular order. */
  method ListOfSet(s: set<string>) returns (xs: seq<string>)
    ensures forall g :: g in xs <==> g in s
    ensures forall i, j :: 0 <= i < j < |xs| ==> xs[i] != xs[j]
    ensures |xs| == |s|
  {
    xs := [];
    var rest := s;
    while rest != {}
      invariant rest <= s
      invariant forall g :: g in xs <==> g in s && g !in rest
      invariant forall i, j :: 0 <= i < j < |xs| ==> xs[i] != xs[j]
      invariant |xs| + |rest| == |s|
      decreases |rest|
    {
      var g :| g in rest;
      xs := xs + [g];
      rest := rest - {g};
    }
  }

  class BooksUserProfileGenerator {
    const genreRelationships: map<string, seq<string>>
    const contrastGenres: map<string, seq<string>>

    constructor ()
      ensures genreRelationships == GENRE_RELATIONSHIPS && contrastGenres == CONTRAST_GENRES
    {
      genreRelationships := GENRE_RELATIONSHIPS;
      contrastGenres := CONTRAST_GENRES;
    }

    /** Whether `g` is among the first two genres related to one of the first `n` base genres. */
    predicate RelatedWithin(base: seq<string>, n: nat, g: string)
      requires n <= |base|
    {
      exists k :: 0 <= k < n && g in Take(Lookup(genreRelationships, base[k]), 2)
    }

    /** `_expand_genres_safely`: the base genres first, in order, weighted 0.9, then for each
        base genre the first two related genres not yet listed, weighted 0.6. */
    method ExpandGenresSafely(base: seq<string>) returns (expanded: seq<string>, weights: map<string, real>)
      ensures Expansion(base, expanded, weights)
      ensures |expanded| <= 3 * |base|
      ensures forall g :: g in expanded <==> g in base || RelatedWithin(base, |base|, g)
    {
      expanded := base;
      weights := BaseWeights(base);
      assert base[..|base|] == base;
      for i := 0 to |base|
        invariant Expansion(base, expanded, weights)
        invariant |expanded| <= |base| + 2 * i
        invariant forall g :: g in expanded ==> g in base || RelatedWithin(base, i, g)
        invariant forall k, g :: 0 <= k < i && g in Take(Lookup(genreRelationships, base[k]), 2) ==> g in expanded
      {
        var related := Lookup(genreRelationships, base[i]);
        ghost var before := expanded;
        expanded, weights := AddRelated(base, expanded, weights, Take(related, 2));
        forall k, g | 0 <= k < i + 1 && g in Take(Lookup(genreRelationships, base[k]), 2)
          ensures g in expanded
        {
          if k < i { assert g in before; }
        }
      }
    }

    /** The weights loop of `_expand_genres_safely`: 0.9 for every base genre. */
    static method BaseWeights(base: seq<string>) returns (weights: map<string, real>)
      ensures forall g :: g in weights <==> g in base
      ensures forall g :: g in weights ==> weights[g] == 0.9
    {
      weights := map[];
      for i := 0 to |base|
        invariant forall g :: g in weights <==> g in base[..i]
        invariant forall g :: g in weights ==> weights[g] == 0.9
      {
        weights := weights[base[i] := 0.9];
      }
      assert base[..|base|] == base;
    }

    /** What `_expand_genres_safely` keeps true: the base genres lead at 0.9, every genre
        after them is new, unrepeated and weighted 0.6, and the weights cover exactly the list. */
    static ghost predicate Expansion(base: seq<string>, expanded: seq<string>, weights: map<string, real>) {
      && |base| <= |expanded|
      && expanded[..|base|] == base
      && (forall g :: g in base ==> g in weights && weights[g] == 0.9)
      && (forall k :: |base| <= k < |expanded| ==> expanded[k] !in base && expanded[k] in weights && weights[expanded[k]] == 0.6)
      && (forall a, b :: 0 <= a < b < |expanded| && |base| <= b ==> expanded[a] != expanded[b])
      && (forall g :: g in weights <==> g in expanded)
    }

    /** The inner loop of `_expand_genres_safely`: each candidate not yet listed is appended at 0.6. */
    static method AddRelated(base: seq<string>, expanded: seq<string>, weights: map<string, real>, candidates: seq<string>)
      returns (expanded': seq<string>, weights': map<string, real>)
      requires Expansion(base, expanded, weights)
      ensures Expansion(base, expanded', weights')
      ensures |expanded'| <= |expanded| + |candidates|
      ensures forall g :: g in expanded' <==> g in expanded || g in candidates
    {
      expanded', weights' := expanded, weights;
      for j := 0 to |candidates|
        invariant Expansion(base, expanded', weights')
        invariant |expanded'| <= |expanded| + j
        invariant forall g :: g in expanded' <==> g in expanded || g in candidates[..j]
      {
        var relGenre := candidates[j];
        assert candidates[..j + 1] == candidates[..j] + [relGenre];
        if relGenre !in expanded' {
          assert relGenre !in base by {
            assert forall g :: g in base ==> g in expanded'[..|base|];
          }
          expanded' := expanded' + [relGenre];
          weights' := weights'[relGenre := 0.6];
          assert expanded'[..|base|] == base;
        }
      }
      assert candidates[..|candidates|] == candidates;
    }

    /** `_generate_contrast_genres_safely`: the first contrast of each preferred genre, each
        once, in no particular order. */
    method GenerateContrastGenresSafely(preferred: seq<string>) returns (disliked: seq<string>)
      ensures forall g :: g in disliked <==> exists p :: p in preferred && Take(Lookup(contrastGenres, p), 1) == [g]
      ensures forall i, j :: 0 <= i < j < |disliked| ==> disliked[i] != disliked[j]
      ensures |disliked| <= |preferred|
    {
      var collected: seq<string> := [];
      for i := 0 to |preferred|
        invariant |collected| <= i
        invariant forall g :: g in collected <==> exists p :: p in preferred[..i] && Take(Lookup(contrastGenres, p), 1) == [g]
      {
        var contrasts := Lookup(contrastGenres, preferred[i]);
        assert preferred[..i + 1] == preferred[..i] + [preferred[i]];
        collected := collected + Take(contrasts, 1);
      }
      assert preferred[..|preferred|] == preferred;
      DistinctSize(collected);
      disliked := ListOfSet(Distinct(collected));
    }

    /** `generate_from_product_info`: at most three genres, three themes and one author of the
        book, its complexity or "medium", the expanded genres each at confidence 0.8, their
        contrasts as dislikes, and the conflict pass run once at the end. */
    method GenerateFromProductInfo(info: BooksProductInfo) returns (profile: BooksUserProfile)
      ensures fresh(profile)
      ensures |Take(info.genres, 3)| <= |profile.preferredGenres|
      ensures profile.preferredGenres[..|Take(info.genres, 3)|] == Take(info.genres, 3)
      ensures |profile.preferredGenres| <= 9
      ensures profile.preferredThemes == Take(info.themes, 3) && profile.preferredAuthors == Take(info.authors, 1)
      ensures profile.complexityPreference == Some(if Truthy(info.complexity) then info.complexity.value else "medium")
      ensures profile.interactionStyle == GenerateReadingPattern(profile.complexityPreference.value).interactionStyle
      ensures forall g :: g in profile.profileConfidence <==> g in profile.preferredGenres
      ensures forall g :: g in profile.profileConfidence ==> profile.profileConfidence[g] == 0.8
      ensures forall g :: g in profile.genreWeights <==> g in profile.preferredGenres
      ensures Unit(profile.genreWeights)
      ensures forall g :: g in profile.preferredGenres && Get(profile.genreWeights, g, 0.0) > 0.7 ==> g !in profile.dislikedGenres
      ensures profile.interactionCount == 0 && profile.lastUpdated == None
      ensures Expansion(Take(info.genres, 3), profile.preferredGenres, profile.genreWeights)
      ensures forall g :: g in profile.preferredGenres <==>
                g in Take(info.genres, 3) || RelatedWithin(Take(info.genres, 3), |Take(info.genres, 3)|, g)
      ensures forall g :: g in profile.dislikedGenres <==>
                (exists p :: p in profile.preferredGenres && Take(Lookup(contrastGenres, p), 1) == [g]) &&
                !(g in profile.preferredGenres && Get(profile.genreWeights, g, 0.0) > 0.7)
      ensures var pattern := GenerateReadingPattern(profile.complexityPreference.value);
              profile.lengthPreference == pattern.lengthPreference &&
              profile.readingPurposes == pattern.readingPurposes &&
              profile.readingContexts == pattern.readingContexts
      ensures profile.recencyPreference == "any"
      ensures profile.dislikedAuthors == [] && profile.dislikedThemes == []
    {
      var baseGenres := Take(info.genres, 3);
      var baseThemes := Take(info.themes, 3);
      var baseAuthors := Take(info.authors, 1);
      var complexity := if Truthy(info.complexity) then info.complexity.value else "medium";
      var expanded, weights := ExpandGenresSafely(baseGenres);
      var disliked := GenerateContrastGenresSafely(expanded);
      var pattern := GenerateReadingPattern(complexity);
      var confidence := map g | g in expanded :: 0.8;
      ExpansionUnit(baseGenres, expanded, weights);
      profile := new BooksUserProfile(expanded, disliked, weights, baseAuthors, baseThemes, complexity, confidence, pattern);
      profile.ResolvePreferenceConflicts();
      StrongGenresNotDisliked(expanded, disliked, weights, profile.dislikedGenres);
      ResolvedDislikes(expanded, disliked, weights, profile.dislikedGenres);
    }

    /** After the conflict pass over distinct dislikes, a genre is disliked exactly when it
        was disliked before and is not a preferred genre weighted above 0.7. */
    static lemma ResolvedDislikes(preferred: seq<string>, disliked: seq<string>, weights: map<string, real>,
                                  after: seq<string>)
      requires forall i, j :: 0 <= i < j < |disliked| ==> disliked[i] != disliked[j]
      requires after == DropFirstOf(disliked, Resolvable(preferred, disliked, weights))
      ensures forall g :: g in after <==> g in disliked && !(g in preferred && Get(weights, g, 0.0) > 0.7)
    {
      forall g ensures g in after <==> g in disliked && !(g in preferred && Get(weights, g, 0.0) > 0.7) {
        DropFirstOfDistinct(disliked, Resolvable(preferred, disliked, weights), g);
      }
    }

    /** The weights of an expansion, 0.9 and 0.6, lie in [0, 1]. */
    static lemma ExpansionUnit(base: seq<string>, expanded: seq<string>, weights: map<string, real>)
      requires Expansion(base, expanded, weights)
      ensures Unit(weights)
    {
      forall g | g in weights ensures 0.0 <= weights[g] <= 1.0 {
        var k :| 0 <= k < |expanded| && expanded[k] == g;
        if k < |base| {
          assert expanded[k] == expanded[..|base|][k];
        }
      }
    }

    /** Once the resolvable conflicts are removed from a list of distinct disliked genres,
        no preferred genre weighted above 0.7 is disliked. */
    static lemma StrongGenresNotDisliked(preferred: seq<string>, disliked: seq<string>, weights: map<string, real>,
                                         after: seq<string>)
      requires forall i, j :: 0 <= i < j < |disliked| ==> disliked[i] != disliked[j]
      requires multiset(after) + multiset(Resolvable(preferred, disliked, weights)) == multiset(disliked)
      ensures forall g :: g in preferred && Get(weights, g, 0.0) > 0.7 ==> g !in after
    {
      var resolvable := Resolvable(preferred, disliked, weights);
      ResolvedLeavesNoConflict(disliked, after, resolvable);
      assert multiset(after) <= multiset(disliked);
      forall g | g in preferred && Get(weights, g, 0.0) > 0.7 ensures g !in after {
        if g in disliked {
          assert g in resolvable;
        } else {
          assert multiset(disliked)[g] == 0;
        }
      }
    }
  }
}
