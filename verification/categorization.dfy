/** The categorization engine: every category of a keyword table scores one
    point per keyword whose normal form occurs in the normalized description;
    the categories that score are ranked by score (ties keep table order), the
    best becomes the category and the best three the suggestions; with no
    match the result is `other`. */
module Categorization {
  import opened Sequences
  import opened Text
  import opened Results

  datatype Category = Category(name: string, keywords: seq<string>)

  const OtherName: string := "other"

  /** Whether a keyword's normal form occurs in a normalized description. */
  predicate Matches(desc: string, keyword: string)
  {
    Contains(desc, Normalize(keyword))
  }

  /** The number of keywords that match: one point each. */
  function KeywordScore(desc: string, keywords: seq<string>): (n: nat)
    ensures n <= |keywords|
  {
    if |keywords| == 0 then 0
    else
      KeywordScore(desc, keywords[..|keywords| - 1])
        + (if Matches(desc, keywords[|keywords| - 1]) then 1 else 0)
  }

  /** The score is the number of matching keywords. */
  lemma {:induction false} KeywordScoreCountsMatches(desc: string, keywords: seq<string>)
    ensures KeywordScore(desc, keywords) == |Filter(keywords, k => Matches(desc, k))|
    decreases |keywords|
  {
    if |keywords| > 0 {
      KeywordScoreCountsMatches(desc, keywords[..|keywords| - 1]);
    }
  }

  /** The scoring loop skips the `other` entry. */
  predicate Skipped(table: seq<Category>, i: nat)
    requires i < |table|
  {
    table[i].name == OtherName
  }

  /** Which entries of the table the scoring loop skips. */
  function SkipFlags(table: seq<Category>): (r: seq<bool>)
    ensures |r| == |table|
    ensures forall i :: 0 <= i < |table| ==> (r[i] <==> Skipped(table, i))
  {
    seq(|table|, i requires 0 <= i < |table| => Skipped(table, i))
  }

  /** The score of every category of the table, in table order. */
  function KeywordScores(table: seq<Category>, desc: string): (r: seq<nat>)
    ensures |r| == |table|
    ensures forall i :: 0 <= i < |table| ==> r[i] == KeywordScore(desc, table[i].keywords)
  {
    seq(|table|, i requires 0 <= i < |table| => KeywordScore(desc, table[i].keywords))
  }

  /** A scored category: its position in the table and its score. */
  datatype Scored = Scored(index: nat, score: nat)

  /** An entry that carries the score of a category the loop does not skip,
      given which categories are skipped and the scores `sc`. */
  predicate IsScoreOf(skip: seq<bool>, sc: seq<nat>, e: Scored)
    requires |skip| == |sc|
  {
    e.index < |sc| && !skip[e.index] && e.score == sc[e.index]
  }

  predicate IndexIncreasing(s: seq<Scored>)
  {
    forall i, j :: 0 <= i < j < |s| ==> s[i].index < s[j].index
  }

  /** The score of each of the first n categories except `other`, in table
      order. */
  function ScoresUpTo(skip: seq<bool>, sc: seq<nat>, n: nat): (r: seq<Scored>)
    requires |skip| == |sc| && n <= |sc|
    ensures forall i :: 0 <= i < |r| ==> IsScoreOf(skip, sc, r[i]) && r[i].index < n
    ensures IndexIncreasing(r)
  {
    if n == 0 then []
    else
      var r' := ScoresUpTo(skip, sc, n - 1);
      if skip[n - 1] then r'
      else
        var r := r' + [Scored(n - 1, sc[n - 1])];
        assert forall i :: 0 <= i < |r'| ==> r[i] == r'[i];
        r
  }

  /** Every category other than `other` among the first n is scored. */
  lemma {:induction false} ScoresUpToComplete(skip: seq<bool>, sc: seq<nat>, n: nat, i: nat)
    requires |skip| == |sc| && i < n <= |sc| && !skip[i]
    ensures Scored(i, sc[i]) in ScoresUpTo(skip, sc, n)
  {
    if i < n - 1 {
      ScoresUpToComplete(skip, sc, n - 1, i);
    }
  }

  /** The scores of all categories except `other`, in table order. */
  function Scores(skip: seq<bool>, sc: seq<nat>): (r: seq<Scored>)
    requires |skip| == |sc|
    ensures forall e :: e in r <==> IsScoreOf(skip, sc, e)
    ensures IndexIncreasing(r)
  {
    var r := ScoresUpTo(skip, sc, |sc|);
    forall e | IsScoreOf(skip, sc, e)
      ensures e in r
    {
      ScoresUpToComplete(skip, sc, |sc|, e.index);
    }
    r
  }

  /** Every entry before the last of an index-increasing list has a smaller
      index than the last. */
  lemma InitBelowLast(s: seq<Scored>)
    requires IndexIncreasing(s) && |s| > 0
    ensures forall e :: e in s[..|s| - 1] ==> e.index < s[|s| - 1].index
  {
    forall e | e in s[..|s| - 1]
      ensures e.index < s[|s| - 1].index
    {
      var j :| 0 <= j < |s| - 1 && s[..|s| - 1][j] == e;
      assert s[j] == e;
    }
  }

  lemma AppendLater(r: seq<Scored>, x: Scored)
    requires IndexIncreasing(r)
    requires forall e :: e in r ==> e.index < x.index
    ensures IndexIncreasing(r + [x])
  {
    forall i, j | 0 <= i < j < |r| + 1
      ensures (r + [x])[i].index < (r + [x])[j].index
    {
      assert (r + [x])[i] == r[i] && r[i] in r;
    }
  }

  /** `.filter(([_, score]) => score > 0)`. */
  function Positive(s: seq<Scored>): (r: seq<Scored>)
    requires IndexIncreasing(s)
    ensures forall e :: e in r <==> e in s && e.score > 0
    ensures IndexIncreasing(r)
  {
    if |s| == 0 then []
    else
      var init, last := s[..|s| - 1], s[|s| - 1];
      assert s == init + [last];
      var r' := Positive(init);
      if last.score > 0 then
        InitBelowLast(s);
        AppendLater(r', last);
        r' + [last]
      else r'
  }

  /** `a` is ranked before `b`: a higher score, or an equal score and an
      earlier table position. */
  predicate Before(a: Scored, b: Scored)
  {
    a.score > b.score || (a.score == b.score && a.index < b.index)
  }

  predicate Ranked(s: seq<Scored>)
  {
    forall i, j :: 0 <= i < j < |s| ==> Before(s[i], s[j])
  }

  /** Inserts x after the leading entries that score at least as much: one
      step of the stable sort by descending score. */
  function InsertByScore(x: Scored, s: seq<Scored>): (r: seq<Scored>)
    ensures |r| == |s| + 1
    ensures multiset(r) == multiset(s) + multiset{x}
  {
    if |s| == 0 then [x]
    else if x.score > s[0].score then [x] + s
    else
      assert s == [s[0]] + s[1..];
      [s[0]] + InsertByScore(x, s[1..])
  }

  /** Inserting an entry that comes later in the table keeps a list ranked. */
  lemma {:induction false} InsertByScoreRanked(x: Scored, s: seq<Scored>)
    requires Ranked(s)
    requires forall i :: 0 <= i < |s| ==> s[i].index < x.index
    ensures Ranked(InsertByScore(x, s))
    decreases |s|
  {
    if |s| > 0 && x.score <= s[0].score {
      var t := InsertByScore(x, s[1..]);
      InsertByScoreRanked(x, s[1..]);
      forall j | 0 <= j < |t|
        ensures Before(s[0], t[j])
      {
        assert t[j] in multiset(t);
        if t[j] != x {
          assert t[j] in multiset(s[1..]);
          var k :| 0 <= k < |s[1..]| && s[1..][k] == t[j];
          assert Before(s[0], s[k + 1]);
        }
      }
    }
  }

  /** `.sort((a, b) => b[1] - a[1])`: JavaScript's sort is stable, so entries
      with equal scores keep their order. */
  function SortByScore(s: seq<Scored>): (r: seq<Scored>)
    requires IndexIncreasing(s)
    ensures Ranked(r)
    ensures multiset(r) == multiset(s)
  {
    if |s| == 0 then []
    else
      var init := s[..|s| - 1];
      assert s == init + [s[|s| - 1]];
      var sorted := SortByScore(init);
      forall i | 0 <= i < |sorted|
        ensures sorted[i].index < s[|s| - 1].index
      {
        assert sorted[i] in multiset(init);
      }
      InsertByScoreRanked(s[|s| - 1], sorted);
      InsertByScore(s[|s| - 1], sorted)
  }

  /** `Math.min(score * 0.3, 0.95)`. */
  function Confidence(score: nat): (c: real)
    ensures c <= 0.95
    ensures score >= 1 ==> c >= 0.3
    ensures c <= (score as real) * 0.3
    ensures c == 0.95 || c == (score as real) * 0.3
  {
    var c := (score as real) * 0.3;
    if c < 0.95 then c else 0.95
  }

  /** More matched keywords never give a lower confidence. */
  lemma ConfidenceMonotone(a: nat, b: nat)
    requires a <= b
    ensures Confidence(a) <= Confidence(b)
  {
  }

  /** No score gives the fallback's confidence 0.5. */
  lemma ConfidenceNotFallback(score: nat)
    ensures Confidence(score) != 0.5
  {
    if score >= 2 {
      assert (score as real) * 0.3 >= 2.0 * 0.3;
    }
  }

  /** `ranking` lists exactly the categories that are not skipped and score,
      best first. */
  ghost predicate RanksScores(skip: seq<bool>, sc: seq<nat>, ranking: seq<Scored>)
    requires |skip| == |sc|
  {
    Ranked(ranking)
    && (forall e :: e in ranking <==> IsScoreOf(skip, sc, e) && e.score > 0)
    && (forall i :: 0 <= i < |ranking| ==> IsScoreOf(skip, sc, ranking[i]) && ranking[i].score > 0)
  }

  /** The categories that scored, best first. */
  function Ranking(skip: seq<bool>, sc: seq<nat>): (r: seq<Scored>)
    requires |skip| == |sc|
    ensures RanksScores(skip, sc, r)
  {
    var positive := Positive(Scores(skip, sc));
    var r := SortByScore(positive);
    SameMembers(r, positive);
    RanksScoresIntro(skip, sc, r);
    r
  }

  /** Lists with the same multiset have the same members. */
  lemma SameMembers(a: seq<Scored>, b: seq<Scored>)
    requires multiset(a) == multiset(b)
    ensures forall e :: e in a <==> e in b
  {
    forall e
      ensures e in a <==> e in b
    {
      assert e in a <==> e in multiset(a);
      assert e in b <==> e in multiset(b);
    }
  }

  lemma RanksScoresIntro(skip: seq<bool>, sc: seq<nat>, r: seq<Scored>)
    requires |skip| == |sc| && Ranked(r)
    requires forall e :: e in r <==> IsScoreOf(skip, sc, e) && e.score > 0
    ensures RanksScores(skip, sc, r)
  {
    assert forall i :: 0 <= i < |r| ==> r[i] in r;
  }

  function ToSuggestion(table: seq<Category>, e: Scored): Suggestion
    requires e.index < |table|
  {
    Suggestion(table[e.index].name, Confidence(e.score))
  }

  /** The result with no keyword match. */
  const Fallback: CategoryResult := CategoryResult(OtherName, 0.5, [
    Suggestion(OtherName, 0.5), Suggestion("shopping", 0.3), Suggestion("food", 0.2)])

  /** The result for a ranking of the scoring categories: the best one, and
      the best three as suggestions; the fallback when nothing scored. */
  function Result(table: seq<Category>, ranking: seq<Scored>): (r: CategoryResult)
    requires forall i :: 0 <= i < |ranking| ==> ranking[i].index < |table| && ranking[i].score > 0
    ensures 1 <= |r.suggestedCategories| <= 3
    ensures r.suggestedCategories[0] == Suggestion(r.category, r.confidence)
    ensures 0.3 <= r.confidence <= 0.95
  {
    if |ranking| == 0 then Fallback
    else
      var top := ranking[..if |ranking| < 3 then |ranking| else 3];
      CategoryResult(table[ranking[0].index].name, Confidence(ranking[0].score),
                     seq(|top|, i requires 0 <= i < |top| => ToSuggestion(table, top[i])))
  }

  /** The result for the table's skip flags and scores. */
  function RankedResult(table: seq<Category>, skip: seq<bool>, sc: seq<nat>): (r: CategoryResult)
    requires |skip| == |sc| == |table|
    ensures 1 <= |r.suggestedCategories| <= 3
    ensures r.suggestedCategories[0] == Suggestion(r.category, r.confidence)
    ensures 0.3 <= r.confidence <= 0.95
  {
    Result(table, Ranking(skip, sc))
  }

  /** `categorize` against a keyword table. */
  function CategorizeWith(table: seq<Category>, description: string): (r: CategoryResult)
    ensures 1 <= |r.suggestedCategories| <= 3
    ensures r.suggestedCategories[0] == Suggestion(r.category, r.confidence)
    ensures 0.3 <= r.confidence <= 0.95
  {
    RankedResult(table, SkipFlags(table), KeywordScores(table, Normalize(description)))
  }

  // ----- properties of the result of a ranking -----

  /** The suggestions are the first min(3, n) ranked categories. */
  lemma ResultSuggestions(table: seq<Category>, ranking: seq<Scored>)
    requires forall i :: 0 <= i < |ranking| ==> ranking[i].index < |table| && ranking[i].score > 0
    requires |ranking| > 0
    ensures var r := Result(table, ranking);
            r.category == table[ranking[0].index].name
            && r.confidence == Confidence(ranking[0].score)
            && |r.suggestedCategories| == (if |ranking| < 3 then |ranking| else 3)
            && forall i :: 0 <= i < |r.suggestedCategories| ==>
                 r.suggestedCategories[i] == ToSuggestion(table, ranking[i])
  {
  }

  lemma ResultNonIncreasing(table: seq<Category>, ranking: seq<Scored>)
    requires forall i :: 0 <= i < |ranking| ==> ranking[i].index < |table| && ranking[i].score > 0
    requires Ranked(ranking)
    ensures var sug := Result(table, ranking).suggestedCategories;
            forall i, j :: 0 <= i < j < |sug| ==> sug[i].confidence >= sug[j].confidence
  {
    if |ranking| > 0 {
      ResultSuggestions(table, ranking);
      forall i, j | 0 <= i < j < |ranking|
        ensures Confidence(ranking[i].score) >= Confidence(ranking[j].score)
      {
        assert Before(ranking[i], ranking[j]);
      }
    }
  }

  /** The result names the first entry of a ranking, which ranks before
      every other entry. */
  lemma ResultTop(table: seq<Category>, ranking: seq<Scored>, k: nat)
    requires forall i :: 0 <= i < |ranking| ==> ranking[i].index < |table| && ranking[i].score > 0
    requires Ranked(ranking) && k < |ranking|
    ensures var r := Result(table, ranking);
            r.category == table[ranking[0].index].name && r.confidence == Confidence(ranking[0].score)
            && (k == 0 || Before(ranking[0], ranking[k]))
  {
  }

  /** An entry of a ranking whose name is missing from the suggestions is
      ranked after each of the three suggestions. */
  lemma ResultLeftOut(table: seq<Category>, ranking: seq<Scored>, p: nat)
    requires forall i :: 0 <= i < |ranking| ==> ranking[i].index < |table| && ranking[i].score > 0
    requires Ranked(ranking) && p < |ranking|
    requires var sug := Result(table, ranking).suggestedCategories;
             forall k :: 0 <= k < |sug| ==> sug[k].category != table[ranking[p].index].name
    ensures var sug := Result(table, ranking).suggestedCategories;
            |sug| == 3
            && forall k :: 0 <= k < 3 ==> Before(ranking[k], ranking[p]) && sug[k] == ToSuggestion(table, ranking[k])
  {
    ResultSuggestions(table, ranking);
  }

  // ----- properties of the result for any ranking of the scores -----

  lemma FallbackIffNoScoreOf(table: seq<Category>, skip: seq<bool>, sc: seq<nat>, ranking: seq<Scored>)
    requires |skip| == |sc| == |table| && RanksScores(skip, sc, ranking)
    ensures var r := Result(table, ranking);
            (r == Fallback <==> forall i :: 0 <= i < |sc| && !skip[i] ==> sc[i] == 0)
            && (r != Fallback ==> exists i :: 0 <= i < |sc| && !skip[i] && sc[i] > 0
                                   && r.category == table[i].name && r.confidence == Confidence(sc[i]))
  {
    if |ranking| > 0 {
      ResultTop(table, ranking, 0);
      ConfidenceNotFallback(ranking[0].score);
      assert IsScoreOf(skip, sc, ranking[0]);
    } else {
      forall i | 0 <= i < |sc| && !skip[i]
        ensures sc[i] == 0
      {
        assert Scored(i, sc[i]) !in ranking;
      }
    }
  }

  lemma TopScoreWinsOf(table: seq<Category>, skip: seq<bool>, sc: seq<nat>, ranking: seq<Scored>, i: nat)
    requires |skip| == |sc| == |table| && RanksScores(skip, sc, ranking)
    requires i < |sc| && !skip[i] && sc[i] > 0
    ensures var r := Result(table, ranking);
            exists t :: 0 <= t < |sc| && !skip[t]
              && r.category == table[t].name && r.confidence == Confidence(sc[t])
              && (t == i || Before(Scored(t, sc[t]), Scored(i, sc[i])))
  {
    var e := Scored(i, sc[i]);
    assert IsScoreOf(skip, sc, e);
    var k :| 0 <= k < |ranking| && ranking[k] == e;
    ResultTop(table, ranking, k);
    var t := ranking[0].index;
    assert IsScoreOf(skip, sc, ranking[0]);
    assert ranking[0] == Scored(t, sc[t]);
  }

  lemma LeftOutRanksLowerOf(table: seq<Category>, skip: seq<bool>, sc: seq<nat>, ranking: seq<Scored>, i: nat)
    requires |skip| == |sc| == |table| && RanksScores(skip, sc, ranking)
    requires i < |sc| && !skip[i] && sc[i] > 0
    requires var sug := Result(table, ranking).suggestedCategories;
             forall k :: 0 <= k < |sug| ==> sug[k].category != table[i].name
    ensures var sug := Result(table, ranking).suggestedCategories;
            |sug| == 3
            && forall k :: 0 <= k < 3 ==>
                 exists t :: 0 <= t < |sc| && !skip[t]
                   && Before(Scored(t, sc[t]), Scored(i, sc[i]))
                   && sug[k] == ToSuggestion(table, Scored(t, sc[t]))
  {
    var e := Scored(i, sc[i]);
    assert IsScoreOf(skip, sc, e);
    var p :| 0 <= p < |ranking| && ranking[p] == e;
    ResultLeftOut(table, ranking, p);
    var sug := Result(table, ranking).suggestedCategories;
    forall k | 0 <= k < 3
      ensures exists t :: 0 <= t < |sc| && !skip[t]
                && Before(Scored(t, sc[t]), e) && sug[k] == ToSuggestion(table, Scored(t, sc[t]))
    {
      var t := ranking[k].index;
      assert IsScoreOf(skip, sc, ranking[k]);
      assert ranking[k] == Scored(t, sc[t]);
    }
  }

  // ----- properties of the result for any skip flags and scores -----

  /** The result is the fallback exactly when no category that is not
      skipped scores; otherwise the chosen category is a scoring one (never a
      skipped one) and the confidence is its score's. */
  lemma FallbackIffNoScore(table: seq<Category>, skip: seq<bool>, sc: seq<nat>)
    requires |skip| == |sc| == |table|
    ensures var r := RankedResult(table, skip, sc);
            (r == Fallback <==> forall i :: 0 <= i < |sc| && !skip[i] ==> sc[i] == 0)
            && (r != Fallback ==> exists i :: 0 <= i < |sc| && !skip[i] && sc[i] > 0
                                   && r.category == table[i].name && r.confidence == Confidence(sc[i]))
  {
    FallbackIffNoScoreOf(table, skip, sc, Ranking(skip, sc));
  }

  /** When category i scores, the chosen category has a score at least as
      high, and when the scores are equal it comes earlier in the table. */
  lemma TopScoreWins(table: seq<Category>, skip: seq<bool>, sc: seq<nat>, i: nat)
    requires |skip| == |sc| == |table| && i < |sc| && !skip[i] && sc[i] > 0
    ensures var r := RankedResult(table, skip, sc);
            exists t :: 0 <= t < |sc| && !skip[t]
              && r.category == table[t].name && r.confidence == Confidence(sc[t])
              && (t == i || Before(Scored(t, sc[t]), Scored(i, sc[i])))
  {
    TopScoreWinsOf(table, skip, sc, Ranking(skip, sc), i);
  }

  /** A scoring category whose name is missing from the suggestions ranks
      after every suggestion, and then there are three suggestions. */
  lemma LeftOutRanksLower(table: seq<Category>, skip: seq<bool>, sc: seq<nat>, i: nat)
    requires |skip| == |sc| == |table| && i < |sc| && !skip[i] && sc[i] > 0
    requires var sug := RankedResult(table, skip, sc).suggestedCategories;
             forall k :: 0 <= k < |sug| ==> sug[k].category != table[i].name
    ensures var sug := RankedResult(table, skip, sc).suggestedCategories;
            |sug| == 3
            && forall k :: 0 <= k < 3 ==>
                 exists t :: 0 <= t < |sc| && !skip[t]
                   && Before(Scored(t, sc[t]), Scored(i, sc[i]))
                   && sug[k] == ToSuggestion(table, Scored(t, sc[t]))
  {
    LeftOutRanksLowerOf(table, skip, sc, Ranking(skip, sc), i);
  }

  // ----- properties of categorize, for any keyword table -----

  /** `categorize` falls back to `other` exactly when no keyword of any
      category except `other` occurs in the normalized description. */
  lemma FallbackIffNoMatch(table: seq<Category>, description: string)
    ensures var r := CategorizeWith(table, description);
            r == Fallback <==> forall i, k :: 0 <= i < |table| && !Skipped(table, i) && 0 <= k < |table[i].keywords|
                                 ==> !Matches(Normalize(description), table[i].keywords[k])
  {
    var desc := Normalize(description);
    var skip, sc := SkipFlags(table), KeywordScores(table, desc);
    FallbackIffNoScore(table, skip, sc);
    if forall i :: 0 <= i < |sc| && !skip[i] ==> sc[i] == 0 {
      forall i, k | 0 <= i < |table| && !Skipped(table, i) && 0 <= k < |table[i].keywords|
        ensures !Matches(desc, table[i].keywords[k])
      {
        assert !skip[i];
        KeywordScoreZero(desc, table[i].keywords);
      }
    } else {
      var i :| 0 <= i < |sc| && !skip[i] && sc[i] != 0;
      KeywordScoreZero(desc, table[i].keywords);
      var k :| 0 <= k < |table[i].keywords| && Matches(desc, table[i].keywords[k]);
      assert !Skipped(table, i);
    }
  }

  /** A score is zero exactly when no keyword matches. */
  lemma KeywordScoreZero(desc: string, keywords: seq<string>)
    ensures KeywordScore(desc, keywords) == 0 <==> forall k :: 0 <= k < |keywords| ==> !Matches(desc, keywords[k])
  {
    KeywordScoreCountsMatches(desc, keywords);
    var matching := Filter(keywords, k => Matches(desc, k));
    if |matching| > 0 {
      assert matching[0] in keywords;
    }
  }

  /** With a matching category i, `categorize` picks the category with the
      most matching keywords, the earliest in the table among equals. */
  lemma TopIsBest(table: seq<Category>, description: string, i: nat)
    requires i < |table| && !Skipped(table, i)
    requires KeywordScore(Normalize(description), table[i].keywords) > 0
    ensures var r := CategorizeWith(table, description);
            var sc := KeywordScores(table, Normalize(description));
            exists t :: 0 <= t < |table| && !Skipped(table, t)
              && r.category == table[t].name && r.confidence == Confidence(sc[t])
              && (t == i || Before(Scored(t, sc[t]), Scored(i, sc[i])))
  {
    var skip, sc := SkipFlags(table), KeywordScores(table, Normalize(description));
    TopScoreWins(table, skip, sc, i);
    var r := CategorizeWith(table, description);
    var t :| 0 <= t < |sc| && !skip[t]
             && r.category == table[t].name && r.confidence == Confidence(sc[t])
             && (t == i || Before(Scored(t, sc[t]), Scored(i, sc[i])));
    assert !Skipped(table, t);
  }

  /** The category is `other` only for the fallback: a table entry named
      `other` is never chosen, even if it had keywords. */
  lemma OtherOnlyAsFallback(table: seq<Category>, description: string)
    ensures var r := CategorizeWith(table, description);
            r.category == OtherName <==> r == Fallback
  {
    var skip, sc := SkipFlags(table), KeywordScores(table, Normalize(description));
    FallbackIffNoScore(table, skip, sc);
    var r := CategorizeWith(table, description);
    if r != Fallback {
      var i :| 0 <= i < |sc| && !skip[i] && sc[i] > 0 && r.category == table[i].name;
      assert !Skipped(table, i);
    }
  }

  /** A matching category left out of the suggestions ranks after all three
      suggestions. */
  lemma SuggestionsAreTheBest(table: seq<Category>, description: string, i: nat)
    requires i < |table| && !Skipped(table, i)
    requires KeywordScore(Normalize(description), table[i].keywords) > 0
    requires var sug := CategorizeWith(table, description).suggestedCategories;
             forall k :: 0 <= k < |sug| ==> sug[k].category != table[i].name
    ensures var sug := CategorizeWith(table, description).suggestedCategories;
            var sc := KeywordScores(table, Normalize(description));
            |sug| == 3
            && forall k :: 0 <= k < 3 ==>
                 exists t :: 0 <= t < |table| && !Skipped(table, t)
                   && Before(Scored(t, sc[t]), Scored(i, sc[i]))
                   && sug[k] == ToSuggestion(table, Scored(t, sc[t]))
  {
    var skip, sc := SkipFlags(table), KeywordScores(table, Normalize(description));
    LeftOutRanksLower(table, skip, sc, i);
    var sug := CategorizeWith(table, description).suggestedCategories;
    forall k | 0 <= k < 3
      ensures exists t :: 0 <= t < |table| && !Skipped(table, t)
                && Before(Scored(t, sc[t]), Scored(i, sc[i])) && sug[k] == ToSuggestion(table, Scored(t, sc[t]))
    {
      var t :| 0 <= t < |sc| && !skip[t]
               && Before(Scored(t, sc[t]), Scored(i, sc[i])) && sug[k] == ToSuggestion(table, Scored(t, sc[t]));
      assert !Skipped(table, t);
    }
  }

  /** Suggestions come in order of non-increasing confidence. */
  lemma SuggestionsNonIncreasing(table: seq<Category>, description: string)
    ensures var sug := CategorizeWith(table, description).suggestedCategories;
            forall i, j :: 0 <= i < j < |sug| ==> sug[i].confidence >= sug[j].confidence
  {
    var ranking := Ranking(SkipFlags(table), KeywordScores(table, Normalize(description)));
    ResultNonIncreasing(table, ranking);
  }

  /** Categorizing already-normalized text gives the same result. */
  lemma NormalizedDescriptionSameResult(table: seq<Category>, description: string)
    ensures CategorizeWith(table, Normalize(description)) == CategorizeWith(table, description)
  {
    NormalizeIdempotent(description);
  }
}

/** The engine's own keyword table and its `categorize` entry point. */
module CategoryKeywords {
  import opened Categorization
  import opened Results

  /** The keyword table, in the order its entries are visited. */
  function Table(): seq<Category>
  {
    [
      Category("food", ["cơm", "phở", "bún", "restaurant", "cafe", "coffee", "ăn", "uống", "food",
                        "lunch", "dinner", "breakfast", "trà", "tea", "bánh", "mì", "noodle", "pizza",
                        "burger", "fastfood", "quán", "nhà hàng"]),
      Category("transport", ["grab", "xe", "taxi", "bus", "xăng", "gas", "parking", "vé", "ticket",
                             "gojek", "be", "uber", "xe ôm", "xe buýt", "tàu", "train", "máy bay",
                             "flight", "vietjet", "vietnam airlines"]),
      Category("shopping", ["mua", "shop", "mall", "siêu thị", "market", "store", "quần áo", "clothes",
                            "giày", "shoes", "vinmart", "coopmart", "lotte", "aeon", "shopee", "lazada",
                            "tiki", "sendo"]),
      Category("entertainment", ["phim", "movie", "game", "concert", "bar", "club", "vui chơi", "giải trí",
                                 "cinema", "cgv", "lotte cinema", "galaxy", "karaoke", "spa", "massage"]),
      Category("health", ["bệnh viện", "hospital", "thuốc", "medicine", "doctor", "khám", "phòng khám",
                          "clinic", "dược", "pharmacy", "y tế", "medical", "nha khoa", "dental"]),
      Category("education", ["học", "school", "course", "book", "sách", "tuition", "học phí", "trường",
                             "đại học", "university", "khóa học", "training", "giáo dục"]),
      Category("utilities", ["điện", "nước", "internet", "phone", "electric", "water", "bill", "hóa đơn",
                             "evn", "vnpt", "viettel", "fpt", "mobifone", "vinaphone"]),
      Category(OtherName, [])
    ]
  }

  /** `categorize(description, amount)`; the amount does not take part. */
  function Categorize(description: string, amount: real): (r: CategoryResult)
    ensures 1 <= |r.suggestedCategories| <= 3
    ensures r.suggestedCategories[0] == Suggestion(r.category, r.confidence)
    ensures 0.3 <= r.confidence <= 0.95
  {
    CategorizeWith(Table(), description)
  }

  /** The amount plays no part in the result. */
  lemma CategorizeIgnoresAmount(description: string, a1: real, a2: real)
    ensures Categorize(description, a1) == Categorize(description, a2)
  {
  }
}
