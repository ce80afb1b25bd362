/**
 * `GovernmentScraper.categorizeNotification`: weighted keyword scoring of a
 * notification over ten ordered categories.  The source weighs a primary
 * keyword 3 (text) + 2 (title) and a secondary keyword 1.5 (text) + 1
 * (title), and requires a best score of at least 2; every score is a
 * multiple of 0.5, so this model works with doubled scores: 6, 3, 4, 2 and a
 * threshold of 4.
 */
module Categorizer {
  import opened Text

  /** One entry of the source's `categories` object; every weight is 1.0. */
  datatype Category = Category(name: string, primary: seq<string>, secondary: seq<string>)

  const Health := Category("health",
    ["health", "medical", "hospital", "doctor", "medicine", "vaccine", "covid", "disease", "healthcare",
     "clinic", "treatment", "patient", "drug", "pharmacy", "ayush", "medical college", "nursing", "ambulance"],
    ["wellness", "mental health", "therapy", "diagnosis", "surgery", "emergency"])

  const Education := Category("education",
    ["education", "school", "college", "university", "student", "exam", "admission", "scholarship", "degree",
     "certificate", "academic", "learning", "teacher", "faculty", "curriculum", "ugc", "cbse", "icse", "board",
     "entrance"],
    ["study", "research", "training", "course", "syllabus", "marks", "grade"])

  const Employment := Category("employment",
    ["job", "employment", "recruitment", "vacancy", "career", "hiring", "work", "salary", "wage", "pension",
     "retirement", "ssc", "upsc", "railway", "government job", "application", "interview", "selection", "posting"],
    ["employee", "employer", "staff", "officer", "clerk", "manager", "director"])

  const Taxation := Category("taxation",
    ["tax", "gst", "income tax", "return", "refund", "assessment", "compliance", "tds", "advance tax", "penalty",
     "notice", "audit", "exemption", "deduction", "itr", "pan", "aadhaar"],
    ["financial", "revenue", "duty", "customs", "excise", "service tax"])

  const Legal := Category("legal",
    ["legal", "court", "law", "act", "rule", "regulation", "policy", "order", "judgment", "case", "litigation",
     "advocate", "lawyer", "justice", "supreme court", "high court", "tribunal", "amendment", "bill"],
    ["rights", "constitution", "statute", "ordinance", "notification", "circular"])

  const Welfare := Category("welfare",
    ["welfare", "scheme", "benefit", "subsidy", "allowance", "grant", "aid", "support", "assistance", "relief",
     "compensation", "pension", "insurance", "social security", "disability", "widow", "elderly", "child"],
    ["help", "care", "protection", "safety", "security", "family"])

  const Infrastructure := Category("infrastructure",
    ["infrastructure", "road", "bridge", "transport", "railway", "airport", "port", "construction", "development",
     "project", "tender", "contract", "electricity", "water", "sewage", "metro", "bus"],
    ["building", "facility", "maintenance", "repair", "upgrade", "expansion"])

  const Agriculture := Category("agriculture",
    ["agriculture", "farmer", "crop", "farming", "irrigation", "fertilizer", "seed", "harvest", "rural", "village",
     "kisan", "mandi", "procurement", "subsidy", "loan"],
    ["weather", "drought", "flood", "soil", "organic", "pesticide", "cattle"])

  const Finance := Category("finance",
    ["finance", "bank", "banking", "loan", "credit", "investment", "budget", "fund", "money", "financial",
     "economic", "economy", "market", "stock", "bond"],
    ["interest", "deposit", "account", "transaction", "payment", "currency"])

  const Environment := Category("environment",
    ["environment", "pollution", "climate", "green", "forest", "wildlife", "conservation", "renewable", "solar",
     "wind", "waste", "recycling"],
    ["nature", "ecology", "sustainable", "carbon", "emission", "clean"])

  /** The categories in declaration order, which is the order ties are broken in. */
  const Categories := [Health, Education, Employment, Taxation, Legal, Welfare, Infrastructure,
                       Agriculture, Finance, Environment]

  /** The answer when no category is strong enough. */
  const General := "general"

  /** The doubled minimum score (the source's `minScore = 2`). */
  const Threshold := 4

  /** The keys of a category table, in order. */
  function Names(table: seq<Category>): (names: seq<string>)
    ensures |names| == |table|
    ensures forall k :: 0 <= k < |table| ==> names[k] == table[k].name
  {
    seq(|table|, k requires 0 <= k < |table| => table[k].name)
  }

  /** `General` is not a category key, so the two kinds of answer never clash. */
  lemma GeneralIsNotAName()
    ensures General !in Names(Categories)
  {
    var names := Names(Categories);
    assert names == ["health", "education", "employment", "taxation", "legal", "welfare",
                     "infrastructure", "agriculture", "finance", "environment"];
  }

  /** `keywords.filter(k => text.includes(k)).length` */
  function Hits(keywords: seq<string>, text: string): (n: nat)
    ensures n <= |keywords|
  {
    if keywords == [] then 0 else (if Contains(text, keywords[0]) then 1 else 0) + Hits(keywords[1..], text)
  }

  /** `${title} ${content}`, lower-cased. */
  function FullText(title: string, content: string): string {
    Lower(title + " " + content)
  }

  /** Twice the source's score of category `c`. */
  function Score(c: Category, title: string, content: string): nat {
    var text := FullText(title, content);
    var titleText := Lower(title);
    6 * Hits(c.primary, text) + 3 * Hits(c.secondary, text)
    + 4 * Hits(c.primary, titleText) + 2 * Hits(c.secondary, titleText)
  }

  /** The doubled scores of the categories of `table`, in order. */
  function ScoresOf(table: seq<Category>, title: string, content: string): (scores: seq<nat>)
    ensures |scores| == |table|
    ensures forall k :: 0 <= k < |table| ==> scores[k] == Score(table[k], title, content)
  {
    seq(|table|, k requires 0 <= k < |table| => Score(table[k], title, content))
  }

  /** `k` is the first category, in order, with the highest score. */
  predicate IsFirstBest(scores: seq<nat>, k: int) {
    0 <= k < |scores|
    && (forall j :: 0 <= j < |scores| ==> scores[j] <= scores[k])
    && (forall j :: 0 <= j < k ==> scores[j] < scores[k])
  }

  /** The answer `category` is the one the scores of `table` call for: `general`
      when every score is below the threshold, otherwise the key of the first
      category with the highest score. */
  predicate Decides(table: seq<Category>, title: string, content: string, category: string) {
    (category == General <==>
       forall k :: 0 <= k < |table| ==> Score(table[k], title, content) < Threshold)
    && (category != General ==>
          exists k :: 0 <= k < |table| && IsFirstBest(ScoresOf(table, title, content), k) && category == table[k].name
                      && Score(table[k], title, content) >= Threshold)
  }

  /** `categorizeNotification(title, content)` over the category table
      `table`.  The scores are collected in order; the positive ones stand for
      the `categoryScores` object, whose stable descending sort puts the first
      of the highest scores in front. */
  method CategorizeWith(table: seq<Category>, title: string, content: string) returns (category: string)
    requires General !in Names(table)
    ensures Decides(table, title, content, category)
    ensures category == General || category in Names(table)
  {
    var scores: seq<nat> := [];
    for i := 0 to |table|
      invariant |scores| == i
      invariant forall j :: 0 <= j < i ==> scores[j] == Score(table[j], title, content)
    {
      scores := scores + [Score(table[i], title, content)];
    }
    assert scores == ScoresOf(table, title, content);
    var best := BestIndex(scores);
    if best == -1 {
      category := General;
    } else if scores[best] < Threshold {
      category := General;
    } else {
      category := table[best].name;
      assert category == Names(table)[best];
    }
  }

  /** The front of the stable descending sort of the positive scores: the
      first of the highest scores, or -1 when no score is positive. */
  method BestIndex(scores: seq<nat>) returns (best: int)
    ensures -1 <= best < |scores|
    ensures best == -1 <==> forall j :: 0 <= j < |scores| ==> scores[j] == 0
    ensures best >= 0 ==> scores[best] > 0 && IsFirstBest(scores, best)
  {
    best := -1;
    for i := 0 to |scores|
      invariant -1 <= best < i
      invariant best == -1 ==> forall j :: 0 <= j < i ==> scores[j] == 0
      invariant best >= 0 ==> scores[best] > 0 && IsFirstBest(scores[..i], best)
    {
      if scores[i] > 0 && (best == -1 || scores[i] > scores[best]) {
        best := i;
      }
    }
    assert scores[..|scores|] == scores;
  }

  /** `categorizeNotification(title, content)` with the source's ten categories. */
  method CategorizeNotification(title: string, content: string) returns (category: string)
    ensures Decides(Categories, title, content, category)
    ensures category == General || category in Names(Categories)
  {
    GeneralIsNotAName();
    category := CategorizeWith(Categories, title, content);
  }

  // ---------------------------------------------------------------------
  // What the scores mean

  /** `Hits` is zero exactly when no keyword occurs. */
  lemma {:induction false} HitsZeroIff(keywords: seq<string>, text: string)
    ensures Hits(keywords, text) == 0 <==> forall i :: 0 <= i < |keywords| ==> !Contains(text, keywords[i])
  {
    if keywords != [] {
      HitsZeroIff(keywords[1..], text);
      assert forall i :: 1 <= i < |keywords| ==> keywords[i] == keywords[1..][i - 1];
    }
  }

  /** Every keyword found in a prefix is found in the whole text, so `text`
      has at least as many hits as its prefix `a`. */
  lemma {:induction false} HitsPrefix(keywords: seq<string>, a: string, b: string)
    ensures Hits(keywords, a) <= Hits(keywords, a + b)
  {
    if keywords != [] {
      if Contains(a, keywords[0]) {
        ContainsInPrefix(a, b, keywords[0]);
      }
      HitsPrefix(keywords[1..], a, b);
    }
  }

  /** A title hit is also a text hit. */
  lemma TitleHitsBounded(keywords: seq<string>, title: string, content: string)
    ensures Hits(keywords, Lower(title)) <= Hits(keywords, FullText(title, content))
  {
    LowerConcat(title, " " + content);
    assert title + " " + content == title + (" " + content);
    HitsPrefix(keywords, Lower(title), Lower(" " + content));
  }

  /** A category stays below the threshold exactly when no primary keyword
      occurs anywhere, at most one secondary keyword occurs, and none occurs in
      the title: a single secondary keyword in the body is worth 1.5, below
      the source's minimum of 2, while anything more reaches it. */
  lemma WeakScoreIff(c: Category, title: string, content: string)
    ensures Score(c, title, content) < Threshold <==>
              Hits(c.primary, FullText(title, content)) == 0
              && Hits(c.secondary, FullText(title, content)) <= 1
              && Hits(c.secondary, Lower(title)) == 0
  {
    TitleHitsBounded(c.primary, title, content);
    TitleHitsBounded(c.secondary, title, content);
  }

  /** A primary keyword anywhere in the title or content always categorizes
      the notification as something other than `general`. */
  lemma PrimaryKeywordDecides(title: string, content: string, k: int, i: int)
    requires 0 <= k < |Categories| && 0 <= i < |Categories[k].primary|
    requires Contains(FullText(title, content), Categories[k].primary[i])
    ensures Score(Categories[k], title, content) >= Threshold
  {
    HitsZeroIff(Categories[k].primary, FullText(title, content));
    WeakScoreIff(Categories[k], title, content);
  }

  /** The answer is `general` exactly when, for every category, no primary
      keyword occurs, at most one secondary keyword occurs, and no secondary
      keyword occurs in the title. */
  lemma GeneralIff(table: seq<Category>, title: string, content: string, category: string)
    requires Decides(table, title, content, category)
    ensures category == General <==>
              forall k :: 0 <= k < |table| ==>
                Hits(table[k].primary, FullText(title, content)) == 0
                && Hits(table[k].secondary, FullText(title, content)) <= 1
                && Hits(table[k].secondary, Lower(title)) == 0
  {
    forall k | 0 <= k < |table| {
      WeakScoreIff(table[k], title, content);
    }
  }
}
