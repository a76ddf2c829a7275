/** The interest ranking page's aggregation: every raw interest the store
    reports is filed under one of the eight official categories, counts are
    summed per category, the unofficial names filed under "기타" are listed,
    and the non-empty categories are ranked by count. */
module Ranking {
  import opened Text
  import opened Types
  import opened Constants

  // ---- normalising and classifying a raw interest ----

  /** `name.replace(/[\s\/]/g, '').toLowerCase()`: white space and '/'
      removed, ASCII letters lower-cased, everything else kept in order. */
  function Normalize(name: string): (clean: string)
    ensures |clean| <= |name|
    ensures forall i :: 0 <= i < |clean| ==> !IsSpace(clean[i]) && clean[i] != '/' && !('A' <= clean[i] <= 'Z')
    decreases |name|
  {
    if name == [] then []
    else (if IsSpace(name[0]) || name[0] == '/' then [] else [LowerAscii(name[0])]) + Normalize(name[1..])
  }

  /** Normalising works character by character, so it distributes over
      concatenation. */
  lemma {:induction false} NormalizeConcat(a: string, b: string)
    ensures Normalize(a + b) == Normalize(a) + Normalize(b)
    decreases |a|
  {
    if a != [] {
      assert (a + b)[1..] == a[1..] + b;
      NormalizeConcat(a[1..], b);
    } else {
      assert a + b == b;
    }
  }

  /** A normalised name is left as it is by normalising again. */
  lemma {:induction false} NormalizeIdempotent(name: string)
    ensures Normalize(Normalize(name)) == Normalize(name)
    decreases |name|
  {
    if name != [] {
      var head := if IsSpace(name[0]) || name[0] == '/' then [] else [LowerAscii(name[0])];
      NormalizeConcat(head, Normalize(name[1..]));
      NormalizeIdempotent(name[1..]);
      if head != [] {
        var d := head[0];
        assert !IsSpace(d) && d != '/' && LowerAscii(d) == d;
        assert head[1..] == [];
        assert Normalize(head) == [d] + Normalize([]);
      }
    }
  }

  /** The eight official categories; `Label()` is the text the page shows and
      the key of the category's count. */
  datatype Category = Brand | Editorial | UiUx | Graphic | Motion | Product | Lettering | Other
  {
    function Label(): string
    {
      match this
      case Brand => "브랜드 디자인"
      case Editorial => "편집/출판 디자인"
      case UiUx => "UI/UX 디자인"
      case Graphic => "그래픽/일러스트레이션"
      case Motion => "모션/영상 디자인"
      case Product => "3D/제품 비주얼라이제이션 디자인"
      case Lettering => "레터링/활자 디자인"
      case Other => Etc
    }

    /** The category's position in the official list. */
    function Index(): (i: nat)
      ensures i < |Categories| && Categories[i] == this
    {
      match this
      case Brand => 0
      case Editorial => 1
      case UiUx => 2
      case Graphic => 3
      case Motion => 4
      case Product => 5
      case Lettering => 6
      case Other => 7
    }
  }

  /** The categories in the order of the official list, which is the order the
      counts are created in and so the order their keys are listed in. */
  const Categories: seq<Category> := [Brand, Editorial, UiUx, Graphic, Motion, Product, Lettering, Other]

  /** Every category is listed once. */
  lemma CategoriesListed()
    ensures forall c: Category :: c in Categories
    ensures Distinct(Categories)
  {
    forall c: Category ensures c in Categories {
      assert Categories[c.Index()] == c;
    }
  }

  /** The categories' labels are the official list, item for item. */
  lemma CategoriesAreOfficial()
    ensures |Categories| == |OfficialCategories|
    ensures forall i :: 0 <= i < |Categories| ==> Categories[i].Label() == OfficialCategories[i]
  {
  }

  /** Different categories have different labels. */
  lemma LabelsDiffer(c: Category, d: Category)
    ensures c.Label() == d.Label() ==> c == d
  {
  }

  /** The fixed priority chain of substring tests over the normalised name;
      whatever no test catches is "기타". */
  function Classify(clean: string): Category
  {
    if Contains(clean, "브랜드") then Brand
    else if Contains(clean, "편집") || Contains(clean, "출판") then Editorial
    else if Contains(clean, "ui") || Contains(clean, "ux") then UiUx
    else if Contains(clean, "그래픽") || Contains(clean, "일러스트") || Contains(clean, "캐릭터") then Graphic
    else if Contains(clean, "모션") || Contains(clean, "영상") then Motion
    else if Contains(clean, "3d") || Contains(clean, "제품") || Contains(clean, "비주얼") then Product
    else if Contains(clean, "레터링") || Contains(clean, "활자") then Lettering
    else Other
  }

  /** A rule of the chain: a category and the keywords that select it. */
  datatype Rule = Rule(keywords: seq<string>, category: Category)

  /** The chain as a table, in priority order; "기타" is the fallback. */
  const Rules: seq<Rule> := [
    Rule(["브랜드"], Brand),
    Rule(["편집", "출판"], Editorial),
    Rule(["ui", "ux"], UiUx),
    Rule(["그래픽", "일러스트", "캐릭터"], Graphic),
    Rule(["모션", "영상"], Motion),
    Rule(["3d", "제품", "비주얼"], Product),
    Rule(["레터링", "활자"], Lettering)
  ]

  predicate Matches(rule: Rule, clean: string)
  {
    exists k :: 0 <= k < |rule.keywords| && Contains(clean, rule.keywords[k])
  }

  /** The category of the first rule whose keywords occur in the name. */
  function FirstMatch(rules: seq<Rule>, clean: string): Category
    decreases |rules|
  {
    if rules == [] then Other
    else if Matches(rules[0], clean) then rules[0].category
    else FirstMatch(rules[1..], clean)
  }

  /** The chain of tests is the first-match reading of the rule table. */
  lemma ClassifyFollowsRules(clean: string)
    ensures Classify(clean) == FirstMatch(Rules, clean)
  {
    var r := Rules;
    assert Matches(r[0], clean) <==> Contains(clean, "브랜드") by {
      assert r[0].keywords == ["브랜드"];
      if Contains(clean, "브랜드") { assert r[0].keywords[0] == "브랜드"; }
    }
    assert Matches(r[1], clean) <==> Contains(clean, "편집") || Contains(clean, "출판") by {
      assert r[1].keywords == ["편집", "출판"];
      if Contains(clean, "편집") { assert r[1].keywords[0] == "편집"; }
      if Contains(clean, "출판") { assert r[1].keywords[1] == "출판"; }
    }
    assert Matches(r[2], clean) <==> Contains(clean, "ui") || Contains(clean, "ux") by {
      assert r[2].keywords == ["ui", "ux"];
      if Contains(clean, "ui") { assert r[2].keywords[0] == "ui"; }
      if Contains(clean, "ux") { assert r[2].keywords[1] == "ux"; }
    }
    assert Matches(r[3], clean) <==> Contains(clean, "그래픽") || Contains(clean, "일러스트") || Contains(clean, "캐릭터") by {
      assert r[3].keywords == ["그래픽", "일러스트", "캐릭터"];
      if Contains(clean, "그래픽") { assert r[3].keywords[0] == "그래픽"; }
      if Contains(clean, "일러스트") { assert r[3].keywords[1] == "일러스트"; }
      if Contains(clean, "캐릭터") { assert r[3].keywords[2] == "캐릭터"; }
    }
    assert Matches(r[4], clean) <==> Contains(clean, "모션") || Contains(clean, "영상") by {
      assert r[4].keywords == ["모션", "영상"];
      if Contains(clean, "모션") { assert r[4].keywords[0] == "모션"; }
      if Contains(clean, "영상") { assert r[4].keywords[1] == "영상"; }
    }
    assert Matches(r[5], clean) <==> Contains(clean, "3d") || Contains(clean, "제품") || Contains(clean, "비주얼") by {
      assert r[5].keywords == ["3d", "제품", "비주얼"];
      if Contains(clean, "3d") { assert r[5].keywords[0] == "3d"; }
      if Contains(clean, "제품") { assert r[5].keywords[1] == "제품"; }
      if Contains(clean, "비주얼") { assert r[5].keywords[2] == "비주얼"; }
    }
    assert Matches(r[6], clean) <==> Contains(clean, "레터링") || Contains(clean, "활자") by {
      assert r[6].keywords == ["레터링", "활자"];
      if Contains(clean, "레터링") { assert r[6].keywords[0] == "레터링"; }
      if Contains(clean, "활자") { assert r[6].keywords[1] == "활자"; }
    }
    assert r[1..][0] == r[1] && r[1..][1..] == r[2..];
    assert r[2..][0] == r[2] && r[2..][1..] == r[3..];
    assert r[3..][0] == r[3] && r[3..][1..] == r[4..];
    assert r[4..][0] == r[4] && r[4..][1..] == r[5..];
    assert r[5..][0] == r[5] && r[5..][1..] == r[6..];
    assert r[6..][0] == r[6] && r[6..][1..] == [];
  }

  /** The first-match reading yields "기타" or one of the rules' categories. */
  lemma {:induction false} FirstMatchIn(rules: seq<Rule>, clean: string)
    ensures FirstMatch(rules, clean) == Other
         || exists i :: 0 <= i < |rules| && rules[i].category == FirstMatch(rules, clean)
    decreases |rules|
  {
    if rules != [] && !Matches(rules[0], clean) {
      FirstMatchIn(rules[1..], clean);
      if FirstMatch(rules[1..], clean) != Other {
        var i :| 0 <= i < |rules[1..]| && rules[1..][i].category == FirstMatch(rules[1..], clean);
        assert rules[i + 1].category == FirstMatch(rules, clean);
      }
    }
  }

  /** For rules whose categories are not "기타", the first-match reading
      falls back to "기타" exactly when no rule matches. */
  lemma {:induction false} FirstMatchNone(rules: seq<Rule>, clean: string)
    requires forall i :: 0 <= i < |rules| ==> rules[i].category != Other
    ensures FirstMatch(rules, clean) == Other <==> forall j :: 0 <= j < |rules| ==> !Matches(rules[j], clean)
    decreases |rules|
  {
    if rules != [] && !Matches(rules[0], clean) {
      var rest := rules[1..];
      assert forall j :: 0 <= j < |rest| ==> rest[j] == rules[j + 1];
      FirstMatchNone(rest, clean);
      if FirstMatch(rest, clean) != Other {
        var j :| 0 <= j < |rest| && Matches(rest[j], clean);
        assert Matches(rules[j + 1], clean);
      }
    }
  }

  /** For rules with distinct categories other than "기타", the first-match
      reading files a name under rule k's category exactly when rule k matches
      and no earlier rule does. */
  lemma {:induction false} FirstMatchIsFirst(rules: seq<Rule>, clean: string, k: nat)
    requires forall i, j :: 0 <= i < j < |rules| ==> rules[i].category != rules[j].category
    requires forall i :: 0 <= i < |rules| ==> rules[i].category != Other
    requires k < |rules|
    ensures FirstMatch(rules, clean) == rules[k].category
        <==> (Matches(rules[k], clean) && forall j :: 0 <= j < k ==> !Matches(rules[j], clean))
    decreases |rules|
  {
    if Matches(rules[0], clean) {
      if k > 0 {
        assert rules[0].category != rules[k].category;
      }
    } else {
      var rest := rules[1..];
      assert forall j :: 0 <= j < |rest| ==> rest[j] == rules[j + 1];
      if k > 0 {
        FirstMatchIsFirst(rest, clean, k - 1);
        assert (forall j :: 0 <= j < k ==> !Matches(rules[j], clean))
           <==> (forall j :: 0 <= j < k - 1 ==> !Matches(rest[j], clean));
      } else {
        var f := FirstMatch(rest, clean);
        if f != Other {
          FirstMatchIn(rest, clean);
          var i :| 0 <= i < |rest| && rest[i].category == f;
          assert rules[i + 1].category == f;
        }
      }
    }
  }

  /** The rule table's categories are distinct and none of them is "기타". */
  lemma RulesWellFormed()
    ensures forall i, j :: 0 <= i < j < |Rules| ==> Rules[i].category != Rules[j].category
    ensures forall i :: 0 <= i < |Rules| ==> Rules[i].category != Other
  {
  }

  /** The rule table has distinct categories, none of them "기타"; so each
      raw interest is filed under exactly one category, the one of the first
      rule that matches its normalised name, and under "기타" when none does. */
  lemma ClassifyPicksFirstMatchingRule(name: string, k: nat)
    requires k < |Rules|
    ensures Classify(Normalize(name)) == Rules[k].category
        <==> (Matches(Rules[k], Normalize(name)) && forall j :: 0 <= j < k ==> !Matches(Rules[j], Normalize(name)))
    ensures Classify(Normalize(name)) == Other
        <==> forall j :: 0 <= j < |Rules| ==> !Matches(Rules[j], Normalize(name))
  {
    var clean := Normalize(name);
    ClassifyFollowsRules(clean);
    RulesWellFormed();
    FirstMatchIsFirst(Rules, clean, k);
    FirstMatchNone(Rules, clean);
  }

  /** The category an item of the store is filed under. */
  function CategoryOf(item: RankingItem): Category
  {
    Classify(Normalize(item.interest))
  }

  // ---- tallying ----

  /** Every official category starts at zero. */
  function InitialCounts(): (counts: map<Category, int>)
    ensures forall c: Category :: c in counts && counts[c] == 0
  {
    CategoriesListed();
    map c | c in Categories :: 0
  }

  /** One item's contribution to the counts: its count goes to its category
      when that category is a key (the page's own guard). */
  function AddCount(counts: map<Category, int>, item: RankingItem): map<Category, int>
  {
    var category := CategoryOf(item);
    if category in counts then counts[category := counts[category] + item.count] else counts
  }

  /** One item's contribution to the "기타" names: its raw name, the first
      time an item with that name falls there. */
  function AddName(names: seq<string>, item: RankingItem): seq<string>
  {
    if CategoryOf(item) == Other && item.interest !in names then names + [item.interest] else names
  }

  /** The per-category counts after the items, added in list order; every
      category has a key. */
  function CountsOf(items: seq<RankingItem>): (counts: map<Category, int>)
    ensures forall c: Category :: c in counts
    decreases |items|
  {
    if items == [] then InitialCounts()
    else AddCount(CountsOf(items[..|items| - 1]), items[|items| - 1])
  }

  /** The raw names filed under "기타", each once, in first-seen order. */
  function EtcNames(items: seq<RankingItem>): (names: seq<string>)
    ensures Distinct(names)
    decreases |items|
  {
    if items == [] then []
    else AddName(EtcNames(items[..|items| - 1]), items[|items| - 1])
  }

  /** One step of the tally: the next item's count is added to its category. */
  lemma CountsOfSnoc(items: seq<RankingItem>, x: RankingItem)
    ensures CountsOf(items + [x]) == CountsOf(items)[CategoryOf(x) := CountsOf(items)[CategoryOf(x)] + x.count]
  {
    TallyStep(items, x);
  }

  /** One step of collecting the "기타" names. */
  lemma EtcNamesSnoc(items: seq<RankingItem>, x: RankingItem)
    ensures EtcNames(items + [x])
         == if CategoryOf(x) == Other && x.interest !in EtcNames(items) then EtcNames(items) + [x.interest] else EtcNames(items)
  {
    TallyStep(items, x);
  }

  /** A name is listed under "기타" exactly when some item with that name is
      filed there. */
  lemma {:induction false} EtcNamesMembers(items: seq<RankingItem>, n: string)
    ensures n in EtcNames(items) <==> exists k :: 0 <= k < |items| && items[k].interest == n && CategoryOf(items[k]) == Other
    decreases |items|
  {
    if items != [] {
      var init := items[..|items| - 1];
      var item := items[|items| - 1];
      EtcNamesMembers(init, n);
      assert items == init + [item];
      EtcNamesSnoc(init, item);
      assert forall k :: 0 <= k < |init| ==> items[k] == init[k];
      if CategoryOf(item) == Other && item.interest == n {
        assert items[|items| - 1] == item;
      }
    }
  }

  function SumCounts(items: seq<RankingItem>): int
    decreases |items|
  {
    if items == [] then 0 else SumCounts(items[..|items| - 1]) + items[|items| - 1].count
  }

  /** The sum of the counts of the given categories. */
  function Total(counts: map<Category, int>, cats: seq<Category>): int
    requires forall c :: c in cats ==> c in counts
    decreases |cats|
  {
    if cats == [] then 0 else counts[cats[0]] + Total(counts, cats[1..])
  }

  /** Adding to one of a list of distinct categories adds to their total. */
  lemma {:induction false} TotalAdd(counts: map<Category, int>, cats: seq<Category>, key: Category, amount: int)
    requires forall c :: c in cats ==> c in counts
    requires Distinct(cats) && key in counts
    ensures Total(counts[key := counts[key] + amount], cats)
         == Total(counts, cats) + (if key in cats then amount else 0)
    decreases |cats|
  {
    if cats != [] {
      DistinctTail(cats);
      TotalAdd(counts, cats[1..], key, amount);
      assert key in cats <==> key == cats[0] || key in cats[1..];
    }
  }

  lemma {:induction false} ZeroTotal(counts: map<Category, int>, cats: seq<Category>)
    requires forall c :: c in cats ==> c in counts && counts[c] == 0
    ensures Total(counts, cats) == 0
    decreases |cats|
  {
    if cats != [] {
      ZeroTotal(counts, cats[1..]);
    }
  }

  /** Every item's count lands in exactly one category, so the counts of a
      list holding every category once add up to the sum of the items' counts. */
  lemma {:induction false} CountsConserveTotalOver(items: seq<RankingItem>, cats: seq<Category>)
    requires Distinct(cats) && forall c: Category :: c in cats
    ensures Total(CountsOf(items), cats) == SumCounts(items)
    decreases |items|
  {
    if items == [] {
      ZeroTotal(InitialCounts(), cats);
    } else {
      var init := items[..|items| - 1];
      var item := items[|items| - 1];
      CountsConserveTotalOver(init, cats);
      assert items == init + [item];
      CountsOfSnoc(init, item);
      TotalAdd(CountsOf(init), cats, CategoryOf(item), item.count);
    }
  }

  /** The category counts add up to the sum of the items' counts. */
  lemma CountsConserveTotal(items: seq<RankingItem>)
    ensures Total(CountsOf(items), Categories) == SumCounts(items)
  {
    CategoriesListed();
    CountsConserveTotalOver(items, Categories);
  }

  /** With counts that are never negative, no category count is negative. */
  lemma {:induction false} CountsNonNegative(items: seq<RankingItem>)
    requires forall k :: 0 <= k < |items| ==> items[k].count >= 0
    ensures forall c: Category :: CountsOf(items)[c] >= 0
    decreases |items|
  {
    if items != [] {
      CountsNonNegative(items[..|items| - 1]);
    }
  }

  // ---- building the ranking ----

  /** One row of the ranking page; `details` lists the names behind "기타". */
  datatype RankingEntry = RankingEntry(interest: string, count: int, details: string)

  /** The row of a category: its label, its count, and for "기타" the
      collected names joined with ", ". */
  function EntryFor(counts: map<Category, int>, etcNames: seq<string>, c: Category): RankingEntry
    requires c in counts
  {
    RankingEntry(c.Label(), counts[c], if c == Other then Join(etcNames, ", ") else "")
  }

  /** One row per category, in the given order. */
  function Entries(counts: map<Category, int>, etcNames: seq<string>, cats: seq<Category>): (es: seq<RankingEntry>)
    requires forall c :: c in cats ==> c in counts
    ensures |es| == |cats|
    ensures forall i :: 0 <= i < |es| ==> es[i] == EntryFor(counts, etcNames, cats[i])
  {
    seq(|cats|, i requires 0 <= i < |cats| => EntryFor(counts, etcNames, cats[i]))
  }

  function Sum(es: seq<RankingEntry>): int
    decreases |es|
  {
    if es == [] then 0 else es[0].count + Sum(es[1..])
  }

  lemma {:induction false} SumOfEntries(counts: map<Category, int>, etcNames: seq<string>, cats: seq<Category>)
    requires forall c :: c in cats ==> c in counts
    ensures Sum(Entries(counts, etcNames, cats)) == Total(counts, cats)
    decreases |cats|
  {
    if cats != [] {
      SumOfEntries(counts, etcNames, cats[1..]);
      assert Entries(counts, etcNames, cats)[1..] == Entries(counts, etcNames, cats[1..]);
    }
  }

  /** The rows with a positive count, in order. */
  function KeepPositive(es: seq<RankingEntry>): (r: seq<RankingEntry>)
    ensures |r| <= |es|
    ensures forall e :: e in r <==> e in es && e.count > 0
    decreases |es|
  {
    if es == [] then []
    else (if es[0].count > 0 then [es[0]] else []) + KeepPositive(es[1..])
  }

  /** Dropping rows whose count is zero does not change the sum. */
  lemma {:induction false} KeepPositiveSum(es: seq<RankingEntry>)
    requires forall i :: 0 <= i < |es| ==> es[i].count >= 0
    ensures Sum(KeepPositive(es)) == Sum(es)
    decreases |es|
  {
    if es != [] {
      KeepPositiveSum(es[1..]);
      var head := if es[0].count > 0 then [es[0]] else [];
      SumConcat(head, KeepPositive(es[1..]));
    }
  }

  lemma {:induction false} SumConcat(a: seq<RankingEntry>, b: seq<RankingEntry>)
    ensures Sum(a + b) == Sum(a) + Sum(b)
    decreases |a|
  {
    if a != [] {
      assert (a + b)[1..] == a[1..] + b;
      SumConcat(a[1..], b);
    } else {
      assert a + b == b;
    }
  }

  predicate SortedByCountDesc(es: seq<RankingEntry>)
  {
    forall i, j :: 0 <= i < j < |es| ==> es[i].count >= es[j].count
  }

  /** Insert a row after every row whose count is at least its own. */
  function Insert(sorted: seq<RankingEntry>, e: RankingEntry): seq<RankingEntry>
    decreases |sorted|
  {
    if sorted == [] then [e]
    else if sorted[0].count >= e.count then [sorted[0]] + Insert(sorted[1..], e)
    else [e] + sorted
  }

  /** Insertion adds exactly the new row: the result is a permutation of the
      old rows and the new one. */
  lemma {:induction false} InsertPermutes(sorted: seq<RankingEntry>, e: RankingEntry)
    ensures multiset(Insert(sorted, e)) == multiset(sorted) + multiset{e}
    decreases |sorted|
  {
    if sorted != [] && sorted[0].count >= e.count {
      InsertPermutes(sorted[1..], e);
      assert sorted == [sorted[0]] + sorted[1..];
    }
  }

  /** A bound on every count survives an insertion of a row within it. */
  lemma {:induction false} InsertBounded(sorted: seq<RankingEntry>, e: RankingEntry, bound: int)
    requires forall i :: 0 <= i < |sorted| ==> sorted[i].count <= bound
    requires e.count <= bound
    ensures forall i :: 0 <= i < |Insert(sorted, e)| ==> Insert(sorted, e)[i].count <= bound
    decreases |sorted|
  {
    if sorted != [] && sorted[0].count >= e.count {
      InsertBounded(sorted[1..], e, bound);
      var r := [sorted[0]] + Insert(sorted[1..], e);
      forall i | 0 <= i < |r| ensures r[i].count <= bound {
        if i > 0 {
          assert r[i] == Insert(sorted[1..], e)[i - 1];
        }
      }
    } else if sorted != [] {
      var r := [e] + sorted;
      forall i | 0 <= i < |r| ensures r[i].count <= bound {
        if i > 0 {
          assert r[i] == sorted[i - 1];
        }
      }
    }
  }

  /** Inserting into a list ordered by count keeps it ordered. */
  lemma {:induction false} InsertSorted(sorted: seq<RankingEntry>, e: RankingEntry)
    requires SortedByCountDesc(sorted)
    ensures SortedByCountDesc(Insert(sorted, e))
    decreases |sorted|
  {
    if sorted != [] && sorted[0].count >= e.count {
      var rest := Insert(sorted[1..], e);
      InsertSorted(sorted[1..], e);
      InsertBounded(sorted[1..], e, sorted[0].count);
      var r := [sorted[0]] + rest;
      forall i, j | 0 <= i < j < |r| ensures r[i].count >= r[j].count {
        assert r[j] == rest[j - 1];
        if i > 0 {
          assert r[i] == rest[i - 1];
        }
      }
    } else if sorted != [] {
      var r := [e] + sorted;
      forall i, j | 0 <= i < j < |r| ensures r[i].count >= r[j].count {
        assert r[j] == sorted[j - 1];
        if i > 0 {
          assert r[i] == sorted[i - 1];
        }
      }
    }
  }

  lemma {:induction false} InsertSum(sorted: seq<RankingEntry>, e: RankingEntry)
    ensures Sum(Insert(sorted, e)) == Sum(sorted) + e.count
    decreases |sorted|
  {
    if sorted != [] && sorted[0].count >= e.count {
      InsertSum(sorted[1..], e);
      assert ([sorted[0]] + Insert(sorted[1..], e))[1..] == Insert(sorted[1..], e);
    } else if sorted != [] {
      assert ([e] + sorted)[1..] == sorted;
    }
  }

  /** `sort((a, b) => b.Count - a.Count)`, a stable sort: rows are inserted
      one by one, each after the earlier rows with a count at least its own. */
  function SortByCountDesc(es: seq<RankingEntry>): (r: seq<RankingEntry>)
    ensures SortedByCountDesc(r)
    ensures multiset(r) == multiset(es)
    ensures |r| == |es|
    decreases |es|
  {
    if es == [] then []
    else
      var init := es[..|es| - 1];
      assert es == init + [es[|es| - 1]];
      InsertSorted(SortByCountDesc(init), es[|es| - 1]);
      InsertPermutes(SortByCountDesc(init), es[|es| - 1]);
      var r := Insert(SortByCountDesc(init), es[|es| - 1]);
      assert |r| == |multiset(r)|;
      r
  }

  lemma {:induction false} SortKeepsSum(es: seq<RankingEntry>)
    ensures Sum(SortByCountDesc(es)) == Sum(es)
    decreases |es|
  {
    if es != [] {
      var init, last := es[..|es| - 1], es[|es| - 1];
      var sortedInit := SortByCountDesc(init);
      calc {
        Sum(SortByCountDesc(es));
        Sum(Insert(sortedInit, last));
        { InsertSum(sortedInit, last); }
        Sum(sortedInit) + last.count;
        { SortKeepsSum(init); }
        Sum(init) + last.count;
        { SumConcat(init, [last]); assert Sum([last]) == last.count; }
        Sum(init + [last]);
        { assert es == init + [last]; }
        Sum(es);
      }
    }
  }

  /** The page's ranking, from the tallied counts and "기타" names. */
  function Rank(counts: map<Category, int>, etcNames: seq<string>): seq<RankingEntry>
    requires forall c: Category :: c in counts
  {
    SortByCountDesc(KeepPositive(Entries(counts, etcNames, Categories)))
  }

  /** The ranking the page shows for the items the store returned. */
  function RankingOf(items: seq<RankingItem>): seq<RankingEntry>
  {
    Rank(CountsOf(items), EtcNames(items))
  }

  /** One step of the tally, for both the counts and the "기타" names. */
  lemma TallyStep(items: seq<RankingItem>, x: RankingItem)
    ensures CountsOf(items + [x]) == AddCount(CountsOf(items), x)
    ensures EtcNames(items + [x]) == AddName(EtcNames(items), x)
  {
    assert (items + [x])[..|items|] == items;
  }

  /** The first loop of `processRankingData`: every official category gets
      a zero count. */
  method ZeroCounts() returns (counts: map<Category, int>)
    ensures counts == InitialCounts()
  {
    counts := map[];
    for i := 0 to |Categories|
      invariant forall c :: c in counts <==> c in Categories[..i]
      invariant forall c :: c in counts ==> counts[c] == 0
    {
      counts := counts[Categories[i] := 0];
    }
    assert Categories[..|Categories|] == Categories;
    CategoriesListed();
  }

  /** The body of the tally loop for one item: clean and classify its name,
      add its count to the category (when the category is a key), and file
      its raw name under "기타" the first time it falls there. */
  method TallyItem(counts: map<Category, int>, details: seq<string>, item: RankingItem)
    returns (counts': map<Category, int>, details': seq<string>)
    ensures counts' == AddCount(counts, item) && details' == AddName(details, item)
  {
    var name := item.interest;
    var cleanName := Normalize(name);
    var targetCategory := Classify(cleanName);
    counts', details' := counts, details;
    if targetCategory in counts' {
      counts' := counts'[targetCategory := counts'[targetCategory] + item.count];
    }
    if targetCategory == Other && name !in details' {
      details' := details' + [name];
    }
  }

  /** The second loop of `processRankingData`: the items, one by one. */
  method Tally(rawData: seq<RankingItem>) returns (counts: map<Category, int>, details: seq<string>)
    ensures counts == CountsOf(rawData) && details == EtcNames(rawData)
  {
    counts := ZeroCounts();
    details := [];
    ghost var done: seq<RankingItem> := [];
    for i := 0 to |rawData|
      invariant done == rawData[..i]
      invariant counts == CountsOf(done) && details == EtcNames(done)
    {
      TallyStep(done, rawData[i]);
      counts, details := TallyItem(counts, details, rawData[i]);
      done := done + [rawData[i]];
    }
    assert done == rawData;
  }

  /** `processRankingData`: zero the counts of the official categories, fill
      them and the set of "기타" names item by item, then map, filter and sort. */
  method ProcessRankingData(rawData: seq<RankingItem>) returns (ranking: seq<RankingEntry>)
    ensures ranking == RankingOf(rawData)
  {
    var counts, details := Tally(rawData);
    ranking := Rank(counts, details);
  }

  // ---- what the ranking promises ----

  /** The rows are ordered by count, highest first, and every count is positive. */
  lemma {:induction false} RankingSortedPositive(items: seq<RankingItem>)
    ensures SortedByCountDesc(RankingOf(items))
    ensures forall e :: e in RankingOf(items) ==> e.count > 0
  {
    var kept := KeepPositive(Entries(CountsOf(items), EtcNames(items), Categories));
    forall e | e in RankingOf(items) ensures e.count > 0 {
      assert e in multiset(SortByCountDesc(kept));
    }
  }

  /** A listed category has a row exactly when its count is positive. */
  lemma {:induction false} RowOver(counts: map<Category, int>, names: seq<string>, cats: seq<Category>, c: Category)
    requires forall c :: c in cats ==> c in counts
    requires c in cats
    ensures EntryFor(counts, names, c) in SortByCountDesc(KeepPositive(Entries(counts, names, cats))) <==> counts[c] > 0
  {
    var es := Entries(counts, names, cats);
    var kept := KeepPositive(es);
    var e := EntryFor(counts, names, c);
    assert e in SortByCountDesc(kept) <==> e in multiset(SortByCountDesc(kept));
    var i :| 0 <= i < |cats| && cats[i] == c;
    assert es[i] == e;
  }

  /** Every row built from a list of categories is the row of a listed
      category with a positive count. */
  lemma {:induction false} RowsOver(counts: map<Category, int>, names: seq<string>, cats: seq<Category>, e: RankingEntry)
    requires forall c :: c in cats ==> c in counts
    requires e in SortByCountDesc(KeepPositive(Entries(counts, names, cats)))
    ensures exists c :: c in cats && e == EntryFor(counts, names, c) && counts[c] > 0
  {
    var es := Entries(counts, names, cats);
    var kept := KeepPositive(es);
    assert e in multiset(SortByCountDesc(kept));
    assert e in multiset(kept);
    assert e in es && e.count > 0;
    var i :| 0 <= i < |es| && es[i] == e;
    assert cats[i] in cats && e == EntryFor(counts, names, cats[i]);
  }

  /** A category has a row exactly when its count is positive. */
  lemma {:induction false} RowOfCategory(items: seq<RankingItem>, c: Category)
    ensures EntryFor(CountsOf(items), EtcNames(items), c) in RankingOf(items) <==> CountsOf(items)[c] > 0
  {
    assert Categories[c.Index()] == c;
    RowOver(CountsOf(items), EtcNames(items), Categories, c);
  }

  /** Every row is the row of some category. */
  lemma {:induction false} RowsAreCategoryRows(items: seq<RankingItem>, e: RankingEntry)
    requires e in RankingOf(items)
    ensures exists c: Category :: e == EntryFor(CountsOf(items), EtcNames(items), c) && CountsOf(items)[c] > 0
  {
    RowsOver(CountsOf(items), EtcNames(items), Categories, e);
  }

  /** The rows are exactly the rows of the categories with a positive count:
      each carries its category's label and summed count, and only the "기타"
      row lists names, the distinct raw names filed there in first-seen order. */
  lemma {:induction false} RankingRows(items: seq<RankingItem>, e: RankingEntry)
    ensures e in RankingOf(items) <==>
      exists c: Category :: e == EntryFor(CountsOf(items), EtcNames(items), c) && CountsOf(items)[c] > 0
  {
    if e in RankingOf(items) {
      RowsAreCategoryRows(items, e);
    }
    if c: Category :| e == EntryFor(CountsOf(items), EtcNames(items), c) && CountsOf(items)[c] > 0 {
      RowOfCategory(items, c);
    }
  }

  /** Every row's label is one of the official categories, and no label
      appears twice; so there are at most eight rows. */
  lemma {:induction false} RankingInterestsDistinct(items: seq<RankingItem>)
    ensures |RankingOf(items)| <= |OfficialCategories| == 8
    ensures forall e :: e in RankingOf(items) ==> e.interest in OfficialCategories
    ensures forall i, j :: 0 <= i < j < |RankingOf(items)| ==> RankingOf(items)[i].interest != RankingOf(items)[j].interest
  {
    var r := RankingOf(items);
    var counts := CountsOf(items);
    var names := EtcNames(items);
    CategoriesAreOfficial();
    forall e | e in r ensures e.interest in OfficialCategories {
      RowsAreCategoryRows(items, e);
      var c: Category :| e == EntryFor(counts, names, c);
      assert OfficialCategories[c.Index()] == e.interest;
    }
    forall i, j | 0 <= i < j < |r| ensures r[i].interest != r[j].interest {
      RowsAreCategoryRows(items, r[i]);
      RowsAreCategoryRows(items, r[j]);
      var c: Category :| r[i] == EntryFor(counts, names, c);
      var d: Category :| r[j] == EntryFor(counts, names, d);
      LabelsDiffer(c, d);
      if c == d {
        RankingNoDuplicateRows(items, i, j);
      }
    }
    RankingLength(items);
  }

  /** There are at most as many rows as categories. */
  lemma {:induction false} RankingLength(items: seq<RankingItem>)
    ensures |RankingOf(items)| <= |Categories|
  {
  }

  /** The rows are pairwise different, as the category rows they come from are. */
  lemma {:induction false} RankingNoDuplicateRows(items: seq<RankingItem>, i: nat, j: nat)
    requires i < j < |RankingOf(items)|
    ensures RankingOf(items)[i] != RankingOf(items)[j]
  {
    var es := Entries(CountsOf(items), EtcNames(items), Categories);
    var kept := KeepPositive(es);
    var r := RankingOf(items);
    CategoriesListed();
    assert Distinct(es);
    KeepPositiveDistinct(es);
    forall x ensures multiset(r)[x] <= 1 {
      DistinctMultiplicity(kept, x);
    }
    if r[i] == r[j] {
      TwoPositions(r, i, j);
      assert false;
    }
  }

  lemma {:induction false} KeepPositiveDistinct(es: seq<RankingEntry>)
    requires Distinct(es)
    ensures Distinct(KeepPositive(es))
    decreases |es|
  {
    if es != [] {
      DistinctTail(es);
      KeepPositiveDistinct(es[1..]);
    }
  }

  lemma {:induction false} DistinctMultiplicity(s: seq<RankingEntry>, x: RankingEntry)
    requires Distinct(s)
    ensures multiset(s)[x] <= 1
    decreases |s|
  {
    if s != [] {
      assert s == [s[0]] + s[1..];
      DistinctTail(s);
      DistinctMultiplicity(s[1..], x);
    }
  }

  lemma TwoPositions(s: seq<RankingEntry>, i: nat, j: nat)
    requires i < j < |s| && s[i] == s[j]
    ensures multiset(s)[s[i]] >= 2
  {
    assert s == s[..i] + [s[i]] + s[i + 1..j] + [s[j]] + s[j + 1..];
  }

  /** With counts that are never negative, the rows' counts add up to the sum
      of the items' counts: nothing is lost and nothing is counted twice. */
  lemma {:induction false} RankingConservesTotal(items: seq<RankingItem>)
    requires forall k :: 0 <= k < |items| ==> items[k].count >= 0
    ensures Sum(RankingOf(items)) == SumCounts(items)
  {
    var counts := CountsOf(items);
    var es := Entries(counts, EtcNames(items), Categories);
    CountsNonNegative(items);
    KeepPositiveSum(es);
    SortKeepsSum(KeepPositive(es));
    SumOfEntries(counts, EtcNames(items), Categories);
    CountsConserveTotal(items);
  }
}
