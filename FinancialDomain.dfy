/**
 * The financial-domain adapter: fuzzy recognition of dictionary terms in a
 * text (a sliding window compared by edit distance), first-match
 * classification of terms into five fixed categories, the tab-separated
 * dictionary parser, and the pass-through adaptation of triples.
 */
module FinancialDomain {
  import opened Optional
  import opened Strings
  import opened EditDistance
  import opened Triples

  // ---------------------------------------------------------------------
  // Fuzzy matching
  // ---------------------------------------------------------------------

  /** The largest edit distance a window may have from `term`: a quarter of its length, but at least one. */
  function Threshold(term: string): (t: nat)
    ensures 1 <= t && |term| / 4 <= t
    ensures t == 1 || t == |term| / 4
  {
    if |term| / 4 < 1 then 1 else |term| / 4
  }

  /** Where the window starting at `i` ends: `threshold` characters past the term's length, clipped to the text. */
  function WindowEnd(text: string, term: string, i: nat): (e: nat)
    requires i <= |text|
    ensures i <= e <= |text|
  {
    if i + |term| + Threshold(term) < |text| then i + |term| + Threshold(term) else |text|
  }

  /** The window at `i` is close enough to `term`. */
  predicate WindowMatches(text: string, term: string, i: nat)
    requires i <= |text|
  {
    Distance(text[i..WindowEnd(text, term, i)], term) <= Threshold(term)
  }

  /** Some window starting at `0 .. |text| - |term|` is close enough to `term`. */
  predicate FuzzyMatches(text: string, term: string) {
    exists i :: 0 <= i <= |text| - |term| && WindowMatches(text, term, i)
  }

  /** `fuzzyMatch`: slide the window and stop at the first one within the threshold. */
  method FuzzyMatch(text: string, term: string) returns (matched: bool)
    ensures matched <==> FuzzyMatches(text, term)
    ensures |text| < |term| ==> !matched
  {
    var threshold := if |term| / 4 < 1 then 1 else |term| / 4;
    var windowSize := |term| + threshold;
    var i := 0;
    while i <= |text| - |term|
      invariant i == 0 || i <= |text| - |term| + 1
      invariant forall k :: 0 <= k < i ==> !WindowMatches(text, term, k)
      decreases |text| - i
    {
      var window := text[i..if i + windowSize < |text| then i + windowSize else |text|];
      var d := LevenshteinDistance(window, term);
      if d <= threshold {
        assert WindowMatches(text, term, i);
        return true;
      }
      i := i + 1;
    }
    return false;
  }

  /** A term that occurs verbatim in the text is always recognised. */
  lemma OccurrenceMatches(text: string, term: string, i: nat)
    requires HasPrefixAt(text, i, term)
    ensures FuzzyMatches(text, term)
  {
    var e := WindowEnd(text, term, i);
    var w := text[i..e];
    assert w[..|term|] == term;
    DistanceFromExtension(w, term);
    assert WindowMatches(text, term, i);
  }

  /** The same, for `String.contains`. */
  lemma ContainedTermMatches(text: string, term: string)
    requires Contains(text, term)
    ensures FuzzyMatches(text, term)
  {
    var i := ContainsWitness(text, term);
    OccurrenceMatches(text, term, i);
  }

  /** The empty term is within one edit of the first window of any text. */
  lemma EmptyTermMatches(text: string)
    ensures FuzzyMatches(text, [])
  {
    var w := text[0..WindowEnd(text, [], 0)];
    DistanceBounds(w, []);
    assert WindowMatches(text, [], 0);
  }

  // ---------------------------------------------------------------------
  // Category table and classification
  // ---------------------------------------------------------------------

  function MarketPerformance(): seq<string> {
    ["股价", "市值", "涨幅", "跌幅", "波动", "行情", "指数", "大盘", "牛市", "熊市"]
  }

  function FinancialMetrics(): seq<string> {
    ["营收", "利润", "净利", "毛利", "收入", "成本", "费用", "资产", "负债", "现金流",
     "ROE", "ROA", "EPS", "PE", "PB", "市盈率", "市净率", "资产负债率"]
  }

  function CompanyOperation(): seq<string> {
    ["销售", "产能", "产量", "库存", "研发", "投资", "并购", "重组", "扩张", "收缩",
     "转型", "升级", "创新", "效率", "产业链", "供应链"]
  }

  function MacroEconomy(): seq<string> {
    ["GDP", "CPI", "PPI", "PMI", "利率", "汇率", "通胀", "通缩", "货币政策", "财政政策",
     "经济增长", "经济衰退", "经济复苏", "贸易战", "贸易摩擦"]
  }

  function PolicyRegulation(): seq<string> {
    ["政策", "监管", "法规", "条例", "规定", "措施", "整改", "处罚", "合规", "违规",
     "审批", "备案", "许可", "禁止", "限制", "准入", "退出", "监督"]
  }

  /** `FINANCIAL_CATEGORIES`: the five categories and the terms each lists. */
  function FinancialCategories(): map<string, seq<string>> {
    map["MARKET_PERFORMANCE" := MarketPerformance(),
        "FINANCIAL_METRICS" := FinancialMetrics(),
        "COMPANY_OPERATION" := CompanyOperation(),
        "MACRO_ECONOMY" := MacroEconomy(),
        "POLICY_REGULATION" := PolicyRegulation()]
  }

  /** No term of `a` is also a term of `b`. */
  predicate Disjoint(a: seq<string>, b: seq<string>) {
    forall t :: t in a ==> t !in b
  }

  /** No term is listed under two categories of `categories`. */
  ghost predicate PairwiseDisjoint(categories: map<string, seq<string>>) {
    forall c, d :: c in categories && d in categories && c != d ==> Disjoint(categories[c], categories[d])
  }

  /** The first and last character of a term: two terms that differ in either are different terms. */
  function EndChars(t: string): (char, char) {
    if t == [] then (' ', ' ') else (t[0], t[|t| - 1])
  }

  lemma EndCharsDisjoint(a: seq<string>, b: seq<string>)
    requires forall i, j :: 0 <= i < |a| && 0 <= j < |b| ==> EndChars(a[i]) != EndChars(b[j])
    ensures Disjoint(a, b) && Disjoint(b, a)
  {
    forall t | t in a
      ensures t !in b
    {
      var i :| 0 <= i < |a| && a[i] == t;
      forall j | 0 <= j < |b|
        ensures b[j] != t
      {
        assert EndChars(a[i]) != EndChars(b[j]);
      }
    }
  }

  lemma MarketMetricsDisjoint()
    ensures Disjoint(MarketPerformance(), FinancialMetrics()) && Disjoint(FinancialMetrics(), MarketPerformance())
  {
    EndCharsDisjoint(MarketPerformance(), FinancialMetrics());
  }

  lemma MarketOperationDisjoint()
    ensures Disjoint(MarketPerformance(), CompanyOperation()) && Disjoint(CompanyOperation(), MarketPerformance())
  {
    EndCharsDisjoint(MarketPerformance(), CompanyOperation());
  }

  lemma MarketMacroDisjoint()
    ensures Disjoint(MarketPerformance(), MacroEconomy()) && Disjoint(MacroEconomy(), MarketPerformance())
  {
    EndCharsDisjoint(MarketPerformance(), MacroEconomy());
  }

  lemma MarketPolicyDisjoint()
    ensures Disjoint(MarketPerformance(), PolicyRegulation()) && Disjoint(PolicyRegulation(), MarketPerformance())
  {
    EndCharsDisjoint(MarketPerformance(), PolicyRegulation());
  }

  lemma MetricsOperationDisjoint()
    ensures Disjoint(FinancialMetrics(), CompanyOperation()) && Disjoint(CompanyOperation(), FinancialMetrics())
  {
    EndCharsDisjoint(FinancialMetrics(), CompanyOperation());
  }

  lemma MetricsMacroDisjoint()
    ensures Disjoint(FinancialMetrics(), MacroEconomy()) && Disjoint(MacroEconomy(), FinancialMetrics())
  {
    EndCharsDisjoint(FinancialMetrics(), MacroEconomy());
  }

  lemma MetricsPolicyDisjoint()
    ensures Disjoint(FinancialMetrics(), PolicyRegulation()) && Disjoint(PolicyRegulation(), FinancialMetrics())
  {
    EndCharsDisjoint(FinancialMetrics(), PolicyRegulation());
  }

  lemma OperationMacroDisjoint()
    ensures Disjoint(CompanyOperation(), MacroEconomy()) && Disjoint(MacroEconomy(), CompanyOperation())
  {
    EndCharsDisjoint(CompanyOperation(), MacroEconomy());
  }

  lemma OperationPolicyDisjoint()
    ensures Disjoint(CompanyOperation(), PolicyRegulation()) && Disjoint(PolicyRegulation(), CompanyOperation())
  {
    EndCharsDisjoint(CompanyOperation(), PolicyRegulation());
  }

  lemma MacroPolicyDisjoint()
    ensures Disjoint(MacroEconomy(), PolicyRegulation()) && Disjoint(PolicyRegulation(), MacroEconomy())
  {
    EndCharsDisjoint(MacroEconomy(), PolicyRegulation());
  }

  /** Adding a category whose list is disjoint from every other keeps the table pairwise disjoint. */
  lemma DisjointPut(categories: map<string, seq<string>>, c: string, list: seq<string>)
    requires PairwiseDisjoint(categories) && c !in categories
    requires forall d :: d in categories ==> Disjoint(list, categories[d]) && Disjoint(categories[d], list)
    ensures PairwiseDisjoint(categories[c := list])
  {
  }

  /** The five lists of the table are pairwise disjoint, so a term belongs to at most one category. */
  lemma CategoriesDisjoint()
    ensures PairwiseDisjoint(FinancialCategories())
  {
    var m1 := map["MARKET_PERFORMANCE" := MarketPerformance()];
    MarketMetricsDisjoint();
    DisjointPut(m1, "FINANCIAL_METRICS", FinancialMetrics());
    var m2 := m1["FINANCIAL_METRICS" := FinancialMetrics()];
    MarketOperationDisjoint();
    MetricsOperationDisjoint();
    DisjointPut(m2, "COMPANY_OPERATION", CompanyOperation());
    var m3 := m2["COMPANY_OPERATION" := CompanyOperation()];
    MarketMacroDisjoint();
    MetricsMacroDisjoint();
    OperationMacroDisjoint();
    DisjointPut(m3, "MACRO_ECONOMY", MacroEconomy());
    var m4 := m3["MACRO_ECONOMY" := MacroEconomy()];
    MarketPolicyDisjoint();
    MetricsPolicyDisjoint();
    OperationPolicyDisjoint();
    MacroPolicyDisjoint();
    DisjointPut(m4, "POLICY_REGULATION", PolicyRegulation());
    assert m4["POLICY_REGULATION" := PolicyRegulation()] == FinancialCategories();
  }

  /** The terms of `terms` that `list` names, in input order and with repetitions. */
  function Listed(terms: seq<string>, list: seq<string>): seq<string> {
    if terms == [] then []
    else Listed(terms[..|terms| - 1], list) + (if terms[|terms| - 1] in list then [terms[|terms| - 1]] else [])
  }

  lemma ListedSnoc(terms: seq<string>, n: nat, list: seq<string>)
    requires n < |terms|
    ensures Listed(terms[..n + 1], list) == Listed(terms[..n], list) + (if terms[n] in list then [terms[n]] else [])
  {
    assert terms[..n + 1][..n] == terms[..n];
  }

  /** A term is listed exactly when it is an input term named by the list. */
  lemma {:induction false} ListedMembers(terms: seq<string>, list: seq<string>)
    ensures forall t :: t in Listed(terms, list) <==> t in terms && t in list
  {
    if terms != [] {
      var init := terms[..|terms| - 1];
      ListedMembers(init, list);
      assert terms == init + [terms[|terms| - 1]];
    }
  }

  /** Every category of the table, with the input terms it lists. */
  function ClassifiedBy(categories: map<string, seq<string>>, terms: seq<string>): map<string, seq<string>> {
    map c | c in categories :: Listed(terms, categories[c])
  }

  /** What `classifyFinancialTerms` returns. */
  function Classified(terms: seq<string>): map<string, seq<string>> {
    ClassifiedBy(FinancialCategories(), terms)
  }

  /**
   * Over disjoint categories, an input term lands in the one category that
   * lists it and in no other; a term no category lists lands nowhere.
   */
  lemma ClassifiedOnce(categories: map<string, seq<string>>, terms: seq<string>, t: string)
    requires PairwiseDisjoint(categories)
    ensures forall c :: c in ClassifiedBy(categories, terms) ==>
      (t in ClassifiedBy(categories, terms)[c] <==> t in terms && t in categories[c])
    ensures forall c, d ::
      (c in ClassifiedBy(categories, terms) && d in ClassifiedBy(categories, terms) &&
       t in ClassifiedBy(categories, terms)[c] && t in ClassifiedBy(categories, terms)[d]) ==> c == d
  {
    forall c | c in categories
      ensures t in ClassifiedBy(categories, terms)[c] <==> t in terms && t in categories[c]
    {
      ListedMembers(terms, categories[c]);
    }
  }

  /** `股价` is a market-performance term and `苹果` no term at all: only the first survives. */
  lemma ClassifyExample()
    ensures Classified(["股价", "苹果"])["MARKET_PERFORMANCE"] == ["股价"]
  {
    var terms := ["股价", "苹果"];
    var market := MarketPerformance();
    assert FinancialCategories()["MARKET_PERFORMANCE"] == market;
    assert terms[..1] == ["股价"] && terms[..2] == terms;
    assert Listed(terms[..1], market) == ["股价"];
    assert "苹果" !in market;
    ListedSnoc(terms, 1, market);
  }

  /** The category whose list names `term`, found by scanning the table in an unspecified order. */
  method FindCategory(categories: map<string, seq<string>>, term: string) returns (category: Option<string>)
    ensures category.Some? ==> category.value in categories && term in categories[category.value]
    ensures category.None? ==> forall c :: c in categories ==> term !in categories[c]
  {
    var remaining := categories.Keys;
    while remaining != {}
      invariant remaining <= categories.Keys
      invariant forall c :: c in categories && c !in remaining ==> term !in categories[c]
      decreases |remaining|
    {
      var c :| c in remaining;
      if term in categories[c] {
        return Some(c);
      }
      remaining := remaining - {c};
    }
    return None;
  }

  /** A category table whose every list holds the input terms, up to `n`, that the table lists under it. */
  ghost predicate ClassifiedUpTo(categories: map<string, seq<string>>, terms: seq<string>, n: nat, categorized: map<string, seq<string>>)
    requires n <= |terms|
  {
    categorized.Keys == categories.Keys &&
    forall c :: c in categorized ==> categorized[c] == Listed(terms[..n], categories[c])
  }

  /** Appending term `n` to the category found for it extends the classification by that term. */
  lemma ClassifyStep(categories: map<string, seq<string>>, terms: seq<string>, n: nat,
                     categorized: map<string, seq<string>>, category: Option<string>)
    requires PairwiseDisjoint(categories) && n < |terms| && ClassifiedUpTo(categories, terms, n, categorized)
    requires category.Some? ==> category.value in categories && terms[n] in categories[category.value]
    requires category.None? ==> forall c :: c in categories ==> terms[n] !in categories[c]
    ensures ClassifiedUpTo(categories, terms, n + 1,
      if category.Some? then categorized[category.value := categorized[category.value] + [terms[n]]] else categorized)
  {
    var after := if category.Some? then categorized[category.value := categorized[category.value] + [terms[n]]] else categorized;
    forall d | d in categories
      ensures after[d] == Listed(terms[..n + 1], categories[d])
    {
      ListedSnoc(terms, n, categories[d]);
      if category.Some? && category.value != d {
        assert Disjoint(categories[category.value], categories[d]);
      }
    }
  }

  /** The first loop of `classifyFinancialTerms`: an empty list for every category. */
  method EmptyCategories(categories: map<string, seq<string>>) returns (categorized: map<string, seq<string>>)
    ensures categorized.Keys == categories.Keys
    ensures forall c :: c in categorized ==> categorized[c] == []
  {
    categorized := map[];
    var keys := categories.Keys;
    while keys != {}
      invariant keys <= categories.Keys
      invariant categorized.Keys == categories.Keys - keys
      invariant forall c :: c in categorized ==> categorized[c] == []
      decreases |keys|
    {
      var c :| c in keys;
      categorized := categorized[c := []];
      keys := keys - {c};
    }
  }

  /** The loops of `classifyFinancialTerms`, over a category table whose lists are disjoint. */
  method ClassifyTerms(categories: map<string, seq<string>>, terms: seq<string>) returns (categorized: map<string, seq<string>>)
    requires PairwiseDisjoint(categories)
    ensures categorized == ClassifiedBy(categories, terms)
  {
    categorized := EmptyCategories(categories);
    for n := 0 to |terms|
      invariant ClassifiedUpTo(categories, terms, n, categorized)
    {
      var term := terms[n];
      var category := FindCategory(categories, term);
      ClassifyStep(categories, terms, n, categorized, category);
      if category.Some? {
        var c := category.value;
        categorized := categorized[c := categorized[c] + [term]];
      }
    }
    assert terms[..|terms|] == terms;
  }

  // ---------------------------------------------------------------------
  // Dictionary lines
  // ---------------------------------------------------------------------

  /**
   * One line of the dictionary file: after trimming, empty lines, `#`
   * comments and lines without a tab are skipped; otherwise the line is split
   * at its first tab into a trimmed term and a trimmed explanation.
   */
  function ParseLine(line: string): Option<(string, string)> {
    var l := Trim(line);
    if l == [] || l[0] == '#' then None
    else
      var i := IndexOf(l, '\t');
      if i < 0 then None else Some((Trim(l[..i]), Trim(l[i + 1..])))
  }

  /** Every character of a trimmed string occurs in the string. */
  lemma TrimSubset(s: string, c: char)
    requires c in Trim(s)
    ensures c in s
  {
    TrimSpec(s);
    var i :| 0 <= i <= |s| - |Trim(s)| && Trim(s) == s[i..i + |Trim(s)|] && AllBlank(s[..i]) && AllBlank(s[i + |Trim(s)|..]);
    var k :| 0 <= k < |Trim(s)| && Trim(s)[k] == c;
    assert s[i + k] == c;
  }

  /**
   * Which lines are skipped, and that an accepted line gives a non-empty
   * term without tabs and a non-empty explanation, neither with blanks around it.
   */
  lemma ParseLineSpec(line: string)
    ensures ParseLine(line).None? <==> Trim(line) == [] || Trim(line)[0] == '#' || '\t' !in Trim(line)
    ensures ParseLine(line).Some? ==>
      var (term, explanation) := ParseLine(line).value;
      term != [] && explanation != [] && '\t' !in term &&
      Trim(term) == term && Trim(explanation) == explanation
  {
    var l := Trim(line);
    TrimSpec(line);
    if l != [] && l[0] != '#' && '\t' in l {
      var i := IndexOf(l, '\t');
      assert 0 < i < |l| - 1 by {
        assert IsBlank(l[i]);
      }
      var before, after := l[..i], l[i + 1..];
      TrimSpec(before);
      TrimSpec(after);
      assert !IsBlank(before[0]);
      assert !IsBlank(after[|after| - 1]);
      if '\t' in Trim(before) {
        TrimSubset(before, '\t');
      }
      TrimIdempotent(before);
      TrimIdempotent(after);
    }
  }

  /** The term map after `put`ting every accepted line of `lines`, in order, into `terms`. */
  function LoadLines(terms: map<string, string>, lines: seq<string>): map<string, string> {
    if lines == [] then terms
    else
      var loaded := LoadLines(terms, lines[..|lines| - 1]);
      match ParseLine(lines[|lines| - 1])
      case None => loaded
      case Some((term, explanation)) => loaded[term := explanation]
  }

  /** Every term and every explanation of the map is non-empty. */
  ghost predicate NonEmptyEntries(terms: map<string, string>) {
    forall term :: term in terms ==> term != [] && terms[term] != []
  }

  /** Loading lines into a map of non-empty entries only adds non-empty entries. */
  lemma {:induction false} LoadLinesNonEmpty(terms: map<string, string>, lines: seq<string>)
    requires NonEmptyEntries(terms)
    ensures NonEmptyEntries(LoadLines(terms, lines))
  {
    if lines != [] {
      LoadLinesNonEmpty(terms, lines[..|lines| - 1]);
      ParseLineSpec(lines[|lines| - 1]);
    }
  }

  /** The last accepted line for a term decides its explanation: a later duplicate overwrites an earlier one. */
  lemma {:induction false} LoadLinesLastWins(terms: map<string, string>, lines: seq<string>, j: nat)
    requires j < |lines| && ParseLine(lines[j]).Some?
    requires forall k :: j < k < |lines| && ParseLine(lines[k]).Some? ==> ParseLine(lines[k]).value.0 != ParseLine(lines[j]).value.0
    ensures ParseLine(lines[j]).value.0 in LoadLines(terms, lines)
    ensures LoadLines(terms, lines)[ParseLine(lines[j]).value.0] == ParseLine(lines[j]).value.1
  {
    var init := lines[..|lines| - 1];
    if j < |lines| - 1 {
      forall k | j < k < |init| && ParseLine(init[k]).Some?
        ensures ParseLine(init[k]).value.0 != ParseLine(init[j]).value.0
      {
        assert init[k] == lines[k];
      }
      LoadLinesLastWins(terms, init, j);
    }
  }

  // ---------------------------------------------------------------------
  // The adapter
  // ---------------------------------------------------------------------

  class FinancialDomainAdapter {
    /** The dictionary: each financial term with its explanation. */
    var financialTerms: map<string, string>

    ghost predicate Valid()
      reads this`financialTerms
    {
      NonEmptyEntries(financialTerms)
    }

    /**
     * The dictionary lines the constructor reads, or `None` when no
     * dictionary file is found; opening and reading the file is not modelled.
     */
    constructor (dictionary: Option<seq<string>>)
      ensures financialTerms == if dictionary.Some? then LoadLines(map[], dictionary.value) else map[]
      ensures Valid()
    {
      financialTerms := map[];
      new;
      if dictionary.Some? {
        LoadDictionaryFromLines(dictionary.value);
      }
    }

    /** `loadDictionaryFromReader`: put the term and explanation of every accepted line. */
    method LoadDictionaryFromLines(lines: seq<string>)
      modifies this`financialTerms
      ensures financialTerms == LoadLines(old(financialTerms), lines)
      ensures old(Valid()) ==> Valid()
    {
      ghost var start := financialTerms;
      for n := 0 to |lines|
        invariant financialTerms == LoadLines(start, lines[..n])
      {
        assert lines[..n + 1][..n] == lines[..n];
        var entry := ParseLine(lines[n]);
        if entry.Some? {
          financialTerms := financialTerms[entry.value.0 := entry.value.1];
        }
      }
      assert lines[..|lines|] == lines;
      if NonEmptyEntries(start) {
        LoadLinesNonEmpty(start, lines);
      }
    }

    /**
     * `processFinancialTerms`: the dictionary entries whose term fuzzily
     * matches the text, each with its own explanation; every term that
     * occurs verbatim is among them. The dictionary holds no empty term
     * (`Valid`), so the empty term, which would match any text, never occurs.
     */
    method ProcessFinancialTerms(text: string) returns (recognized: map<string, string>)
      requires Valid()
      ensures recognized.Keys <= financialTerms.Keys
      ensures forall term :: term in recognized ==> recognized[term] == financialTerms[term]
      ensures forall term :: term in financialTerms ==> (term in recognized <==> FuzzyMatches(text, term))
      ensures forall term :: term in financialTerms && Contains(text, term) ==> term in recognized
      ensures NonEmptyEntries(recognized)
    {
      recognized := map[];
      var remaining := financialTerms.Keys;
      while remaining != {}
        invariant remaining <= financialTerms.Keys
        invariant recognized.Keys <= financialTerms.Keys - remaining
        invariant forall term :: term in recognized ==> recognized[term] == financialTerms[term]
        invariant forall term :: term in financialTerms && term !in remaining ==> (term in recognized <==> FuzzyMatches(text, term))
        decreases |remaining|
      {
        var term :| term in remaining;
        var explanation := financialTerms[term];
        var matched := FuzzyMatch(text, term);
        if matched {
          recognized := recognized[term := explanation];
        }
        remaining := remaining - {term};
      }
      forall term | term in financialTerms && Contains(text, term)
        ensures term in recognized
      {
        ContainedTermMatches(text, term);
      }
    }

    /** `classifyFinancialTerms`: one list per category, each term appended to the category that lists it. */
    method ClassifyFinancialTerms(terms: seq<string>) returns (categorized: map<string, seq<string>>)
      ensures categorized == Classified(terms)
    {
      CategoriesDisjoint();
      categorized := ClassifyTerms(FinancialCategories(), terms);
    }

    /** `adapt`: no triples gives an empty list; otherwise the same triples, in order and unchanged. */
    method Adapt(causalTriples: Option<seq<CausalTriple>>) returns (adaptedTriples: seq<CausalTriple>)
      ensures causalTriples.None? ==> adaptedTriples == []
      ensures causalTriples.Some? ==> adaptedTriples == causalTriples.value
    {
      if causalTriples.None? || causalTriples.value == [] {
        return [];
      }
      var triples := causalTriples.value;
      adaptedTriples := [];
      for i := 0 to |triples|
        invariant adaptedTriples == triples[..i]
      {
        adaptedTriples := adaptedTriples + [triples[i]];
      }
    }
  }
}
