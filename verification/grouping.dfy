/** Grouping of questionnaire answers by category, as both the edit view and the review view do
    it: the category list is `Array.from(new Set(answers.map(a => a.category || 'Geral')))` and
    each category's section is `answers.filter(a => (a.category || 'Geral') === category)`. */
module Grouping {
  import opened Wrappers
  import opened Seqs
  import opened ReportTypes

  /** The section an answer without a category (or with an empty one) falls into. */
  const DefaultCategory: string := "Geral"

  /** `a.category || 'Geral'`: a present, non-empty category names its own section; a missing
      or empty one falls into 'Geral'. */
  function CategoryOf(qa: QuestionAnswer): (r: string)
    ensures r != ""
    ensures r == DefaultCategory || qa.category == Some(r)
    ensures qa.category.Some? && qa.category.value != "" ==> r == qa.category.value
    ensures qa.category.None? || qa.category.value == "" ==> r == DefaultCategory
  {
    if Truthy(qa.category) then qa.category.value else DefaultCategory
  }

  /** `answers.map(a => a.category || 'Geral')`. */
  function CategoryNames(xs: seq<QuestionAnswer>): (r: seq<string>)
    ensures |r| == |xs|
    ensures forall i :: 0 <= i < |xs| ==> r[i] == CategoryOf(xs[i])
  {
    seq(|xs|, i requires 0 <= i < |xs| => CategoryOf(xs[i]))
  }

  /** The section names, distinct and in first-seen order. */
  function Categories(xs: seq<QuestionAnswer>): (r: seq<string>)
    ensures NoDup(r) && |r| <= |xs|
    ensures forall i :: 0 <= i < |xs| ==> CategoryOf(xs[i]) in r
    ensures forall c :: c in r ==> exists i :: 0 <= i < |xs| && CategoryOf(xs[i]) == c
  {
    var names := CategoryNames(xs);
    assert forall i :: 0 <= i < |xs| ==> names[i] in names;
    Distinct(names)
  }

  /** The predicate of a section's filter. */
  function InCategory(c: string): QuestionAnswer -> bool {
    (qa: QuestionAnswer) => CategoryOf(qa) == c
  }

  /** The answers listed under section `c`. */
  function Section(xs: seq<QuestionAnswer>, c: string): (r: seq<QuestionAnswer>)
    ensures |r| <= |xs|
    ensures forall qa :: qa in r <==> qa in xs && CategoryOf(qa) == c
  {
    Filter(xs, InCategory(c))
  }

  /** One rendered section: its heading and its answers. */
  datatype Group = Group(name: string, answers: seq<QuestionAnswer>)

  function SectionsFor(xs: seq<QuestionAnswer>, cs: seq<string>): (r: seq<Group>)
    ensures |r| == |cs|
    ensures forall k :: 0 <= k < |cs| ==> r[k] == Group(cs[k], Section(xs, cs[k]))
  {
    if |cs| == 0 then [] else [Group(cs[0], Section(xs, cs[0]))] + SectionsFor(xs, cs[1..])
  }

  /** The sections a view renders, one per category, in category order. */
  function Sections(xs: seq<QuestionAnswer>): (r: seq<Group>)
    ensures |r| == |Categories(xs)|
    ensures forall k :: 0 <= k < |r| ==>
              && r[k].name == Categories(xs)[k]
              && forall qa :: qa in r[k].answers <==> qa in xs && CategoryOf(qa) == r[k].name
  {
    SectionsFor(xs, Categories(xs))
  }

  /** All sections' answers, read top to bottom. */
  function Flatten(gs: seq<Group>): seq<QuestionAnswer> {
    if |gs| == 0 then [] else gs[0].answers + Flatten(gs[1..])
  }

  /** Membership in one of a set of categories. */
  function InCategories(cs: set<string>): QuestionAnswer -> bool {
    (qa: QuestionAnswer) => CategoryOf(qa) in cs
  }

  /** The categories are the category values present in the answers (with 'Geral' for a missing or
      empty one), each listed once, in the order of their first occurrence. */
  lemma CategoriesFirstSeen(xs: seq<QuestionAnswer>)
    ensures NoDup(Categories(xs))
    ensures forall c :: c in Categories(xs) <==> exists qa :: qa in xs && CategoryOf(qa) == c
    ensures forall i, j :: 0 <= i < j < |Categories(xs)| ==>
              FirstIndex(CategoryNames(xs), Categories(xs)[i]) < FirstIndex(CategoryNames(xs), Categories(xs)[j])
  {
    var names := CategoryNames(xs);
    DistinctFirstSeen(names);
    forall c ensures c in Categories(xs) <==> exists qa :: qa in xs && CategoryOf(qa) == c {
      if c in names {
        var i :| 0 <= i < |names| && names[i] == c;
        assert xs[i] in xs;
      }
      if exists qa :: qa in xs && CategoryOf(qa) == c {
        var qa :| qa in xs && CategoryOf(qa) == c;
        var i :| 0 <= i < |xs| && xs[i] == qa;
        assert names[i] == c;
      }
    }
  }

  /** A section holds exactly the answers of its category. */
  lemma SectionMembers(xs: seq<QuestionAnswer>, c: string)
    ensures forall qa :: qa in Section(xs, c) <==> qa in xs && CategoryOf(qa) == c
  {
  }

  /** Sections keep the relative order of the answers. */
  lemma SectionKeepsOrder(a: seq<QuestionAnswer>, b: seq<QuestionAnswer>, c: string)
    ensures Section(a + b, c) == Section(a, c) + Section(b, c)
  {
    FilterAppend(a, b, InCategory(c));
  }

  /** Every answer belongs to exactly one section: the one named after its category, which
      appears once in the list. */
  lemma ExactlyOneSection(xs: seq<QuestionAnswer>, qa: QuestionAnswer)
    requires qa in xs
    ensures exists k :: 0 <= k < |Sections(xs)| && qa in Sections(xs)[k].answers
    ensures forall k, l ::
              (0 <= k < |Sections(xs)| && 0 <= l < |Sections(xs)| &&
               qa in Sections(xs)[k].answers && qa in Sections(xs)[l].answers) ==> k == l
  {
    CategoriesFirstSeen(xs);
    var cats := Categories(xs);
    var gs := Sections(xs);
    assert CategoryOf(qa) in cats;
    var k :| 0 <= k < |cats| && cats[k] == CategoryOf(qa);
    assert qa in gs[k].answers;
  }

  /** No section is empty: each category comes from some answer. */
  lemma SectionsNonEmpty(xs: seq<QuestionAnswer>)
    ensures forall k :: 0 <= k < |Sections(xs)| ==> |Sections(xs)[k].answers| > 0
  {
    CategoriesFirstSeen(xs);
    var cats := Categories(xs);
    forall k | 0 <= k < |cats| ensures |Sections(xs)[k].answers| > 0 {
      assert cats[k] in cats;
      var qa :| qa in xs && CategoryOf(qa) == cats[k];
      assert qa in Section(xs, cats[k]);
    }
  }

  lemma {:induction false} SplitByCategory(xs: seq<QuestionAnswer>, c: string, rest: set<string>)
    requires c !in rest
    ensures multiset(Filter(xs, InCategories({c} + rest))) ==
              multiset(Section(xs, c)) + multiset(Filter(xs, InCategories(rest)))
  {
    if |xs| > 0 {
      SplitByCategory(xs[1..], c, rest);
      var x, all, one, others := xs[0], InCategories({c} + rest), InCategory(c), InCategories(rest);
      FilterCons(xs, all);
      FilterCons(xs, one);
      FilterCons(xs, others);
      assert all(x) <==> one(x) || others(x);
      assert !(one(x) && others(x));
      MultisetSplitStep(x, all(x), one(x), others(x), Filter(xs[1..], all), Section(xs[1..], c), Filter(xs[1..], others));
    }
  }

  /** Putting one answer in front of a split keeps the split when it goes to exactly the parts its
      category belongs to. */
  lemma MultisetSplitStep(x: QuestionAnswer, a: bool, b: bool, c: bool,
                          whole: seq<QuestionAnswer>, left: seq<QuestionAnswer>, right: seq<QuestionAnswer>)
    requires multiset(whole) == multiset(left) + multiset(right)
    requires (a <==> b || c) && !(b && c)
    ensures multiset((if a then [x] else []) + whole) ==
            multiset((if b then [x] else []) + left) + multiset((if c then [x] else []) + right)
  {
  }

  lemma {:induction false} FlattenSectionsFor(xs: seq<QuestionAnswer>, cs: seq<string>)
    requires NoDup(cs)
    ensures multiset(Flatten(SectionsFor(xs, cs))) == multiset(Filter(xs, InCategories(set c | c in cs)))
  {
    if |cs| == 0 {
      assert (set c | c in cs) == {};
      FilterDropsAll(xs, InCategories({}));
      assert SectionsFor(xs, cs) == [];
    } else {
      var rest := cs[1..];
      assert NoDup(rest);
      FlattenSectionsFor(xs, rest);
      assert SectionsFor(xs, cs)[1..] == SectionsFor(xs, rest);
      assert (set c | c in cs) == {cs[0]} + (set c | c in rest);
      SplitByCategory(xs, cs[0], set c | c in rest);
    }
  }

  /** The sections partition the answers: read top to bottom they hold every answer exactly as
      often as the list does, so the section sizes add up to the number of answers. */
  lemma SectionsPartition(xs: seq<QuestionAnswer>)
    ensures multiset(Flatten(Sections(xs))) == multiset(xs)
    ensures |Flatten(Sections(xs))| == |xs|
  {
    CategoriesFirstSeen(xs);
    var cats := Categories(xs);
    FlattenSectionsFor(xs, cats);
    forall i | 0 <= i < |xs| ensures InCategories(set c | c in cats)(xs[i]) {
      assert xs[i] in xs;
    }
    FilterKeepsAll(xs, InCategories(set c | c in cats));
    assert |multiset(Flatten(Sections(xs)))| == |multiset(xs)|;
  }

  /** Everything a view relies on about its sections, for any list of answers. */
  lemma GroupingOf(xs: seq<QuestionAnswer>)
    ensures var gs := Sections(xs);
      && |gs| == |Categories(xs)|
      && NoDup(Categories(xs))
      && (forall c :: c in Categories(xs) <==> exists qa :: qa in xs && CategoryOf(qa) == c)
      && (forall i, j :: 0 <= i < j < |gs| ==>
            FirstIndex(CategoryNames(xs), gs[i].name) < FirstIndex(CategoryNames(xs), gs[j].name))
      && (forall k :: 0 <= k < |gs| ==>
            && gs[k].name == Categories(xs)[k]
            && |gs[k].answers| > 0
            && forall qa :: qa in gs[k].answers <==> qa in xs && CategoryOf(qa) == gs[k].name)
      && multiset(Flatten(gs)) == multiset(xs)
      && |Flatten(gs)| == |xs|
  {
    CategoriesFirstSeen(xs);
    SectionsNonEmpty(xs);
    SectionsPartition(xs);
  }

  /** An answer with a present, non-empty category is shown in the section headed by that very
      category, and in no other. */
  lemma OwnCategorySection(xs: seq<QuestionAnswer>, qa: QuestionAnswer)
    requires qa in xs && qa.category.Some? && qa.category.value != ""
    ensures exists k :: 0 <= k < |Sections(xs)| && Sections(xs)[k].name == qa.category.value
    ensures forall k :: 0 <= k < |Sections(xs)| ==>
              (qa in Sections(xs)[k].answers <==> Sections(xs)[k].name == qa.category.value)
  {
    var c := qa.category.value;
    var cats := Categories(xs);
    var k :| 0 <= k < |xs| && xs[k] == qa;
    assert CategoryOf(xs[k]) in cats;
    var j :| 0 <= j < |cats| && cats[j] == c;
    assert Sections(xs)[j].name == c;
  }
}
