/** The review step: the consolidated answers (`getAllAnswers()`) grouped by category. */
module ReviewView {
  import opened Wrappers
  import opened Seqs
  import opened ReportTypes
  import opened Grouping
  import Workflow

  /** The review view's sections for the current session. */
  function ReviewSections(wf: Workflow.State): seq<Group> {
    Sections(Workflow.GetAllAnswers(wf))
  }

  /** The review sections are named after the categories present in the consolidated answers
      ('Geral' for a missing or empty one), each once, in first-seen order; none is empty; each
      lists exactly the answers of its category; and together they partition the answers, so their
      sizes add up to the number of answers. */
  lemma ReviewSectionsPartition(wf: Workflow.State)
    ensures var all := Workflow.GetAllAnswers(wf); var gs := ReviewSections(wf);
      && |gs| == |Categories(all)|
      && NoDup(Categories(all))
      && (forall c :: c in Categories(all) <==> exists qa :: qa in all && CategoryOf(qa) == c)
      && (forall i, j :: 0 <= i < j < |gs| ==>
            FirstIndex(CategoryNames(all), gs[i].name) < FirstIndex(CategoryNames(all), gs[j].name))
      && (forall k :: 0 <= k < |gs| ==>
            && gs[k].name == Categories(all)[k]
            && |gs[k].answers| > 0
            && forall qa :: qa in gs[k].answers <==> qa in all && CategoryOf(qa) == gs[k].name)
      && multiset(Flatten(gs)) == multiset(all)
      && |Flatten(gs)| == |all|
  {
    GroupingOf(Workflow.GetAllAnswers(wf));
  }

  /** Within a review section the edited answers come first, then the synthesised ones, each in
      their own order. */
  lemma ReviewSectionOrder(wf: Workflow.State, c: string)
    ensures Section(Workflow.GetAllAnswers(wf), c) == Section(wf.editedAnswers, c) + Section(wf.additionalAnswers, c)
  {
    SectionKeepsOrder(wf.editedAnswers, wf.additionalAnswers, c);
  }

  /** Three answers, two without a category and one under "Histórico", make two sections: 'Geral'
      with two answers, then "Histórico" with one. */
  lemma TwoSectionScenario(a: QuestionAnswer, b: QuestionAnswer, c: QuestionAnswer)
    requires a.category == None && b.category == Some("Histórico") && c.category == Some("")
    ensures Categories([a, b, c]) == ["Geral", "Histórico"]
    ensures |Sections([a, b, c])| == 2
    ensures Sections([a, b, c])[0].answers == [a, c]
    ensures Sections([a, b, c])[1].answers == [b]
  {
    ScenarioCategories(a, b, c);
    ScenarioSections(a, b, c);
  }

  lemma ScenarioCategories(a: QuestionAnswer, b: QuestionAnswer, c: QuestionAnswer)
    requires a.category == None && b.category == Some("Histórico") && c.category == Some("")
    ensures Categories([a, b, c]) == ["Geral", "Histórico"]
  {
    var xs := [a, b, c];
    assert CategoryNames(xs) == ["Geral", "Histórico", "Geral"];
    assert CategoryNames(xs)[..2] == ["Geral", "Histórico"];
    assert CategoryNames(xs)[..1] == ["Geral"];
    assert CategoryNames(xs)[..0] == [];
    assert "Geral" != "Histórico" by { assert "Geral"[0] != "Histórico"[0]; }
    assert Distinct(CategoryNames(xs)[..2]) == ["Geral", "Histórico"];
  }

  lemma ScenarioSections(a: QuestionAnswer, b: QuestionAnswer, c: QuestionAnswer)
    requires a.category == None && b.category == Some("Histórico") && c.category == Some("")
    ensures Section([a, b, c], "Geral") == [a, c]
    ensures Section([a, b, c], "Histórico") == [b]
  {
    assert "Geral" != "Histórico" by { assert "Geral"[0] != "Histórico"[0]; }
    assert [a, b, c][1..] == [b, c] && [b, c][1..] == [c] && [c][1..] == [];
    ScenarioSection(a, b, c, "Geral", true, false, true);
    ScenarioSection(a, b, c, "Histórico", false, true, false);
  }

  /** The section of `k` over three answers, given which of them fall under `k`. */
  lemma ScenarioSection(a: QuestionAnswer, b: QuestionAnswer, c: QuestionAnswer, k: string, ina: bool, inb: bool, inc: bool)
    requires (CategoryOf(a) == k) == ina && (CategoryOf(b) == k) == inb && (CategoryOf(c) == k) == inc
    ensures Section([a, b, c], k) == (if ina then [a] else []) + (if inb then [b] else []) + (if inc then [c] else [])
  {
    var p := InCategory(k);
    FilterCons([a, b, c], p);
    assert [a, b, c][1..] == [b, c];
    FilterCons([b, c], p);
    assert [b, c][1..] == [c];
    FilterCons([c], p);
    assert [c][1..] == [];
  }
}
