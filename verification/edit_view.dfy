/** The edit step: which suggestions are still pending, the collapsible category sections, the
    answer drafts of additional questions, and how the apply button reaches the controller. */
module EditView {
  import opened Wrappers
  import opened Seqs
  import opened ReportTypes
  import opened Grouping
  import Workflow

  /** The edit view's own state, discarded whenever the view is left. */
  datatype EditState = EditState(
    editingQuestion: Option<string>,
    suggestionAnswers: map<string, string>,
    expandedCategories: set<string>)

  /** The special member of the expanded set that expands every section. */
  const AllCategories: string := "all"

  function InitialEdit(): EditState {
    EditState(None, map[], {AllCategories})
  }

  /** The report's suggestions (`aiSuggestions ?? []`). */
  function SuggestionsOf(report: Report): seq<AISuggestion> {
    report.aiSuggestions.GetOr([])
  }

  /** `appliedSuggestions.find(as => as.id === id)` finds something. */
  predicate IsApplied(applied: seq<AISuggestion>, id: string) {
    exists i :: 0 <= i < |applied| && applied[i].id == id
  }

  /** The predicate of the pending filter. */
  function NotApplied(applied: seq<AISuggestion>): AISuggestion -> bool {
    (s: AISuggestion) => !IsApplied(applied, s.id)
  }

  /** `pendingSuggestions`: the report's suggestions whose id has no applied record, in report
      order; none at all when the report has no suggestion list. */
  function PendingSuggestions(report: Report, applied: seq<AISuggestion>): (r: seq<AISuggestion>)
    ensures report.aiSuggestions.None? ==> r == []
    ensures forall s :: s in r <==> s in SuggestionsOf(report) && !IsApplied(applied, s.id)
  {
    match report.aiSuggestions
    case None => []
    case Some(all) => Filter(all, NotApplied(applied))
  }

  /** The pending list keeps the report's order of suggestions. */
  lemma PendingKeepsOrder(report: Report, applied: seq<AISuggestion>, a: seq<AISuggestion>, b: seq<AISuggestion>)
    requires report.aiSuggestions == Some(a + b)
    ensures PendingSuggestions(report, applied) ==
              PendingSuggestions(report.(aiSuggestions := Some(a)), applied) +
              PendingSuggestions(report.(aiSuggestions := Some(b)), applied)
  {
    FilterAppend(a, b, NotApplied(applied));
  }

  /** With nothing applied every suggestion is pending. */
  lemma NothingAppliedAllPending(report: Report)
    ensures PendingSuggestions(report, []) == SuggestionsOf(report)
  {
    if report.aiSuggestions.Some? {
      FilterKeepsAll(report.aiSuggestions.value, NotApplied([]));
    }
  }

  /** `toggleCategory`: flips whether `c` is in the expanded set, and nothing else. */
  function ToggleCategory(expanded: set<string>, c: string): (r: set<string>)
    ensures c in r <==> c !in expanded
    ensures forall x :: x != c ==> (x in r <==> x in expanded)
  {
    if c in expanded then expanded - {c} else expanded + {c}
  }

  /** Toggling the same section twice restores the expanded set. */
  lemma ToggleTwice(expanded: set<string>, c: string)
    ensures ToggleCategory(ToggleCategory(expanded, c), c) == expanded
  {
  }

  /** Whether a section shows its answers. */
  predicate IsExpanded(expanded: set<string>, c: string) {
    AllCategories in expanded || c in expanded
  }

  /** While `'all'` is in the expanded set every section shows its answers, and toggling any
      section not itself called `'all'` keeps it there: with the initial set no section ever
      collapses. */
  lemma NothingCollapsesWhileAll(expanded: set<string>, c: string)
    requires AllCategories in expanded
    ensures forall d :: IsExpanded(expanded, d)
    ensures c != AllCategories ==> forall d :: IsExpanded(ToggleCategory(expanded, c), d)
  {
  }

  /** A section whose category is literally `'all'` is the exception: toggling it from the initial
      state collapses every other section. */
  lemma ToggleAllCollapses(d: string)
    requires d != AllCategories
    ensures !IsExpanded(ToggleCategory(InitialEdit().expandedCategories, AllCategories), d)
  {
  }

  /** The characters `String.prototype.trim` removes: white space and line terminators. */
  predicate IsJsWhitespace(c: char) {
    c == ' ' || c == '\t' || c == '\n' || c == '\r' || c == '\U{000B}' || c == '\U{000C}'
    || c == '\U{00A0}' || c == '\U{FEFF}' || c == '\U{1680}' || ('\U{2000}' <= c <= '\U{200A}')
    || c == '\U{2028}' || c == '\U{2029}' || c == '\U{202F}' || c == '\U{205F}' || c == '\U{3000}'
  }

  predicate AllWhitespace(s: string) {
    forall i :: 0 <= i < |s| ==> IsJsWhitespace(s[i])
  }

  function TrimStart(s: string): (r: string)
    ensures |r| <= |s| && r == s[|s| - |r|..]
    ensures AllWhitespace(s[..|s| - |r|])
    ensures r == [] || !IsJsWhitespace(r[0])
  {
    if |s| > 0 && IsJsWhitespace(s[0]) then
      var r := TrimStart(s[1..]);
      assert s[..|s| - |r|] == [s[0]] + s[1..][..|s| - 1 - |r|];
      r
    else s
  }

  function TrimEnd(s: string): (r: string)
    ensures |r| <= |s| && r == s[..|r|]
    ensures AllWhitespace(s[|r|..])
    ensures r == [] || !IsJsWhitespace(r[|r| - 1])
  {
    if |s| > 0 && IsJsWhitespace(s[|s| - 1]) then
      var r := TrimEnd(s[..|s| - 1]);
      assert s[|r|..] == s[..|s| - 1][|r|..] + [s[|s| - 1]];
      r
    else s
  }

  /** `s.trim()`: the part of `s` left between its leading and its trailing white space. */
  function Trim(s: string): (r: string)
    ensures |r| <= |s|
    ensures r == [] || (!IsJsWhitespace(r[0]) && !IsJsWhitespace(r[|r| - 1]))
  {
    TrimEnd(TrimStart(s))
  }

  /** What trimming drops is white space at both ends: the result stands in `s` at some
      position `i`, with only white space before and after it. */
  lemma TrimIsInfix(s: string)
    ensures exists i :: 0 <= i <= |s| - |Trim(s)| && s[i..i + |Trim(s)|] == Trim(s)
                        && AllWhitespace(s[..i]) && AllWhitespace(s[i + |Trim(s)|..])
  {
    var t := TrimStart(s);
    var r := Trim(s);
    var i := |s| - |t|;
    assert s[i..i + |r|] == r by {
      assert s[i..][..|r|] == s[i..i + |r|];
    }
    assert AllWhitespace(s[i + |r|..]) by {
      assert AllWhitespace(t[|r|..]);
      assert s[i..][|r|..] == s[i + |r|..];
    }
  }

  /** Trimming leaves nothing exactly when the text is all white space. */
  lemma TrimBlank(s: string)
    ensures Trim(s) == [] <==> AllWhitespace(s)
  {
    var t := TrimStart(s);
    assert t != [] ==> t[0] == s[|s| - |t|];
    assert TrimEnd(t) == [] ==> AllWhitespace(t[0..]);
    assert t[0..] == t;
    assert t == [] ==> s == s[..|s| - |t|];
  }

  /** The draft typed for a suggestion, if any. */
  function Draft(st: EditState, id: string): Option<string> {
    if id in st.suggestionAnswers then Some(st.suggestionAnswers[id]) else None
  }

  /** `suggestionAnswers[id]?.trim()` is truthy: a draft with something besides white space. */
  predicate DraftFilled(st: EditState, id: string) {
    Draft(st, id).Some? && Trim(Draft(st, id).value) != []
  }

  /** The apply button is disabled for an additional question whose draft is blank. */
  predicate ApplyDisabled(st: EditState, s: AISuggestion) {
    s.kind == AdditionalQuestion && !DraftFilled(st, s.id)
  }

  /** Typing into a suggestion's answer box. */
  function SetDraft(st: EditState, id: string, text: string): (r: EditState)
    ensures Draft(r, id) == Some(text)
    ensures forall other :: other != id ==> Draft(r, other) == Draft(st, other)
  {
    st.(suggestionAnswers := st.suggestionAnswers[id := text])
  }

  /** `handleApplySuggestion` together with the controller's `applySuggestion`. An additional
      question is applied only when its draft is not blank, with the draft as answer, and the draft
      is then deleted; a blank draft applies nothing. A correction is applied with no answer, so
      the controller synthesises nothing for it. */
  function HandleApplySuggestion(wf: Workflow.State, st: EditState, s: AISuggestion): (r: (Workflow.State, EditState))
    ensures s.kind == AdditionalQuestion && !DraftFilled(st, s.id) ==> r == (wf, st)
    ensures s.kind == AdditionalQuestion && DraftFilled(st, s.id) ==>
              && r.0 == Workflow.ApplySuggestion(wf, s, Draft(st, s.id))
              && |r.0.additionalAnswers| == |wf.additionalAnswers| + 1
              && r.0.additionalAnswers[|wf.additionalAnswers|].answer == Draft(st, s.id).value
              && Draft(r.1, s.id) == None
              && forall other :: other != s.id ==> Draft(r.1, other) == Draft(st, other)
    ensures s.kind == Correction ==>
              && r.0 == Workflow.ApplySuggestion(wf, s, None)
              && r.0.additionalAnswers == wf.additionalAnswers
              && r.1 == st
  {
    match s.kind
    case AdditionalQuestion =>
      if DraftFilled(st, s.id) then
        (Workflow.ApplySuggestion(wf, s, Draft(st, s.id)),
         st.(suggestionAnswers := st.suggestionAnswers - {s.id}))
      else (wf, st)
    case Correction => (Workflow.ApplySuggestion(wf, s, None), st)
  }

  /** The button's disabled rule and the handler agree: a click applies a suggestion exactly when
      the button is enabled. */
  lemma ApplyDisabledIffNothingApplied(wf: Workflow.State, st: EditState, s: AISuggestion)
    ensures ApplyDisabled(st, s) <==> HandleApplySuggestion(wf, st, s).0.appliedSuggestions == wf.appliedSuggestions
  {
    if !ApplyDisabled(st, s) {
      var r := HandleApplySuggestion(wf, st, s).0;
      assert |r.appliedSuggestions| == |wf.appliedSuggestions| + 1;
    }
  }

  /** Pressing "Editar" on an answer. */
  function StartEditing(st: EditState, questionId: string): (r: EditState)
    ensures r.editingQuestion == Some(questionId)
    ensures r.suggestionAnswers == st.suggestionAnswers && r.expandedCategories == st.expandedCategories
  {
    st.(editingQuestion := Some(questionId))
  }

  /** Leaving the answer box (blur or Enter): the typed text goes to `updateAnswer` for the answer
      being edited and editing stops. Without an answer being edited nothing happens. */
  function CommitEditing(wf: Workflow.State, st: EditState, text: string): (r: (Workflow.State, EditState))
    ensures st.editingQuestion.None? ==> r == (wf, st)
    ensures st.editingQuestion.Some? ==>
              r == (Workflow.UpdateAnswer(wf, st.editingQuestion.value, text), st.(editingQuestion := None))
  {
    match st.editingQuestion
    case None => (wf, st)
    case Some(id) => (Workflow.UpdateAnswer(wf, id, text), st.(editingQuestion := None))
  }

  /** Escape in the answer box: editing stops and nothing is written. */
  function CancelEditing(st: EditState): (r: EditState)
    ensures r.editingQuestion == None
    ensures r.suggestionAnswers == st.suggestionAnswers && r.expandedCategories == st.expandedCategories
  {
    st.(editingQuestion := None)
  }

  /** The edit view groups the edited answers into sections that partition them: every edited
      answer sits in exactly one section, sections are never empty, and the section sizes add up
      to the number of edited answers. */
  lemma EditSectionsPartition(wf: Workflow.State)
    ensures |Sections(wf.editedAnswers)| == |Categories(wf.editedAnswers)|
    ensures forall k :: 0 <= k < |Sections(wf.editedAnswers)| ==>
              && Sections(wf.editedAnswers)[k].name == Categories(wf.editedAnswers)[k]
              && |Sections(wf.editedAnswers)[k].answers| > 0
              && forall qa :: qa in Sections(wf.editedAnswers)[k].answers <==>
                   qa in wf.editedAnswers && CategoryOf(qa) == Categories(wf.editedAnswers)[k]
    ensures multiset(Flatten(Sections(wf.editedAnswers))) == multiset(wf.editedAnswers)
  {
    SectionsNonEmpty(wf.editedAnswers);
    SectionsPartition(wf.editedAnswers);
  }
}
