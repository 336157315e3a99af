/** The signature step: when the finish button is enabled, and the document `generatePDF` writes,
    as a value. The document is described by what is placed where (page, coordinates in
    millimetres, font size) rather than by calls into a PDF library. */
module SignatureView {
  import opened Wrappers
  import opened ReportTypes
  import Cpf

  /** `canComplete`: both signatures captured (present and non-empty). */
  predicate CanComplete(patientSignature: Option<string>, technicianSignature: Option<string>) {
    Truthy(patientSignature) && Truthy(technicianSignature)
  }

  /** The finish button is disabled unless both signatures are there. */
  lemma FinishDisabledUnlessSigned(patientSignature: Option<string>, technicianSignature: Option<string>)
    ensures !CanComplete(patientSignature, technicianSignature) <==>
              (patientSignature.None? || patientSignature == Some("") ||
               technicianSignature.None? || technicianSignature == Some(""))
  {
  }

  /** A line of text on page `page` (0 is the first page). */
  datatype TextLine = TextLine(page: nat, text: string, x: int, y: int, fontSize: int, centered: bool)

  /** One question with its answer line. */
  datatype Entry = Entry(question: TextLine, answer: TextLine)

  /** A signature image with its caption. */
  datatype SignatureImage = SignatureImage(page: nat, data: string, x: int, y: int, width: int, height: int, caption: TextLine)

  datatype Document = Document(
    header: seq<TextLine>,
    entries: seq<Entry>,
    signatures: seq<SignatureImage>,
    pageCount: nat,
    fileName: string)

  /** Where the answer loop stands: the entries so far, the current page and the next `y`. */
  datatype Layout = Layout(entries: seq<Entry>, page: nat, y: int)

  /** Start of the questions on the first page. */
  const FirstY: int := 70
  /** Start of the questions on every later page. */
  const TopY: int := 20
  /** A question starting below this line goes to a new page. */
  const BottomY: int := 250
  /** Vertical space taken by one question and its answer. */
  const EntryHeight: int := 14

  /** A position of the answer loop: a page and a height on it. */
  datatype Pos = Pos(page: nat, y: int)

  /** Where a question goes when the loop stands at `at`: a new page when `at` is below the break
      line, otherwise right there. */
  function Place(at: Pos): Pos {
    if at.y > BottomY then Pos(at.page + 1, TopY) else at
  }

  /** The entry the loop draws for one question at position `p`. */
  function EntryAt(qa: QuestionAnswer, p: Pos): Entry {
    Entry(TextLine(p.page, qa.question, 20, p.y, 10, false),
          TextLine(p.page, "R: " + qa.answer, 25, p.y + 6, 9, false))
  }

  /** The `allAnswers.forEach` loop of `generatePDF`, started on page `page` at height `y`. */
  function RenderEntries(answers: seq<QuestionAnswer>, page: nat, y: int): (r: Layout)
    ensures |r.entries| == |answers|
    ensures page <= r.page
    ensures forall i :: 0 <= i < |answers| ==>
              && r.entries[i].question.text == answers[i].question
              && r.entries[i].answer.text == "R: " + answers[i].answer
  {
    if |answers| == 0 then Layout([], page, y)
    else
      var p := Place(Pos(page, y));
      var rest := RenderEntries(answers[1..], p.page, p.y + EntryHeight);
      Layout([EntryAt(answers[0], p)] + rest.entries, rest.page, rest.y)
  }

  /** Where the loop stands before question `i`, step by step. */
  function Before(i: nat): Pos
    decreases i, 0
  {
    if i == 0 then Pos(0, FirstY) else Pos(Slot(i - 1).page, Slot(i - 1).y + EntryHeight)
  }

  /** Where question `i` goes, step by step. */
  function Slot(i: nat): Pos
    decreases i, 1
  {
    Place(Before(i))
  }

  /** Started where it stands before question `j`, the loop puts its `k`-th question in slot
      `j + k`. */
  lemma {:induction false} RenderFrom(answers: seq<QuestionAnswer>, j: nat)
    ensures var r := RenderEntries(answers, Before(j).page, Before(j).y);
      forall k :: 0 <= k < |answers| ==> r.entries[k] == EntryAt(answers[k], Slot(j + k))
    decreases |answers|
  {
    if |answers| > 0 {
      RenderFrom(answers[1..], j + 1);
      var r := RenderEntries(answers, Before(j).page, Before(j).y);
      var rest := RenderEntries(answers[1..], Before(j + 1).page, Before(j + 1).y);
      assert r.entries == [EntryAt(answers[0], Slot(j))] + rest.entries;
      forall k | 1 <= k < |answers|
        ensures r.entries[k] == EntryAt(answers[k], Slot(j + k))
      {
        assert r.entries[k] == rest.entries[k - 1];
        assert answers[1..][k - 1] == answers[k];
        assert j + 1 + (k - 1) == j + k;
      }
    }
  }

  /** Started where it stands before question `j`, the loop ends where it stands before question
      `j + |answers|`. */
  lemma {:induction false} RenderEnd(answers: seq<QuestionAnswer>, j: nat, page: nat, y: int)
    requires Pos(page, y) == Before(j)
    ensures var r := RenderEntries(answers, page, y);
      Pos(r.page, r.y) == Before(j + |answers|)
    decreases |answers|
  {
    if |answers| > 0 {
      var p := Place(Pos(page, y));
      assert Pos(p.page, p.y + EntryHeight) == Before(j + 1);
      RenderEnd(answers[1..], j + 1, p.page, p.y + EntryHeight);
      assert j + 1 + (|answers| - 1) == j + |answers|;
    }
  }

  /** The page of the `i`-th question, in closed form: 13 questions on the first page, 17 on each
      later one. */
  function SlotPage(i: nat): nat {
    if i < 13 then 0 else 1 + (i - 13) / 17
  }

  /** The height of the `i`-th question, in closed form. */
  function SlotY(i: nat): int {
    if i < 13 then FirstY + EntryHeight * i else TopY + EntryHeight * ((i - 13) % 17)
  }

  /** One step of the loop in closed form: from just below question `j - 1` to the slot of
      question `j`. */
  lemma BreakStep(j: nat)
    requires j > 0
    ensures Place(Pos(SlotPage(j - 1), SlotY(j - 1) + EntryHeight)) == Pos(SlotPage(j), SlotY(j))
  {
    if j > 13 {
      var q, r := (j - 14) / 17, (j - 14) % 17;
      assert j - 14 == 17 * q + r && 0 <= r < 17;
      if r < 16 {
        assert j - 13 == 17 * q + (r + 1);
        assert (j - 13) / 17 == q && (j - 13) % 17 == r + 1;
      } else {
        assert j - 13 == 17 * (q + 1);
        assert (j - 13) / 17 == q + 1 && (j - 13) % 17 == 0;
      }
    }
  }

  /** The step-by-step slots are the closed-form ones. */
  lemma {:induction false} SlotClosedForm(i: nat)
    ensures Slot(i) == Pos(SlotPage(i), SlotY(i))
  {
    if i > 0 {
      SlotClosedForm(i - 1);
      BreakStep(i);
    }
  }

  /** The layout of the answer loop in closed form: question `i` lands on page `SlotPage(i)` at
      height `SlotY(i)`, its answer 6 below it, and the loop ends just below the last question. */
  lemma LayoutClosedForm(answers: seq<QuestionAnswer>)
    ensures var r := RenderEntries(answers, 0, FirstY);
      && (forall i :: 0 <= i < |answers| ==>
            && r.entries[i].question == TextLine(SlotPage(i), answers[i].question, 20, SlotY(i), 10, false)
            && r.entries[i].answer == TextLine(SlotPage(i), "R: " + answers[i].answer, 25, SlotY(i) + 6, 9, false))
      && r.page == (if |answers| == 0 then 0 else SlotPage(|answers| - 1))
      && r.y == (if |answers| == 0 then FirstY else SlotY(|answers| - 1) + EntryHeight)
  {
    LayoutEntries(answers);
    LayoutEnd(answers);
  }

  lemma LayoutEntries(answers: seq<QuestionAnswer>)
    ensures var r := RenderEntries(answers, 0, FirstY);
      forall i :: 0 <= i < |answers| ==> r.entries[i] == EntryAt(answers[i], Pos(SlotPage(i), SlotY(i)))
  {
    var r := RenderEntries(answers, 0, FirstY);
    assert Before(0) == Pos(0, FirstY);
    RenderFrom(answers, 0);
    assert forall i :: 0 <= i < |answers| ==> r.entries[i] == EntryAt(answers[i], Slot(i));
    forall i | 0 <= i < |answers|
      ensures r.entries[i] == EntryAt(answers[i], Pos(SlotPage(i), SlotY(i)))
    {
      SlotClosedForm(i);
    }
  }

  lemma LayoutEnd(answers: seq<QuestionAnswer>)
    ensures var r := RenderEntries(answers, 0, FirstY);
      Pos(r.page, r.y) == if |answers| == 0 then Pos(0, FirstY)
                          else Pos(SlotPage(|answers| - 1), SlotY(|answers| - 1) + EntryHeight)
  {
    RenderEnd(answers, 0, 0, FirstY);
    assert 0 + |answers| == |answers|;
    BeforeClosedForm(|answers|);
  }

  /** Where the loop stands before question `n`, in closed form. */
  lemma BeforeClosedForm(n: nat)
    ensures Before(n) == if n == 0 then Pos(0, FirstY) else Pos(SlotPage(n - 1), SlotY(n - 1) + EntryHeight)
  {
    if n > 0 {
      SlotClosedForm(n - 1);
    }
  }

  /** Every question line is drawn between the top margin and the break line (in fact no lower
      than 244), with its answer line 6 below. */
  lemma EntriesWithinPage(answers: seq<QuestionAnswer>)
    ensures forall i :: 0 <= i < |answers| ==>
              var e := RenderEntries(answers, 0, FirstY).entries[i];
              && TopY <= e.question.y <= BottomY
              && e.answer.y == e.question.y + 6
              && e.answer.page == e.question.page
  {
    LayoutClosedForm(answers);
  }

  /** Index of the first question placed on page `p`. */
  function PageStart(p: nat): nat {
    if p == 0 then 0 else 13 + 17 * (p - 1)
  }

  /** Each question lies within the index range of its own page, and those ranges hold 13
      questions on the first page and 17 on every later one. */
  lemma PageCapacity(answers: seq<QuestionAnswer>)
    ensures forall i :: 0 <= i < |answers| ==>
              var p := RenderEntries(answers, 0, FirstY).entries[i].question.page;
              PageStart(p) <= i < PageStart(p + 1)
    ensures forall p: nat :: PageStart(p + 1) - PageStart(p) == (if p == 0 then 13 else 17)
  {
    LayoutClosedForm(answers);
    forall i | 13 <= i < |answers|
      ensures PageStart(SlotPage(i)) <= i < PageStart(SlotPage(i) + 1)
    {
      var q := (i - 13) / 17;
      assert i - 13 == 17 * q + (i - 13) % 17;
    }
  }

  /** `toUpperCase` on the ASCII exam-type codes: each lower-case letter becomes its capital,
      every other character stays, and no lower-case letter is left. */
  function UpperAscii(s: string): (r: string)
    ensures |r| == |s|
    ensures forall i :: 0 <= i < |s| && 'a' <= s[i] <= 'z' ==> 'A' <= r[i] <= 'Z' && r[i] as int - s[i] as int == 'A' as int - 'a' as int
    ensures forall i :: 0 <= i < |s| && !('a' <= s[i] <= 'z') ==> r[i] == s[i]
    ensures forall i :: 0 <= i < |r| ==> !('a' <= r[i] <= 'z')
  {
    seq(|s|, i requires 0 <= i < |s| => if 'a' <= s[i] <= 'z' then (s[i] as int - 32) as char else s[i])
  }

  /** The exam line of the header names the exam type by its upper-cased code. */
  lemma ExamCodesUpperCased()
    ensures UpperAscii(ExamTypeCode(Ct)) == "CT" && UpperAscii(ExamTypeCode(Mri)) == "MRI"
    ensures UpperAscii(ExamTypeCode(Densitometry)) == "DENSITOMETRY"
    ensures UpperAscii(ExamTypeCode(Mammography)) == "MAMMOGRAPHY"
  {
  }

  /** The downloaded file's name: the patient's CPF digits between a fixed prefix and extension. */
  function FileName(cpf: string): (r: string)
    ensures |r| >= 13 && r[..9] == "anamnese_" && r[|r| - 4..] == ".pdf"
    ensures Cpf.AllDigits(r[9..|r| - 4])
    ensures forall c :: c in r[9..|r| - 4] <==> c in cpf && Cpf.IsDigit(c)
    ensures r[9..|r| - 4] == Cpf.Digits(cpf)
  {
    var r := "anamnese_" + Cpf.Digits(cpf) + ".pdf";
    assert r[9..|r| - 4] == Cpf.Digits(cpf);
    r
  }

  /** Typing a CPF with the mask or without it gives the same file name (for up to eleven digits,
      which is all the mask keeps). */
  lemma FileNameIgnoresMask(cpf: string)
    requires |Cpf.Digits(cpf)| <= 11
    ensures FileName(Cpf.FormatCpf(cpf)) == FileName(cpf)
  {
    Cpf.FormatCpfDigits(cpf);
    assert Cpf.Digits(cpf)[..|Cpf.Digits(cpf)|] == Cpf.Digits(cpf);
  }

  /** The signature images under the last answer: the patient's at x = 20 and the technician's at
      x = 110, each 10 below the loop's final height and only if present, captioned 30 further
      down in the font size the loop left set. */
  function SignatureImages(lay: Layout, labelSize: int, patientSignature: Option<string>,
                           technicianSignature: Option<string>): (r: seq<SignatureImage>)
    ensures |r| == (if Truthy(patientSignature) then 1 else 0) + (if Truthy(technicianSignature) then 1 else 0)
    ensures forall k :: 0 <= k < |r| ==>
              && r[k].page == lay.page && r[k].y == lay.y + 10
              && r[k].x == (if k == 0 && Truthy(patientSignature) then 20 else 110)
              && r[k].data == (if k == 0 && Truthy(patientSignature) then patientSignature.value
                               else technicianSignature.value)
              && r[k].width == 60 && r[k].height == 25
              && r[k].caption.page == r[k].page && r[k].caption.x == r[k].x && r[k].caption.y == r[k].y + 30
              && r[k].caption.text == (if k == 0 && Truthy(patientSignature) then "Assinatura Paciente/Responsável"
                                       else "Assinatura Técnico")
              && r[k].caption.fontSize == labelSize
  {
    (if Truthy(patientSignature) then
       [SignatureImage(lay.page, patientSignature.value, 20, lay.y + 10, 60, 25,
          TextLine(lay.page, "Assinatura Paciente/Responsável", 20, lay.y + 40, labelSize, false))]
     else [])
    + (if Truthy(technicianSignature) then
         [SignatureImage(lay.page, technicianSignature.value, 110, lay.y + 10, 60, 25,
            TextLine(lay.page, "Assinatura Técnico", 110, lay.y + 40, labelSize, false))]
       else [])
  }

  /** The title and the three patient lines above the answers, all on the first page. */
  function Header(report: Report): (r: seq<TextLine>)
    ensures |r| == 4
    ensures forall h :: 0 <= h < 4 ==> r[h].page == 0 && r[h].y < FirstY
    ensures r[0] == TextLine(0, "Relatório de Anamnese", 105, 20, 18, true)
    ensures r[1].text == "Paciente: " + report.patient.name && r[1].fontSize == 12
    ensures r[2].text == "CPF: " + report.patient.cpf && r[2].fontSize == 12
    ensures r[3].text == "Exame: " + UpperAscii(ExamTypeCode(report.examType)) && r[3].fontSize == 12
  {
    [ TextLine(0, "Relatório de Anamnese", 105, 20, 18, true),
      TextLine(0, "Paciente: " + report.patient.name, 20, 40, 12, false),
      TextLine(0, "CPF: " + report.patient.cpf, 20, 48, 12, false),
      TextLine(0, "Exame: " + UpperAscii(ExamTypeCode(report.examType)), 20, 56, 12, false) ]
  }

  /** `generatePDF`: header, the answers laid out by the loop, the signatures, and the file name. */
  function GeneratePdf(report: Report, answers: seq<QuestionAnswer>, patientSignature: Option<string>,
                       technicianSignature: Option<string>): (d: Document)
    ensures |d.header| == 4
    ensures forall h :: 0 <= h < 4 ==> d.header[h].page == 0 && d.header[h].y < FirstY
    ensures d.header[0] == TextLine(0, "Relatório de Anamnese", 105, 20, 18, true)
    ensures d.header[1].text == "Paciente: " + report.patient.name && d.header[1].fontSize == 12
    ensures d.header[2].text == "CPF: " + report.patient.cpf && d.header[2].fontSize == 12
    ensures d.header[3].text == "Exame: " + UpperAscii(ExamTypeCode(report.examType)) && d.header[3].fontSize == 12
    ensures |d.entries| == |answers|
    ensures forall i :: 0 <= i < |answers| ==>
              && d.entries[i].question == TextLine(SlotPage(i), answers[i].question, 20, SlotY(i), 10, false)
              && d.entries[i].answer == TextLine(SlotPage(i), "R: " + answers[i].answer, 25, SlotY(i) + 6, 9, false)
    ensures d.fileName == "anamnese_" + Cpf.Digits(report.patient.cpf) + ".pdf"
    ensures d.pageCount == (if |answers| == 0 then 1 else SlotPage(|answers| - 1) + 1)
    ensures |d.signatures| == (if Truthy(patientSignature) then 1 else 0) + (if Truthy(technicianSignature) then 1 else 0)
    ensures forall k :: 0 <= k < |d.signatures| ==>
              && d.signatures[k].page == d.pageCount - 1
              && d.signatures[k].y == (if |answers| == 0 then FirstY else SlotY(|answers| - 1) + EntryHeight) + 10
              && d.signatures[k].x == (if k == 0 && Truthy(patientSignature) then 20 else 110)
              && d.signatures[k].data == (if k == 0 && Truthy(patientSignature) then patientSignature.value
                                          else technicianSignature.value)
              && d.signatures[k].width == 60 && d.signatures[k].height == 25
              && d.signatures[k].caption.page == d.signatures[k].page
              && d.signatures[k].caption.x == d.signatures[k].x
              && d.signatures[k].caption.y == d.signatures[k].y + 30
              && d.signatures[k].caption.text == (if k == 0 && Truthy(patientSignature) then "Assinatura Paciente/Responsável"
                                                  else "Assinatura Técnico")
              && d.signatures[k].caption.fontSize == (if |answers| == 0 then 12 else 9)
  {
    LayoutClosedForm(answers);
    var header := Header(report);
    var lay := RenderEntries(answers, 0, FirstY);
    var labelSize := if |answers| > 0 then 9 else 12;
    Document(header, lay.entries, SignatureImages(lay, labelSize, patientSignature, technicianSignature),
             lay.page + 1, FileName(report.patient.cpf))
  }
}
