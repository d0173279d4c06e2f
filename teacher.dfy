/**
 * The teacher's dashboard: the create-exam form and its part-type toggles,
 * creating and ending exams, the student search, the per-exam submission
 * list and its expiry test, and grading a submission with written feedback.
 *
 * The form's date-time field is text; the exam stores it as a clock reading,
 * passed in already parsed. The random exam code and the clock are parameters.
 */
module TeacherDashboard {
  import opened Wrappers
  import opened PicoTypes
  import opened Text
  import opened Lists
  import opened PicoLabStore

  // ------------------------------------------------------------------ form

  /** The create-exam form: `timeLimit` in minutes, `validUntil` the field's text. */
  datatype ExamForm = ExamForm(title: string, description: string, timeLimit: int, validUntil: string, components: seq<string>)

  /** The form as it opens and as it is reset after creating an exam. */
  const EmptyForm := ExamForm("", "", 30, "", [])

  /** The exam `handleCreateExam` builds: limit in seconds, open, created by the teacher. */
  function NewExam(form: ExamForm, now: nat, code: string, validUntil: int): (e: Exam)
    ensures e.timeLimit == form.timeLimit * 60 && e.active && e.code == code
    ensures e.timeLimit / 60 == form.timeLimit
  {
    Exam(Decimal(now), code, form.title, form.description, form.timeLimit * 60, validUntil,
         form.components, "teacher", true)
  }

  // ------------------------------------------------------------ exam list

  /** Whether the exam's deadline has passed (`new Date(exam.validUntil) < new Date()`). */
  predicate Expired(exam: Exam, now: int) {
    exam.validUntil < now
  }

  /** "End Exam" is offered for an open exam whose deadline has not passed. */
  predicate CanEnd(exam: Exam, now: int) {
    exam.active && !Expired(exam, now)
  }

  /** `exams.map(e => e.id === id ? { ...e, active: false } : e)` */
  function EndExams(exams: seq<Exam>, id: string): (r: seq<Exam>)
    ensures |r| == |exams|
    ensures forall i :: 0 <= i < |exams| ==> r[i].id == exams[i].id && r[i].code == exams[i].code
  {
    seq(|exams|, i requires 0 <= i < |exams| => if exams[i].id == id then exams[i].(active := false) else exams[i])
  }

  /**
   * After ending, every exam with that id is closed, so "End Exam" is no longer
   * offered for it; every other exam, and every other field, is as before.
   * Ending again changes nothing.
   */
  lemma EndExamsEffect(exams: seq<Exam>, id: string, now: int)
    ensures forall i :: 0 <= i < |exams| && exams[i].id == id ==>
      !EndExams(exams, id)[i].active && !CanEnd(EndExams(exams, id)[i], now)
      && EndExams(exams, id)[i] == exams[i].(active := false)
    ensures forall i :: 0 <= i < |exams| && exams[i].id != id ==> EndExams(exams, id)[i] == exams[i]
    ensures EndExams(EndExams(exams, id), id) == EndExams(exams, id)
  {
  }

  /** `submissions.filter(s => s.examCode === exam.code)`: the submissions listed under an exam. */
  function ExamSubmissions(subs: seq<ExamSubmission>, code: string): (r: seq<ExamSubmission>)
    ensures forall s :: s in r <==> s in subs && s.examCode == code
  {
    Filter(subs, (s: ExamSubmission) => s.examCode == code)
  }

  /** The list under an exam keeps the submissions' order. */
  lemma ExamSubmissionsInOrder(subs: seq<ExamSubmission>, code: string)
    ensures SubList(ExamSubmissions(subs, code), subs)
  {
    FilterSubList(subs, (s: ExamSubmission) => s.examCode == code);
  }

  // ------------------------------------------------------------- grading

  /** The score every graded submission receives. */
  const GradedScore := 85

  /** `subs.map(s => s.id === id ? { ...s, feedback: text, score: 85 } : s)` */
  function Graded(subs: seq<ExamSubmission>, id: string, text: string): (r: seq<ExamSubmission>)
    ensures |r| == |subs|
    ensures forall i :: 0 <= i < |subs| ==>
      r[i].examCode == subs[i].examCode && r[i].studentCode == subs[i].studentCode
  {
    seq(|subs|, i requires 0 <= i < |subs| =>
      if subs[i].id == id then subs[i].(feedback := Some(text), score := Some(GradedScore)) else subs[i])
  }

  /**
   * Only the submissions with that id change: they carry the feedback as typed
   * (not trimmed) and the score 85. Grading again with the same text changes nothing.
   */
  lemma GradedEffect(subs: seq<ExamSubmission>, id: string, text: string)
    ensures forall i :: 0 <= i < |subs| && subs[i].id == id ==>
      Graded(subs, id, text)[i].feedback == Some(text) && Graded(subs, id, text)[i].score == Some(GradedScore)
      && Graded(subs, id, text)[i].components == subs[i].components
      && Graded(subs, id, text)[i].connections == subs[i].connections
    ensures forall i :: 0 <= i < |subs| && subs[i].id != id ==> Graded(subs, id, text)[i] == subs[i]
    ensures Graded(Graded(subs, id, text), id, text) == Graded(subs, id, text)
  {
  }

  // -------------------------------------------------------------- search

  /** `scoreboard.find(s => s.studentCode === code) || null` */
  function FindStudent(board: seq<ScoreboardEntry>, code: string): (r: Option<ScoreboardEntry>)
    ensures r.None? <==> forall j :: 0 <= j < |board| ==> board[j].studentCode != code
    ensures r.Some? ==> (exists k :: 0 <= k < |board| && board[k] == r.value && r.value.studentCode == code
                                && forall j :: 0 <= j < k ==> board[j].studentCode != code)
  {
    var k := FindEntry(board, code);
    if k < 0 then None else Some(board[k])
  }

  // ------------------------------------------------------------ dashboard

  /** The dashboard's own state; exams and submissions live in the store. */
  class Dashboard {
    var showCreateExam: bool
    var studentCodeSearch: string
    var searchedStudent: Option<ScoreboardEntry>
    var viewingSubmission: Option<ExamSubmission>
    var feedbackText: string
    var form: ExamForm

    constructor()
      ensures !showCreateExam && studentCodeSearch == "" && searchedStudent == None
      ensures viewingSubmission == None && feedbackText == "" && form == EmptyForm
    {
      showCreateExam, studentCodeSearch, searchedStudent := false, "", None;
      viewingSubmission, feedbackText, form := None, "", EmptyForm;
    }

    /** `toggleComponent(type)`: one part type in or out of the exam's allowed list. */
    method ToggleComponent(t: string)
      modifies this
      ensures form == old(form).(components := Toggle(old(form.components), t))
      ensures t in form.components <==> t !in old(form.components)
      ensures showCreateExam == old(showCreateExam) && studentCodeSearch == old(studentCodeSearch)
      ensures searchedStudent == old(searchedStudent) && viewingSubmission == old(viewingSubmission)
      ensures feedbackText == old(feedbackText)
    {
      ToggleEffect(form.components, t);
      form := form.(components := Toggle(form.components, t));
    }

    /** `handleCreateExam`: appends the new exam, closes and resets the form. */
    method CreateExam(ws: Workspace, now: nat, code: string, validUntil: int)
      requires ws.Valid()
      modifies this, ws
      ensures ws.Valid()
      ensures ws.exams == old(ws.exams) + [NewExam(old(form), now, code, validUntil)]
      ensures ws.submissions == old(ws.submissions) && ws.feedbackMessages == old(ws.feedbackMessages)
      ensures ws.KeepsModeState() && ws.KeepsCanvas() && ws.KeepsSession()
      ensures ws.scoreboard == old(ws.scoreboard) && ws.flashcards == old(ws.flashcards)
      ensures !showCreateExam && form == EmptyForm
      ensures studentCodeSearch == old(studentCodeSearch) && searchedStudent == old(searchedStudent)
      ensures viewingSubmission == old(viewingSubmission) && feedbackText == old(feedbackText)
    {
      ws.SetExams(ws.exams + [NewExam(form, now, code, validUntil)]);
      showCreateExam := false;
      form := EmptyForm;
    }

    /** The "View" button on a submission: opens it, with its feedback (or nothing) in the text field. */
    method ViewSubmission(sub: ExamSubmission)
      modifies this
      ensures viewingSubmission == Some(sub)
      ensures feedbackText == if sub.feedback.Some? then sub.feedback.value else ""
      ensures showCreateExam == old(showCreateExam) && studentCodeSearch == old(studentCodeSearch)
      ensures searchedStudent == old(searchedStudent) && form == old(form)
    {
      viewingSubmission := Some(sub);
      feedbackText := if sub.feedback.Some? then sub.feedback.value else "";
    }

    /** `handleSearchStudent`: the first entry with exactly the searched code, or none. */
    method SearchStudent(ws: Workspace)
      modifies this
      ensures searchedStudent == FindStudent(ws.scoreboard, studentCodeSearch)
      ensures showCreateExam == old(showCreateExam) && studentCodeSearch == old(studentCodeSearch)
      ensures viewingSubmission == old(viewingSubmission) && feedbackText == old(feedbackText)
      ensures form == old(form)
    {
      searchedStudent := FindStudent(ws.scoreboard, studentCodeSearch);
    }

    /** `handleEndExam(id)` */
    method EndExam(ws: Workspace, id: string)
      requires ws.Valid()
      modifies ws
      ensures ws.Valid()
      ensures ws.exams == EndExams(old(ws.exams), id)
      ensures ws.submissions == old(ws.submissions) && ws.feedbackMessages == old(ws.feedbackMessages)
      ensures ws.KeepsModeState() && ws.KeepsCanvas() && ws.KeepsSession()
      ensures ws.scoreboard == old(ws.scoreboard) && ws.flashcards == old(ws.flashcards)
    {
      ws.SetExams(EndExams(ws.exams, id));
    }

    /**
     * `handleAddFeedback`: with a submission open and feedback that is not
     * blank, grades that submission and closes it; otherwise nothing happens.
     */
    method AddFeedback(ws: Workspace)
      requires ws.Valid()
      modifies this, ws
      ensures ws.Valid()
      ensures old(viewingSubmission).None? || Trim(old(feedbackText)) == [] ==> unchanged(this) && unchanged(ws)
      ensures old(viewingSubmission).Some? && Trim(old(feedbackText)) != [] ==>
        ws.submissions == Graded(old(ws.submissions), old(viewingSubmission).value.id, old(feedbackText))
        && ws.exams == old(ws.exams) && ws.feedbackMessages == old(ws.feedbackMessages)
        && ws.KeepsModeState() && ws.KeepsCanvas() && ws.KeepsSession()
        && ws.scoreboard == old(ws.scoreboard) && ws.flashcards == old(ws.flashcards)
        && viewingSubmission == None && feedbackText == ""
        && form == old(form) && searchedStudent == old(searchedStudent)
    {
      if viewingSubmission.None? || Trim(feedbackText) == [] {
        return;
      }
      ws.SetSubmissions(Graded(ws.submissions, viewingSubmission.value.id, feedbackText));
      feedbackText := "";
      viewingSubmission := None;
    }
  }
}
