/**
 * Joining an exam with its code: the code as typed is upper-cased and
 * trimmed, looked up, and checked in a fixed order (unknown, expired, closed,
 * already submitted). The first failed check sets the modal's error and
 * nothing else happens; a join that passes every check starts the exam timer.
 */
module ExamJoin {
  import opened Wrappers
  import opened PicoTypes
  import opened Text
  import opened PicoLabStore
  import opened TeacherDashboard
  import opened WorkspaceToolbar

  /** The reasons a join is refused, in the order they are checked. */
  datatype JoinError = UnknownCode | ExpiredExam | ClosedExam | AlreadySubmitted

  /** The error line the modal shows for each refusal. */
  function ErrorText(e: JoinError): string {
    match e
    case UnknownCode => "Invalid exam code. Please check and try again."
    case ExpiredExam => "This exam has expired and is no longer available."
    case ClosedExam => "This exam is no longer active."
    case AlreadySubmitted => "You have already submitted this exam."
  }

  /** `examCode.toUpperCase().trim()` */
  function NormalizeCode(entered: string): string {
    Trim(ToUpper(entered))
  }

  /** `exams.findIndex(e => e.code === code)`: the first position with that code, or -1. */
  function ExamIndex(exams: seq<Exam>, code: string): (k: int)
    ensures -1 <= k < |exams|
    ensures k >= 0 ==> exams[k].code == code && forall j :: 0 <= j < k ==> exams[j].code != code
    ensures k < 0 ==> forall j :: 0 <= j < |exams| ==> exams[j].code != code
    decreases |exams|
  {
    if |exams| == 0 then -1
    else if exams[0].code == code then 0
    else var k := ExamIndex(exams[1..], code); if k < 0 then -1 else k + 1
  }

  /** `exams.find(e => e.code === code)` */
  function FindExam(exams: seq<Exam>, code: string): Option<Exam> {
    var k := ExamIndex(exams, code);
    if k < 0 then None else Some(exams[k])
  }

  /** Whether the student has a submission for the exam with this code. */
  predicate Submitted(subs: seq<ExamSubmission>, code: string, student: string) {
    exists i :: 0 <= i < |subs| && subs[i].examCode == code && subs[i].studentCode == student
  }

  /**
   * `handleJoin`'s checks. The first exam with the normalised code must exist,
   * must not be past its deadline (a deadline equal to `now` has not passed),
   * must be open, and, when a student is signed in, must not have been
   * submitted by them already; the first check that fails is the answer.
   */
  function CheckJoin(exams: seq<Exam>, subs: seq<ExamSubmission>, profile: Option<StudentProfile>,
                     entered: string, now: int): (r: Result<Exam, JoinError>)
    ensures r == Err(UnknownCode) <==> forall j :: 0 <= j < |exams| ==> exams[j].code != NormalizeCode(entered)
    ensures r.Ok? ==> (r.value in exams && r.value.code == NormalizeCode(entered)
                       && CanEnd(r.value, now) && (profile.Some? ==> !Submitted(subs, r.value.code, profile.value.code)))
    ensures r == Err(AlreadySubmitted) ==> profile.Some?
  {
    var code := NormalizeCode(entered);
    match FindExam(exams, code)
    case None => Err(UnknownCode)
    case Some(exam) =>
      if exam.validUntil < now then Err(ExpiredExam)
      else if !exam.active then Err(ClosedExam)
      else if profile.Some? && Submitted(subs, code, profile.value.code) then Err(AlreadySubmitted)
      else Ok(exam)
  }

  /**
   * The order of the checks, stated on the exam the code finds: each refusal
   * is given exactly when the checks before it pass and its own fails, and
   * otherwise the join goes ahead with that exam.
   */
  lemma CheckOrder(exams: seq<Exam>, subs: seq<ExamSubmission>, profile: Option<StudentProfile>,
                   entered: string, now: int, exam: Exam)
    requires FindExam(exams, NormalizeCode(entered)) == Some(exam)
    ensures CheckJoin(exams, subs, profile, entered, now) == Err(ExpiredExam) <==> exam.validUntil < now
    ensures CheckJoin(exams, subs, profile, entered, now) == Err(ClosedExam) <==> now <= exam.validUntil && !exam.active
    ensures CheckJoin(exams, subs, profile, entered, now) == Err(AlreadySubmitted) <==>
      CanEnd(exam, now) && profile.Some? && Submitted(subs, exam.code, profile.value.code)
    ensures CheckJoin(exams, subs, profile, entered, now) == Ok(exam) <==>
      CanEnd(exam, now) && (profile.None? || !Submitted(subs, exam.code, profile.value.code))
  {
  }

  /** The deadline comparison is strict: on the deadline itself the exam can still be joined. */
  lemma DeadlineInclusive(exams: seq<Exam>, subs: seq<ExamSubmission>, entered: string, exam: Exam)
    requires FindExam(exams, NormalizeCode(entered)) == Some(exam) && exam.active
    ensures CheckJoin(exams, subs, None, entered, exam.validUntil) == Ok(exam)
    ensures CheckJoin(exams, subs, None, entered, exam.validUntil + 1) == Err(ExpiredExam)
  {
  }

  /** Without a signed-in student the duplicate check is skipped: earlier submissions do not matter. */
  lemma NoProfileNoDuplicateCheck(exams: seq<Exam>, subs: seq<ExamSubmission>, entered: string, now: int)
    ensures CheckJoin(exams, subs, None, entered, now) == CheckJoin(exams, [], None, entered, now)
    ensures CheckJoin(exams, subs, None, entered, now) != Err(AlreadySubmitted)
  {
  }

  /** The letters' case in the typed code does not matter. */
  lemma CaseDoesNotMatter(exams: seq<Exam>, subs: seq<ExamSubmission>, profile: Option<StudentProfile>,
                          entered: string, now: int)
    ensures CheckJoin(exams, subs, profile, ToLower(entered), now) == CheckJoin(exams, subs, profile, entered, now)
    ensures CheckJoin(exams, subs, profile, ToUpper(entered), now) == CheckJoin(exams, subs, profile, entered, now)
  {
    UpperIgnoresCase(entered);
  }

  /**
   * A join is refused as expired or closed exactly when the dashboard does not
   * offer "End Exam" for the exam the code finds.
   */
  lemma JoinableIffEndOffered(exams: seq<Exam>, subs: seq<ExamSubmission>, profile: Option<StudentProfile>,
                              entered: string, now: int, exam: Exam)
    requires FindExam(exams, NormalizeCode(entered)) == Some(exam)
    ensures CheckJoin(exams, subs, profile, entered, now) in {Err(ExpiredExam), Err(ClosedExam)} <==> !CanEnd(exam, now)
  {
  }

  /** Once the teacher ends an exam, its code is refused (as expired or as closed). */
  lemma EndedExamRefused(exams: seq<Exam>, id: string, subs: seq<ExamSubmission>, profile: Option<StudentProfile>,
                         entered: string, now: int)
    requires ExamIndex(exams, NormalizeCode(entered)) >= 0
    requires exams[ExamIndex(exams, NormalizeCode(entered))].id == id
    ensures CheckJoin(EndExams(exams, id), subs, profile, entered, now) in {Err(ExpiredExam), Err(ClosedExam)}
  {
    var code := NormalizeCode(entered);
    EndExamsEffect(exams, id, now);
    EndKeepsIndex(exams, id, code);
  }

  /** Ending exams changes no code, so a code finds the same position as before. */
  lemma EndKeepsIndex(exams: seq<Exam>, id: string, code: string)
    ensures ExamIndex(EndExams(exams, id), code) == ExamIndex(exams, code)
  {
  }

  /** Grading keeps every submission's exam and student, so it changes no join's outcome. */
  lemma GradingKeepsJoin(exams: seq<Exam>, subs: seq<ExamSubmission>, sid: string, text: string,
                         profile: Option<StudentProfile>, entered: string, now: int)
    ensures CheckJoin(exams, Graded(subs, sid, text), profile, entered, now) == CheckJoin(exams, subs, profile, entered, now)
  {
    var g := Graded(subs, sid, text);
    forall code, student
      ensures Submitted(g, code, student) <==> Submitted(subs, code, student)
    {
      if Submitted(subs, code, student) {
        var i :| 0 <= i < |subs| && subs[i].examCode == code && subs[i].studentCode == student;
        assert g[i].examCode == code && g[i].studentCode == student;
      }
      if Submitted(g, code, student) {
        var i :| 0 <= i < |g| && g[i].examCode == code && g[i].studentCode == student;
        assert subs[i].examCode == code && subs[i].studentCode == student;
      }
    }
  }

  /**
   * A freshly created exam whose code no other exam has can be joined with
   * that code until its deadline by a student who has not submitted it.
   */
  lemma CreatedExamJoinable(exams: seq<Exam>, subs: seq<ExamSubmission>, profile: Option<StudentProfile>,
                            form: ExamForm, created: nat, code: string, validUntil: int, now: int)
    requires forall j :: 0 <= j < |exams| ==> exams[j].code != code
    requires NormalizeCode(code) == code && now <= validUntil
    requires profile.Some? ==> !Submitted(subs, code, profile.value.code)
    ensures CheckJoin(exams + [NewExam(form, created, code, validUntil)], subs, profile, code, now)
      == Ok(NewExam(form, created, code, validUntil))
  {
    var all := exams + [NewExam(form, created, code, validUntil)];
    assert all[|exams|] == NewExam(form, created, code, validUntil);
    FindLast(all, code);
  }

  /** When only the last exam has the code, the lookup finds it. */
  lemma {:induction false} FindLast(exams: seq<Exam>, code: string)
    requires |exams| > 0 && exams[|exams| - 1].code == code
    requires forall j :: 0 <= j < |exams| - 1 ==> exams[j].code != code
    ensures FindExam(exams, code) == Some(exams[|exams| - 1])
    decreases |exams|
  {
    if |exams| > 1 {
      FindLast(exams[1..], code);
    }
  }

  /** The second message of a successful join: the limit in whole minutes. */
  function MinutesText(exam: Exam): string {
    "You have " + IntText(exam.timeLimit / 60) + " minutes to complete the task"
  }

  /** The join modal's own state. */
  class JoinModal {
    var examCode: string
    var error: string
    var closed: bool

    constructor()
      ensures examCode == "" && error == "" && !closed
    {
      examCode, error, closed := "", "", false;
    }

    /** Typing into the field stores the text upper-cased and clears the error. */
    method Type(text: string)
      modifies this
      ensures examCode == ToUpper(text) && error == "" && closed == old(closed)
    {
      examCode := ToUpper(text);
      error := "";
    }

    /** The join button is enabled only for a code of exactly six characters. */
    predicate CanSubmit()
      reads this
    {
      |examCode| == 6
    }

    /**
     * `handleJoin`: a refusal only sets the error; a join sets the active exam,
     * starts the timer at `now` with the exam's whole limit, logs two messages
     * and sets `closed` for the host's `onClose`, which `JoinInWorkspace` runs.
     */
    method Join(ws: Workspace, now: nat)
      requires ws.Valid()
      modifies this, ws
      ensures ws.Valid()
      ensures var r := CheckJoin(old(ws.exams), old(ws.submissions), old(ws.studentProfile), old(examCode), now);
        (r.Err? ==> error == ErrorText(r.error) && closed == old(closed) && unchanged(ws))
        && (r.Ok? ==>
          ws.activeExam == Some(r.value) && ws.examStartTime == Some(now)
          && ws.examTimeRemaining == Some(r.value.timeLimit)
          && ws.feedbackMessages == Prepend(Prepend(old(ws.feedbackMessages),
               Message(Success, "Joined exam: " + r.value.title, now)), Message(Info, MinutesText(r.value), now))
          && closed && error == old(error)
          && ws.KeepsRecords() && ws.KeepsCanvas() && ws.matchState == old(ws.matchState))
      ensures examCode == old(examCode)
    {
      var r := CheckJoin(ws.exams, ws.submissions, ws.studentProfile, examCode, now);
      match r
      case Err(e) =>
        error := ErrorText(e);
      case Ok(exam) =>
        ws.StartExam(exam, now);
        ws.AddFeedback(Success, "Joined exam: " + exam.title, now);
        ws.AddFeedback(Info, MinutesText(exam), now);
        closed := true;
    }
  }

  // ------------------------------------------------------------- the host page

  /**
   * The workspace page's `handleExamModalClose`, passed to the modal as
   * `onClose`. It reads the active exam of the render that created it
   * (`rendered`): when there was none it clears the mode, which from a mode
   * resets all mode state, and returns to the dashboard.
   */
  method CloseExamModal(ws: Workspace, rendered: Option<Exam>)
    requires ws.Valid()
    modifies ws
    ensures ws.Valid()
    ensures rendered.None? && old(ws.workspaceMode).Some? ==> LeftWorkspace(ws)
    ensures rendered.None? && old(ws.workspaceMode).None? ==>
      ws.workspaceMode == None && ws.currentView == DashboardView
      && ws.KeepsModeState() && ws.KeepsCanvas() && ws.feedbackMessages == old(ws.feedbackMessages)
      && ws.studentProfile == old(ws.studentProfile) && ws.exams == old(ws.exams)
      && ws.submissions == old(ws.submissions) && ws.scoreboard == old(ws.scoreboard)
      && ws.flashcards == old(ws.flashcards)
    ensures rendered.Some? ==> unchanged(ws)
  {
    if rendered.None? {
      ws.SetWorkspaceMode(None);
      ws.currentView := DashboardView;
    }
  }

  /**
   * `handleJoin` inside the workspace page. The modal is on screen only in
   * exam mode with no active exam, so its `onClose` comes from a render with
   * no active exam: a join that passes every check is undone at once. The
   * exam, its timer, the two messages and the canvas are cleared and the
   * student is back on the dashboard; a refusal only sets the error.
   */
  method JoinInWorkspace(modal: JoinModal, ws: Workspace, now: nat)
    requires ws.Valid() && ws.workspaceMode == Some(ExamMode) && ws.activeExam == None
    modifies modal, ws
    ensures ws.Valid()
    ensures var r := CheckJoin(old(ws.exams), old(ws.submissions), old(ws.studentProfile), old(modal.examCode), now);
      (r.Err? ==> modal.error == ErrorText(r.error) && unchanged(ws))
      && (r.Ok? ==> modal.closed && LeftWorkspace(ws))
  {
    var rendered := ws.activeExam;
    var r := CheckJoin(ws.exams, ws.submissions, ws.studentProfile, modal.examCode, now);
    modal.Join(ws, now);
    if r.Ok? {
      CloseExamModal(ws, rendered);
    }
  }
}
