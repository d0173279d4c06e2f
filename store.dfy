/**
 * The Pico Lab store: the workspace graph, the newest-first feedback log, the
 * bounded undo/redo snapshot history, the scoreboard, the flashcards, the exam
 * and match state, and the resets run when the workspace mode changes.
 *
 * Each operation that rewrites a list of the store is first stated as a pure
 * function of the old list (`Prepend`, `Push`, `UndoHistory`, `RedoHistory`, `UpdateBoard`,
 * `AddCard`, `RemoveCard`); the `Workspace` methods assign the fields to those
 * functions' results. The clock `now` (milliseconds) is a parameter, and the
 * ids made from it are `now.toString()`.
 */
module PicoLabStore {
  import opened Wrappers
  import opened PicoTypes
  import Text
  import opened Lists

  function Min(a: int, b: int): int {
    if a <= b then a else b
  }

  function Max(a: int, b: int): int {
    if a >= b then a else b
  }

  // ------------------------------------------------------------ feedback log

  /** The most messages the log keeps. */
  const LogLimit := 50

  /** A message stamped with the clock; its id is the clock reading as a decimal string. */
  function Message(kind: FeedbackKind, text: string, now: nat): FeedbackMessage {
    FeedbackMessage(Text.Decimal(now), kind, text, now)
  }

  /** `[m, ...log].slice(0, 50)`: the new message first, then the newest part of the old log. */
  function Prepend(log: seq<FeedbackMessage>, m: FeedbackMessage): (r: seq<FeedbackMessage>)
    ensures |r| == Min(|log| + 1, LogLimit)
    ensures r[0] == m && r[1..] == log[..|r| - 1]
  {
    var all := [m] + log;
    assert all[1..] == log;
    if |all| <= LogLimit then all else all[..LogLimit]
  }

  /** Adds the messages one after the other, as a run of `addFeedback` calls does. */
  function AddAll(log: seq<FeedbackMessage>, ms: seq<FeedbackMessage>): seq<FeedbackMessage>
    decreases |ms|
  {
    if |ms| == 0 then log else Prepend(AddAll(log, ms[..|ms| - 1]), ms[|ms| - 1])
  }

  /**
   * After a run of messages the log holds at most 50, the last message added is
   * first, and as long as nothing was dropped the log reads the run backwards
   * followed by the old log.
   */
  lemma {:induction false} AddAllNewestFirst(log: seq<FeedbackMessage>, ms: seq<FeedbackMessage>)
    ensures |AddAll(log, ms)| == Min(|log| + |ms|, LogLimit) || (|ms| == 0 && |log| > LogLimit)
    ensures |ms| > 0 ==> AddAll(log, ms)[0] == ms[|ms| - 1]
    ensures |log| + |ms| <= LogLimit ==> AddAll(log, ms) == Reverse(ms) + log
    decreases |ms|
  {
    if |ms| > 0 {
      var init := ms[..|ms| - 1];
      AddAllNewestFirst(log, init);
      if |log| + |ms| <= LogLimit {
        assert Reverse(ms) == [ms[|ms| - 1]] + Reverse(init);
      }
    }
  }

  function Reverse<T>(s: seq<T>): (r: seq<T>)
    ensures |r| == |s| && forall i :: 0 <= i < |s| ==> r[i] == s[|s| - 1 - i]
    decreases |s|
  {
    if |s| == 0 then [] else [s[|s| - 1]] + Reverse(s[..|s| - 1])
  }

  // ---------------------------------------------------------------- history

  /** A value copy of the workspace graph. */
  datatype Snapshot = Snapshot(components: seq<Component>, wires: seq<Wire>, connections: seq<Connection>)

  /** The snapshot list and the pointer into it. */
  datatype History = History(snaps: seq<Snapshot>, index: int)

  /** The most snapshots the history keeps. */
  const HistoryLimit := 50

  /** What the store keeps true of its history: the pointer is -1 exactly when the list is empty, and otherwise in range. */
  predicate HistoryValid(h: History) {
    -1 <= h.index < |h.snaps| <= HistoryLimit && (h.index == -1 <==> h.snaps == [])
  }

  const NoHistory := History([], -1)

  /** `pushHistory`: drops the snapshots after the pointer, appends `s`, keeps the last 50 and moves the pointer to `min(index + 1, 49)`. */
  function Push(h: History, s: Snapshot): (r: History)
    requires HistoryValid(h)
    ensures HistoryValid(r)
    ensures r.index == |r.snaps| - 1 == Min(h.index + 1, HistoryLimit - 1)
    ensures r.snaps[r.index] == s
    ensures r.snaps[..r.index] == h.snaps[h.index + 1 - r.index..h.index + 1]
  {
    var all := h.snaps[..h.index + 1] + [s];
    var kept := if |all| <= HistoryLimit then all else all[|all| - HistoryLimit..];
    assert kept[..|kept| - 1] == h.snaps[h.index + 2 - |kept|..h.index + 1];
    History(kept, Min(h.index + 1, HistoryLimit - 1))
  }

  /** `canUndo` */
  predicate CanUndo(h: History) {
    h.index > 0
  }

  /** `canRedo` */
  predicate CanRedo(h: History) {
    h.index < |h.snaps| - 1
  }

  /** `undo`: nothing unless the pointer is above 0; otherwise the snapshot before the pointer is restored and the pointer steps back. */
  function UndoHistory(h: History): (r: Option<(History, Snapshot)>)
    requires HistoryValid(h)
    ensures r.Some? <==> CanUndo(h)
    ensures r.Some? ==> (HistoryValid(r.value.0) && r.value.0.snaps == h.snaps
                         && r.value.0.index == h.index - 1 && r.value.1 == h.snaps[r.value.0.index])
  {
    if h.index <= 0 then None else Some((History(h.snaps, h.index - 1), h.snaps[h.index - 1]))
  }

  /** `redo`: nothing when the pointer is at the last snapshot; otherwise the snapshot after the pointer is restored and the pointer steps forward. */
  function RedoHistory(h: History): (r: Option<(History, Snapshot)>)
    requires HistoryValid(h)
    ensures r.Some? <==> CanRedo(h)
    ensures r.Some? ==> (HistoryValid(r.value.0) && r.value.0.snaps == h.snaps
                         && r.value.0.index == h.index + 1 && r.value.1 == h.snaps[r.value.0.index])
  {
    if h.index >= |h.snaps| - 1 then None else Some((History(h.snaps, h.index + 1), h.snaps[h.index + 1]))
  }

  /** Undo followed by redo gives back the history, pointer included, and restores the snapshot the pointer was on. */
  lemma UndoThenRedo(h: History)
    requires HistoryValid(h) && CanUndo(h)
    ensures var (h1, _) := UndoHistory(h).value;
      RedoHistory(h1).Some? && RedoHistory(h1).value == (h, h.snaps[h.index])
  {
  }

  /** Redo followed by undo gives back the history, pointer included. */
  lemma RedoThenUndo(h: History)
    requires HistoryValid(h) && CanRedo(h) && h.index >= 0
    ensures var (h1, _) := RedoHistory(h).value;
      UndoHistory(h1).Some? && UndoHistory(h1).value == (h, h.snaps[h.index])
  {
  }

  /**
   * After a push there is nothing to redo, and undo restores the snapshot the
   * pointer was on before the push (the one taken before the previous edit),
   * not the pushed one.
   */
  lemma PushThenUndo(h: History, s: Snapshot)
    requires HistoryValid(h) && h.index >= 0
    ensures !CanRedo(Push(h, s))
    ensures UndoHistory(Push(h, s)).Some? && UndoHistory(Push(h, s)).value.1 == h.snaps[h.index]
  {
    var r := Push(h, s);
    assert r.snaps[r.index - 1] == r.snaps[..r.index][r.index - 1];
  }

  /**
   * After a single push onto an empty history nothing can be undone; after
   * two pushes undo restores the first snapshot, skipping the second.
   */
  lemma UndoSkipsLatestEdit(s0: Snapshot, s1: Snapshot)
    ensures !CanUndo(Push(NoHistory, s0))
    ensures UndoHistory(Push(Push(NoHistory, s0), s1)) == Some((History([s0, s1], 0), s0))
  {
    PushOnto(NoHistory, s0);
    assert [] + [s0] == [s0];
    PushOnto(History([s0], 0), s1);
    assert [s0] + [s1] == [s0, s1];
  }

  /** Below the limit, with the pointer on the last snapshot, a push only appends. */
  lemma PushOnto(h: History, s: Snapshot)
    requires HistoryValid(h) && h.index == |h.snaps| - 1 < HistoryLimit - 1
    ensures Push(h, s) == History(h.snaps + [s], h.index + 1)
  {
    var r := Push(h, s);
    assert r.snaps[..r.index] == h.snaps;
    assert r.snaps == r.snaps[..r.index] + [s];
  }

  // -------------------------------------------------------------- scoreboard

  /** `Partial<ScoreboardEntry>`: every field optional. */
  datatype ScoreUpdate = ScoreUpdate(
    studentCode: Option<string>,
    name: Option<string>,
    totalTasks: Option<int>,
    completedTasks: Option<int>,
    practiceCircuits: Option<int>,
    matchesWon: Option<int>,
    matchesLost: Option<int>,
    examScores: Option<seq<ExamScore>>,
    accuracy: Option<int>,
    timeSpent: Option<int>,
    points: Option<int>)

  const NoUpdate := ScoreUpdate(None, None, None, None, None, None, None, None, None, None, None)

  /** `{ ...e, ...u }`: every field `u` supplies replaces the entry's. */
  function Overwrite(e: ScoreboardEntry, u: ScoreUpdate): ScoreboardEntry {
    ScoreboardEntry(
      u.studentCode.GetOr(e.studentCode), u.name.GetOr(e.name), u.totalTasks.GetOr(e.totalTasks),
      u.completedTasks.GetOr(e.completedTasks), u.practiceCircuits.GetOr(e.practiceCircuits),
      u.matchesWon.GetOr(e.matchesWon), u.matchesLost.GetOr(e.matchesLost), u.examScores.GetOr(e.examScores),
      u.accuracy.GetOr(e.accuracy), u.timeSpent.GetOr(e.timeSpent), u.points.GetOr(e.points))
  }

  /** An existing entry updated: the four counters are summed (a missing one counts as 0), every other supplied field overwrites. */
  function Merge(e: ScoreboardEntry, u: ScoreUpdate): (r: ScoreboardEntry)
    ensures r.matchesWon == e.matchesWon + u.matchesWon.GetOr(0)
    ensures r.matchesLost == e.matchesLost + u.matchesLost.GetOr(0)
    ensures r.points == e.points + u.points.GetOr(0)
    ensures r.practiceCircuits == e.practiceCircuits + u.practiceCircuits.GetOr(0)
    ensures r.completedTasks == u.completedTasks.GetOr(e.completedTasks)
    ensures r.totalTasks == u.totalTasks.GetOr(e.totalTasks)
    ensures r.studentCode == u.studentCode.GetOr(e.studentCode) && r.name == u.name.GetOr(e.name)
    ensures r.examScores == u.examScores.GetOr(e.examScores)
    ensures r.accuracy == u.accuracy.GetOr(e.accuracy) && r.timeSpent == u.timeSpent.GetOr(e.timeSpent)
  {
    Overwrite(e, u).(
      matchesWon := e.matchesWon + u.matchesWon.GetOr(0),
      matchesLost := e.matchesLost + u.matchesLost.GetOr(0),
      points := e.points + u.points.GetOr(0),
      practiceCircuits := e.practiceCircuits + u.practiceCircuits.GetOr(0))
  }

  /** The entry a first update creates: the profile's code and name, every number 0, no exam scores, then the update's fields on top. */
  function FreshEntry(p: StudentProfile, u: ScoreUpdate): ScoreboardEntry {
    Overwrite(ScoreboardEntry(p.code, p.name, 0, 0, 0, 0, 0, [], 0, 0, 0), u)
  }

  /** `findIndex(e => e.studentCode === code)`: the first position with that code, or -1. */
  function FindEntry(board: seq<ScoreboardEntry>, code: string): (k: int)
    ensures -1 <= k < |board|
    ensures k >= 0 ==> board[k].studentCode == code && forall j :: 0 <= j < k ==> board[j].studentCode != code
    ensures k < 0 ==> forall j :: 0 <= j < |board| ==> board[j].studentCode != code
    decreases |board|
  {
    if |board| == 0 then -1
    else if board[0].studentCode == code then 0
    else var k := FindEntry(board[1..], code); if k < 0 then -1 else k + 1
  }

  /** `updateScore(u)` on the board, for the signed-in profile (if any). */
  function UpdateBoard(board: seq<ScoreboardEntry>, profile: Option<StudentProfile>, u: ScoreUpdate): seq<ScoreboardEntry> {
    match profile
    case None => board
    case Some(p) =>
      var k := FindEntry(board, p.code);
      if k >= 0 then board[k := Merge(board[k], u)] else board + [FreshEntry(p, u)]
  }

  /**
   * Without a profile nothing changes. Otherwise the first entry with the
   * profile's code is merged and no other entry changes, or, when there is
   * none, one fresh entry is appended.
   */
  lemma UpdateBoardEffect(board: seq<ScoreboardEntry>, profile: Option<StudentProfile>, u: ScoreUpdate)
    ensures profile.None? ==> UpdateBoard(board, profile, u) == board
    ensures profile.Some? ==>
      var r := UpdateBoard(board, profile, u);
      if exists k :: 0 <= k < |board| && board[k].studentCode == profile.value.code then
        |r| == |board| && (exists k :: 0 <= k < |board| && board[k].studentCode == profile.value.code
                                        && r[k] == Merge(board[k], u) && forall j :: 0 <= j < |board| && j != k ==> r[j] == board[j])
      else
        r == board + [FreshEntry(profile.value, u)]
  {
    if profile.Some? {
      var k := FindEntry(board, profile.value.code);
      if k >= 0 {
        assert board[k].studentCode == profile.value.code;
      }
    }
  }

  /** An update that supplies nothing leaves an existing entry as it is. */
  lemma MergeNothing(e: ScoreboardEntry)
    ensures Merge(e, NoUpdate) == e
  {
  }

  /** Two counter-only updates add up: the second sees the first's points and wins. */
  lemma MergeAccumulates(e: ScoreboardEntry, won1: int, pts1: int, won2: int, pts2: int)
    ensures var u1 := NoUpdate.(matchesWon := Some(won1), points := Some(pts1));
      var u2 := NoUpdate.(matchesWon := Some(won2), points := Some(pts2));
      var r := Merge(Merge(e, u1), u2);
      r.points == e.points + pts1 + pts2 && r.matchesWon == e.matchesWon + won1 + won2
      && r == Merge(e, NoUpdate.(matchesWon := Some(won1 + won2), points := Some(pts1 + pts2)))
  {
  }

  // -------------------------------------------------------------- flashcards

  /** `addFlashcard(front, back)`: the new card, with the clock as id and creation time, goes last. */
  function AddCard(cards: seq<Flashcard>, front: string, back: string, now: nat): (r: seq<Flashcard>)
    ensures |r| == |cards| + 1 && r[..|cards|] == cards
    ensures r[|cards|] == Flashcard(Text.Decimal(now), front, back, now)
  {
    cards + [Flashcard(Text.Decimal(now), front, back, now)]
  }

  /** The test "has an id other than `id`". */
  function OtherCard(id: string): Flashcard -> bool {
    (f: Flashcard) => f.id != id
  }

  /**
   * `cards.filter(f => f.id !== id)`: the cards with another id, each as often
   * as in the deck, in the deck's order, and no card with that id.
   */
  function RemoveCard(cards: seq<Flashcard>, id: string): (r: seq<Flashcard>)
    ensures |r| <= |cards|
    ensures forall c :: multiset(r)[c] == if c.id == id then 0 else multiset(cards)[c]
    ensures SubList(r, cards)
  {
    FilterMultiset(cards, OtherCard(id));
    FilterSubList(cards, OtherCard(id));
    Filter(cards, OtherCard(id))
  }

  /** Removing an id no card has changes nothing. */
  lemma RemoveAbsent(cards: seq<Flashcard>, id: string)
    requires forall k :: 0 <= k < |cards| ==> cards[k].id != id
    ensures RemoveCard(cards, id) == cards
  {
    FilterAll(cards, OtherCard(id));
  }

  /** Adding a card whose id is new and removing that id gives back the deck. */
  lemma AddThenRemove(cards: seq<Flashcard>, front: string, back: string, now: nat)
    requires forall k :: 0 <= k < |cards| ==> cards[k].id != Text.Decimal(now)
    ensures RemoveCard(AddCard(cards, front, back, now), Text.Decimal(now)) == cards
  {
    var r := AddCard(cards, front, back, now);
    assert r[..|r| - 1] == cards;
    RemoveAbsent(cards, Text.Decimal(now));
  }

  // ---------------------------------------------------------------- the store

  /** The canvas pin the user clicked first. */
  datatype PinRef = PinRef(componentId: string, pinId: string)

  class Workspace {
    var workspaceMode: Option<WorkspaceMode>
    var currentView: AppView
    var studentProfile: Option<StudentProfile>
    var components: seq<Component>
    var wires: seq<Wire>
    var connections: seq<Connection>
    var isSimulating: bool
    var activeFault: Option<Fault>
    var feedbackMessages: seq<FeedbackMessage>
    var exams: seq<Exam>
    var activeExam: Option<Exam>
    var examTimeRemaining: Option<int>
    var examStartTime: Option<int>
    /**
     * The canvas the exam timer's callback reads. The timer is set up again
     * whenever the mode, the active exam or its start time changes, and its
     * callback keeps the canvas of that render: later edits are not seen.
     */
    var examCanvas: Snapshot
    var submissions: seq<ExamSubmission>
    var scoreboard: seq<ScoreboardEntry>
    var flashcards: seq<Flashcard>
    var history: History
    var matchState: MatchState
    var selectedPin: Option<PinRef>
    var selectedComponent: Option<string>

    /** The store's invariant: a well-formed history and a log of at most 50 messages. */
    predicate Valid()
      reads this
    {
      HistoryValid(history) && |feedbackMessages| <= LogLimit
    }

    /** The graph on the canvas, as a snapshot value. */
    function Graph(): Snapshot
      reads this
    {
      Snapshot(components, wires, connections)
    }

    /** The mode, the view and the signed-in profile are as before. */
    twostate predicate KeepsSession()
      reads this
    {
      old(workspaceMode) == workspaceMode && old(currentView) == currentView
      && old(studentProfile) == studentProfile
    }

    /** The persisted records and the session (everything no workspace operation touches) are as before. */
    twostate predicate KeepsRecords()
      reads this
    {
      KeepsSession() && old(exams) == exams
      && old(submissions) == submissions && old(scoreboard) == scoreboard && old(flashcards) == flashcards
    }

    /** The running exam, its timer and the canvas the timer reads are as before. */
    twostate predicate KeepsExam()
      reads this
    {
      old(activeExam) == activeExam && old(examTimeRemaining) == examTimeRemaining
      && old(examStartTime) == examStartTime && old(examCanvas) == examCanvas
    }

    /** The exam and match state are as before. */
    twostate predicate KeepsModeState()
      reads this
    {
      KeepsExam() && old(matchState) == matchState
    }

    /** The canvas: graph, simulation flag, fault, selections and history are as before. */
    twostate predicate KeepsCanvas()
      reads this
    {
      old(components) == components && old(wires) == wires && old(connections) == connections
      && old(isSimulating) == isSimulating && old(activeFault) == activeFault
      && old(selectedPin) == selectedPin && old(selectedComponent) == selectedComponent
      && old(history) == history
    }

    /** The provider's initial state. */
    constructor()
      ensures Valid()
      ensures workspaceMode == None && currentView == AuthView && studentProfile == None
      ensures components == [] && wires == [] && connections == [] && !isSimulating && activeFault == None
      ensures feedbackMessages == [] && exams == [] && activeExam == None && examTimeRemaining == None
      ensures examStartTime == None && submissions == [] && scoreboard == [] && flashcards == []
      ensures examCanvas == Snapshot([], [], [])
      ensures history == NoHistory && matchState == BareMatch(Idle)
      ensures selectedPin == None && selectedComponent == None
    {
      workspaceMode := None;
      currentView := AuthView;
      studentProfile := None;
      components, wires, connections := [], [], [];
      isSimulating, activeFault := false, None;
      feedbackMessages := [];
      exams, activeExam, examTimeRemaining, examStartTime, submissions := [], None, None, None, [];
      examCanvas := Snapshot([], [], []);
      scoreboard, flashcards := [], [];
      history := NoHistory;
      matchState := BareMatch(Idle);
      selectedPin, selectedComponent := None, None;
    }

    /** `setComponents`, `setWires` and `setConnections` together. */
    method SetGraph(g: Snapshot)
      requires Valid()
      modifies this
      ensures Valid()
      ensures Graph() == g && feedbackMessages == old(feedbackMessages) && history == old(history)
      ensures old(isSimulating) == isSimulating && old(activeFault) == activeFault
      ensures old(selectedPin) == selectedPin && old(selectedComponent) == selectedComponent
      ensures KeepsRecords() && KeepsModeState()
    {
      components, wires, connections := g.components, g.wires, g.connections;
    }

    /** `setExams(es)` */
    method SetExams(es: seq<Exam>)
      requires Valid()
      modifies this
      ensures Valid()
      ensures exams == es && old(feedbackMessages) == feedbackMessages && KeepsModeState() && KeepsCanvas()
      ensures old(workspaceMode) == workspaceMode && old(currentView) == currentView
      ensures old(studentProfile) == studentProfile && old(submissions) == submissions
      ensures old(scoreboard) == scoreboard && old(flashcards) == flashcards
    {
      exams := es;
    }

    /** `setSubmissions(ss)` */
    method SetSubmissions(ss: seq<ExamSubmission>)
      requires Valid()
      modifies this
      ensures Valid()
      ensures submissions == ss && old(feedbackMessages) == feedbackMessages && KeepsModeState() && KeepsCanvas()
      ensures old(workspaceMode) == workspaceMode && old(currentView) == currentView
      ensures old(studentProfile) == studentProfile && old(exams) == exams
      ensures old(scoreboard) == scoreboard && old(flashcards) == flashcards
    {
      submissions := ss;
    }

    /** `setActiveExam(exam)`, `setExamStartTime(now)` and `setExamTimeRemaining(exam.timeLimit)` together. */
    method StartExam(exam: Exam, now: nat)
      requires Valid()
      modifies this
      ensures Valid()
      ensures activeExam == Some(exam) && examStartTime == Some(now) && examTimeRemaining == Some(exam.timeLimit)
      ensures examCanvas == Graph()
      ensures old(matchState) == matchState && old(feedbackMessages) == feedbackMessages
      ensures KeepsRecords() && KeepsCanvas()
    {
      activeExam, examStartTime, examTimeRemaining := Some(exam), Some(now), Some(exam.timeLimit);
      examCanvas := Graph();
    }

    /** `addFeedback(kind, text)` */
    method AddFeedback(kind: FeedbackKind, text: string, now: nat)
      requires Valid()
      modifies this
      ensures Valid()
      ensures feedbackMessages == Prepend(old(feedbackMessages), Message(kind, text, now))
      ensures KeepsRecords() && KeepsModeState() && KeepsCanvas()
    {
      feedbackMessages := Prepend(feedbackMessages, Message(kind, text, now));
    }

    /** `clearFeedback()` */
    method ClearFeedback()
      requires Valid()
      modifies this
      ensures Valid()
      ensures feedbackMessages == []
      ensures KeepsRecords() && KeepsModeState() && KeepsCanvas()
    {
      feedbackMessages := [];
    }

    /** `updateScore(u)` */
    method UpdateScore(u: ScoreUpdate)
      requires Valid()
      modifies this
      ensures Valid()
      ensures scoreboard == UpdateBoard(old(scoreboard), studentProfile, u)
      ensures old(feedbackMessages) == feedbackMessages && KeepsModeState() && KeepsCanvas()
      ensures old(workspaceMode) == workspaceMode && old(currentView) == currentView
      ensures old(studentProfile) == studentProfile && old(exams) == exams
      ensures old(submissions) == submissions && old(flashcards) == flashcards
    {
      scoreboard := UpdateBoard(scoreboard, studentProfile, u);
    }

    /** `addFlashcard(front, back)` */
    method AddFlashcard(front: string, back: string, now: nat)
      requires Valid()
      modifies this
      ensures Valid()
      ensures flashcards == AddCard(old(flashcards), front, back, now)
      ensures old(feedbackMessages) == feedbackMessages && KeepsModeState() && KeepsCanvas()
      ensures old(workspaceMode) == workspaceMode && old(currentView) == currentView
      ensures old(studentProfile) == studentProfile && old(exams) == exams
      ensures old(submissions) == submissions && old(scoreboard) == scoreboard
    {
      flashcards := AddCard(flashcards, front, back, now);
    }

    /** `removeFlashcard(id)` */
    method RemoveFlashcard(id: string)
      requires Valid()
      modifies this
      ensures Valid()
      ensures flashcards == RemoveCard(old(flashcards), id)
      ensures old(feedbackMessages) == feedbackMessages && KeepsModeState() && KeepsCanvas()
      ensures old(workspaceMode) == workspaceMode && old(currentView) == currentView
      ensures old(studentProfile) == studentProfile && old(exams) == exams
      ensures old(submissions) == submissions && old(scoreboard) == scoreboard
    {
      flashcards := RemoveCard(flashcards, id);
    }

    /** `pushHistory()`: snapshot the graph on the canvas. */
    method PushHistory()
      requires Valid()
      modifies this
      ensures Valid()
      ensures history == Push(old(history), old(Graph()))
      ensures history.index == |history.snaps| - 1
      ensures Graph() == old(Graph()) && old(feedbackMessages) == feedbackMessages
      ensures KeepsRecords() && KeepsModeState()
      ensures old(isSimulating) == isSimulating && old(activeFault) == activeFault
      ensures old(selectedPin) == selectedPin && old(selectedComponent) == selectedComponent
    {
      history := Push(history, Graph());
    }

    /** `undo()`: with something to undo, restores the graph, steps the pointer back and logs "Undo performed". */
    method Undo(now: nat)
      requires Valid()
      modifies this
      ensures Valid()
      ensures match UndoHistory(old(history))
        case None => history == old(history) && Graph() == old(Graph()) && feedbackMessages == old(feedbackMessages)
        case Some((h, s)) => (history == h && Graph() == s
                              && feedbackMessages == Prepend(old(feedbackMessages), Message(Info, "Undo performed", now)))
      ensures KeepsRecords() && KeepsModeState()
      ensures old(isSimulating) == isSimulating && old(activeFault) == activeFault
      ensures old(selectedPin) == selectedPin && old(selectedComponent) == selectedComponent
    {
      match UndoHistory(history)
      case None =>
      case Some((h, s)) =>
        components, wires, connections := s.components, s.wires, s.connections;
        history := h;
        feedbackMessages := Prepend(feedbackMessages, Message(Info, "Undo performed", now));
    }

    /** `redo()`: with something to redo, restores the graph, steps the pointer forward and logs "Redo performed". */
    method Redo(now: nat)
      requires Valid()
      modifies this
      ensures Valid()
      ensures match RedoHistory(old(history))
        case None => history == old(history) && Graph() == old(Graph()) && feedbackMessages == old(feedbackMessages)
        case Some((h, s)) => (history == h && Graph() == s
                              && feedbackMessages == Prepend(old(feedbackMessages), Message(Info, "Redo performed", now)))
      ensures KeepsRecords() && KeepsModeState()
      ensures old(isSimulating) == isSimulating && old(activeFault) == activeFault
      ensures old(selectedPin) == selectedPin && old(selectedComponent) == selectedComponent
    {
      match RedoHistory(history)
      case None =>
      case Some((h, s)) =>
        components, wires, connections := s.components, s.wires, s.connections;
        history := h;
        feedbackMessages := Prepend(feedbackMessages, Message(Info, "Redo performed", now));
    }

    /** `resetMatchState()` */
    method ResetMatchState()
      requires Valid()
      modifies this
      ensures Valid()
      ensures matchState == BareMatch(Idle)
      ensures KeepsRecords() && KeepsCanvas() && KeepsExam() && old(feedbackMessages) == feedbackMessages
    {
      matchState := BareMatch(Idle);
    }

    /** Empties the canvas: graph, simulation, fault, selections and history. */
    method ClearCanvas()
      requires Valid()
      modifies this
      ensures Valid()
      ensures components == [] && wires == [] && connections == []
      ensures !isSimulating && activeFault == None && selectedPin == None && selectedComponent == None
      ensures history == NoHistory
      ensures KeepsRecords() && KeepsModeState() && old(feedbackMessages) == feedbackMessages
    {
      SetGraph(Snapshot([], [], []));
      isSimulating, activeFault := false, None;
      selectedPin, selectedComponent := None, None;
      history := NoHistory;
    }

    /** `resetWorkspace()`: an empty canvas, and a log holding only "Workspace reset". */
    method ResetWorkspace(now: nat)
      requires Valid()
      modifies this
      ensures Valid()
      ensures components == [] && wires == [] && connections == []
      ensures !isSimulating && activeFault == None && selectedPin == None && selectedComponent == None
      ensures history == NoHistory
      ensures feedbackMessages == [Message(Info, "Workspace reset", now)]
      ensures KeepsRecords() && KeepsModeState()
    {
      ClearCanvas();
      ClearFeedback();
      AddFeedback(Info, "Workspace reset", now);
    }

    /** `resetAllModeState()`: no active exam, an idle match, an empty canvas and an empty log. */
    method ResetAllModeState()
      requires Valid()
      modifies this
      ensures Valid()
      ensures activeExam == None && examTimeRemaining == None && examStartTime == None
      ensures matchState == BareMatch(Idle)
      ensures components == [] && wires == [] && connections == []
      ensures !isSimulating && activeFault == None && selectedPin == None && selectedComponent == None
      ensures history == NoHistory && feedbackMessages == []
      ensures old(activeExam).Some? || old(examStartTime).Some? ==> examCanvas == Snapshot([], [], [])
      ensures old(activeExam).None? && old(examStartTime).None? ==> examCanvas == old(examCanvas)
      ensures KeepsRecords()
    {
      var timerInputsChange := activeExam.Some? || examStartTime.Some?;
      activeExam, examTimeRemaining, examStartTime := None, None, None;
      matchState := BareMatch(Idle);
      ClearCanvas();
      ClearFeedback();
      if timerInputsChange {
        examCanvas := Graph();
      }
    }

    /** `setWorkspaceMode(m)`: leaving a mode for a different one resets all mode state first. */
    method SetWorkspaceMode(m: Option<WorkspaceMode>)
      requires Valid()
      modifies this
      ensures Valid()
      ensures workspaceMode == m
      ensures old(workspaceMode).Some? && m != old(workspaceMode) ==>
        activeExam == None && examTimeRemaining == None && examStartTime == None && matchState == BareMatch(Idle)
        && Graph() == Snapshot([], [], []) && history == NoHistory && feedbackMessages == []
        && !isSimulating && activeFault == None && selectedPin == None && selectedComponent == None
      ensures !(old(workspaceMode).Some? && m != old(workspaceMode)) ==>
        old(activeExam) == activeExam && old(examTimeRemaining) == examTimeRemaining
        && old(examStartTime) == examStartTime && old(matchState) == matchState
        && KeepsCanvas() && old(feedbackMessages) == feedbackMessages
      ensures m != old(workspaceMode) ==> examCanvas == Graph()
      ensures m == old(workspaceMode) ==> examCanvas == old(examCanvas)
      ensures old(currentView) == currentView && old(studentProfile) == studentProfile && old(exams) == exams
      ensures old(submissions) == submissions && old(scoreboard) == scoreboard && old(flashcards) == flashcards
    {
      var changes := m != workspaceMode;
      if workspaceMode.Some? && changes {
        ResetAllModeState();
      }
      workspaceMode := m;
      if changes {
        examCanvas := Graph();
      }
    }
  }
}
