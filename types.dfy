/**
 * The records of the Pico Lab virtual electronics lab: pins, placed components,
 * wires and their mirror connections, exams and submissions, scoreboard
 * entries, flashcards, feedback messages, the play-mode match state and the
 * part definitions of the component library.
 *
 * Times are integers: `Date` values and `Date.now()` are milliseconds, exam
 * time limits are seconds. Coordinates are integers.
 */
module PicoTypes {
  import opened Wrappers
  import Text

  // ------------------------------------------------------------------ pins

  /** The electrical role of a pin: one of seven string literals. */
  datatype PinRole = Input | Output | Power | Ground | Analog | Digital | Gpio

  function RoleName(r: PinRole): string {
    match r
    case Input => "input"
    case Output => "output"
    case Power => "power"
    case Ground => "ground"
    case Analog => "analog"
    case Digital => "digital"
    case Gpio => "gpio"
  }

  /** Reads a role literal back; every other string is not a role. */
  function ParseRole(s: string): (r: Option<PinRole>)
    ensures r.Some? ==> RoleName(r.value) == s
  {
    if s == "input" then Some(Input)
    else if s == "output" then Some(Output)
    else if s == "power" then Some(Power)
    else if s == "ground" then Some(Ground)
    else if s == "analog" then Some(Analog)
    else if s == "digital" then Some(Digital)
    else if s == "gpio" then Some(Gpio)
    else None
  }

  /** Exactly the seven literals are roles, each read back as itself. */
  lemma RoleRoundTrip(r: PinRole, s: string)
    ensures ParseRole(RoleName(r)) == Some(r)
    ensures ParseRole(s).Some? <==> s in {"input", "output", "power", "ground", "analog", "digital", "gpio"}
  {
  }

  datatype Pin = Pin(id: string, name: string, role: PinRole, x: int, y: int)

  // ------------------------------------------------------------ components

  /** `value?: string | number` of a component or part definition. */
  datatype PartValue = TextValue(text: string) | NumberValue(number: int)

  /** The optional flags are the source's optional fields. */
  datatype ComponentState = ComponentState(
    powered: bool,
    active: bool,
    value: Option<int>,
    burnedOut: Option<bool>,
    shortCircuit: Option<bool>)

  /** A placed part; `ctype` is the part type string of the library (`'led-red'`, `'resistor'`, ...). */
  datatype Component = Component(
    id: string,
    ctype: string,
    name: string,
    x: int,
    y: int,
    rotation: int,
    pins: seq<Pin>,
    state: ComponentState,
    value: Option<PartValue>)

  // ------------------------------------------------------ wires, connections

  datatype WireColor = PowerWire | GroundWire | DataWire | SignalWire | CustomWire

  function WireColorName(c: WireColor): string {
    match c
    case PowerWire => "power"
    case GroundWire => "ground"
    case DataWire => "data"
    case SignalWire => "signal"
    case CustomWire => "custom"
  }

  /** The five colour literals are distinct. */
  lemma WireColorNamesDistinct(a: WireColor, b: WireColor)
    ensures WireColorName(a) == WireColorName(b) <==> a == b
  {
  }

  datatype Point = Point(x: int, y: int)

  datatype Wire = Wire(
    id: string,
    fromComponent: string,
    fromPin: string,
    toComponent: string,
    toPin: string,
    color: WireColor,
    points: seq<Point>)

  /** The redundant index entry of a wire: endpoints as "component-pin" keys. */
  datatype Connection = Connection(from: string, to: string, wireId: string)

  /** The "component-pin" key of a pin. */
  function PinKey(componentId: string, pinId: string): (k: string)
    ensures |k| == |componentId| + 1 + |pinId|
    ensures Text.StartsWith(k, componentId) && k[|componentId|] == '-'
  {
    componentId + "-" + pinId
  }

  /** Neither id is a proper prefix of the other. */
  predicate PrefixFree(c: string, id: string) {
    !Text.ProperPrefix(c, id) && !Text.ProperPrefix(id, c)
  }

  /**
   * When neither id is a proper prefix of the other, a key of `c` starts with
   * `id` exactly when `c` is `id`.
   */
  lemma KeyPrefix(c: string, p: string, id: string)
    requires PrefixFree(c, id)
    ensures Text.StartsWith(PinKey(c, p), id) <==> c == id
  {
    var k := PinKey(c, p);
    if |id| <= |c| {
      assert k[..|id|] == c[..|id|];
    } else if |id| <= |k| {
      assert k[..|id|][..|c|] == c;
    }
  }

  // -------------------------------------------------- exams and submissions

  /** `timeLimit` is in seconds, `validUntil` a clock reading in milliseconds. */
  datatype Exam = Exam(
    id: string,
    code: string,
    title: string,
    description: string,
    timeLimit: int,
    validUntil: int,
    components: seq<string>,
    createdBy: string,
    active: bool)

  datatype ExamSubmission = ExamSubmission(
    id: string,
    examCode: string,
    studentCode: string,
    components: seq<Component>,
    connections: seq<Connection>,
    submittedAt: int,
    score: Option<int>,
    feedback: Option<string>)

  datatype StudentProfile = StudentProfile(
    code: string,
    name: string,
    schoolClass: string,
    division: string,
    school: string,
    createdAt: int)

  datatype ExamScore = ExamScore(examCode: string, score: int)

  datatype ScoreboardEntry = ScoreboardEntry(
    studentCode: string,
    name: string,
    totalTasks: int,
    completedTasks: int,
    practiceCircuits: int,
    matchesWon: int,
    matchesLost: int,
    examScores: seq<ExamScore>,
    accuracy: int,
    timeSpent: int,
    points: int)

  datatype Flashcard = Flashcard(id: string, front: string, back: string, createdAt: int)

  // --------------------------------------------------------------- feedback

  datatype FeedbackKind = Success | Warning | Error | Info

  function KindName(k: FeedbackKind): string {
    match k
    case Success => "success"
    case Warning => "warning"
    case Error => "error"
    case Info => "info"
  }

  function ParseKind(s: string): (r: Option<FeedbackKind>)
    ensures r.Some? ==> KindName(r.value) == s
  {
    if s == "success" then Some(Success)
    else if s == "warning" then Some(Warning)
    else if s == "error" then Some(Error)
    else if s == "info" then Some(Info)
    else None
  }

  /** Exactly the four literals are message kinds, each read back as itself. */
  lemma KindRoundTrip(k: FeedbackKind, s: string)
    ensures ParseKind(KindName(k)) == Some(k)
    ensures ParseKind(s).Some? <==> s in {"success", "warning", "error", "info"}
  {
  }

  datatype FeedbackMessage = FeedbackMessage(id: string, kind: FeedbackKind, message: string, timestamp: int)

  // ------------------------------------------------------------- play mode

  datatype MatchStatus = Idle | Searching | Matched | Playing | Finished

  datatype MatchResult = Win | Lose | Draw

  function StatusName(s: MatchStatus): string {
    match s
    case Idle => "idle"
    case Searching => "searching"
    case Matched => "matched"
    case Playing => "playing"
    case Finished => "finished"
  }

  function ResultName(r: MatchResult): string {
    match r
    case Win => "win"
    case Lose => "lose"
    case Draw => "draw"
  }

  /** The five status literals and the three result literals are distinct. */
  lemma MatchNamesDistinct(a: MatchStatus, b: MatchStatus, x: MatchResult, y: MatchResult)
    ensures StatusName(a) == StatusName(b) <==> a == b
    ensures ResultName(x) == ResultName(y) <==> x == y
  {
  }

  /** `timeLimit` in seconds, `startTime` a clock reading in milliseconds. */
  datatype MatchState = MatchState(
    status: MatchStatus,
    opponentName: Option<string>,
    task: Option<string>,
    timeLimit: Option<int>,
    startTime: Option<int>,
    result: Option<MatchResult>)

  /** `{ status: s }` with every optional field absent. */
  function BareMatch(s: MatchStatus): MatchState {
    MatchState(s, None, None, None, None, None)
  }

  // ------------------------------------------------------- part definitions

  datatype Category = Microcontrollers | InputParts | OutputParts | PassiveParts | PowerParts | SensorParts | MotorParts

  /** The category literal, which is also the key of the grouped library. */
  function CategoryName(c: Category): string {
    match c
    case Microcontrollers => "microcontroller"
    case InputParts => "input"
    case OutputParts => "output"
    case PassiveParts => "passive"
    case PowerParts => "power"
    case SensorParts => "sensor"
    case MotorParts => "motor"
  }

  /** A pin of a part definition (a pin without its coordinates). */
  datatype PinSpec = PinSpec(id: string, name: string, role: PinRole)

  datatype ComponentDefinition = ComponentDefinition(
    ctype: string,
    name: string,
    category: Category,
    description: string,
    pins: seq<PinSpec>,
    width: int,
    height: int,
    defaultValue: Option<PartValue>)

  // ------------------------------------------------------------ app modes

  datatype WorkspaceMode = Practice | ExamMode | Play

  datatype AppView = AuthView | DashboardView | WorkspaceView | FlashcardsView | ScoreboardView | ProfileView

  /** The fault a teacher can inject (the three entries of the fault menu). */
  datatype Fault = LooseWire | WrongResistor | ShortCircuit
}
