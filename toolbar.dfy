/**
 * The workspace toolbar: the circuit evaluator behind "Run", the stop button,
 * the mm:ss formatter and the remaining-time formulas of the exam and match
 * timers, the match finish and home buttons, and exam submission.
 *
 * The evaluator emits feedback events in order. Its delayed effects (the
 * `setTimeout` callbacks) are returned as a list of `Delayed` actions that
 * `RunDelayed` applies later; the clock `now` is a parameter.
 */
module WorkspaceToolbar {
  import opened Wrappers
  import opened PicoTypes
  import opened Text
  import opened PicoLabStore
  import opened Lists

  /** A feedback event before it is stamped with the clock. */
  datatype Notice = Notice(kind: FeedbackKind, text: string)

  /** What a `setTimeout` callback of the toolbar does when it fires. */
  datatype DelayedAction =
    | StopSimulating(notice: Notice)  // stop the simulation and log the notice
    | Notify(notice: Notice)          // log the notice
    | ResetMatch                      // `resetMatchState()`
    | LeaveWorkspace                  // reset all mode state, leave the mode, go to the dashboard

  datatype Delayed = Delayed(delayMs: nat, action: DelayedAction)

  /** The events of a run, its delayed effects, and whether it sets `isSimulating`. */
  datatype SimResult = SimResult(notices: seq<Notice>, scheduled: seq<Delayed>, starts: bool)

  const EmptyCanvas := Notice(Warning, "Add components to the canvas first")
  const Started := Notice(Info, "Simulation started")
  const ShortDetected := Notice(Error, "\U{26A0}\U{FE0F} SHORT CIRCUIT DETECTED! Power supply overload!")
  const StopAfterShort := Delayed(1000, StopSimulating(Notice(Warning, "Simulation stopped due to short circuit")))
  const BurnedOut := Notice(Error, "\U{1F4A5} LED burned out! Missing current-limiting resistor")
  const NoResistor := Notice(Warning, "\U{26A0}\U{FE0F} LED connected without resistor - risk of burnout!")
  const LooseWireWarning := Delayed(2000, Notify(Notice(Warning, "\U{26A1} Loose wire detected! Connection interrupted.")))

  function LitNotice(led: Component): Notice {
    Notice(Success, led.name + " is lit!")
  }

  // ------------------------------------------------------- short-circuit scan

  /** `components.find(c => c.id === id)` */
  function FindComponent(cs: seq<Component>, id: string): (r: Option<Component>)
    ensures r.None? <==> forall k :: 0 <= k < |cs| ==> cs[k].id != id
    ensures r.Some? ==> (exists k :: 0 <= k < |cs| && cs[k] == r.value && r.value.id == id
                          && forall j :: 0 <= j < k ==> cs[j].id != id)
    decreases |cs|
  {
    if |cs| == 0 then None
    else if cs[0].id == id then Some(cs[0])
    else
      var r := FindComponent(cs[1..], id);
      assert r.Some? ==> (exists k :: 1 <= k < |cs| && cs[k] == r.value && r.value.id == id
                            && forall j :: 1 <= j < k ==> cs[j].id != id);
      r
  }

  /** `pins.find(p => p.id === id)`; an absent id (a missing split field) finds nothing. */
  function FindPin(pins: seq<Pin>, id: Option<string>): (r: Option<Pin>)
    ensures r.Some? ==> id.Some? && r.value in pins && r.value.id == id.value
    ensures r.None? ==> id.None? || forall p :: p in pins ==> p.id != id.value
    decreases |pins|
  {
    if id.None? || |pins| == 0 then None
    else if pins[0].id == id.value then Some(pins[0])
    else FindPin(pins[1..], id)
  }

  /** Field `k` of `s.split('-')`, or nothing past the last field. */
  function Field(s: string, k: nat): Option<string> {
    var fields := Split(s, '-');
    if k < |fields| then Some(fields[k]) else None
  }

  predicate HasRole(p: Option<Pin>, role: PinRole) {
    p.Some? && p.value.role == role
  }

  /**
   * The test `connections.some` applies: the first two `-`-separated fields of
   * each end name a component and one of its pins, and the two pins are a
   * power pin and a ground pin, in either order. An end that names no
   * component makes the connection harmless.
   */
  predicate IsShort(cs: seq<Component>, conn: Connection) {
    var fc := FindComponent(cs, Split(conn.from, '-')[0]);
    var tc := FindComponent(cs, Split(conn.to, '-')[0]);
    if fc.None? || tc.None? then false
    else
      var fp := FindPin(fc.value.pins, Field(conn.from, 1));
      var tp := FindPin(tc.value.pins, Field(conn.to, 1));
      (HasRole(fp, Power) && HasRole(tp, Ground)) || (HasRole(fp, Ground) && HasRole(tp, Power))
  }

  /** `hasShortCircuit` */
  function HasShortCircuit(cs: seq<Component>, conns: seq<Connection>): (r: bool)
    ensures r <==> exists k :: 0 <= k < |conns| && IsShort(cs, conns[k])
    decreases |conns|
  {
    if |conns| == 0 then false
    else if IsShort(cs, conns[0]) then true
    else
      var r := HasShortCircuit(cs, conns[1..]);
      assert r ==> exists k :: 1 <= k < |conns| && IsShort(cs, conns[k]);
      assert (exists k :: 0 <= k < |conns| && IsShort(cs, conns[k])) ==> r by {
        if exists k :: 0 <= k < |conns| && IsShort(cs, conns[k]) {
          var k :| 0 <= k < |conns| && IsShort(cs, conns[k]);
          assert conns[1..][k - 1] == conns[k];
        }
      }
      r
  }

  /**
   * When every component id contains '-', no connection is a short: the first
   * field of a split never contains the separator, so it names no component.
   * Ids made on the canvas (`comp-<n>`) all contain '-'.
   */
  lemma NoShortWithDashedIds(cs: seq<Component>, conns: seq<Connection>)
    requires forall k :: 0 <= k < |cs| ==> '-' in cs[k].id
    ensures !HasShortCircuit(cs, conns)
  {
    forall k | 0 <= k < |conns| ensures !IsShort(cs, conns[k]) {
      SplitHeadIsPrefix(conns[k].from, '-');
      assert FindComponent(cs, Split(conns[k].from, '-')[0]).None?;
    }
  }

  // ------------------------------------------------------------- LEDs, resistors

  predicate IsLed(c: Component) {
    Contains(c.ctype, "led")
  }

  /** `components.filter(c => c.type.includes('led'))` */
  function Leds(cs: seq<Component>): (r: seq<Component>)
    ensures |r| <= |cs|
    ensures forall c :: c in r <==> c in cs && IsLed(c)
    ensures forall c {:trigger multiset(r)[c]} :: multiset(r)[c] == if IsLed(c) then multiset(cs)[c] else 0
    ensures SubList(r, cs)
  {
    FilterMultiset(cs, IsLed);
    FilterSubList(cs, IsLed);
    Filter(cs, IsLed)
  }

  /** `resistors.length > 0` for `components.filter(c => c.type === 'resistor')` */
  predicate HasResistor(cs: seq<Component>) {
    exists k :: 0 <= k < |cs| && cs[k].ctype == "resistor"
  }

  predicate Touches(conn: Connection, id: string) {
    StartsWith(conn.from, id) || StartsWith(conn.to, id)
  }

  /** `connections.filter(c => c.from.startsWith(id) || c.to.startsWith(id)).length` */
  function TouchCount(conns: seq<Connection>, id: string): (n: nat)
    ensures n <= |conns|
    decreases |conns|
  {
    if |conns| == 0 then 0
    else TouchCount(conns[..|conns| - 1], id) + (if Touches(conns[|conns| - 1], id) then 1 else 0)
  }

  /** Both ends of a wire between two pins of one part start with the part's id, and the wire counts once for it. */
  lemma WireWithinPartCountsOnce(conns: seq<Connection>, id: string, p1: string, p2: string, w: string)
    ensures TouchCount(conns + [Connection(PinKey(id, p1), PinKey(id, p2), w)], id) == TouchCount(conns, id) + 1
  {
    var c := Connection(PinKey(id, p1), PinKey(id, p2), w);
    assert (conns + [c])[..|conns|] == conns;
  }

  /** The lit events of `leds.forEach`: one per LED with at least two touching connections, in order. */
  function LitNotices(leds: seq<Component>, conns: seq<Connection>): seq<Notice>
    decreases |leds|
  {
    if |leds| == 0 then []
    else
      var last := leds[|leds| - 1];
      LitNotices(leds[..|leds| - 1], conns) + (if TouchCount(conns, last.id) >= 2 then [LitNotice(last)] else [])
  }

  /** One more LED adds its own event, if any, at the end. */
  lemma LitNoticesStep(leds: seq<Component>, i: nat, conns: seq<Connection>)
    requires i < |leds|
    ensures LitNotices(leds[..i + 1], conns) ==
      LitNotices(leds[..i], conns) + (if TouchCount(conns, leds[i].id) >= 2 then [LitNotice(leds[i])] else [])
  {
    assert leds[..i + 1][..i] == leds[..i];
  }

  /** An LED gets a "lit" event exactly when it has at least two touching connections, and every event is one of these. */
  lemma {:induction false} LitNoticesExact(leds: seq<Component>, conns: seq<Connection>)
    ensures |LitNotices(leds, conns)| <= |leds|
    ensures forall k :: 0 <= k < |leds| && TouchCount(conns, leds[k].id) >= 2 ==> LitNotice(leds[k]) in LitNotices(leds, conns)
    ensures forall n :: n in LitNotices(leds, conns) ==>
      exists k :: 0 <= k < |leds| && TouchCount(conns, leds[k].id) >= 2 && n == LitNotice(leds[k])
    decreases |leds|
  {
    if |leds| > 0 {
      var init := leds[..|leds| - 1];
      LitNoticesExact(init, conns);
      forall n | n in LitNotices(leds, conns)
        ensures exists k :: 0 <= k < |leds| && TouchCount(conns, leds[k].id) >= 2 && n == LitNotice(leds[k])
      {
        if n in LitNotices(init, conns) {
          var k :| 0 <= k < |init| && TouchCount(conns, init[k].id) >= 2 && n == LitNotice(init[k]);
          assert leds[k] == init[k];
        } else {
          assert n == LitNotice(leds[|leds| - 1]);
        }
      }
      forall k | 0 <= k < |leds| && TouchCount(conns, leds[k].id) >= 2
        ensures LitNotice(leds[k]) in LitNotices(leds, conns)
      {
        if k < |leds| - 1 {
          assert leds[k] == init[k];
        }
      }
    }
  }

  // ------------------------------------------------------------ the evaluator

  /** `runSimulation` as a function of the canvas and the injected fault. */
  function Simulate(cs: seq<Component>, conns: seq<Connection>, fault: Option<Fault>): SimResult {
    if |cs| == 0 then SimResult([EmptyCanvas], [], false)
    else if HasShortCircuit(cs, conns) || fault == Some(ShortCircuit) then
      SimResult([Started, ShortDetected], [StopAfterShort], true)
    else
      var leds := Leds(cs);
      var resistorCheck := if |leds| > 0 && !HasResistor(cs) then
        [if fault == Some(WrongResistor) then BurnedOut else NoResistor] else [];
      var loose := if fault == Some(LooseWire) && |conns| > 0 then [LooseWireWarning] else [];
      SimResult([Started] + resistorCheck + LitNotices(leds, conns), loose, true)
  }

  /** The pass over the LEDs: a "lit" event for each one with at least two touching connections, in order. */
  method LitPass(leds: seq<Component>, conns: seq<Connection>) returns (notices: seq<Notice>)
    ensures notices == LitNotices(leds, conns)
  {
    notices := [];
    var i := 0;
    while i < |leds|
      invariant 0 <= i <= |leds|
      invariant notices == LitNotices(leds[..i], conns)
    {
      LitNoticesStep(leds, i, conns);
      if TouchCount(conns, leds[i].id) >= 2 {
        notices := notices + [LitNotice(leds[i])];
      }
      i := i + 1;
    }
    assert leds[..i] == leds;
  }

  /** `runSimulation`: the guards in order, then one pass over the LEDs. */
  method Evaluate(cs: seq<Component>, conns: seq<Connection>, fault: Option<Fault>) returns (r: SimResult)
    ensures r == Simulate(cs, conns, fault)
  {
    if |cs| == 0 {
      return SimResult([EmptyCanvas], [], false);
    }
    if HasShortCircuit(cs, conns) || fault == Some(ShortCircuit) {
      return SimResult([Started, ShortDetected], [StopAfterShort], true);
    }
    var leds := Leds(cs);
    var check := [];
    if |leds| > 0 && !HasResistor(cs) {
      check := [if fault == Some(WrongResistor) then BurnedOut else NoResistor];
    }
    var lit := LitPass(leds, conns);
    var scheduled := [];
    if fault == Some(LooseWire) && |conns| > 0 {
      scheduled := [LooseWireWarning];
    }
    r := SimResult([Started] + check + lit, scheduled, true);
  }

  /** With nothing on the canvas the run only warns; `isSimulating` is left as it is and nothing is scheduled. */
  lemma EmptyCanvasOnlyWarns(conns: seq<Connection>, fault: Option<Fault>)
    ensures Simulate([], conns, fault) == SimResult([EmptyCanvas], [], false)
  {
  }

  /**
   * Otherwise the run starts the simulation and logs "Simulation started"
   * first. A short (detected or injected) adds only its error and the delayed
   * stop: no resistor check and no lit events, even with no connections.
   */
  lemma ShortHaltsEvaluation(cs: seq<Component>, conns: seq<Connection>, fault: Option<Fault>)
    requires |cs| > 0
    ensures var r := Simulate(cs, conns, fault);
      r.starts && r.notices[0] == Started
      && (HasShortCircuit(cs, conns) || fault == Some(ShortCircuit) <==> r.notices == [Started, ShortDetected])
      && (HasShortCircuit(cs, conns) || fault == Some(ShortCircuit) ==> r.scheduled == [StopAfterShort])
  {
    if !(HasShortCircuit(cs, conns) || fault == Some(ShortCircuit)) {
      var leds := Leds(cs);
      var check := if |leds| > 0 && !HasResistor(cs) then
        [if fault == Some(WrongResistor) then BurnedOut else NoResistor] else [];
      var ns := Simulate(cs, conns, fault).notices;
      assert ns == [Started] + check + LitNotices(leds, conns);
      if |check| > 0 {
        assert ns[1] == check[0];
        assert BurnedOut != ShortDetected;
      } else if |LitNotices(leds, conns)| > 0 {
        LitNoticesExact(leds, conns);
        assert ns[1] == LitNotices(leds, conns)[0];
        assert LitNotices(leds, conns)[0] in LitNotices(leds, conns);
      } else {
        assert |ns| == 1;
      }
    }
  }

  /**
   * Without a short, an LED on a canvas with no resistor adds one event right
   * after "Simulation started": an error under the wrong-resistor fault,
   * otherwise a warning; the lit events follow either way.
   */
  lemma ResistorCheck(cs: seq<Component>, conns: seq<Connection>, fault: Option<Fault>)
    requires |cs| > 0 && !HasShortCircuit(cs, conns) && fault != Some(ShortCircuit)
    ensures var r := Simulate(cs, conns, fault);
      var check := if (exists k :: 0 <= k < |cs| && IsLed(cs[k])) && !HasResistor(cs) then
        [if fault == Some(WrongResistor) then BurnedOut else NoResistor] else [];
      r.notices == [Started] + check + LitNotices(Leds(cs), conns)
  {
    if exists k :: 0 <= k < |cs| && IsLed(cs[k]) {
      var k :| 0 <= k < |cs| && IsLed(cs[k]);
      assert cs[k] in Leds(cs);
    } else {
      FilterNone(cs, IsLed);
    }
  }

  /** The loose-wire fault changes no synchronous event; without a short it adds one delayed warning when there is a connection. */
  lemma LooseWireOnlySchedules(cs: seq<Component>, conns: seq<Connection>)
    ensures Simulate(cs, conns, Some(LooseWire)).notices == Simulate(cs, conns, None).notices
    ensures Simulate(cs, conns, Some(LooseWire)).starts == Simulate(cs, conns, None).starts
    ensures Simulate(cs, conns, Some(LooseWire)).scheduled == Simulate(cs, conns, None).scheduled
      + if |cs| > 0 && !HasShortCircuit(cs, conns) && |conns| > 0 then [LooseWireWarning] else []
    ensures Simulate(cs, conns, None).scheduled == if |cs| > 0 && HasShortCircuit(cs, conns) then [StopAfterShort] else []
  {
    if |cs| > 0 && !HasShortCircuit(cs, conns) {
      UnshortedRun(cs, conns, None);
      UnshortedRun(cs, conns, Some(LooseWire));
    }
  }

  /** A run on a non-empty canvas without a short, detected or injected. */
  lemma UnshortedRun(cs: seq<Component>, conns: seq<Connection>, fault: Option<Fault>)
    requires |cs| > 0 && !HasShortCircuit(cs, conns) && fault != Some(ShortCircuit)
    ensures Simulate(cs, conns, fault) == SimResult([Started]
      + (if |Leds(cs)| > 0 && !HasResistor(cs) then [if fault == Some(WrongResistor) then BurnedOut else NoResistor] else [])
      + LitNotices(Leds(cs), conns), if fault == Some(LooseWire) && |conns| > 0 then [LooseWireWarning] else [], true)
  {
  }

  // ------------------------------------------------------------- scenarios

  /**
   * On a part whose id has no '-', a wire from one of its power pins to one of
   * its ground pins (pin ids without '-', each the first pin of its id) is a
   * short.
   */
  lemma ShortFoundWithPlainIds(cs: seq<Component>, k: nat, i: nat, j: nat, w: string)
    requires k < |cs| && FindComponent(cs, cs[k].id) == Some(cs[k]) && '-' !in cs[k].id
    requires i < |cs[k].pins| && j < |cs[k].pins|
    requires '-' !in cs[k].pins[i].id && '-' !in cs[k].pins[j].id
    requires FindPin(cs[k].pins, Some(cs[k].pins[i].id)) == Some(cs[k].pins[i])
    requires FindPin(cs[k].pins, Some(cs[k].pins[j].id)) == Some(cs[k].pins[j])
    requires cs[k].pins[i].role == Power && cs[k].pins[j].role == Ground
    ensures IsShort(cs, Connection(PinKey(cs[k].id, cs[k].pins[i].id), PinKey(cs[k].id, cs[k].pins[j].id), w))
  {
    var id, p, q := cs[k].id, cs[k].pins[i].id, cs[k].pins[j].id;
    SplitAfterHead(id, '-', p);
    SplitAfterHead(id, '-', q);
    SplitWithoutSeparator(p, '-');
    SplitWithoutSeparator(q, '-');
    assert PinKey(id, p) == id + ['-'] + p && PinKey(id, q) == id + ['-'] + q;
    assert Split(PinKey(id, p), '-') == [id, p];
    assert Split(PinKey(id, q), '-') == [id, q];
  }

  const RedLed := Component("comp-2", "led-red", "LED (Red)", 0, 0, 0,
    [Pin("anode", "Anode (+)", Input, 10, 55), Pin("cathode", "Cathode (-)", Ground, 25, 55)],
    ComponentState(false, false, None, None, None), None)

  const Resistor := Component("comp-3", "resistor", "Resistor", 0, 0, 0,
    [Pin("pin1", "Pin 1", Input, 10, 15), Pin("pin2", "Pin 2", Output, 25, 15)],
    ComponentState(false, false, None, None, None), Some(TextValue("1000")))

  function Battery(id: string): Component {
    Component(id, "battery-9v", "9V Battery", 0, 0, 0,
      [Pin("positive", "+", Power, 10, 75), Pin("negative", "-", Ground, 25, 75)],
      ComponentState(false, false, None, None, None), None)
  }

  /** The LED type contains "led"; the resistor and battery types do not. */
  lemma ScenarioTypes(id: string)
    ensures IsLed(RedLed) && !IsLed(Resistor) && !IsLed(Battery(id))
  {
    assert OccursAt(RedLed.ctype, "led", 0);
    ContainsFirstChar(Resistor.ctype, "led");
    ContainsFirstChar(Battery(id).ctype, "led");
  }

  /** The LED of a battery-and-LED canvas, with or without the resistor. */
  lemma ScenarioLeds()
    ensures Leds([Battery("comp-1"), RedLed]) == [RedLed]
    ensures Leds([Battery("comp-1"), RedLed, Resistor]) == [RedLed]
  {
    ScenarioTypes("comp-1");
    var cs := [Battery("comp-1"), RedLed, Resistor];
    assert cs[..1] == [Battery("comp-1")] && cs[..2] == [Battery("comp-1"), RedLed];
    assert cs[..2][..1] == cs[..1];
    assert cs[..1][..0] == [];
    assert Filter(cs[..1], IsLed) == [];
    assert Filter(cs[..2], IsLed) == [RedLed];
  }

  /** A string that differs from `p` at position `i` does not start with `p`. */
  lemma Differs(s: string, p: string, i: nat)
    requires i < |p| && i < |s| && s[i] != p[i]
    ensures !StartsWith(s, p)
  {
    if |p| <= |s| {
      assert s[..|p|][i] == s[i];
    }
  }

  lemma TouchCountSnoc(conns: seq<Connection>, c: Connection, id: string)
    ensures TouchCount(conns + [c], id) == TouchCount(conns, id) + (if Touches(c, id) then 1 else 0)
  {
    assert (conns + [c])[..|conns|] == conns;
  }

  lemma OneLed(led: Component, conns: seq<Connection>)
    ensures LitNotices([led], conns) == if TouchCount(conns, led.id) >= 2 then [LitNotice(led)] else []
  {
    assert [led][..0] == [];
  }

  /** A run on a non-empty canvas with no short, detected or injected, and no loose-wire fault. */
  lemma CleanRun(cs: seq<Component>, conns: seq<Connection>, fault: Option<Fault>)
    requires |cs| > 0 && !HasShortCircuit(cs, conns) && (fault == None || fault == Some(WrongResistor))
    ensures Simulate(cs, conns, fault) == SimResult([Started]
      + (if |Leds(cs)| > 0 && !HasResistor(cs) then [if fault == None then NoResistor else BurnedOut] else [])
      + LitNotices(Leds(cs), conns), [], true)
  {
  }

  /**
   * A canvas with one LED and no short: "Simulation started", the resistor
   * warning (or error) when there is no resistor, then the lit event when two
   * connections touch the LED; nothing is scheduled.
   */
  lemma LoneLedRun(cs: seq<Component>, conns: seq<Connection>, led: Component, fault: Option<Fault>)
    requires |cs| > 0 && !HasShortCircuit(cs, conns) && Leds(cs) == [led]
    requires fault == None || fault == Some(WrongResistor)
    ensures Simulate(cs, conns, fault) == SimResult([Started]
      + (if HasResistor(cs) then [] else [if fault == None then NoResistor else BurnedOut])
      + (if TouchCount(conns, led.id) >= 2 then [LitNotice(led)] else []), [], true)
  {
    OneLed(led, conns);
    CleanRun(cs, conns, fault);
  }

  /** Battery to resistor, resistor to LED, LED to battery: two of the three wires touch the LED. */
  lemma SeriesWiring(conns: seq<Connection>)
    requires conns == [Connection(PinKey("comp-1", "positive"), PinKey("comp-3", "pin1"), "wire-1"),
                       Connection(PinKey("comp-3", "pin2"), PinKey("comp-2", "anode"), "wire-2"),
                       Connection(PinKey("comp-2", "cathode"), PinKey("comp-1", "negative"), "wire-3")]
    ensures TouchCount(conns, RedLed.id) == 2
  {
    var c0, c1, c2 := conns[0], conns[1], conns[2];
    assert "comp-1"[5] != "comp-2"[5] && "comp-3"[5] != "comp-2"[5];
    KeyPrefix("comp-1", "positive", "comp-2");
    KeyPrefix("comp-3", "pin1", "comp-2");
    TouchCountSnoc([], c0, "comp-2");
    TouchCountSnoc([c0], c1, "comp-2");
    TouchCountSnoc([c0, c1], c2, "comp-2");
    assert [] + [c0] == [c0] && [c0] + [c1] == [c0, c1] && [c0, c1] + [c2] == conns;
  }

  /** Battery straight to the LED and back: both wires touch the LED. */
  lemma DirectWiring(conns: seq<Connection>)
    requires conns == [Connection(PinKey("comp-1", "positive"), PinKey("comp-2", "anode"), "wire-1"),
                       Connection(PinKey("comp-2", "cathode"), PinKey("comp-1", "negative"), "wire-2")]
    ensures TouchCount(conns, RedLed.id) == 2
  {
    var c0, c1 := conns[0], conns[1];
    TouchCountSnoc([], c0, "comp-2");
    TouchCountSnoc([c0], c1, "comp-2");
    assert [] + [c0] == [c0] && [c0] + [c1] == conns;
  }

  /**
   * Battery, LED and resistor on canvas ids: whatever the wiring, no short is
   * seen; the LED is the only LED and there is a resistor.
   */
  lemma SeriesCanvas(cs: seq<Component>, conns: seq<Connection>)
    requires cs == [Battery("comp-1"), RedLed, Resistor]
    ensures !HasShortCircuit(cs, conns) && Leds(cs) == [RedLed] && HasResistor(cs)
  {
    NoShortWithDashedIds(cs, conns);
    ScenarioLeds();
    assert cs[2].ctype == "resistor";
  }

  /** Battery to resistor, resistor to LED, LED back to battery: the LED is lit with no warning. */
  lemma BatteryResistorLedLights(cs: seq<Component>, conns: seq<Connection>)
    requires cs == [Battery("comp-1"), RedLed, Resistor]
    requires conns == [Connection(PinKey("comp-1", "positive"), PinKey("comp-3", "pin1"), "wire-1"),
                       Connection(PinKey("comp-3", "pin2"), PinKey("comp-2", "anode"), "wire-2"),
                       Connection(PinKey("comp-2", "cathode"), PinKey("comp-1", "negative"), "wire-3")]
    ensures Simulate(cs, conns, None) == SimResult([Started, LitNotice(RedLed)], [], true)
  {
    SeriesCanvas(cs, conns);
    SeriesWiring(conns);
    LoneLedRun(cs, conns, RedLed, None);
  }

  /** Battery and LED on canvas ids: whatever the wiring, no short is seen; the LED is the only LED and there is no resistor. */
  lemma BareCanvas(cs: seq<Component>, conns: seq<Connection>)
    requires cs == [Battery("comp-1"), RedLed]
    ensures !HasShortCircuit(cs, conns) && Leds(cs) == [RedLed] && !HasResistor(cs)
  {
    NoShortWithDashedIds(cs, conns);
    ScenarioLeds();
    assert cs[0].ctype != "resistor" && cs[1].ctype != "resistor";
  }

  /**
   * An LED wired straight across the battery, with no resistor: the run warns
   * about the missing resistor (an error under the wrong-resistor fault) and
   * still reports the LED lit.
   */
  lemma LedWithoutResistorWarnsAndLights(cs: seq<Component>, conns: seq<Connection>, fault: Option<Fault>)
    requires cs == [Battery("comp-1"), RedLed]
    requires TouchCount(conns, RedLed.id) >= 2
    requires fault == None || fault == Some(WrongResistor)
    ensures Simulate(cs, conns, fault)
      == SimResult([Started, if fault == None then NoResistor else BurnedOut, LitNotice(RedLed)], [], true)
  {
    BareCanvas(cs, conns);
    LoneLedRun(cs, conns, RedLed, fault);
  }

  /** A battery's positive pin wired to its negative pin, on a canvas id: the scan misses it and the run only starts. */
  lemma DirectShortMissedWithCanvasId(cs: seq<Component>, conns: seq<Connection>)
    requires cs == [Battery("comp-1")]
    requires conns == [Connection("comp-1-positive", "comp-1-negative", "wire-1")]
    ensures !HasShortCircuit(cs, conns)
    ensures Simulate(cs, conns, None) == SimResult([Started], [], true)
  {
    LoneBattery(cs, conns);
    CleanRun(cs, conns, None);
  }

  lemma LoneBattery(cs: seq<Component>, conns: seq<Connection>)
    requires cs == [Battery("comp-1")]
    ensures !HasShortCircuit(cs, conns) && Leds(cs) == []
  {
    NoShortWithDashedIds(cs, conns);
    ScenarioTypes("comp-1");
    assert cs[..0] == [];
  }

  /** The battery of the plain-id scenario names a component the scan finds, and its two pins. */
  lemma PlainBattery(cs: seq<Component>)
    requires cs == [Battery("bat")]
    ensures FindComponent(cs, cs[0].id) == Some(cs[0]) && '-' !in cs[0].id
    ensures FindPin(cs[0].pins, Some(cs[0].pins[0].id)) == Some(cs[0].pins[0])
    ensures FindPin(cs[0].pins, Some(cs[0].pins[1].id)) == Some(cs[0].pins[1])
    ensures '-' !in cs[0].pins[0].id && '-' !in cs[0].pins[1].id
  {
  }

  /** The same wiring on a part with a plain id is found, and the run halts with the short-circuit error. */
  lemma DirectShortFoundWithPlainId(cs: seq<Component>, conns: seq<Connection>)
    requires cs == [Battery("bat")]
    requires conns == [Connection(PinKey("bat", "positive"), PinKey("bat", "negative"), "wire-1")]
    ensures HasShortCircuit(cs, conns)
    ensures Simulate(cs, conns, None) == SimResult([Started, ShortDetected], [StopAfterShort], true)
  {
    PlainBattery(cs);
    ShortFoundWithPlainIds(cs, 0, 0, 1, "wire-1");
    assert IsShort(cs, conns[0]);
  }

  // ------------------------------------------------------- applying a run

  /** The events stamped with the clock, as `addFeedback` stores them. */
  function Stamp(ns: seq<Notice>, now: nat): (ms: seq<FeedbackMessage>)
    ensures |ms| == |ns| && forall i :: 0 <= i < |ns| ==> ms[i] == Message(ns[i].kind, ns[i].text, now)
  {
    seq(|ns|, i requires 0 <= i < |ns| => Message(ns[i].kind, ns[i].text, now))
  }

  /** Logs the events one by one. */
  method LogAll(ws: Workspace, ns: seq<Notice>, now: nat)
    requires ws.Valid()
    modifies ws
    ensures ws.Valid()
    ensures ws.feedbackMessages == AddAll(old(ws.feedbackMessages), Stamp(ns, now))
    ensures ws.KeepsRecords() && ws.KeepsModeState() && ws.KeepsCanvas()
  {
    var i := 0;
    while i < |ns|
      invariant 0 <= i <= |ns| && ws.Valid()
      invariant ws.feedbackMessages == AddAll(old(ws.feedbackMessages), Stamp(ns[..i], now))
      invariant ws.KeepsRecords() && ws.KeepsModeState() && ws.KeepsCanvas()
    {
      assert Stamp(ns[..i + 1], now)[..i] == Stamp(ns[..i], now);
      ws.AddFeedback(ns[i].kind, ns[i].text, now);
      i := i + 1;
    }
    assert ns[..i] == ns;
  }

  /** The "Run" button: logs the events of the run, sets `isSimulating` when it starts, and returns the delayed effects. No component changes. */
  method RunSimulation(ws: Workspace, now: nat) returns (scheduled: seq<Delayed>)
    requires ws.Valid()
    modifies ws
    ensures ws.Valid()
    ensures var r := Simulate(old(ws.components), old(ws.connections), old(ws.activeFault));
      ws.feedbackMessages == AddAll(old(ws.feedbackMessages), Stamp(r.notices, now))
      && ws.isSimulating == (r.starts || old(ws.isSimulating)) && scheduled == r.scheduled
    ensures ws.Graph() == old(ws.Graph()) && ws.history == old(ws.history) && ws.activeFault == old(ws.activeFault)
    ensures ws.selectedPin == old(ws.selectedPin) && ws.selectedComponent == old(ws.selectedComponent)
    ensures ws.KeepsRecords() && ws.KeepsModeState()
  {
    var r := Evaluate(ws.components, ws.connections, ws.activeFault);
    if r.starts {
      ws.isSimulating := true;
    }
    LogAll(ws, r.notices, now);
    scheduled := r.scheduled;
  }

  /** `stopSimulation()` */
  method StopSimulation(ws: Workspace, now: nat)
    requires ws.Valid()
    modifies ws
    ensures ws.Valid()
    ensures !ws.isSimulating
    ensures ws.feedbackMessages == Prepend(old(ws.feedbackMessages), Message(Info, "Simulation stopped", now))
    ensures ws.Graph() == old(ws.Graph()) && ws.history == old(ws.history) && ws.activeFault == old(ws.activeFault)
    ensures ws.selectedPin == old(ws.selectedPin) && ws.selectedComponent == old(ws.selectedComponent)
    ensures ws.KeepsRecords() && ws.KeepsModeState()
  {
    ws.isSimulating := false;
    ws.AddFeedback(Info, "Simulation stopped", now);
  }

  // ------------------------------------------------------------------- time

  /** `formatTime(seconds)`: zero-padded minutes, a colon, zero-padded seconds. */
  function FormatTime(seconds: nat): string {
    PadStart2(Decimal(seconds / 60)) + ":" + PadStart2(Decimal(seconds % 60))
  }

  /**
   * The text reads back as the minutes and the seconds (below 60), the seconds
   * take exactly two digits, and the text is five characters exactly when the
   * time is under 100 minutes.
   */
  lemma FormatTimeReadsBack(seconds: nat)
    ensures var t := FormatTime(seconds);
      |t| >= 5 && t[|t| - 3] == ':'
      && AllDigits(t[..|t| - 3]) && AllDigits(t[|t| - 2..])
      && DigitsValue(t[..|t| - 3]) == seconds / 60
      && DigitsValue(t[|t| - 2..]) == seconds % 60 < 60
      && (|t| == 5 <==> seconds < 6000)
  {
    var m, s := seconds / 60, seconds % 60;
    MinutesUnder100(seconds);
    MinutesColonSeconds(m, s);
    assert FormatTime(seconds) == PadStart2(Decimal(m)) + ":" + PadStart2(Decimal(s));
  }

  lemma MinutesUnder100(seconds: nat)
    ensures seconds % 60 < 60 && (seconds < 6000 <==> seconds / 60 < 100)
  {
  }

  /** The padded minutes, a colon and the padded seconds, read back part by part. */
  lemma MinutesColonSeconds(m: nat, s: nat)
    requires s < 60
    ensures var t := PadStart2(Decimal(m)) + ":" + PadStart2(Decimal(s));
      |t| >= 5 && t[|t| - 3] == ':'
      && AllDigits(t[..|t| - 3]) && AllDigits(t[|t| - 2..])
      && DigitsValue(t[..|t| - 3]) == m && DigitsValue(t[|t| - 2..]) == s
      && (|t| == 5 <==> m < 100)
  {
    PaddedDecimal(m);
    PaddedDecimal(s);
    ColonParts(PadStart2(Decimal(m)), PadStart2(Decimal(s)));
  }

  /** A padded number is all digits, reads back as the number, and is two characters long exactly below 100. */
  lemma PaddedDecimal(n: nat)
    ensures var p := PadStart2(Decimal(n));
      AllDigits(p) && DigitsValue(p) == n
      && |p| >= 2 && (|p| == 2 <==> n < 100)
  {
    PadDigits(Decimal(n));
    DecimalValue(n);
    DecimalLength(n);
  }

  /** A string, a colon and two characters: where each part sits. */
  lemma ColonParts(a: string, b: string)
    requires |b| == 2
    ensures var t := a + ":" + b;
      |t| == |a| + 3 && t[..|t| - 3] == a && t[|t| - 3] == ':' && t[|t| - 2..] == b
  {
  }

  /** The exam timer's `max(0, timeLimit - floor((now - start) / 1000))`. */
  function ExamTimeRemaining(timeLimit: int, startTime: int, now: int): (r: int)
    ensures r >= 0
    ensures now >= startTime && timeLimit >= 0 ==> r <= timeLimit
    ensures r == 0 <==> (now - startTime) / 1000 >= timeLimit
  {
    Max(0, timeLimit - (now - startTime) / 1000)
  }

  /** `timeLimit || 300`: a missing or zero limit is five minutes. */
  function PlayLimit(m: MatchState): int {
    if m.timeLimit.None? || m.timeLimit.value == 0 then 300 else m.timeLimit.value
  }

  /** `getPlayTimeRemaining()` */
  function PlayTimeRemaining(m: MatchState, now: int): (r: int)
    ensures m.startTime.None? ==> r == PlayLimit(m)
    ensures m.startTime.Some? ==> r >= 0
    ensures m.startTime.Some? && now >= m.startTime.value && PlayLimit(m) >= 0 ==> r <= PlayLimit(m)
  {
    if m.startTime.None? then PlayLimit(m)
    else Max(0, PlayLimit(m) - (now - m.startTime.value) / 1000)
  }

  // ------------------------------------------------------ buttons and timers

  /** Runs a delayed effect when its timer fires. */
  method RunDelayed(ws: Workspace, d: Delayed, now: nat)
    requires ws.Valid()
    modifies ws
    ensures ws.Valid()
    ensures d.action.StopSimulating? ==>
      !ws.isSimulating
      && ws.feedbackMessages == Prepend(old(ws.feedbackMessages), Message(d.action.notice.kind, d.action.notice.text, now))
    ensures d.action.Notify? ==>
      ws.isSimulating == old(ws.isSimulating)
      && ws.feedbackMessages == Prepend(old(ws.feedbackMessages), Message(d.action.notice.kind, d.action.notice.text, now))
    ensures d.action.StopSimulating? || d.action.Notify? ==>
      ws.KeepsModeState() && ws.history == old(ws.history) && ws.activeFault == old(ws.activeFault)
      && ws.selectedPin == old(ws.selectedPin) && ws.selectedComponent == old(ws.selectedComponent)
    ensures d.action.ResetMatch? ==>
      ws.matchState == BareMatch(Idle) && ws.feedbackMessages == old(ws.feedbackMessages)
      && ws.KeepsCanvas() && ws.KeepsExam()
    ensures d.action.LeaveWorkspace? ==> LeftWorkspace(ws)
    ensures !d.action.LeaveWorkspace? ==> ws.KeepsRecords() && ws.Graph() == old(ws.Graph())
  {
    match d.action
    case StopSimulating(n) =>
      ws.isSimulating := false;
      ws.AddFeedback(n.kind, n.text, now);
    case Notify(n) =>
      ws.AddFeedback(n.kind, n.text, now);
    case ResetMatch =>
      ws.ResetMatchState();
    case LeaveWorkspace =>
      Leave(ws);
  }

  /**
   * The state after leaving the workspace: no mode, the dashboard, no exam or
   * match, an empty canvas, history and log, nothing simulating or selected;
   * the profile and the records are as before.
   */
  twostate predicate LeftWorkspace(ws: Workspace)
    reads ws
  {
    ws.workspaceMode == None && ws.currentView == DashboardView
    && ws.activeExam == None && ws.examTimeRemaining == None && ws.examStartTime == None
    && ws.matchState == BareMatch(Idle) && ws.Graph() == Snapshot([], [], []) && ws.history == NoHistory
    && ws.feedbackMessages == [] && !ws.isSimulating && ws.activeFault == None
    && ws.selectedPin == None && ws.selectedComponent == None
    && ws.studentProfile == old(ws.studentProfile) && ws.exams == old(ws.exams)
    && ws.submissions == old(ws.submissions) && ws.scoreboard == old(ws.scoreboard)
    && ws.flashcards == old(ws.flashcards)
  }

  /** `resetAllModeState(); setWorkspaceMode(null); setCurrentView('dashboard')` */
  method Leave(ws: Workspace)
    requires ws.Valid()
    modifies ws
    ensures ws.Valid()
    ensures LeftWorkspace(ws)
  {
    ws.ResetAllModeState();
    ws.SetWorkspaceMode(None);
    ws.currentView := DashboardView;
  }

  /** `handleHome()`: during a match it only warns; otherwise it leaves the workspace. */
  method HandleHome(ws: Workspace, now: nat)
    requires ws.Valid()
    modifies ws
    ensures ws.Valid()
    ensures old(ws.matchState.status) == Playing ==>
      ws.feedbackMessages == Prepend(old(ws.feedbackMessages), Message(Warning, "Cannot leave during a match!", now))
      && ws.KeepsRecords() && ws.KeepsModeState() && ws.KeepsCanvas()
    ensures old(ws.matchState.status) != Playing ==> LeftWorkspace(ws)
  {
    if ws.matchState.status == Playing {
      ws.AddFeedback(Warning, "Cannot leave during a match!", now);
      return;
    }
    Leave(ws);
  }

  /** `handlePlayFinish()`: only during a match; the match is won, +10 points, and the match resets later. */
  method HandlePlayFinish(ws: Workspace, now: nat) returns (scheduled: seq<Delayed>)
    requires ws.Valid()
    modifies ws
    ensures ws.Valid()
    ensures old(ws.matchState.status) != Playing ==>
      scheduled == [] && ws.matchState == old(ws.matchState) && ws.scoreboard == old(ws.scoreboard)
      && ws.feedbackMessages == old(ws.feedbackMessages)
    ensures old(ws.matchState.status) == Playing ==>
      ws.matchState == BareMatch(Finished).(result := Some(Win))
      && ws.feedbackMessages == Prepend(old(ws.feedbackMessages), Message(Success, "\U{1F389} You Win! +10 Points", now))
      && ws.scoreboard == UpdateBoard(old(ws.scoreboard), ws.studentProfile,
                                      NoUpdate.(matchesWon := Some(1), points := Some(10)))
      && scheduled == [Delayed(2000, ResetMatch)]
    ensures ws.KeepsCanvas() && ws.activeExam == old(ws.activeExam)
    ensures ws.examTimeRemaining == old(ws.examTimeRemaining) && ws.examStartTime == old(ws.examStartTime)
    ensures ws.workspaceMode == old(ws.workspaceMode) && ws.currentView == old(ws.currentView)
    ensures ws.studentProfile == old(ws.studentProfile) && ws.exams == old(ws.exams)
    ensures ws.submissions == old(ws.submissions) && ws.flashcards == old(ws.flashcards)
  {
    if ws.matchState.status != Playing {
      return [];
    }
    ws.matchState := BareMatch(Finished).(result := Some(Win));
    ws.AddFeedback(Success, "\U{1F389} You Win! +10 Points", now);
    ws.UpdateScore(NoUpdate.(matchesWon := Some(1), points := Some(10)));
    scheduled := [Delayed(2000, ResetMatch)];
  }

  /** The play timer's tick: when no time is left the match is lost and a warning is logged. */
  method PlayTick(ws: Workspace, now: nat)
    requires ws.Valid() && ws.matchState.status == Playing && ws.matchState.startTime.Some?
    modifies ws
    ensures ws.Valid()
    ensures PlayTimeRemaining(old(ws.matchState), now) <= 0 ==>
      ws.matchState == old(ws.matchState).(status := Finished, result := Some(Lose))
      && ws.feedbackMessages == Prepend(old(ws.feedbackMessages), Message(Warning, "Time's up! Match ended.", now))
    ensures PlayTimeRemaining(old(ws.matchState), now) > 0 ==>
      ws.matchState == old(ws.matchState) && ws.feedbackMessages == old(ws.feedbackMessages)
    ensures ws.KeepsCanvas() && ws.KeepsExam() && ws.KeepsRecords()
  {
    if PlayTimeRemaining(ws.matchState, now) <= 0 {
      ws.matchState := ws.matchState.(status := Finished, result := Some(Lose));
      ws.AddFeedback(Warning, "Time's up! Match ended.", now);
    }
  }

  /**
   * `handleExamSubmit(auto)`: with an active exam and a profile, stores the
   * canvas as a submission; logs success, counts one completed task, and
   * leaves the workspace later. `canvas` is the canvas of the render whose
   * handler runs: the one on show for the submit button, the exam timer's
   * captured one for the automatic submission.
   */
  method HandleExamSubmit(ws: Workspace, auto: bool, canvas: Snapshot, now: nat) returns (scheduled: seq<Delayed>)
    requires ws.Valid()
    modifies ws
    ensures ws.Valid()
    ensures old(ws.activeExam).Some? && old(ws.studentProfile).Some? ==>
      ws.submissions == old(ws.submissions) + [ExamSubmission(Decimal(now), old(ws.activeExam).value.code,
        old(ws.studentProfile).value.code, canvas.components, canvas.connections, now, None, None)]
    ensures !(old(ws.activeExam).Some? && old(ws.studentProfile).Some?) ==> ws.submissions == old(ws.submissions)
    ensures ws.feedbackMessages == Prepend(old(ws.feedbackMessages),
      Message(Success, if auto then "Time's up! Exam auto-submitted." else "Exam submitted successfully!", now))
    ensures ws.scoreboard == UpdateBoard(old(ws.scoreboard), old(ws.studentProfile), NoUpdate.(completedTasks := Some(1)))
    ensures scheduled == [Delayed(1500, LeaveWorkspace)]
    ensures ws.KeepsCanvas() && ws.KeepsModeState()
    ensures ws.workspaceMode == old(ws.workspaceMode) && ws.currentView == old(ws.currentView)
    ensures ws.studentProfile == old(ws.studentProfile) && ws.exams == old(ws.exams)
    ensures ws.flashcards == old(ws.flashcards)
  {
    if ws.activeExam.Some? && ws.studentProfile.Some? {
      var submission := ExamSubmission(Decimal(now), ws.activeExam.value.code, ws.studentProfile.value.code,
                                       canvas.components, canvas.connections, now, None, None);
      ws.submissions := ws.submissions + [submission];
    }
    ws.AddFeedback(Success, if auto then "Time's up! Exam auto-submitted." else "Exam submitted successfully!", now);
    ws.UpdateScore(NoUpdate.(completedTasks := Some(1)));
    scheduled := [Delayed(1500, LeaveWorkspace)];
  }

  /**
   * The exam timer's tick: stores the remaining time, and submits
   * automatically when none is left. The submission holds the canvas the
   * timer captured (`examCanvas`), not the one on show.
   */
  method ExamTick(ws: Workspace, now: nat) returns (scheduled: seq<Delayed>)
    requires ws.Valid() && ws.workspaceMode == Some(ExamMode) && ws.activeExam.Some? && ws.examStartTime.Some?
    modifies ws
    ensures ws.Valid()
    ensures var left := ExamTimeRemaining(old(ws.activeExam).value.timeLimit, old(ws.examStartTime).value, now);
      ws.examTimeRemaining == Some(left)
      && (left > 0 ==> scheduled == [] && ws.KeepsRecords()
                       && ws.feedbackMessages == old(ws.feedbackMessages))
      && (left == 0 ==> scheduled == [Delayed(1500, LeaveWorkspace)]
                        && ws.feedbackMessages == Prepend(old(ws.feedbackMessages),
                             Message(Success, "Time's up! Exam auto-submitted.", now))
                        && (old(ws.studentProfile).Some? ==>
                             ws.submissions == old(ws.submissions) + [ExamSubmission(Decimal(now),
                               old(ws.activeExam).value.code, old(ws.studentProfile).value.code,
                               old(ws.examCanvas).components, old(ws.examCanvas).connections, now, None, None)])
                        && (old(ws.studentProfile).None? ==> ws.submissions == old(ws.submissions))
                        && ws.scoreboard == UpdateBoard(old(ws.scoreboard), old(ws.studentProfile),
                             NoUpdate.(completedTasks := Some(1))))
    ensures ws.KeepsCanvas() && ws.activeExam == old(ws.activeExam) && ws.examStartTime == old(ws.examStartTime)
    ensures ws.examCanvas == old(ws.examCanvas) && ws.matchState == old(ws.matchState)
    ensures ws.KeepsSession() && ws.exams == old(ws.exams) && ws.flashcards == old(ws.flashcards)
  {
    var left := ExamTimeRemaining(ws.activeExam.value.timeLimit, ws.examStartTime.value, now);
    ws.examTimeRemaining := Some(left);
    scheduled := [];
    if left <= 0 {
      scheduled := HandleExamSubmit(ws, true, ws.examCanvas, now);
    }
  }
}
