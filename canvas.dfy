/**
 * The canvas: dropping a part from the library, drawing a wire with two pin
 * clicks, deleting wires and parts, dragging a part, and the wire colour rule.
 *
 * Every wire has a mirror connection, its endpoints as "component-pin" keys
 * and its id; `Mirrored` states that the two lists correspond entry by entry.
 * The canvas operations keep that correspondence; deleting a part keeps it
 * when no id on the canvas is a proper prefix of another.
 *
 * Pointer positions are integers relative to the canvas; the clock `now` is a
 * parameter.
 */
module CanvasEditor {
  import opened Wrappers
  import opened Lists
  import opened PicoTypes
  import opened Text
  import opened PicoLabStore
  import opened WorkspaceToolbar
  import ComponentLibrary

  // ------------------------------------------------------------ wire colour

  /** `getWireColor(fromType, toType)`: power wins over ground, ground over digital data. */
  function WireColorFor(from: PinRole, to: PinRole): (c: WireColor)
    ensures c != CustomWire
  {
    if from == Power || to == Power then PowerWire
    else if from == Ground || to == Ground then GroundWire
    else if from == Digital || to == Digital then DataWire
    else SignalWire
  }

  /**
   * The colour does not depend on which end was clicked first, and each colour
   * is chosen exactly when the roles with precedence over it are absent.
   */
  lemma WireColorRule(a: PinRole, b: PinRole)
    ensures WireColorFor(a, b) == WireColorFor(b, a)
    ensures WireColorFor(a, b) == PowerWire <==> a == Power || b == Power
    ensures WireColorFor(a, b) == GroundWire <==> a != Power && b != Power && (a == Ground || b == Ground)
    ensures WireColorFor(a, b) == DataWire <==>
      a !in {Power, Ground} && b !in {Power, Ground} && (a == Digital || b == Digital)
    ensures WireColorFor(a, b) == SignalWire <==> a !in {Power, Ground, Digital} && b !in {Power, Ground, Digital}
  {
  }

  // ------------------------------------------------------ wires and mirrors

  /** The connection stored with a wire. */
  function Mirror(w: Wire): (c: Connection)
    ensures c.wireId == w.id
    ensures StartsWith(c.from, w.fromComponent) && StartsWith(c.to, w.toComponent)
  {
    Connection(PinKey(w.fromComponent, w.fromPin), PinKey(w.toComponent, w.toPin), w.id)
  }

  /** The connection list is the wire list, entry by entry, as keys. */
  predicate Mirrored(ws: seq<Wire>, cs: seq<Connection>) {
    |ws| == |cs| && forall i :: 0 <= i < |ws| ==> cs[i] == Mirror(ws[i])
  }

  /** Filtering two mirrored lists with tests that agree entry by entry leaves them mirrored. */
  lemma {:induction false} FilterMirrored(ws: seq<Wire>, cs: seq<Connection>, kw: Wire -> bool, kc: Connection -> bool)
    requires Mirrored(ws, cs)
    requires forall i :: 0 <= i < |ws| ==> kw(ws[i]) == kc(cs[i])
    ensures Mirrored(Filter(ws, kw), Filter(cs, kc))
    decreases |ws|
  {
    if |ws| > 0 {
      var n := |ws| - 1;
      FilterMirrored(ws[..n], cs[..n], kw, kc);
      var a, b := Filter(ws[..n], kw), Filter(cs[..n], kc);
      assert kw(ws[n]) == kc(cs[n]);
      if kw(ws[n]) {
        assert Filter(ws, kw) == a + [ws[n]] && Filter(cs, kc) == b + [cs[n]];
      }
    }
  }

  /** Drawing a wire appends it and its mirror. */
  lemma MirrorAppend(ws: seq<Wire>, cs: seq<Connection>, w: Wire)
    ensures Mirrored(ws, cs) ==> Mirrored(ws + [w], cs + [Mirror(w)])
  {
  }

  function OtherWire(id: string): Wire -> bool {
    (w: Wire) => w.id != id
  }

  function OtherConnection(id: string): Connection -> bool {
    (c: Connection) => c.wireId != id
  }

  /** The wires that do not end at component `id`. */
  function AwayFrom(id: string): Wire -> bool {
    (w: Wire) => w.fromComponent != id && w.toComponent != id
  }

  /** The connections with neither key starting with `id`. */
  function KeysAwayFrom(id: string): Connection -> bool {
    (c: Connection) => !StartsWith(c.from, id) && !StartsWith(c.to, id)
  }

  function OtherComponent(id: string): Component -> bool {
    (c: Component) => c.id != id
  }

  /** Removing a wire by id removes its mirror and nothing else, so the lists stay mirrored. */
  lemma DeleteWireKeepsMirror(ws: seq<Wire>, cs: seq<Connection>, id: string)
    requires Mirrored(ws, cs)
    ensures Mirrored(Filter(ws, OtherWire(id)), Filter(cs, OtherConnection(id)))
    ensures forall w :: w in Filter(ws, OtherWire(id)) <==> w in ws && w.id != id
  {
    FilterMirrored(ws, cs, OtherWire(id), OtherConnection(id));
  }

  /** No wire's component id is a proper prefix of `id`, nor `id` of it. */
  predicate EndsPrefixFree(ws: seq<Wire>, id: string) {
    forall i :: 0 <= i < |ws| ==> PrefixFree(ws[i].fromComponent, id) && PrefixFree(ws[i].toComponent, id)
  }

  /**
   * When no wire's component id and `id` are proper prefixes of one another,
   * removing the wires at `id` and the connections whose keys start with `id`
   * keeps the lists mirrored.
   */
  lemma DeleteComponentKeepsMirror(ws: seq<Wire>, cs: seq<Connection>, id: string)
    requires Mirrored(ws, cs) && EndsPrefixFree(ws, id)
    ensures Mirrored(Filter(ws, AwayFrom(id)), Filter(cs, KeysAwayFrom(id)))
  {
    forall i | 0 <= i < |ws| ensures AwayFrom(id)(ws[i]) == KeysAwayFrom(id)(cs[i]) {
      KeyPrefix(ws[i].fromComponent, ws[i].fromPin, id);
      KeyPrefix(ws[i].toComponent, ws[i].toPin, id);
    }
    FilterMirrored(ws, cs, AwayFrom(id), KeysAwayFrom(id));
  }

  /** Deleting `comp-1` keeps the mirror of a wire inside `comp-23`: the ids differ in length but neither is a prefix of the other. */
  lemma DeleteBesideLongerId(ws: seq<Wire>, cs: seq<Connection>)
    requires ws == [Wire("wire-1", "comp-23", "a", "comp-23", "b", SignalWire, [])]
    requires cs == [Mirror(ws[0])]
    ensures Mirrored(Filter(ws, AwayFrom("comp-1")), Filter(cs, KeysAwayFrom("comp-1")))
    ensures Filter(ws, AwayFrom("comp-1")) == ws
  {
    assert "comp-23"[..6] != "comp-1" by { assert "comp-23"[5] != "comp-1"[5]; }
    DeleteComponentKeepsMirror(ws, cs, "comp-1");
    assert ws[0].fromComponent != "comp-1";
    FilterAll(ws, AwayFrom("comp-1"));
  }

  /**
   * With ids of different lengths the prefix test on keys removes more than
   * the wire filter: deleting `comp-1` drops the connection of a wire inside
   * `comp-12` and keeps the wire.
   */
  lemma DeleteComponentPrefixClash(ws: seq<Wire>, cs: seq<Connection>)
    requires ws == [Wire("wire-1", "comp-12", "a", "comp-12", "b", SignalWire, [])]
    requires cs == [Mirror(ws[0])]
    ensures Mirrored(ws, cs)
    ensures Filter(ws, AwayFrom("comp-1")) == ws && Filter(cs, KeysAwayFrom("comp-1")) == []
    ensures !Mirrored(Filter(ws, AwayFrom("comp-1")), Filter(cs, KeysAwayFrom("comp-1")))
  {
    assert ws[0].fromComponent != "comp-1";
    FilterAll(ws, AwayFrom("comp-1"));
    assert StartsWith(cs[0].from, "comp-1") by {
      assert cs[0].from[..6] == "comp-1";
    }
    assert Filter(cs, KeysAwayFrom("comp-1")) == Filter(cs[..0], KeysAwayFrom("comp-1"));
  }

  // ------------------------------------------------------------------- drop

  /** The `comp-<clock>` id of a dropped part. */
  function CanvasId(now: nat): (id: string)
    ensures StartsWith(id, "comp-") && |id| > 5
    ensures forall i :: 5 <= i < |id| ==> IsDigit(id[i])
  {
    "comp-" + Decimal(now)
  }

  /** `handleDrop`: the part centred on the pointer with coordinates floored at 0, its pins laid out in a row along the bottom. */
  function Placed(def: ComponentDefinition, px: int, py: int, now: nat): (c: Component)
    ensures |c.pins| == |def.pins|
    ensures forall i :: 0 <= i < |def.pins| ==>
      c.pins[i].id == def.pins[i].id && c.pins[i].name == def.pins[i].name && c.pins[i].role == def.pins[i].role
  {
    Component(CanvasId(now), def.ctype, def.name, Max(0, px - def.width / 2), Max(0, py - def.height / 2), 0,
      seq(|def.pins|, i requires 0 <= i < |def.pins| =>
        Pin(def.pins[i].id, def.pins[i].name, def.pins[i].role, i * 15 + 10, def.height - 5)),
      ComponentState(false, false, None, None, None), def.defaultValue)
  }

  /** Every part of the table has an even width and height, so halving them for the centre is exact. */
  lemma LibraryHalvesExact()
    ensures forall k :: 0 <= k < |ComponentLibrary.Library| ==>
      ComponentLibrary.Library[k].width % 2 == 0 && ComponentLibrary.Library[k].height % 2 == 0
  {
  }

  /**
   * A dropped part has non-negative coordinates, is not rotated and starts off; with
   * distinct pin ids each of its pins is found by its id, pins 15 apart.
   */
  lemma PlacedLayout(def: ComponentDefinition, px: int, py: int, now: nat)
    requires ComponentLibrary.Distinct(ComponentLibrary.PinIds(def))
    ensures var c := Placed(def, px, py, now);
      c.x >= 0 && c.y >= 0 && c.rotation == 0 && !c.state.powered && !c.state.active
      && c.ctype == def.ctype && c.name == def.name && c.value == def.defaultValue
      && (px >= def.width / 2 ==> c.x == px - def.width / 2)
      && forall i :: 0 <= i < |def.pins| ==>
        FindPin(c.pins, Some(def.pins[i].id)) == Some(c.pins[i])
        && c.pins[i].x == 15 * i + 10 && c.pins[i].y == def.height - 5
  {
    var c := Placed(def, px, py, now);
    forall i | 0 <= i < |def.pins| ensures FindPin(c.pins, Some(def.pins[i].id)) == Some(c.pins[i]) {
      FindFirst(c.pins, i);
    }
  }

  /** A pin whose id occurs nowhere before it is the one found. */
  lemma {:induction false} FindFirst(pins: seq<Pin>, i: nat)
    requires i < |pins| && forall j :: 0 <= j < i ==> pins[j].id != pins[i].id
    ensures FindPin(pins, Some(pins[i].id)) == Some(pins[i])
    decreases i
  {
    if i > 0 {
      FindFirst(pins[1..], i - 1);
    }
  }

  /**
   * On a canvas of dropped parts the short-circuit scan never fires: every id
   * starts with "comp-", so the first field of a key names no part.
   */
  lemma CanvasNeverShorts(cs: seq<Component>, conns: seq<Connection>)
    requires forall k :: 0 <= k < |cs| ==> StartsWith(cs[k].id, "comp-")
    ensures !HasShortCircuit(cs, conns)
  {
    forall k | 0 <= k < |cs| ensures '-' in cs[k].id {
      assert cs[k].id[4] == "comp-"[4];
    }
    NoShortWithDashedIds(cs, conns);
  }

  /** `handleDrop`: with drag data, snapshot the graph, add the part, log "Added <name> to canvas". */
  method Drop(ws: Workspace, data: Option<ComponentDefinition>, px: int, py: int, now: nat)
    requires ws.Valid()
    modifies ws
    ensures ws.Valid()
    ensures data.None? ==> ws.KeepsCanvas() && ws.feedbackMessages == old(ws.feedbackMessages)
    ensures data.Some? ==>
      ws.history == Push(old(ws.history), old(ws.Graph()))
      && ws.components == old(ws.components) + [Placed(data.value, px, py, now)]
      && ws.feedbackMessages == Prepend(old(ws.feedbackMessages), Message(Success, "Added " + data.value.name + " to canvas", now))
    ensures ws.wires == old(ws.wires) && ws.connections == old(ws.connections)
    ensures ws.selectedPin == old(ws.selectedPin) && ws.selectedComponent == old(ws.selectedComponent)
    ensures ws.isSimulating == old(ws.isSimulating) && ws.activeFault == old(ws.activeFault)
    ensures ws.KeepsRecords() && ws.KeepsModeState()
  {
    if data.None? {
      return;
    }
    ws.PushHistory();
    var def := data.value;
    ws.components := ws.components + [Placed(def, px, py, now)];
    ws.AddFeedback(Success, "Added " + def.name + " to canvas", now);
  }

  // --------------------------------------------------------------- pin clicks

  /** Some part with the id of the end has a pin with its pin id. */
  predicate OnCanvas(cs: seq<Component>, end: PinRef) {
    exists i, p :: 0 <= i < |cs| && 0 <= p < |cs[i].pins| && cs[i].id == end.componentId && cs[i].pins[p].id == end.pinId
  }

  predicate UniqueIds(cs: seq<Component>) {
    forall i, j :: 0 <= i < j < |cs| ==> cs[i].id != cs[j].id
  }

  /**
   * The wire a second click draws from `from` to `to`, with the event text,
   * or nothing when a lookup fails: the first part with an end's id must have
   * a pin with the end's pin id.
   */
  function NewWire(cs: seq<Component>, from: PinRef, to: PinRef, now: nat): (r: Option<(Wire, string)>)
    ensures r.Some? ==> OnCanvas(cs, from) && OnCanvas(cs, to)
    ensures r.Some? ==> (
      var w := r.value.0;
      w.id == "wire-" + Decimal(now) && w.points == []
      && w.fromComponent == from.componentId && w.fromPin == from.pinId
      && w.toComponent == to.componentId && w.toPin == to.pinId)
  {
    var fc := FindComponent(cs, from.componentId);
    var tc := FindComponent(cs, to.componentId);
    if fc.None? || tc.None? then None
    else
      var fp := FindPin(fc.value.pins, Some(from.pinId));
      var tp := FindPin(tc.value.pins, Some(to.pinId));
      if fp.None? || tp.None? then None
      else
        EndFound(cs, from, fc.value, fp.value);
        EndFound(cs, to, tc.value, tp.value);
        Some((Wire("wire-" + Decimal(now), from.componentId, from.pinId, to.componentId, to.pinId,
                   WireColorFor(fp.value.role, tp.value.role), []),
              "Connected " + fp.value.name + " to " + tp.value.name))
  }

  lemma EndFound(cs: seq<Component>, end: PinRef, c: Component, p: Pin)
    requires FindComponent(cs, end.componentId) == Some(c)
    requires FindPin(c.pins, Some(end.pinId)) == Some(p)
    ensures OnCanvas(cs, end)
  {
    var i :| 0 <= i < |cs| && cs[i] == c && c.id == end.componentId;
    var q :| 0 <= q < |c.pins| && c.pins[q] == p;
  }

  /** With unique part ids, the second click draws a wire exactly when both ends are pins on the canvas. */
  lemma WireDrawnBetweenCanvasPins(cs: seq<Component>, from: PinRef, to: PinRef, now: nat)
    requires UniqueIds(cs)
    ensures NewWire(cs, from, to, now).Some? <==> OnCanvas(cs, from) && OnCanvas(cs, to)
  {
    if OnCanvas(cs, from) && OnCanvas(cs, to) {
      UniqueFound(cs, from);
      UniqueFound(cs, to);
    }
  }

  /**
   * With unique part ids, when the ends are pin `p` of part `i` and pin `q` of
   * part `j` (each the first pin with its id), the wire runs between them,
   * is coloured by their roles, and the event names them.
   */
  lemma WireBetween(cs: seq<Component>, from: PinRef, to: PinRef, now: nat, i: nat, p: nat, j: nat, q: nat)
    requires UniqueIds(cs) && i < |cs| && j < |cs| && p < |cs[i].pins| && q < |cs[j].pins|
    requires cs[i].id == from.componentId && cs[i].pins[p].id == from.pinId
    requires cs[j].id == to.componentId && cs[j].pins[q].id == to.pinId
    requires forall k :: 0 <= k < p ==> cs[i].pins[k].id != from.pinId
    requires forall k :: 0 <= k < q ==> cs[j].pins[k].id != to.pinId
    ensures NewWire(cs, from, to, now) == Some((
      Wire("wire-" + Decimal(now), from.componentId, from.pinId, to.componentId, to.pinId,
           WireColorFor(cs[i].pins[p].role, cs[j].pins[q].role), []),
      "Connected " + cs[i].pins[p].name + " to " + cs[j].pins[q].name))
  {
    FoundAtUnique(cs, i);
    FoundAtUnique(cs, j);
    FindFirst(cs[i].pins, p);
    FindFirst(cs[j].pins, q);
  }

  /** With unique ids, the lookup by the id of part `i` finds part `i`. */
  lemma FoundAtUnique(cs: seq<Component>, i: nat)
    requires UniqueIds(cs) && i < |cs|
    ensures FindComponent(cs, cs[i].id) == Some(cs[i])
  {
    var c := FindComponent(cs, cs[i].id).value;
    var k :| 0 <= k < |cs| && cs[k] == c && c.id == cs[i].id;
    assert k == i;
  }

  /** With unique ids, the part found for an end on the canvas is the one holding its pin. */
  lemma UniqueFound(cs: seq<Component>, end: PinRef)
    requires UniqueIds(cs) && OnCanvas(cs, end)
    ensures FindComponent(cs, end.componentId).Some?
    ensures FindPin(FindComponent(cs, end.componentId).value.pins, Some(end.pinId)).Some?
  {
    var i, p :| 0 <= i < |cs| && 0 <= p < |cs[i].pins| && cs[i].id == end.componentId && cs[i].pins[p].id == end.pinId;
    var c := FindComponent(cs, end.componentId).value;
    var k :| 0 <= k < |cs| && cs[k] == c && c.id == end.componentId;
    assert k == i;
    assert cs[i].pins[p] in c.pins;
  }

  /**
   * `handlePinClick`: the first click selects the pin; clicking it again
   * clears the selection; a click on another pin draws the wire (`Connect`).
   */
  method PinClick(ws: Workspace, target: PinRef, now: nat)
    requires ws.Valid()
    modifies ws
    ensures ws.Valid()
    ensures old(ws.selectedPin).None? ==>
      ws.selectedPin == Some(target) && ws.history == old(ws.history) && ws.Graph() == old(ws.Graph())
      && ws.feedbackMessages == old(ws.feedbackMessages)
    ensures old(ws.selectedPin) == Some(target) ==>
      ws.selectedPin == None && ws.history == old(ws.history) && ws.Graph() == old(ws.Graph())
      && ws.feedbackMessages == old(ws.feedbackMessages)
    ensures old(ws.selectedPin).Some? && old(ws.selectedPin) != Some(target) ==>
      ws.history == Push(old(ws.history), old(ws.Graph())) && Drawn(old(ws.Graph()), ws.Graph(), NewWire(old(ws.components), old(ws.selectedPin).value, target, now))
      && ws.feedbackMessages == Logged(old(ws.feedbackMessages), NewWire(old(ws.components), old(ws.selectedPin).value, target, now), now)
      && ws.selectedPin == (if NewWire(old(ws.components), old(ws.selectedPin).value, target, now).None? then old(ws.selectedPin) else None)
    ensures Mirrored(old(ws.wires), old(ws.connections)) ==> Mirrored(ws.wires, ws.connections)
    ensures ws.selectedComponent == old(ws.selectedComponent)
    ensures ws.isSimulating == old(ws.isSimulating) && ws.activeFault == old(ws.activeFault)
    ensures ws.KeepsRecords() && ws.KeepsModeState()
  {
    if ws.selectedPin.None? {
      ws.selectedPin := Some(target);
      return;
    }
    var from := ws.selectedPin.value;
    if from == target {
      ws.selectedPin := None;
      return;
    }
    Connect(ws, from, target, now);
  }

  /** The graph after a second click: unchanged when no wire is drawn, otherwise the wire and its mirror appended. */
  predicate Drawn(before: Snapshot, after: Snapshot, drawn: Option<(Wire, string)>) {
    match drawn
    case None => after == before
    case Some((w, _)) =>
      after == Snapshot(before.components, before.wires + [w], before.connections + [Mirror(w)])
  }

  /** The log after a second click: the event of the drawn wire, if any. */
  function Logged(log: seq<FeedbackMessage>, drawn: Option<(Wire, string)>, now: nat): seq<FeedbackMessage> {
    match drawn
    case None => log
    case Some((_, text)) => Prepend(log, Message(Success, text, now))
  }

  /**
   * The second click of `handlePinClick`, on a pin other than the selected
   * one: snapshot the graph, then, when both ends are found, add the wire and
   * its mirror, log the event and clear the selection. When an end is not
   * found the snapshot stays and the selection is kept.
   */
  method Connect(ws: Workspace, from: PinRef, target: PinRef, now: nat)
    requires ws.Valid()
    modifies ws
    ensures ws.Valid()
    ensures ws.history == Push(old(ws.history), old(ws.Graph()))
    ensures Drawn(old(ws.Graph()), ws.Graph(), NewWire(old(ws.components), from, target, now))
    ensures ws.feedbackMessages == Logged(old(ws.feedbackMessages), NewWire(old(ws.components), from, target, now), now)
    ensures ws.selectedPin == if NewWire(old(ws.components), from, target, now).None? then old(ws.selectedPin) else None
    ensures Mirrored(old(ws.wires), old(ws.connections)) ==> Mirrored(ws.wires, ws.connections)
    ensures ws.selectedComponent == old(ws.selectedComponent)
    ensures ws.isSimulating == old(ws.isSimulating) && ws.activeFault == old(ws.activeFault)
    ensures ws.KeepsRecords() && ws.KeepsModeState()
  {
    var drawn := NewWire(ws.components, from, target, now);
    ws.PushHistory();
    if drawn.None? {
      return;
    }
    var (w, text) := drawn.value;
    var wires, connections := ws.wires + [w], ws.connections + [Mirror(w)];
    MirrorAppend(ws.wires, ws.connections, w);
    ws.selectedPin := None;
    ws.SetGraph(Snapshot(ws.components, wires, connections));
    ws.AddFeedback(Success, text, now);
  }

  /** `handleCanvasClick`: a click on the empty canvas clears both selections. */
  method CanvasClick(ws: Workspace)
    requires ws.Valid()
    modifies ws
    ensures ws.Valid()
    ensures ws.selectedPin == None && ws.selectedComponent == None
    ensures ws.Graph() == old(ws.Graph()) && ws.history == old(ws.history)
    ensures ws.feedbackMessages == old(ws.feedbackMessages)
    ensures ws.isSimulating == old(ws.isSimulating) && ws.activeFault == old(ws.activeFault)
    ensures ws.KeepsRecords() && ws.KeepsModeState()
  {
    ws.selectedPin := None;
    ws.selectedComponent := None;
  }

  // ---------------------------------------------------------------- deleting

  /** `handleDeleteWire`: snapshot the graph, remove the wire and its connection, log "Wire removed". */
  method DeleteWire(ws: Workspace, wireId: string, now: nat)
    requires ws.Valid()
    modifies ws
    ensures ws.Valid()
    ensures ws.history == Push(old(ws.history), old(ws.Graph()))
    ensures ws.Graph() == Snapshot(old(ws.components), Filter(old(ws.wires), OtherWire(wireId)),
                                   Filter(old(ws.connections), OtherConnection(wireId)))
    ensures Mirrored(old(ws.wires), old(ws.connections)) ==> Mirrored(ws.wires, ws.connections)
    ensures ws.feedbackMessages == Prepend(old(ws.feedbackMessages), Message(Info, "Wire removed", now))
    ensures ws.selectedPin == old(ws.selectedPin) && ws.selectedComponent == old(ws.selectedComponent)
    ensures ws.isSimulating == old(ws.isSimulating) && ws.activeFault == old(ws.activeFault)
    ensures ws.KeepsRecords() && ws.KeepsModeState()
  {
    var g := Snapshot(ws.components, Filter(ws.wires, OtherWire(wireId)), Filter(ws.connections, OtherConnection(wireId)));
    if Mirrored(ws.wires, ws.connections) {
      DeleteWireKeepsMirror(ws.wires, ws.connections, wireId);
    }
    ws.PushHistory();
    ws.SetGraph(g);
    ws.AddFeedback(Info, "Wire removed", now);
  }

  /**
   * `handleDeleteComponent`: snapshot the graph, remove the wires ending at the
   * part, the connections whose keys start with its id, and the part; log
   * "Component removed". The selections are left as they were.
   */
  method DeleteComponent(ws: Workspace, compId: string, now: nat)
    requires ws.Valid()
    modifies ws
    ensures ws.Valid()
    ensures ws.history == Push(old(ws.history), old(ws.Graph()))
    ensures ws.Graph() == Snapshot(Filter(old(ws.components), OtherComponent(compId)),
                                   Filter(old(ws.wires), AwayFrom(compId)),
                                   Filter(old(ws.connections), KeysAwayFrom(compId)))
    ensures Mirrored(old(ws.wires), old(ws.connections)) && EndsPrefixFree(old(ws.wires), compId)
      ==> Mirrored(ws.wires, ws.connections)
    ensures ws.feedbackMessages == Prepend(old(ws.feedbackMessages), Message(Info, "Component removed", now))
    ensures ws.selectedPin == old(ws.selectedPin) && ws.selectedComponent == old(ws.selectedComponent)
    ensures ws.isSimulating == old(ws.isSimulating) && ws.activeFault == old(ws.activeFault)
    ensures ws.KeepsRecords() && ws.KeepsModeState()
  {
    var g := Snapshot(Filter(ws.components, OtherComponent(compId)),
                      Filter(ws.wires, AwayFrom(compId)),
                      Filter(ws.connections, KeysAwayFrom(compId)));
    if Mirrored(ws.wires, ws.connections) && EndsPrefixFree(ws.wires, compId) {
      DeleteComponentKeepsMirror(ws.wires, ws.connections, compId);
    }
    ws.PushHistory();
    ws.SetGraph(g);
    ws.AddFeedback(Info, "Component removed", now);
  }

  /**
   * An exam started on an empty canvas, a part dropped, then the time runs
   * out: the automatic submission holds the empty canvas the exam timer
   * captured, not the part on show.
   */
  method DropThenTimeUp(ws: Workspace, exam: Exam, start: nat, def: ComponentDefinition, px: int, py: int, now: nat)
    requires ws.Valid() && ws.workspaceMode == Some(ExamMode) && ws.studentProfile.Some?
    requires ws.Graph() == Snapshot([], [], [])
    requires ExamTimeRemaining(exam.timeLimit, start, now) == 0
    modifies ws
    ensures ws.components == [Placed(def, px, py, now)]
    ensures |ws.submissions| > 0 && ws.submissions[|ws.submissions| - 1].components == []
  {
    ws.StartExam(exam, start);
    Drop(ws, Some(def), px, py, now);
    var scheduled := ExamTick(ws, now);
  }

  // ---------------------------------------------------------------- dragging

  /** The parts after the part `id` is dragged to `(x, y)`. */
  function Moved(cs: seq<Component>, id: string, x: int, y: int): (r: seq<Component>)
    ensures |r| == |cs|
    ensures forall i :: 0 <= i < |cs| ==> r[i] == if cs[i].id == id then cs[i].(x := x, y := y) else cs[i]
  {
    seq(|cs|, i requires 0 <= i < |cs| => Place(cs[i], id, x, y))
  }

  /** One part after the part `id` is dragged to `(x, y)`. */
  function Place(c: Component, id: string, x: int, y: int): Component {
    if c.id == id then c.(x := x, y := y) else c
  }

  /** `handleComponentMouseDown`: pressing on a part on the canvas selects it. */
  method PressComponent(ws: Workspace, compId: string)
    requires ws.Valid()
    modifies ws
    ensures ws.Valid()
    ensures ws.selectedComponent == if FindComponent(old(ws.components), compId).Some? then Some(compId)
                                    else old(ws.selectedComponent)
    ensures ws.Graph() == old(ws.Graph()) && ws.history == old(ws.history) && ws.selectedPin == old(ws.selectedPin)
    ensures ws.feedbackMessages == old(ws.feedbackMessages)
    ensures ws.isSimulating == old(ws.isSimulating) && ws.activeFault == old(ws.activeFault)
    ensures ws.KeepsRecords() && ws.KeepsModeState()
  {
    if FindComponent(ws.components, compId).Some? {
      ws.selectedComponent := Some(compId);
    }
  }

  /** `handleMouseMove` while dragging: the dragged part follows the pointer. */
  method DragTo(ws: Workspace, dragging: Option<string>, x: int, y: int)
    requires ws.Valid()
    modifies ws
    ensures ws.Valid()
    ensures ws.components == if dragging.Some? then Moved(old(ws.components), dragging.value, x, y) else old(ws.components)
    ensures ws.wires == old(ws.wires) && ws.connections == old(ws.connections) && ws.history == old(ws.history)
    ensures ws.feedbackMessages == old(ws.feedbackMessages)
    ensures ws.selectedPin == old(ws.selectedPin) && ws.selectedComponent == old(ws.selectedComponent)
    ensures ws.isSimulating == old(ws.isSimulating) && ws.activeFault == old(ws.activeFault)
    ensures ws.KeepsRecords() && ws.KeepsModeState()
  {
    if dragging.Some? {
      ws.components := Moved(ws.components, dragging.value, x, y);
    }
  }

  /** `handleMouseUp`: ending a drag snapshots the graph as it is after the move. */
  method EndDrag(ws: Workspace, dragging: Option<string>)
    requires ws.Valid()
    modifies ws
    ensures ws.Valid()
    ensures ws.history == if dragging.Some? then Push(old(ws.history), old(ws.Graph())) else old(ws.history)
    ensures ws.Graph() == old(ws.Graph()) && ws.feedbackMessages == old(ws.feedbackMessages)
    ensures ws.selectedPin == old(ws.selectedPin) && ws.selectedComponent == old(ws.selectedComponent)
    ensures ws.isSimulating == old(ws.isSimulating) && ws.activeFault == old(ws.activeFault)
    ensures ws.KeepsRecords() && ws.KeepsModeState()
  {
    if dragging.Some? {
      ws.PushHistory();
    }
  }

  // ------------------------------------------- position does not matter to a run

  lemma {:induction false} MovedFind(cs: seq<Component>, id: string, x: int, y: int, key: string)
    ensures var m := FindComponent(Moved(cs, id, x, y), key);
      m.None? == FindComponent(cs, key).None?
      && (m.Some? ==> m.value.pins == FindComponent(cs, key).value.pins)
    decreases |cs|
  {
    if |cs| > 0 {
      assert Moved(cs, id, x, y)[1..] == Moved(cs[1..], id, x, y);
      MovedFind(cs[1..], id, x, y, key);
    }
  }

  lemma MovedIsShort(cs: seq<Component>, conn: Connection, id: string, x: int, y: int)
    ensures IsShort(Moved(cs, id, x, y), conn) == IsShort(cs, conn)
  {
    MovedFind(cs, id, x, y, Split(conn.from, '-')[0]);
    MovedFind(cs, id, x, y, Split(conn.to, '-')[0]);
  }

  lemma {:induction false} MovedShort(cs: seq<Component>, conns: seq<Connection>, id: string, x: int, y: int)
    ensures HasShortCircuit(Moved(cs, id, x, y), conns) == HasShortCircuit(cs, conns)
    decreases |conns|
  {
    if |conns| > 0 {
      MovedIsShort(cs, conns[0], id, x, y);
      MovedShort(cs, conns[1..], id, x, y);
    }
  }

  lemma {:induction false} MovedLeds(cs: seq<Component>, id: string, x: int, y: int)
    ensures Leds(Moved(cs, id, x, y)) == Moved(Leds(cs), id, x, y)
    decreases |cs|
  {
    if |cs| > 0 {
      var n := |cs| - 1;
      MovedLeds(cs[..n], id, x, y);
      MovedLedsSnoc(cs[..n], cs[n], id, x, y);
      assert cs[..n] + [cs[n]] == cs;
    }
  }

  /** One step of `MovedLeds`: one more part at the end. */
  lemma MovedLedsSnoc(init: seq<Component>, c: Component, id: string, x: int, y: int)
    requires Leds(Moved(init, id, x, y)) == Moved(Leds(init), id, x, y)
    ensures Leds(Moved(init + [c], id, x, y)) == Moved(Leds(init + [c]), id, x, y)
  {
    var front, pc := Moved(init, id, x, y), Place(c, id, x, y);
    MovedSnoc(init, c, id, x, y);
    LedsSnoc(init, c);
    LedsSnoc(front, pc);
    if IsLed(c) {
      MovedSnoc(Leds(init), c, id, x, y);
    } else {
      assert Leds(front + [pc]) == Leds(front);
    }
  }

  lemma MovedSnoc(init: seq<Component>, c: Component, id: string, x: int, y: int)
    ensures Moved(init + [c], id, x, y) == Moved(init, id, x, y) + [Place(c, id, x, y)]
  {
  }

  lemma LedsSnoc(s: seq<Component>, c: Component)
    ensures Leds(s + [c]) == Leds(s) + (if IsLed(c) then [c] else [])
  {
    FilterSnoc(s, c, IsLed);
  }

  lemma {:induction false} MovedLit(leds: seq<Component>, conns: seq<Connection>, id: string, x: int, y: int)
    ensures LitNotices(Moved(leds, id, x, y), conns) == LitNotices(leds, conns)
    decreases |leds|
  {
    if |leds| > 0 {
      var n := |leds| - 1;
      assert Moved(leds, id, x, y)[..n] == Moved(leds[..n], id, x, y);
      MovedLit(leds[..n], conns, id, x, y);
    }
  }

  /** Dragging a part never changes what "Run" reports or schedules. */
  lemma MoveKeepsRun(cs: seq<Component>, conns: seq<Connection>, fault: Option<Fault>, id: string, x: int, y: int)
    ensures Simulate(Moved(cs, id, x, y), conns, fault) == Simulate(cs, conns, fault)
  {
    var m := Moved(cs, id, x, y);
    MovedShort(cs, conns, id, x, y);
    MovedLeds(cs, id, x, y);
    MovedLit(Leds(cs), conns, id, x, y);
    assert HasResistor(m) == HasResistor(cs) by {
      if HasResistor(cs) {
        var k :| 0 <= k < |cs| && cs[k].ctype == "resistor";
        assert m[k].ctype == "resistor";
      }
      if HasResistor(m) {
        var k :| 0 <= k < |m| && m[k].ctype == "resistor";
        assert cs[k].ctype == "resistor";
      }
    }
  }
}
