/**
 * The constant table of parts the lab offers, grouped by category for the
 * library panel, with the category labels and the lookup by part type.
 */
module ComponentLibrary {
  import opened Wrappers
  import opened PicoTypes
  import Text

  function Part(ctype: string, name: string, category: Category, description: string,
                width: int, height: int, defaultValue: Option<PartValue>, pins: seq<PinSpec>): ComponentDefinition
  {
    ComponentDefinition(ctype, name, category, description, pins, width, height, defaultValue)
  }

  const ArduinoUno: ComponentDefinition :=
    Part("arduino-uno", "Arduino Uno", Microcontrollers,
      "ATmega328P microcontroller board with 14 digital and 6 analog pins", 200, 120, None, [
      PinSpec("d0", "D0/RX", Digital), PinSpec("d1", "D1/TX", Digital), PinSpec("d2", "D2", Digital),
      PinSpec("d3", "D3~", Digital), PinSpec("d4", "D4", Digital), PinSpec("d5", "D5~", Digital),
      PinSpec("d6", "D6~", Digital), PinSpec("d7", "D7", Digital), PinSpec("d8", "D8", Digital),
      PinSpec("d9", "D9~", Digital), PinSpec("d10", "D10~", Digital), PinSpec("d11", "D11~", Digital),
      PinSpec("d12", "D12", Digital), PinSpec("d13", "D13", Digital),
      PinSpec("a0", "A0", Analog), PinSpec("a1", "A1", Analog), PinSpec("a2", "A2", Analog),
      PinSpec("a3", "A3", Analog), PinSpec("a4", "A4", Analog), PinSpec("a5", "A5", Analog),
      PinSpec("5v", "5V", Power), PinSpec("3v3", "3.3V", Power), PinSpec("gnd1", "GND", Ground),
      PinSpec("gnd2", "GND", Ground), PinSpec("vin", "VIN", Power)])

  const LedRed: ComponentDefinition :=
    Part("led-red", "LED (Red)", OutputParts, "Red light-emitting diode, forward voltage 2V", 40, 60, None, [
      PinSpec("anode", "Anode (+)", Input), PinSpec("cathode", "Cathode (-)", Ground)])

  const LedGreen: ComponentDefinition :=
    Part("led-green", "LED (Green)", OutputParts, "Green light-emitting diode, forward voltage 2.2V", 40, 60, None, [
      PinSpec("anode", "Anode (+)", Input), PinSpec("cathode", "Cathode (-)", Ground)])

  const LedBlue: ComponentDefinition :=
    Part("led-blue", "LED (Blue)", OutputParts, "Blue light-emitting diode, forward voltage 3.2V", 40, 60, None, [
      PinSpec("anode", "Anode (+)", Input), PinSpec("cathode", "Cathode (-)", Ground)])

  const LedYellow: ComponentDefinition :=
    Part("led-yellow", "LED (Yellow)", OutputParts, "Yellow light-emitting diode, forward voltage 2.1V", 40, 60, None, [
      PinSpec("anode", "Anode (+)", Input), PinSpec("cathode", "Cathode (-)", Ground)])

  const RgbLed: ComponentDefinition :=
    Part("rgb-led", "RGB LED", OutputParts, "Common cathode RGB LED for multi-color output", 50, 70, None, [
      PinSpec("red", "Red", Input), PinSpec("green", "Green", Input), PinSpec("blue", "Blue", Input),
      PinSpec("cathode", "GND", Ground)])

  const ResistorPart: ComponentDefinition :=
    Part("resistor", "Resistor", PassiveParts, "Current limiting resistor", 60, 20, Some(TextValue("1000")), [
      PinSpec("pin1", "Pin 1", Input), PinSpec("pin2", "Pin 2", Output)])

  const PushButton: ComponentDefinition :=
    Part("push-button", "Push Button", InputParts, "Momentary tactile push button switch", 40, 40, None, [
      PinSpec("pin1", "Pin 1", Input), PinSpec("pin2", "Pin 2", Output)])

  const Potentiometer: ComponentDefinition :=
    Part("potentiometer", "Potentiometer", InputParts, "Variable resistor for analog input", 50, 50,
      Some(TextValue("10000")), [
      PinSpec("vcc", "VCC", Power), PinSpec("wiper", "Wiper", Output), PinSpec("gnd", "GND", Ground)])

  const Battery9V: ComponentDefinition :=
    Part("battery-9v", "9V Battery", PowerParts, "9V DC power source", 50, 80, None, [
      PinSpec("positive", "+", Power), PinSpec("negative", "-", Ground)])

  const Dht11: ComponentDefinition :=
    Part("dht11", "DHT11 Sensor", SensorParts, "Temperature and humidity sensor", 50, 60, None, [
      PinSpec("vcc", "VCC", Power), PinSpec("data", "Data", Output), PinSpec("gnd", "GND", Ground)])

  const DcMotor: ComponentDefinition :=
    Part("dc-motor", "DC Motor", MotorParts, "Small DC motor, 3-6V", 60, 60, None, [
      PinSpec("pin1", "Pin 1", Input), PinSpec("pin2", "Pin 2", Input)])

  const ServoMotor: ComponentDefinition :=
    Part("servo-motor", "Servo Motor", MotorParts, "Standard servo motor with position control", 70, 50, None, [
      PinSpec("vcc", "VCC (Red)", Power), PinSpec("signal", "Signal (Orange)", Input),
      PinSpec("gnd", "GND (Brown)", Ground)])

  const Buzzer: ComponentDefinition :=
    Part("buzzer", "Buzzer", OutputParts, "Piezo buzzer for audio output", 40, 40, None, [
      PinSpec("positive", "+", Input), PinSpec("negative", "-", Ground)])

  /** The parts table, in declaration order. */
  const Library: seq<ComponentDefinition> := [
    ArduinoUno, LedRed, LedGreen, LedBlue, LedYellow,
    RgbLed, ResistorPart, PushButton, Potentiometer, Battery9V,
    Dht11, DcMotor, ServoMotor, Buzzer
  ]

  // ------------------------------------------------------- table properties

  /** No string occurs twice. */
  predicate Distinct(ids: seq<string>) {
    forall i, j :: 0 <= i < j < |ids| ==> ids[i] != ids[j]
  }

  function PinIds(d: ComponentDefinition): (ids: seq<string>)
    ensures |ids| == |d.pins| && forall i :: 0 <= i < |d.pins| ==> ids[i] == d.pins[i].id
  {
    seq(|d.pins|, i requires 0 <= i < |d.pins| => d.pins[i].id)
  }

  lemma DistinctAppend(a: seq<string>, b: seq<string>, c: char)
    requires Distinct(a) && Distinct(b)
    requires forall i :: 0 <= i < |a| ==> |a[i]| > 0 && a[i][0] == c
    requires forall j :: 0 <= j < |b| ==> |b[j]| > 0 && b[j][0] != c
    ensures Distinct(a + b)
  {
    var s := a + b;
    forall i, j | 0 <= i < j < |s| ensures s[i] != s[j] {
      if j >= |a| && i < |a| {
        assert s[i][0] != s[j][0];
      }
    }
  }

  lemma ArduinoPinsUnique()
    ensures Distinct(PinIds(ArduinoUno))
  {
    var digital := ["d0", "d1", "d2", "d3", "d4", "d5", "d6", "d7", "d8", "d9", "d10", "d11", "d12", "d13"];
    var others := ["a0", "a1", "a2", "a3", "a4", "a5", "5v", "3v3", "gnd1", "gnd2", "vin"];
    assert Distinct(digital);
    assert Distinct(others);
    DistinctAppend(digital, others, 'd');
    assert PinIds(ArduinoUno) == digital + others;
  }

  lemma SmallPinsUnique()
    ensures forall k :: 1 <= k < |Library| ==> Distinct(PinIds(Library[k]))
  {
  }

  lemma TypesUnique()
    ensures forall i, j :: 0 <= i < j < |Library| ==> Library[i].ctype != Library[j].ctype
  {
  }

  /** The table positions of the parts the simulator treats as LEDs (`type.includes('led')`). */
  function LedPositions(): set<nat> {
    set k: nat | k < |Library| && Text.Contains(Library[k].ctype, "led")
  }

  /** The table positions of the parts the simulator counts as resistors (`type === 'resistor'`). */
  function ResistorPositions(): set<nat> {
    set k: nat | k < |Library| && Library[k].ctype == "resistor"
  }

  /** The part types containing "led" are those at positions 1 to 5. */
  lemma LedTypeFacts()
    ensures forall k :: 0 <= k < |Library| ==> (Text.Contains(Library[k].ctype, "led") <==> 1 <= k <= 5)
  {
    forall k | 0 <= k < |Library| ensures Text.Contains(Library[k].ctype, "led") <==> 1 <= k <= 5 {
      LedTypeAt(k);
    }
  }

  lemma LedTypeAt(k: nat)
    requires k < |Library|
    ensures Text.Contains(Library[k].ctype, "led") <==> 1 <= k <= 5
  {
    if 1 <= k <= 4 {
      assert Text.OccursAt(Library[k].ctype, "led", 0);
    } else if k == 5 {
      assert Text.OccursAt(RgbLed.ctype, "led", 4);
    } else {
      NoLedType(k);
    }
  }

  /** The other part types have no letter 'l' at all. */
  lemma NoLedType(k: nat)
    requires k < |Library| && !(1 <= k <= 5)
    ensures !Text.Contains(Library[k].ctype, "led")
  {
    var t := Library[k].ctype;
    assert t in {"arduino-uno", "resistor", "push-button", "potentiometer", "battery-9v",
                 "dht11", "dc-motor", "servo-motor", "buzzer"};
    assert 'l' !in t;
    Text.ContainsFirstChar(t, "led");
  }

  /** Exactly five part types contain "led" (the four single LEDs and the RGB LED); exactly one is "resistor". */
  lemma LedAndResistorTypes()
    ensures LedPositions() == {1, 2, 3, 4, 5}
    ensures forall k :: k in LedPositions() ==> Library[k].category == OutputParts
    ensures ResistorPositions() == {6}
  {
    LedTypeFacts();
  }

  // -------------------------------------------------------- lookup by type

  /** `lib.find(c => c.type === t)`: the first part of type `t`, if any. */
  function FindDefinition(lib: seq<ComponentDefinition>, t: string): (r: Option<ComponentDefinition>)
    ensures r.None? <==> forall k :: 0 <= k < |lib| ==> lib[k].ctype != t
    ensures r.Some? ==> (exists k :: 0 <= k < |lib| && lib[k] == r.value && r.value.ctype == t
                          && forall j :: 0 <= j < k ==> lib[j].ctype != t)
  {
    if |lib| == 0 then None
    else if lib[0].ctype == t then Some(lib[0])
    else
      var r := FindDefinition(lib[1..], t);
      assert r.Some? ==> (exists k :: 1 <= k < |lib| && lib[k] == r.value && r.value.ctype == t
                            && forall j :: 1 <= j < k ==> lib[j].ctype != t);
      r
  }

  /** `getComponentDefinition(type)` */
  function GetComponentDefinition(t: string): Option<ComponentDefinition> {
    FindDefinition(Library, t)
  }

  /** Looking a part up by its type finds that very entry of the table. */
  lemma LookupFindsEntry(k: nat)
    requires k < |Library|
    ensures GetComponentDefinition(Library[k].ctype) == Some(Library[k])
  {
    TypesUnique();
    FoundAt(Library, Library[k].ctype, k);
  }

  /** The part found for type "resistor" has only an input and an output pin, so no power or ground pin. */
  lemma ResistorPins()
    ensures GetComponentDefinition("resistor") == Some(ResistorPart)
    ensures |ResistorPart.pins| == 2 && ResistorPart.pins[0].role == Input && ResistorPart.pins[1].role == Output
  {
    assert Library[6] == ResistorPart;
    LookupFindsEntry(6);
  }

  /** The part found for type "battery-9v" has exactly one power pin and one ground pin. */
  lemma BatteryPins()
    ensures GetComponentDefinition("battery-9v") == Some(Battery9V)
    ensures |Battery9V.pins| == 2 && Battery9V.pins[0].role == Power && Battery9V.pins[1].role == Ground
  {
    assert Library[9] == Battery9V;
    LookupFindsEntry(9);
  }

  lemma FoundAt(lib: seq<ComponentDefinition>, t: string, k: nat)
    requires k < |lib| && lib[k].ctype == t
    requires forall i, j :: 0 <= i < j < |lib| ==> lib[i].ctype != lib[j].ctype
    ensures FindDefinition(lib, t) == Some(lib[k])
  {
  }

  // ------------------------------------------------------ category labels

  function CategoryLabel(c: Category): string {
    match c
    case Microcontrollers => "\U{1F50C} Microcontrollers"
    case InputParts => "\U{1F39B}\U{FE0F} Input"
    case OutputParts => "\U{1F4A1} Output"
    case PassiveParts => "\U{1F4CF} Passive"
    case PowerParts => "\U{1F50B} Power"
    case SensorParts => "\U{1F4E1} Sensors"
    case MotorParts => "\U{2699}\U{FE0F} Motors"
  }

  /**
   * The names a plain object literal inherits from `Object.prototype`
   * (ECMAScript section 20.1.3 and Annex B.2.2): looking one of them up on
   * the label table gives an inherited member, which is never falsy.
   */
  const PrototypeNames: set<string> := {
    "constructor", "hasOwnProperty", "isPrototypeOf", "propertyIsEnumerable",
    "toLocaleString", "toString", "valueOf", "__proto__",
    "__defineGetter__", "__defineSetter__", "__lookupGetter__", "__lookupSetter__"}

  /** What `labels[category] || category` yields: a string, or a member inherited by the table. */
  datatype Label = LabelText(text: string) | InheritedMember(name: string)

  /**
   * `getCategoryLabel(category)`: the label of a known category key; the
   * inherited member for a name of `Object.prototype`; otherwise the key itself.
   */
  function GetCategoryLabel(category: string): Label {
    if category == "microcontroller" then LabelText(CategoryLabel(Microcontrollers))
    else if category == "input" then LabelText(CategoryLabel(InputParts))
    else if category == "output" then LabelText(CategoryLabel(OutputParts))
    else if category == "passive" then LabelText(CategoryLabel(PassiveParts))
    else if category == "power" then LabelText(CategoryLabel(PowerParts))
    else if category == "sensor" then LabelText(CategoryLabel(SensorParts))
    else if category == "motor" then LabelText(CategoryLabel(MotorParts))
    else if category in PrototypeNames then InheritedMember(category)
    else LabelText(category)
  }

  /**
   * Each of the seven keys gets its own label; an inherited name gives the
   * inherited member; any other string is returned unchanged.
   */
  lemma CategoryLabels(c: Category, d: Category, s: string)
    ensures GetCategoryLabel(CategoryName(c)) == LabelText(CategoryLabel(c))
    ensures CategoryLabel(c) == CategoryLabel(d) ==> c == d
    ensures s in PrototypeNames ==> GetCategoryLabel(s) == InheritedMember(s)
    ensures s !in {"microcontroller", "input", "output", "passive", "power", "sensor", "motor"} && s !in PrototypeNames
      ==> GetCategoryLabel(s) == LabelText(s)
  {
  }

  // ------------------------------------------------------ grouping by category

  /** The categories of `lib` in order of first appearance (the key order of the grouped record). */
  function CategoryOrder(lib: seq<ComponentDefinition>): seq<Category>
    decreases |lib|
  {
    if |lib| == 0 then []
    else
      var keys := CategoryOrder(lib[..|lib| - 1]);
      if lib[|lib| - 1].category in keys then keys else keys + [lib[|lib| - 1].category]
  }

  /** The parts of category `c`, in table order. */
  function Bucket(lib: seq<ComponentDefinition>, c: Category): seq<ComponentDefinition>
    decreases |lib|
  {
    if |lib| == 0 then []
    else Bucket(lib[..|lib| - 1], c) + (if lib[|lib| - 1].category == c then [lib[|lib| - 1]] else [])
  }

  /** The grouped record: one entry per category in order of first appearance, holding its bucket. */
  predicate GroupedAs(groups: seq<(Category, seq<ComponentDefinition>)>, lib: seq<ComponentDefinition>) {
    var keys := CategoryOrder(lib);
    |groups| == |keys| && forall i :: 0 <= i < |groups| ==> groups[i] == (keys[i], Bucket(lib, keys[i]))
  }

  /** Position of key `c` in the grouped record, or -1. */
  function KeyIndex(groups: seq<(Category, seq<ComponentDefinition>)>, c: Category): (i: int)
    ensures -1 <= i < |groups|
    ensures i >= 0 ==> groups[i].0 == c
    ensures i < 0 ==> forall j :: 0 <= j < |groups| ==> groups[j].0 != c
  {
    if |groups| == 0 then -1
    else if groups[|groups| - 1].0 == c then |groups| - 1
    else KeyIndex(groups[..|groups| - 1], c)
  }

  lemma CategoryOrderSnoc(lib: seq<ComponentDefinition>, d: ComponentDefinition)
    ensures CategoryOrder(lib + [d]) == if d.category in CategoryOrder(lib) then CategoryOrder(lib) else CategoryOrder(lib) + [d.category]
    ensures forall c :: Bucket(lib + [d], c) == Bucket(lib, c) + (if d.category == c then [d] else [])
  {
    assert (lib + [d])[..|lib|] == lib;
  }

  /** No category appears twice among the keys, and the keys are exactly the categories of the parts. */
  lemma {:induction false} CategoryOrderKeys(lib: seq<ComponentDefinition>)
    ensures forall i, j :: 0 <= i < j < |CategoryOrder(lib)| ==> CategoryOrder(lib)[i] != CategoryOrder(lib)[j]
    ensures forall c :: c in CategoryOrder(lib) <==> exists k :: 0 <= k < |lib| && lib[k].category == c
    decreases |lib|
  {
    if |lib| > 0 {
      var init := lib[..|lib| - 1];
      CategoryOrderKeys(init);
      assert lib == init + [lib[|lib| - 1]];
      forall c | exists k :: 0 <= k < |lib| && lib[k].category == c
        ensures c in CategoryOrder(lib)
      {
        var k :| 0 <= k < |lib| && lib[k].category == c;
        if k < |lib| - 1 {
          assert init[k].category == c;
        }
      }
      forall c | c in CategoryOrder(init)
        ensures exists k :: 0 <= k < |lib| && lib[k].category == c
      {
        var k :| 0 <= k < |init| && init[k].category == c;
        assert lib[k].category == c;
      }
    }
  }

  /** A part of a category not met before opens a new bucket at the end. */
  lemma NewBucketStep(groups: seq<(Category, seq<ComponentDefinition>)>, lib: seq<ComponentDefinition>, d: ComponentDefinition)
    requires GroupedAs(groups, lib)
    requires forall j :: 0 <= j < |groups| ==> groups[j].0 != d.category
    ensures GroupedAs(groups + [(d.category, [d])], lib + [d])
  {
    CategoryOrderSnoc(lib, d);
    CategoryOrderKeys(lib);
    var keys := CategoryOrder(lib);
    BucketMembers(lib, d.category);
    assert Bucket(lib, d.category) == [];
    var g := groups + [(d.category, [d])];
    var keys' := CategoryOrder(lib + [d]);
    assert keys' == keys + [d.category];
    forall j | 0 <= j < |g| ensures g[j] == (keys'[j], Bucket(lib + [d], keys'[j])) {
      if j < |groups| {
        assert keys[j] != d.category;
        assert groups[j] == (keys[j], Bucket(lib, keys[j]));
        assert Bucket(lib + [d], keys[j]) == Bucket(lib, keys[j]) + [];
        assert Bucket(lib, keys[j]) + [] == Bucket(lib, keys[j]);
      } else {
        assert keys'[j] == d.category;
        assert Bucket(lib + [d], d.category) == Bucket(lib, d.category) + [d];
        assert Bucket(lib, d.category) + [d] == [d];
      }
    }
  }

  /** A part of a category already met is pushed onto that category's bucket; the other buckets stay as they are. */
  lemma PushStep(groups: seq<(Category, seq<ComponentDefinition>)>, lib: seq<ComponentDefinition>, d: ComponentDefinition, i: int)
    requires GroupedAs(groups, lib)
    requires 0 <= i < |groups| && groups[i].0 == d.category
    ensures GroupedAs(groups[i := (groups[i].0, groups[i].1 + [d])], lib + [d])
  {
    CategoryOrderSnoc(lib, d);
    CategoryOrderKeys(lib);
    var keys := CategoryOrder(lib);
    assert keys[i] == d.category;
    assert CategoryOrder(lib + [d]) == keys;
    var g := groups[i := (groups[i].0, groups[i].1 + [d])];
    forall j | 0 <= j < |g| ensures g[j] == (keys[j], Bucket(lib + [d], keys[j])) {
      assert groups[j] == (keys[j], Bucket(lib, keys[j]));
      if j != i {
        assert keys[j] != d.category;
        assert Bucket(lib + [d], keys[j]) == Bucket(lib, keys[j]) + [];
        assert Bucket(lib, keys[j]) + [] == Bucket(lib, keys[j]);
      } else {
        assert Bucket(lib + [d], d.category) == Bucket(lib, d.category) + [d];
      }
    }
  }

  /** Every part in a bucket has the bucket's category. */
  lemma {:induction false} BucketMembers(lib: seq<ComponentDefinition>, c: Category)
    ensures Bucket(lib, c) != [] ==> exists k :: 0 <= k < |lib| && lib[k].category == c
    decreases |lib|
  {
    if |lib| > 0 {
      var init := lib[..|lib| - 1];
      BucketMembers(init, c);
      if Bucket(init, c) != [] {
        var k :| 0 <= k < |init| && init[k].category == c;
        assert lib[k].category == c;
      } else if Bucket(lib, c) != [] {
        assert lib[|lib| - 1].category == c;
      }
    }
  }

  /** Groups `lib` by category, creating a bucket the first time a category is met and pushing each part onto its bucket. */
  method GroupByCategory(lib: seq<ComponentDefinition>) returns (groups: seq<(Category, seq<ComponentDefinition>)>)
    ensures GroupedAs(groups, lib)
  {
    groups := [];
    var n := 0;
    while n < |lib|
      invariant 0 <= n <= |lib|
      invariant GroupedAs(groups, lib[..n])
    {
      var comp := lib[n];
      assert lib[..n + 1] == lib[..n] + [comp];
      var i := KeyIndex(groups, comp.category);
      if i < 0 {
        NewBucketStep(groups, lib[..n], comp);
        groups := groups + [(comp.category, [comp])];
      } else {
        PushStep(groups, lib[..n], comp, i);
        groups := groups[i := (groups[i].0, groups[i].1 + [comp])];
      }
      n := n + 1;
    }
    assert lib[..n] == lib;
  }

  /** `getComponentsByCategory()` */
  method GetComponentsByCategory() returns (groups: seq<(Category, seq<ComponentDefinition>)>)
    ensures GroupedAs(groups, Library)
  {
    groups := GroupByCategory(Library);
  }
}
