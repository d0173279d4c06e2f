/**
 * The tooltip shown over a pin: a label and a colour for its role, and a
 * state line that depends on whether the simulation runs and whether the
 * pin's component is powered.
 *
 * The label and colour switches run on the role's text, so a text that names
 * no role reaches their `default` arms; both are modelled on text, through
 * `ParseRole`.
 */
module PinTooltip {
  import opened Wrappers
  import opened PicoTypes

  /** The label for each of the seven roles. */
  function RoleLabel(r: PinRole): string {
    match r
    case Power => "Power (+)"
    case Ground => "Ground (-)"
    case Input => "Input"
    case Output => "Output"
    case Analog => "Analog I/O"
    case Digital => "Digital I/O"
    case Gpio => "GPIO"
  }

  /** `getPinRoleLabel(type)`: the role's label, or the text itself when it names no role. */
  function PinRoleLabel(t: string): string {
    match ParseRole(t)
    case Some(r) => RoleLabel(r)
    case None => t
  }

  /** Each role has its own label, and the label is never the role's own name. */
  lemma LabelsDistinct(a: PinRole, b: PinRole)
    ensures RoleLabel(a) == RoleLabel(b) <==> a == b
    ensures PinRoleLabel(RoleName(a)) == RoleLabel(a) != RoleName(a)
  {
    RoleRoundTrip(a, RoleName(a));
  }

  /** The label equals the text exactly when the text names no role. */
  lemma LabelIsTextIffUnknown(t: string)
    ensures PinRoleLabel(t) == t <==> ParseRole(t).None?
  {
    match ParseRole(t)
    case Some(r) =>
      assert RoleName(r) == t;
      LabelsDistinct(r, r);
    case None =>
  }

  /** `getRoleColor(type)`: a colour class per role; GPIO and unknown texts fall to the default. */
  function RoleColor(t: string): (c: string)
    ensures ParseRole(t) == Some(Gpio) || ParseRole(t).None? <==> c == "text-muted-foreground"
  {
    match ParseRole(t)
    case Some(Power) => "text-red-400"
    case Some(Ground) => "text-gray-400"
    case Some(Digital) => "text-blue-400"
    case Some(Analog) => "text-yellow-400"
    case Some(Input) => "text-green-400"
    case Some(Output) => "text-purple-400"
    case _ => "text-muted-foreground"
  }

  /** The six roles other than GPIO have distinct colours. */
  lemma ColorsDistinct(a: PinRole, b: PinRole)
    requires a != Gpio && b != Gpio
    ensures RoleColor(RoleName(a)) == RoleColor(RoleName(b)) <==> a == b
  {
    RoleRoundTrip(a, RoleName(a));
    RoleRoundTrip(b, RoleName(b));
  }

  /** `getPinState()` for a pin with role `r`. */
  function PinState(r: PinRole, simulating: bool, powered: bool): string {
    if !simulating then "Not simulating"
    else if r == Power then (if powered then "5V" else "0V")
    else if r == Ground then "0V (GND)"
    else if r == Digital then (if powered then "HIGH" else "LOW")
    else if r == Analog then (if powered then "Active" else "Inactive")
    else if powered then "Active" else "Inactive"
  }

  /**
   * The state line reads "Not simulating" exactly when the simulation is off;
   * while it runs, every role but ground reads differently powered and
   * unpowered, and ground always reads "0V (GND)".
   */
  lemma StateDependsOnPower(r: PinRole, simulating: bool)
    ensures forall p :: PinState(r, simulating, p) == "Not simulating" <==> !simulating
    ensures PinState(r, simulating, true) == PinState(r, simulating, false) <==> !simulating || r == Ground
    ensures simulating && r == Ground ==> PinState(r, simulating, true) == "0V (GND)"
  {
  }

  /** While simulating, analog, input, output and GPIO pins all read Active or Inactive by the powered flag. */
  lemma GenericPinsReadActivity(r: PinRole, powered: bool)
    requires r !in {Power, Ground, Digital}
    ensures PinState(r, true, powered) == if powered then "Active" else "Inactive"
  {
  }
}
