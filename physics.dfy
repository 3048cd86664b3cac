/** The physics formula resolver `physics_calc` of tutor_agent/tools/formula.py:
    law-name normalisation, the information path, and for each law the
    alias resolution of its parameters and the choice of the quantity to
    solve for. */
module Physics {
  import opened Text

  /** The keyword arguments: a key that was passed, with its value, or with
      Python's `None` (`None` here). A key not passed is absent from the map. */
  type Kwargs = map<string, Option<real>>

  /** `kwargs.get(key, default)` */
  function Get(kw: Kwargs, key: string, default: Option<real>): Option<real> {
    if key in kw then kw[key] else default
  }

  /** Python truthiness of an argument: neither `None` nor zero. */
  predicate Truthy(v: Option<real>) {
    v.Some? && v.value != 0.0
  }

  /** The chained lookup `kwargs.get(names[0], kwargs.get(names[1], ... default))`. */
  function Resolve(kw: Kwargs, names: seq<string>, default: Option<real>): Option<real> {
    if names == [] then default
    else Get(kw, names[0], Resolve(kw, names[1..], default))
  }

  /** The first alias that was passed wins, even when its value is `None`;
      with no alias passed the default applies; and whatever is resolved
      was passed under one of the aliases or is the default. */
  lemma {:induction false} ResolveFirstPassed(kw: Kwargs, names: seq<string>, default: Option<real>)
    ensures |names| > 0 && names[0] in kw ==> Resolve(kw, names, default) == kw[names[0]]
    ensures (forall i :: 0 <= i < |names| ==> names[i] !in kw) ==> Resolve(kw, names, default) == default
    ensures Resolve(kw, names, default) == default
            || exists i :: 0 <= i < |names| && names[i] in kw && Resolve(kw, names, default) == kw[names[i]]
    decreases |names|
  {
    if names != [] {
      ResolveFirstPassed(kw, names[1..], default);
      if names[0] !in kw && Resolve(kw, names, default) != default {
        var i :| 0 <= i < |names[1..]| && names[1..][i] in kw && Resolve(kw, names[1..], default) == kw[names[1..][i]];
        assert names[i + 1] in kw && Resolve(kw, names, default) == kw[names[i + 1]];
      }
    }
  }

  // ---------------------------------------------------------------------
  // The table of laws

  /** The laws of `PHYSICS_LAWS`, in its order. */
  datatype LawId = NewtonLaw | KineticLaw | PotentialLaw | MomentumLaw | WaveLaw | OhmLaw | CoulombLaw | GasLaw | SnellLaw

  /** The key of each law in `PHYSICS_LAWS`. */
  function LawName(id: LawId): string {
    match id
    case NewtonLaw => "newton_second_law"
    case KineticLaw => "kinetic_energy"
    case PotentialLaw => "potential_energy"
    case MomentumLaw => "momentum"
    case WaveLaw => "wave_equation"
    case OhmLaw => "ohms_law"
    case CoulombLaw => "coulombs_law"
    case GasLaw => "ideal_gas_law"
    case SnellLaw => "snells_law"
  }

  /** The record stored under each key. */
  datatype Law = Law(summary: string, formula: string, phenomena: string, parameters: seq<string>, calculates: string)

  function Entry(id: LawId): Law {
    match id
    case NewtonLaw =>
      Law("Newton's Second Law states that the acceleration of an object is directly proportional to the net force acting on it and inversely proportional to its mass.",
          "F = ma",
          "Explains how forces cause motion - heavier objects need more force to accelerate, lighter objects accelerate more easily with the same force",
          ["mass (kg)", "acceleration (m/s²)"],
          "Force (N)")
    case KineticLaw =>
      Law("Kinetic energy is the energy possessed by an object due to its motion. It depends on both mass and velocity.",
          "KE = ½mv²",
          "Moving objects can do work - a moving car can push another car, a flying ball can break glass",
          ["mass (kg)", "velocity (m/s)"],
          "Kinetic Energy (J)")
    case PotentialLaw =>
      Law("Gravitational potential energy is the energy stored in an object due to its position in a gravitational field.",
          "PE = mgh",
          "Objects at height can fall and do work - water behind a dam, a rock on a cliff",
          ["mass (kg)", "height (m)", "gravity (m/s², optional)"],
          "Potential Energy (J)")
    case MomentumLaw =>
      Law("Momentum is the quantity of motion of a moving body, equal to the product of its mass and velocity.",
          "p = mv",
          "Heavy, fast-moving objects are harder to stop - why trucks take longer to brake than cars",
          ["mass (kg)", "velocity (m/s)"],
          "Momentum (kg⋅m/s)")
    case WaveLaw =>
      Law("The wave equation relates the speed of a wave to its frequency and wavelength. For light waves, speed equals the speed of light.",
          "v = fλ (or c = fλ for light)",
          "Explains all wave phenomena - sound waves, light waves, radio waves, ocean waves",
          ["frequency (Hz)", "wavelength (m)", "speed (m/s) - need 2 of 3"],
          "Missing wave parameter")
    case OhmLaw =>
      Law("Ohm's Law states that current through a conductor is directly proportional to voltage and inversely proportional to resistance.",
          "V = IR, P = VI = I²R = V²/R",
          "Fundamental principle of electrical circuits - how voltage, current, and resistance relate in all electrical devices",
          ["voltage (V)", "current (A)", "resistance (Ω) - need 2 of 3"],
          "Missing electrical parameter and power")
    case CoulombLaw =>
      Law("Coulomb's Law describes the electrostatic force between two point charges, proportional to their charges and inversely proportional to distance squared.",
          "F = k|q₁q₂|/r²",
          "Explains electric forces - why clothes stick after dryer, lightning, how atoms bond",
          ["charge1 (C)", "charge2 (C)", "distance (m)"],
          "Electrostatic Force (N)")
    case GasLaw =>
      Law("The Ideal Gas Law relates pressure, volume, temperature, and amount of gas for an ideal gas.",
          "PV = nRT",
          "Explains gas behavior - why balloons expand when heated, how pressure cookers work, atmospheric pressure changes",
          ["pressure (Pa)", "volume (m³)", "moles (mol)", "temperature (K) - need 3 of 4"],
          "Missing gas parameter")
    case SnellLaw =>
      Law("Snell's Law describes how light bends when passing from one medium to another with different refractive indices.",
          "n₁sin(θ₁) = n₂sin(θ₂)",
          "Explains refraction - why objects look bent in water, how lenses work, fiber optics, mirages",
          ["n1 (refractive index)", "n2 (refractive index)", "theta1 (degrees)"],
          "Refraction angle (degrees)")
  }

  /** The laws in table order. */
  const LawIds: seq<LawId> := [NewtonLaw, KineticLaw, PotentialLaw, MomentumLaw, WaveLaw, OhmLaw, CoulombLaw, GasLaw, SnellLaw]

  /** `list(PHYSICS_LAWS.keys())`, in the table's order. */
  const LawNames: seq<string> := ["newton_second_law", "kinetic_energy", "potential_energy", "momentum",
                                  "wave_equation", "ohms_law", "coulombs_law", "ideal_gas_law", "snells_law"]

  /** The list of names is the table's keys, in table order. */
  lemma LawNamesAreKeys()
    ensures |LawNames| == |LawIds| == 9
    ensures forall i :: 0 <= i < |LawIds| ==> LawNames[i] == LawName(LawIds[i])
  {
  }

  /** `{name: info["summary"] for name, info in PHYSICS_LAWS.items()}` */
  function LawSummaries(): map<string, string> {
    map name | name in LawNames :: Entry(FindLaw(name).value).summary
  }

  /** `PHYSICS_LAWS.get(name)`: the law stored under the name, if any. */
  function FindLaw(name: string): (r: Option<LawId>)
    ensures r.Some? <==> name in LawNames
    ensures r.Some? ==> LawName(r.value) == name
  {
    if name == "newton_second_law" then Some(NewtonLaw)
    else if name == "kinetic_energy" then Some(KineticLaw)
    else if name == "potential_energy" then Some(PotentialLaw)
    else if name == "momentum" then Some(MomentumLaw)
    else if name == "wave_equation" then Some(WaveLaw)
    else if name == "ohms_law" then Some(OhmLaw)
    else if name == "coulombs_law" then Some(CoulombLaw)
    else if name == "ideal_gas_law" then Some(GasLaw)
    else if name == "snells_law" then Some(SnellLaw)
    else None
  }

  // ---------------------------------------------------------------------
  // Results

  /** What a Python exception caught by the resolver's `except` was:
      a division by zero, or arithmetic on an explicit `None` argument. */
  datatype Fault = DivisionByZero | NoneOperand

  /** The fixed error messages of the law handlers. */
  datatype Message =
    | MissingMassAcceleration | MissingMassVelocity | MissingMassHeight | MissingCharges
    | WaveNeedsTwo | OhmNeedsTwo | GasNeedsThree | MissingIndices | TotalInternalReflection

  /** The text of each message. */
  function MessageText(m: Message): string {
    match m
    case MissingMassAcceleration => "Missing required parameters: mass (kg) and acceleration (m/s²)"
    case MissingMassVelocity => "Missing required parameters: mass (kg) and velocity (m/s)"
    case MissingMassHeight => "Missing required parameters: mass (kg) and height (m)"
    case MissingCharges => "Missing required parameters: charge1 (C), charge2 (C), distance (m)"
    case WaveNeedsTwo => "Need at least 2 of: frequency, wavelength, speed"
    case OhmNeedsTwo => "Need at least 2 of: voltage (V), current (I), resistance (R)"
    case GasNeedsThree => "Need at least 3 of: pressure (Pa), volume (m³), moles (mol), temperature (K)"
    case MissingIndices => "Need refractive indices n1, n2 and incident angle theta1"
    case TotalInternalReflection => "Total internal reflection occurs - no refracted ray"
  }

  datatype Quantity = Quantity(name: string, value: real, units: string)

  /** `"result"` with its `"units"`: one number, or two named numbers. */
  datatype Payload = Scalar(value: real, units: string) | Pair(first: Quantity, second: Quantity)

  /** The `"law_summary"` and `"phenomena"` fields some results carry,
      read from the law's entry with `""` as the default; `info` is the
      entry the name selects, if any. */
  datatype Context = Context(info: Option<LawId>)

  /** The `"formula"` field: either `law_info.get("formula", fallback)`, or
      a fixed text. */
  datatype Formula = TableFormula(info: Option<LawId>, fallback: string) | FixedFormula(text: string)

  datatype Outcome =
    | Info(law: LawId)                                // the law's metadata record
    | Computed(payload: Payload, formula: Formula, context: Option<Context>)
    | Failure(message: Message)                       // an `{"error": ...}` with a fixed message
    | UnknownLaw(requested: string, available: seq<string>, summaries: Option<map<string, string>>)
    | CalculationError(fault: Fault)                  // `Calculation error: ...`
    | NoResult                                        // the function falls through and returns None

  /** Sine and arcsine in degrees (`math.sin(math.radians(x))` and
      `math.degrees(math.asin(x))`). */
  datatype Trig = Trig(sinDeg: real -> real, asinDeg: real -> real)

  /** The text of the `"formula"` field. */
  function FormulaText(f: Formula): string {
    match f
    case TableFormula(info, fallback) => if info.Some? then Entry(info.value).formula else fallback
    case FixedFormula(text) => text
  }

  /** `law_info.get("summary", "")` */
  function SummaryText(c: Context): string {
    if c.info.Some? then Entry(c.info.value).summary else ""
  }

  /** `law_info.get("phenomena", "")` */
  function PhenomenaText(c: Context): string {
    if c.info.Some? then Entry(c.info.value).phenomena else ""
  }

  function Abs(x: real): real {
    if x < 0.0 then -x else x
  }

  // ---------------------------------------------------------------------
  // Arithmetic facts the solvers rely on

  lemma DivMul(a: real, b: real)
    requires b != 0.0
    ensures (a / b) * b == a
    ensures b * (a / b) == a
  {
  }

  lemma NonNegativeProduct(x: real, y: real)
    requires x >= 0.0 && y >= 0.0
    ensures x * y >= 0.0
  {
  }

  /** Ohm's law from voltage and resistance: I = V/R, and V²/R is V I. */
  lemma CurrentAndPowerArithmetic(v: real, res: real)
    requires res != 0.0
    ensures v == (v / res) * res
    ensures v * v / res == v * (v / res)
  {
  }

  /** Ohm's law from current and resistance: I²R is V I with V = I R. */
  lemma VoltageAndPowerArithmetic(i: real, res: real)
    ensures i * i * res == (i * res) * i
  {
  }

  /** Dividing by a non-zero square and multiplying back. */
  lemma DivideBySquare(top: real, d: real)
    requires d != 0.0
    ensures d * d != 0.0
    ensures (top / (d * d)) * (d * d) == top
  {
  }

  // ---------------------------------------------------------------------
  // Single-result laws; each receives its resolved parameters

  /** F = m a */
  function NewtonSecondLaw(m: Option<real>, a: Option<real>, info: Option<LawId>): (r: Outcome)
    ensures !r.Info? && !r.UnknownLaw?
  {
    if m.None? || a.None? then
      Failure(MissingMassAcceleration)
    else
      Computed(Scalar(m.value * a.value, "N (Newtons)"), TableFormula(info, "F = ma"), Some(Context(info)))
  }

  /** Newton's second law fails exactly when mass or acceleration is
      missing, and otherwise yields m a in newtons. */
  lemma NewtonSecondLawSolves(m: Option<real>, a: Option<real>, info: Option<LawId>)
    ensures var r := NewtonSecondLaw(m, a, info);
      && (r.Failure? <==> m.None? || a.None?)
      && (r.Failure? ==> r.message == MissingMassAcceleration)
      && (!r.Failure? ==> r.Computed? && r.payload == Scalar(m.value * a.value, "N (Newtons)"))
  {
  }

  /** KE = ½ m v² */
  function KineticEnergy(m: Option<real>, v: Option<real>, info: Option<LawId>): (r: Outcome)
    ensures !r.Info? && !r.UnknownLaw?
  {
    if m.None? || v.None? then
      Failure(MissingMassVelocity)
    else
      Computed(Scalar(0.5 * m.value * (v.value * v.value), "J (Joules)"), TableFormula(info, "KE = ½mv²"), Some(Context(info)))
  }

  /** The kinetic energy fails exactly when mass or velocity is missing;
      otherwise twice the energy is m v², never negative for a
      non-negative mass. */
  lemma KineticEnergySolves(m: Option<real>, v: Option<real>, info: Option<LawId>)
    ensures var r := KineticEnergy(m, v, info);
      && (r.Failure? <==> m.None? || v.None?)
      && (r.Failure? ==> r.message == MissingMassVelocity)
      && (!r.Failure? ==> r.Computed? && r.payload.Scalar? && r.payload.units == "J (Joules)"
                          && 2.0 * r.payload.value == m.value * v.value * v.value
                          && (m.value >= 0.0 ==> r.payload.value >= 0.0))
  {
    if m.Some? && v.Some? && m.value >= 0.0 {
      NonNegativeProduct(0.5 * m.value, v.value * v.value);
    }
  }

  /** PE = m g h; an explicit `None` for g fails inside the arithmetic. */
  function PotentialEnergy(m: Option<real>, g: Option<real>, h: Option<real>, info: Option<LawId>): (r: Outcome)
    ensures !r.Info? && !r.UnknownLaw?
  {
    if m.None? || h.None? then
      Failure(MissingMassHeight)
    else if g.None? then
      CalculationError(NoneOperand)
    else
      Computed(Scalar(m.value * g.value * h.value, "J (Joules)"), TableFormula(info, "PE = mgh"), Some(Context(info)))
  }

  /** The potential energy fails exactly when mass or height is missing, is
      a calculation error exactly when only gravity is `None`, and is
      otherwise m g h in joules. */
  lemma PotentialEnergySolves(m: Option<real>, g: Option<real>, h: Option<real>, info: Option<LawId>)
    ensures var r := PotentialEnergy(m, g, h, info);
      && (r.Failure? <==> m.None? || h.None?)
      && (r.Failure? ==> r.message == MissingMassHeight)
      && (r.CalculationError? <==> m.Some? && h.Some? && g.None?)
      && (r.CalculationError? ==> r.fault == NoneOperand)
      && (r.Computed? <==> m.Some? && h.Some? && g.Some?)
      && (r.Computed? ==> r.payload == Scalar(m.value * g.value * h.value, "J (Joules)"))
  {
  }

  /** p = m v */
  function Momentum(m: Option<real>, v: Option<real>, info: Option<LawId>): (r: Outcome)
    ensures !r.Info? && !r.UnknownLaw?
  {
    if m.None? || v.None? then
      Failure(MissingMassVelocity)
    else
      Computed(Scalar(m.value * v.value, "kg⋅m/s"), TableFormula(info, "p = mv"), Some(Context(info)))
  }

  /** The momentum fails exactly when mass or velocity is missing, and is
      otherwise m v. */
  lemma MomentumSolves(m: Option<real>, v: Option<real>, info: Option<LawId>)
    ensures var r := Momentum(m, v, info);
      && (r.Failure? <==> m.None? || v.None?)
      && (r.Failure? ==> r.message == MissingMassVelocity)
      && (!r.Failure? ==> r.Computed? && r.payload == Scalar(m.value * v.value, "kg⋅m/s"))
  {
  }

  /** F = k |q1 q2| / r²; a zero distance or an explicit `None` for k
      fails inside the arithmetic. */
  function CoulombsLaw(k: Option<real>, q1: Option<real>, q2: Option<real>, d: Option<real>, info: Option<LawId>): (r: Outcome)
    ensures !r.Info? && !r.UnknownLaw?
  {
    if q1.None? || q2.None? || d.None? then
      Failure(MissingCharges)
    else if k.None? then
      CalculationError(NoneOperand)
    else if d.value == 0.0 then
      // r**2 is zero exactly when r is
      CalculationError(DivisionByZero)
    else
      DivideBySquare(k.value * Abs(q1.value * q2.value), d.value);
      Computed(Scalar(k.value * Abs(q1.value * q2.value) / (d.value * d.value), "N (Newtons)"), TableFormula(info, "F = k|q₁q₂|/r²"), Some(Context(info)))
  }

  /** Coulomb's law fails exactly when a charge or the distance is missing;
      a `None` constant and a zero distance are calculation errors; and
      otherwise the force times r² is k |q1 q2|. */
  lemma CoulombsLawSolves(k: Option<real>, q1: Option<real>, q2: Option<real>, d: Option<real>, info: Option<LawId>)
    ensures var r := CoulombsLaw(k, q1, q2, d, info);
      && (r.Failure? <==> q1.None? || q2.None? || d.None?)
      && (r.Failure? ==> r.message == MissingCharges)
      && (r == CalculationError(NoneOperand) <==> q1.Some? && q2.Some? && d.Some? && k.None?)
      && (r == CalculationError(DivisionByZero) <==> q1.Some? && q2.Some? && d.Some? && k.Some? && d.value == 0.0)
      && (r.Computed? || r.Failure? || r.CalculationError?)
      && (r.Computed? ==> r.payload.Scalar? && r.payload.units == "N (Newtons)"
                          && r.payload.value * (d.value * d.value) == k.value * Abs(q1.value * q2.value))
  {
    if q1.Some? && q2.Some? && d.Some? && k.Some? && d.value != 0.0 {
      DivideBySquare(k.value * Abs(q1.value * q2.value), d.value);
    }
  }

  // ---------------------------------------------------------------------
  // Multi-directional laws

  /** v = f λ: solve for whichever of speed, wavelength and frequency is
      missing, preferring them in that order; zero counts as missing. */
  function WaveEquation(f: Option<real>, l: Option<real>, c: Option<real>, info: Option<LawId>): (r: Outcome)
    ensures !r.Info? && !r.UnknownLaw?
  {
    var context := Some(Context(info));
    if Truthy(f) && Truthy(l) then
      Computed(Scalar(f.value * l.value, "m/s"), TableFormula(info, "v = fλ"), context)
    else if Truthy(f) && Truthy(c) then
      Computed(Scalar(c.value / f.value, "m"), FixedFormula("λ = c/f"), context)
    else if Truthy(l) && Truthy(c) then
      Computed(Scalar(c.value / l.value, "Hz"), FixedFormula("f = c/λ"), context)
    else
      Failure(WaveNeedsTwo)
  }

  /** The wave equation fails exactly when fewer than two of f, λ and c are
      truthy, and otherwise solves for the speed when f and λ are truthy,
      else for the wavelength, else for the frequency. */
  lemma WaveEquationCases(f: Option<real>, l: Option<real>, c: Option<real>, info: Option<LawId>)
    ensures var r := WaveEquation(f, l, c, info);
      && (r.Failure? <==> !(Truthy(f) && Truthy(l)) && !(Truthy(f) && Truthy(c)) && !(Truthy(l) && Truthy(c)))
      && (r.Failure? ==> r.message == WaveNeedsTwo)
      && (r.Failure? || (r.Computed? && r.payload.Scalar? && r.context == Some(Context(info))))
      && (r.Computed? && r.payload.units == "m/s" <==> Truthy(f) && Truthy(l))
      && (r.Computed? && r.payload.units == "m" <==> !Truthy(l) && Truthy(f) && Truthy(c))
      && (r.Computed? && r.payload.units == "Hz" <==> !Truthy(f) && Truthy(l) && Truthy(c))
  {
  }

  /** The quantity the wave equation solves for, put in place of the
      missing one, satisfies c = f λ. */
  lemma WaveEquationSolves(f: Option<real>, l: Option<real>, c: Option<real>, info: Option<LawId>)
    ensures var r := WaveEquation(f, l, c, info);
      && (r.Computed? && r.payload.units == "m/s" ==> r.payload.value == f.value * l.value)
      && (r.Computed? && r.payload.units == "m" ==> c.value == f.value * r.payload.value)
      && (r.Computed? && r.payload.units == "Hz" ==> c.value == r.payload.value * l.value)
  {
    WaveEquationCases(f, l, c, info);
    if Truthy(f) && Truthy(c) {
      DivMul(c.value, f.value);
    }
    if Truthy(l) && Truthy(c) {
      DivMul(c.value, l.value);
    }
  }

  /** V = I R and P = V I: from voltage and current, else voltage and
      resistance, else current and resistance (zero counts as missing),
      compute the third quantity and the power. */
  function OhmsLaw(v: Option<real>, i: Option<real>, res: Option<real>, info: Option<LawId>): (r: Outcome)
    ensures !r.Info? && !r.UnknownLaw?
  {
    if Truthy(v) && Truthy(i) then ResistanceAndPower(v.value, i.value, info)
    else if Truthy(v) && Truthy(res) then CurrentAndPower(v.value, res.value)
    else if Truthy(i) && Truthy(res) then VoltageAndPower(i.value, res.value)
    else Failure(OhmNeedsTwo)
  }

  /** Ohm's law fails exactly when fewer than two of V, I and R are truthy,
      and otherwise solves for the resistance when V and I are truthy, else
      for the current, else for the voltage, always with the power. */
  lemma OhmsLawCases(v: Option<real>, i: Option<real>, res: Option<real>, info: Option<LawId>)
    ensures var r := OhmsLaw(v, i, res, info);
      && (r.Failure? <==> !(Truthy(v) && Truthy(i)) && !(Truthy(v) && Truthy(res)) && !(Truthy(i) && Truthy(res)))
      && (r.Failure? ==> r.message == OhmNeedsTwo)
      && (r.Failure? || (r.Computed? && r.payload.Pair? && r.payload.second.name == "power"))
      && (r.Computed? && r.payload.first.name == "resistance" <==> Truthy(v) && Truthy(i))
      && (r.Computed? && r.payload.first.name == "current" <==> !Truthy(i) && Truthy(v) && Truthy(res))
      && (r.Computed? && r.payload.first.name == "voltage" <==> !Truthy(v) && Truthy(i) && Truthy(res))
  {
  }

  /** The quantity Ohm's law solves for, put in place of the missing one,
      satisfies V = I R, and the power is V I. */
  lemma OhmsLawSolves(v: Option<real>, i: Option<real>, res: Option<real>, info: Option<LawId>)
    ensures var r := OhmsLaw(v, i, res, info);
      && (r.Computed? && r.payload.first.name == "resistance" ==>
            v.value == i.value * r.payload.first.value && r.payload.second.value == v.value * i.value)
      && (r.Computed? && r.payload.first.name == "current" ==>
            v.value == r.payload.first.value * res.value && r.payload.second.value == v.value * r.payload.first.value)
      && (r.Computed? && r.payload.first.name == "voltage" ==>
            r.payload.first.value == i.value * res.value && r.payload.second.value == r.payload.first.value * i.value)
  {
    OhmsLawCases(v, i, res, info);
  }

  /** Ohm's law from voltage and current: R = V/I and P = V I. */
  function ResistanceAndPower(v: real, i: real, info: Option<LawId>): (r: Outcome)
    requires i != 0.0
    ensures r.Computed? && r.payload.Pair? && r.payload.first.name == "resistance" && r.payload.second.name == "power"
    ensures v == i * r.payload.first.value && r.payload.second.value == v * i
  {
    DivMul(v, i);
    Computed(Pair(Quantity("resistance", v / i, "Ω (Ohms)"), Quantity("power", v * i, "W (Watts)")),
             TableFormula(info, "V = IR, P = VI"), Some(Context(info)))
  }

  /** Ohm's law from voltage and resistance: I = V/R and P = V²/R, which is V I. */
  function CurrentAndPower(v: real, res: real): (r: Outcome)
    requires res != 0.0
    ensures r.Computed? && r.payload.Pair? && r.payload.first.name == "current" && r.payload.second.name == "power"
    ensures v == r.payload.first.value * res && r.payload.second.value == v * r.payload.first.value
  {
    CurrentAndPowerArithmetic(v, res);
    Computed(Pair(Quantity("current", v / res, "A (Amperes)"), Quantity("power", v * v / res, "W (Watts)")),
             FixedFormula("I = V/R, P = V²/R"), None)
  }

  /** Ohm's law from current and resistance: V = I R and P = I²R, which is V I. */
  function VoltageAndPower(i: real, res: real): (r: Outcome)
    ensures r.Computed? && r.payload.Pair? && r.payload.first.name == "voltage" && r.payload.second.name == "power"
    ensures r.payload.first.value == i * res && r.payload.second.value == r.payload.first.value * i
  {
    VoltageAndPowerArithmetic(i, res);
    Computed(Pair(Quantity("voltage", i * res, "V (Volts)"), Quantity("power", i * i * res, "W (Watts)")),
             FixedFormula("V = IR, P = I²R"), None)
  }

  /** `sum([x is not None for x in [P, V, n, T]])` */
  function Known(p: Option<real>, v: Option<real>, n: Option<real>, t: Option<real>): nat {
    (if p.Some? then 1 else 0) + (if v.Some? then 1 else 0) + (if n.Some? then 1 else 0) + (if t.Some? then 1 else 0)
  }

  /** P V = n R T: with at least three of pressure, volume, moles and
      temperature given, solve for the missing one (looked for in the order
      P, V, T, n). With all four given no branch applies and nothing is
      returned. */
  function IdealGasLaw(p: Option<real>, v: Option<real>, n: Option<real>, gas: Option<real>, t: Option<real>): (r: Outcome)
    ensures !r.Info? && !r.UnknownLaw?
  {
    if Known(p, v, n, t) < 3 then
      Failure(GasNeedsThree)
    else if p.None? then
      if gas.None? then CalculationError(NoneOperand)
      else if v.value == 0.0 then CalculationError(DivisionByZero)
      else Computed(Scalar((n.value * gas.value * t.value) / v.value, "Pa (Pascals)"), FixedFormula("P = nRT/V"), None)
    else if v.None? then
      if gas.None? then CalculationError(NoneOperand)
      else if p.value == 0.0 then CalculationError(DivisionByZero)
      else Computed(Scalar((n.value * gas.value * t.value) / p.value, "m³"), FixedFormula("V = nRT/P"), None)
    else if t.None? then
      if gas.None? then CalculationError(NoneOperand)
      else if n.value * gas.value == 0.0 then CalculationError(DivisionByZero)
      else Computed(Scalar((p.value * v.value) / (n.value * gas.value), "K (Kelvin)"), FixedFormula("T = PV/(nR)"), None)
    else if n.None? then
      if gas.None? then CalculationError(NoneOperand)
      else if gas.value * t.value == 0.0 then CalculationError(DivisionByZero)
      else Computed(Scalar((p.value * v.value) / (gas.value * t.value), "mol"), FixedFormula("n = PV/(RT)"), None)
    else
      NoResult
  }

  /** The ideal gas law fails when fewer than three quantities are given,
      returns nothing when all four are, and with three given and a `None`
      gas constant is a calculation error. With three given and a gas
      constant, it computes the missing quantity exactly when the divisor
      of its formula is not zero, and is otherwise a division by zero. */
  lemma IdealGasLawCases(p: Option<real>, v: Option<real>, n: Option<real>, gas: Option<real>, t: Option<real>)
    ensures var r := IdealGasLaw(p, v, n, gas, t);
      && (r.Failure? <==> Known(p, v, n, t) < 3)
      && (r.Failure? ==> r.message == GasNeedsThree)
      && (r == NoResult <==> Known(p, v, n, t) == 4)
      && (r == CalculationError(NoneOperand) <==> Known(p, v, n, t) == 3 && gas.None?)
      && (r.Computed? || r.Failure? || r.CalculationError? || r == NoResult)
      && (r.Computed? ==> Known(p, v, n, t) == 3 && r.payload.Scalar? && r.context.None?)
      && (Known(p, v, n, t) == 3 && gas.Some? ==>
            (r.Computed? <==>
               if p.None? then v.value != 0.0
               else if v.None? then p.value != 0.0
               else if t.None? then n.value * gas.value != 0.0
               else gas.value * t.value != 0.0))
      && (Known(p, v, n, t) == 3 && gas.Some? && !r.Computed? ==> r == CalculationError(DivisionByZero))
  {
  }

  /** The quantity the ideal gas law solves for, put in place of the
      missing one, satisfies P V = n R T. */
  lemma IdealGasLawSolves(p: Option<real>, v: Option<real>, n: Option<real>, gas: Option<real>, t: Option<real>)
    ensures var r := IdealGasLaw(p, v, n, gas, t);
      && (r.Computed? && p.None? ==> r.payload.units == "Pa (Pascals)" && r.payload.value * v.value == n.value * gas.value * t.value)
      && (r.Computed? && v.None? ==> r.payload.units == "m³" && p.value * r.payload.value == n.value * gas.value * t.value)
      && (r.Computed? && t.None? ==> r.payload.units == "K (Kelvin)" && p.value * v.value == n.value * gas.value * r.payload.value)
      && (r.Computed? && n.None? ==> r.payload.units == "mol" && p.value * v.value == r.payload.value * gas.value * t.value)
  {
    var r := IdealGasLaw(p, v, n, gas, t);
    if r.Computed? {
      if p.None? {
        DivMul(n.value * gas.value * t.value, v.value);
      } else if v.None? {
        DivMul(n.value * gas.value * t.value, p.value);
      } else if t.None? {
        var q := (p.value * v.value) / (n.value * gas.value);
        DivMul(p.value * v.value, n.value * gas.value);
        assert n.value * gas.value * q == (n.value * gas.value) * q;
      } else if n.None? {
        var q := (p.value * v.value) / (gas.value * t.value);
        DivMul(p.value * v.value, gas.value * t.value);
        assert q * gas.value * t.value == q * (gas.value * t.value);
      }
    }
  }

  /** `n1 * math.sin(math.radians(theta1)) / n2` */
  function SinRefracted(n1: real, n2: real, theta1: real, trig: Trig): real
    requires n2 != 0.0
  {
    n1 * trig.sinDeg(theta1) / n2
  }

  /** n1 sin θ1 = n2 sin θ2: the refraction angle, or total internal
      reflection when |n1 sin θ1 / n2| exceeds 1. */
  function SnellsLaw(n1: Option<real>, n2: Option<real>, theta1: Option<real>, info: Option<LawId>, trig: Trig): (r: Outcome)
    ensures !r.Info? && !r.UnknownLaw?
  {
    if Truthy(n1) && Truthy(n2) && Truthy(theta1) then
      var sinTheta2 := SinRefracted(n1.value, n2.value, theta1.value, trig);
      if Abs(sinTheta2) > 1.0 then
        Failure(TotalInternalReflection)
      else
        Computed(Scalar(trig.asinDeg(sinTheta2), "degrees"), TableFormula(info, "n₁sin(θ₁) = n₂sin(θ₂)"), Some(Context(info)))
    else
      Failure(MissingIndices)
  }

  /** Snell's law fails for a missing index or angle, reports total internal
      reflection exactly when |n1 sin θ1 / n2| exceeds 1, and otherwise
      yields the arcsine of that ratio in degrees. */
  lemma SnellsLawSolves(n1: Option<real>, n2: Option<real>, theta1: Option<real>, info: Option<LawId>, trig: Trig)
    ensures var r := SnellsLaw(n1, n2, theta1, info, trig);
      && (r.Failure? || (r.Computed? && r.payload.Scalar? && r.payload.units == "degrees"))
      && ((r.Failure? && r.message == MissingIndices)
            <==> !(Truthy(n1) && Truthy(n2) && Truthy(theta1)))
      && ((r.Failure? && r.message == TotalInternalReflection)
            <==> Truthy(n1) && Truthy(n2) && Truthy(theta1) && Abs(SinRefracted(n1.value, n2.value, theta1.value, trig)) > 1.0)
      && (r.Computed? ==> Abs(SinRefracted(n1.value, n2.value, theta1.value, trig)) <= 1.0
                          && r.payload.value == trig.asinDeg(SinRefracted(n1.value, n2.value, theta1.value, trig)))
  {
  }

  // ---------------------------------------------------------------------
  // The resolver

  /** `kwargs.get('info_only', False) or not kwargs or (len(kwargs) == 1 and 'info_only' in kwargs)` */
  predicate InfoRequested(kw: Kwargs) {
    Truthy(Get(kw, "info_only", None)) || |kw| == 0 || (|kw| == 1 && "info_only" in kw)
  }

  /** The compute path: resolve the law's parameter aliases (the long name
      first) and solve. `law_info` is `PHYSICS_LAWS.get(law, {})`. */
  function Compute(name: string, kw: Kwargs, trig: Trig): (r: Outcome)
    ensures !r.Info?
    ensures r.UnknownLaw? <==> name !in LawNames && name != "force"
    ensures r.UnknownLaw? ==> r == UnknownLaw(name, LawNames, Some(LawSummaries()))
  {
    var info := FindLaw(name);
    if name == "newton_second_law" || name == "force" then
      NewtonSecondLaw(Resolve(kw, ["mass", "m"], None), Resolve(kw, ["acceleration", "a"], None), info)
    else if name == "kinetic_energy" then
      KineticEnergy(Resolve(kw, ["mass", "m"], None), Resolve(kw, ["velocity", "v"], None), info)
    else if name == "potential_energy" then
      PotentialEnergy(Resolve(kw, ["mass", "m"], None), Resolve(kw, ["gravity", "g"], Some(9.81)),
                      Resolve(kw, ["height", "h"], None), info)
    else if name == "momentum" then
      Momentum(Resolve(kw, ["mass", "m"], None), Resolve(kw, ["velocity", "v"], None), info)
    else if name == "wave_equation" then
      WaveEquation(Resolve(kw, ["frequency", "f"], None), Resolve(kw, ["wavelength", "lambda", "l"], None),
                   Resolve(kw, ["speed", "c"], Some(3e8)), info)
    else if name == "ohms_law" then
      OhmsLaw(Resolve(kw, ["voltage", "V"], None), Resolve(kw, ["current", "I"], None),
              Resolve(kw, ["resistance", "R"], None), info)
    else if name == "coulombs_law" then
      CoulombsLaw(Resolve(kw, ["k"], Some(8.99e9)), Resolve(kw, ["charge1", "q1"], None),
                  Resolve(kw, ["charge2", "q2"], None), Resolve(kw, ["distance", "r"], None), info)
    else if name == "ideal_gas_law" then
      IdealGasLaw(Resolve(kw, ["pressure", "P"], None), Resolve(kw, ["volume", "V"], None),
                  Resolve(kw, ["moles", "n"], None), Resolve(kw, ["R"], Some(8.314)),
                  Resolve(kw, ["temperature", "T"], None))
    else if name == "snells_law" then
      SnellsLaw(Resolve(kw, ["n1", "index1"], None), Resolve(kw, ["n2", "index2"], None),
                Resolve(kw, ["theta1", "angle1"], None), info, trig)
    else
      UnknownLaw(name, LawNames, Some(LawSummaries()))
  }

  /** `physics_calc(law, **kwargs)` */
  function PhysicsCalc(law: string, kw: Kwargs, trig: Trig): (r: Outcome)
    // the information path never computes
    ensures InfoRequested(kw) ==> (r.Info? <==> NormalizeKey(law) in LawNames)
    ensures InfoRequested(kw) && r.Info? ==> LawName(r.law) == NormalizeKey(law)
    ensures InfoRequested(kw) && !r.Info? ==> r == UnknownLaw(NormalizeKey(law), LawNames, None)
    // the compute path never answers with metadata
    ensures !InfoRequested(kw) ==> !r.Info?
  {
    var name := NormalizeKey(law);
    if InfoRequested(kw) then
      var info := FindLaw(name);
      if info.Some? then Info(info.value) else UnknownLaw(name, LawNames, None)
    else
      Compute(name, kw, trig)
  }

  // ---------------------------------------------------------------------
  // Properties of the resolver

  /** On the compute path the resolver solves the normalised law. */
  lemma CalcComputes(law: string, kw: Kwargs, trig: Trig)
    requires !InfoRequested(kw)
    ensures PhysicsCalc(law, kw, trig) == Compute(NormalizeKey(law), kw, trig)
  {
  }

  /** A name made of lower-case letters and underscores is its own key. */
  lemma AlreadyNormal(s: string)
    requires forall i :: 0 <= i < |s| ==> s[i] == '_' || 'a' <= s[i] <= 'z'
    ensures NormalizeKey(s) == s
  {
    NormalizeKeyAt(s);
  }

  /** Law names that differ only in letter case and in the choice between
      space, hyphen and underscore select the same behaviour. */
  lemma SeparatorInsensitive(a: string, b: string, kw: Kwargs, trig: Trig)
    requires |a| == |b|
    requires forall i :: 0 <= i < |a| ==> KeyChar(a[i]) == KeyChar(b[i])
    ensures PhysicsCalc(a, kw, trig) == PhysicsCalc(b, kw, trig)
  {
    NormalizeKeyAgrees(a, b);
  }

  /** "Ohms Law", "ohms-law" and "OHMS_LAW" all name Ohm's law. */
  lemma OhmsLawSpellings()
    ensures NormalizeKey("Ohms Law") == "ohms_law"
    ensures NormalizeKey("ohms-law") == "ohms_law"
    ensures NormalizeKey("OHMS_LAW") == "ohms_law"
  {
    NormalizeKeyAt("Ohms Law");
    NormalizeKeyAt("ohms-law");
    NormalizeKeyAt("OHMS_LAW");
  }

  /** "force" reaches Newton's second law handler, without a table entry. */
  lemma ForceComputes(kw: Kwargs, trig: Trig)
    ensures Compute("force", kw, trig)
            == NewtonSecondLaw(Resolve(kw, ["mass", "m"], None), Resolve(kw, ["acceleration", "a"], None), None)
  {
    assert FindLaw("force") == None by {
      assert "force" !in LawNames;
    }
  }

  /** "newton_second_law" reaches Newton's second law handler. */
  lemma NewtonComputes(kw: Kwargs, trig: Trig)
    ensures Compute("newton_second_law", kw, trig)
            == NewtonSecondLaw(Resolve(kw, ["mass", "m"], None), Resolve(kw, ["acceleration", "a"], None), FindLaw("newton_second_law"))
  {
  }

  /** "force" is an alias of Newton's second law when computing, but not a
      law whose information can be asked for. Computing, it answers exactly
      as Newton's second law does, except that a computed result carries no
      law entry. */
  lemma ForceAliasComputesOnly(kw: Kwargs, trig: Trig)
    ensures InfoRequested(kw) ==> PhysicsCalc("force", kw, trig) == UnknownLaw("force", LawNames, None)
    ensures !InfoRequested(kw) ==> PhysicsCalc("force", kw, trig).Computed? == PhysicsCalc("newton_second_law", kw, trig).Computed?
    ensures !InfoRequested(kw) && PhysicsCalc("force", kw, trig).Computed? ==>
              PhysicsCalc("force", kw, trig).payload == PhysicsCalc("newton_second_law", kw, trig).payload
    ensures !InfoRequested(kw) && !PhysicsCalc("force", kw, trig).Computed? ==>
              PhysicsCalc("force", kw, trig) == PhysicsCalc("newton_second_law", kw, trig)
  {
    AlreadyNormal("force");
    AlreadyNormal("newton_second_law");
    if InfoRequested(kw) {
      assert "force" !in LawNames;
    } else {
      CalcComputes("force", kw, trig);
      CalcComputes("newton_second_law", kw, trig);
      ForceComputes(kw, trig);
      NewtonComputes(kw, trig);
    }
  }

  /** The inputs of the wave example reach the wave equation handler. */
  lemma WaveInputs(f: real, l: real, trig: Trig)
    ensures !InfoRequested(map["frequency" := Some(f), "wavelength" := Some(l)])
    ensures !InfoRequested(map["frequency" := Some(f), "speed" := Some(f * l)])
    ensures Compute("wave_equation", map["frequency" := Some(f), "wavelength" := Some(l)], trig)
            == WaveEquation(Some(f), Some(l), Some(3e8), FindLaw("wave_equation"))
    ensures Compute("wave_equation", map["frequency" := Some(f), "speed" := Some(f * l)], trig)
            == WaveEquation(Some(f), None, Some(f * l), FindLaw("wave_equation"))
  {
    var forward := map["frequency" := Some(f), "wavelength" := Some(l)];
    var backward := map["frequency" := Some(f), "speed" := Some(f * l)];
    assert "info_only" !in forward && |forward| == 2;
    assert "info_only" !in backward && |backward| == 2;
    assert ["speed", "c"][1..] == ["c"];
    assert Resolve(forward, ["c"], Some(3e8)) == Some(3e8);
    assert Resolve(forward, ["speed", "c"], Some(3e8)) == Some(3e8);
    assert ["wavelength", "lambda", "l"][1..] == ["lambda", "l"] && ["lambda", "l"][1..] == ["l"];
    assert Resolve(backward, ["l"], None) == None;
    assert Resolve(backward, ["lambda", "l"], None) == None;
    assert Resolve(backward, ["wavelength", "lambda", "l"], None) == None;
  }

  /** The wave example at the handler: speed from f and λ, then λ back
      from f and that speed. */
  lemma WaveHandlerRoundTrip(f: real, l: real, info: Option<LawId>)
    requires f != 0.0 && l != 0.0
    ensures WaveEquation(Some(f), Some(l), Some(3e8), info).Computed?
    ensures WaveEquation(Some(f), Some(l), Some(3e8), info).payload == Scalar(f * l, "m/s")
    ensures WaveEquation(Some(f), None, Some(f * l), info).Computed?
    ensures WaveEquation(Some(f), None, Some(f * l), info).payload == Scalar(l, "m")
  {
    var back := WaveEquation(Some(f), None, Some(f * l), info);
    assert f * l != 0.0;
    Cancel(f, back.payload.value, l);
  }

  /** The wave equation inverts itself: the speed computed from a frequency
      and a wavelength, given back with the frequency, yields the wavelength. */
  lemma WaveRoundTrip(f: real, l: real, trig: Trig)
    requires f != 0.0 && l != 0.0
    ensures PhysicsCalc("wave_equation", map["frequency" := Some(f), "wavelength" := Some(l)], trig).Computed?
    ensures PhysicsCalc("wave_equation", map["frequency" := Some(f), "wavelength" := Some(l)], trig).payload == Scalar(f * l, "m/s")
    ensures PhysicsCalc("wave_equation", map["frequency" := Some(f), "speed" := Some(f * l)], trig).Computed?
    ensures PhysicsCalc("wave_equation", map["frequency" := Some(f), "speed" := Some(f * l)], trig).payload == Scalar(l, "m")
  {
    AlreadyNormal("wave_equation");
    WaveInputs(f, l, trig);
    WaveHandlerRoundTrip(f, l, FindLaw("wave_equation"));
    CalcComputes("wave_equation", map["frequency" := Some(f), "wavelength" := Some(l)], trig);
    CalcComputes("wave_equation", map["frequency" := Some(f), "speed" := Some(f * l)], trig);
  }

  lemma Cancel(f: real, x: real, y: real)
    requires f != 0.0 && f * y == f * x
    ensures x == y
  {
  }

  /** The inputs of the Ohm's law example reach the Ohm's law handler. */
  lemma OhmsLawInputs(trig: Trig)
    ensures !InfoRequested(map["voltage" := Some(12.0), "current" := Some(2.0)])
    ensures Compute("ohms_law", map["voltage" := Some(12.0), "current" := Some(2.0)], trig)
            == OhmsLaw(Some(12.0), Some(2.0), None, FindLaw("ohms_law"))
  {
    var kw := map["voltage" := Some(12.0), "current" := Some(2.0)];
    assert "info_only" !in kw && |kw| == 2;
    assert Resolve(kw, ["resistance", "R"], None) == None;
  }

  /** Twelve volts driving a two-ampere current: six ohms and 24 watts. */
  lemma OhmsLawExample(trig: Trig)
    ensures PhysicsCalc("Ohms Law", map["voltage" := Some(12.0), "current" := Some(2.0)], trig).Computed?
    ensures PhysicsCalc("Ohms Law", map["voltage" := Some(12.0), "current" := Some(2.0)], trig).payload
            == Pair(Quantity("resistance", 6.0, "Ω (Ohms)"), Quantity("power", 24.0, "W (Watts)"))
  {
    OhmsLawSpellings();
    OhmsLawInputs(trig);
    CalcComputes("Ohms Law", map["voltage" := Some(12.0), "current" := Some(2.0)], trig);
  }

  /** The inputs of the refraction example reach Snell's law handler. */
  lemma SnellInputs(trig: Trig)
    ensures !InfoRequested(map["n1" := Some(1.5), "n2" := Some(1.0), "theta1" := Some(60.0)])
    ensures Compute("snells_law", map["n1" := Some(1.5), "n2" := Some(1.0), "theta1" := Some(60.0)], trig)
            == SnellsLaw(Some(1.5), Some(1.0), Some(60.0), FindLaw("snells_law"), trig)
  {
    var kw := map["n1" := Some(1.5), "n2" := Some(1.0), "theta1" := Some(60.0)];
    assert "info_only" !in kw && |kw| == 3;
  }

  /** The refraction example at the handler: sin θ2 would exceed one. */
  lemma SnellHandlerReflects(trig: Trig)
    requires trig.sinDeg(60.0) > 2.0 / 3.0
    ensures SnellsLaw(Some(1.5), Some(1.0), Some(60.0), FindLaw("snells_law"), trig)
            == Failure(TotalInternalReflection)
  {
    assert SinRefracted(1.5, 1.0, 60.0, trig) > 1.0;
  }

  /** Light passing from glass (n = 1.5) into air (n = 1.0) at 60 degrees is
      totally reflected, with any sine whose value at 60 degrees exceeds 2/3. */
  lemma SnellTotalInternalReflection(trig: Trig)
    requires trig.sinDeg(60.0) > 2.0 / 3.0
    ensures PhysicsCalc("snells_law", map["n1" := Some(1.5), "n2" := Some(1.0), "theta1" := Some(60.0)], trig)
            == Failure(TotalInternalReflection)
  {
    AlreadyNormal("snells_law");
    SnellInputs(trig);
    SnellHandlerReflects(trig);
    CalcComputes("snells_law", map["n1" := Some(1.5), "n2" := Some(1.0), "theta1" := Some(60.0)], trig);
  }

  /** The inputs of the potential energy example reach its handler. */
  lemma PotentialEnergyInputs(trig: Trig)
    ensures !InfoRequested(map["mass" := Some(2.0), "height" := Some(3.0), "gravity" := None])
    ensures !InfoRequested(map["mass" := Some(2.0), "height" := Some(3.0)])
    ensures Compute("potential_energy", map["mass" := Some(2.0), "height" := Some(3.0), "gravity" := None], trig)
            == PotentialEnergy(Some(2.0), None, Some(3.0), FindLaw("potential_energy"))
    ensures Compute("potential_energy", map["mass" := Some(2.0), "height" := Some(3.0)], trig)
            == PotentialEnergy(Some(2.0), Some(9.81), Some(3.0), FindLaw("potential_energy"))
  {
    var given := map["mass" := Some(2.0), "height" := Some(3.0), "gravity" := None];
    var omitted := map["mass" := Some(2.0), "height" := Some(3.0)];
    assert "info_only" !in given && |given| == 3;
    assert "info_only" !in omitted && |omitted| == 2;
    assert Resolve(omitted, ["gravity", "g"], Some(9.81)) == Some(9.81);
  }

  /** An explicit `None` for gravity overrides the default and fails the
      calculation; leaving gravity out uses 9.81. */
  lemma PotentialEnergyExplicitNone(trig: Trig)
    ensures PhysicsCalc("potential_energy", map["mass" := Some(2.0), "height" := Some(3.0), "gravity" := None], trig)
            == CalculationError(NoneOperand)
    ensures PhysicsCalc("potential_energy", map["mass" := Some(2.0), "height" := Some(3.0)], trig).Computed?
    ensures PhysicsCalc("potential_energy", map["mass" := Some(2.0), "height" := Some(3.0)], trig).payload
            == Scalar(2.0 * 9.81 * 3.0, "J (Joules)")
  {
    AlreadyNormal("potential_energy");
    PotentialEnergyInputs(trig);
    CalcComputes("potential_energy", map["mass" := Some(2.0), "height" := Some(3.0), "gravity" := None], trig);
    CalcComputes("potential_energy", map["mass" := Some(2.0), "height" := Some(3.0)], trig);
  }

  /** The inputs of the gas example reach the ideal gas handler. */
  lemma IdealGasInputs(p: real, v: real, n: real, t: real, trig: Trig)
    ensures !InfoRequested(map["pressure" := Some(p), "volume" := Some(v), "moles" := Some(n), "temperature" := Some(t)])
    ensures Compute("ideal_gas_law", map["pressure" := Some(p), "volume" := Some(v), "moles" := Some(n), "temperature" := Some(t)], trig)
            == IdealGasLaw(Some(p), Some(v), Some(n), Some(8.314), Some(t))
  {
    var kw := map["pressure" := Some(p), "volume" := Some(v), "moles" := Some(n), "temperature" := Some(t)];
    assert "info_only" !in kw && |kw| == 4;
    assert Resolve(kw, ["R"], Some(8.314)) == Some(8.314);
  }

  /** With all four gas quantities given nothing is solved and the resolver
      returns nothing. */
  lemma IdealGasOverDetermined(p: real, v: real, n: real, t: real, trig: Trig)
    ensures PhysicsCalc("ideal_gas_law", map["pressure" := Some(p), "volume" := Some(v), "moles" := Some(n), "temperature" := Some(t)], trig)
            == NoResult
  {
    AlreadyNormal("ideal_gas_law");
    IdealGasInputs(p, v, n, t, trig);
    CalcComputes("ideal_gas_law", map["pressure" := Some(p), "volume" := Some(v), "moles" := Some(n), "temperature" := Some(t)], trig);
  }

  /** The inputs of the Coulomb example reach Coulomb's law handler. */
  lemma CoulombInputs(q1: real, q2: real, trig: Trig)
    ensures !InfoRequested(map["q1" := Some(q1), "q2" := Some(q2), "r" := Some(0.0)])
    ensures Compute("coulombs_law", map["q1" := Some(q1), "q2" := Some(q2), "r" := Some(0.0)], trig)
            == CoulombsLaw(Some(8.99e9), Some(q1), Some(q2), Some(0.0), FindLaw("coulombs_law"))
  {
    var kw := map["q1" := Some(q1), "q2" := Some(q2), "r" := Some(0.0)];
    assert "info_only" !in kw && |kw| == 3;
    assert Resolve(kw, ["k"], Some(8.99e9)) == Some(8.99e9);
    assert Resolve(kw, ["charge1", "q1"], None) == Some(q1);
    assert Resolve(kw, ["charge2", "q2"], None) == Some(q2);
    assert Resolve(kw, ["distance", "r"], None) == Some(0.0);
  }

  /** Coulomb's law at zero distance fails with a division by zero. */
  lemma CoulombZeroDistance(q1: real, q2: real, trig: Trig)
    ensures PhysicsCalc("coulombs_law", map["q1" := Some(q1), "q2" := Some(q2), "r" := Some(0.0)], trig)
            == CalculationError(DivisionByZero)
  {
    AlreadyNormal("coulombs_law");
    CoulombInputs(q1, q2, trig);
    assert CoulombsLaw(Some(8.99e9), Some(q1), Some(q2), Some(0.0), FindLaw("coulombs_law")) == CalculationError(DivisionByZero);
    CalcComputes("coulombs_law", map["q1" := Some(q1), "q2" := Some(q2), "r" := Some(0.0)], trig);
  }
}
