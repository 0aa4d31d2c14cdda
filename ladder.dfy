/** The closed-form model of a 3-bit R-2R ladder DAC that drives a speaker
    (class R2RNetwork of Theory/R2R/try2.py). Voltages, resistances, currents
    and powers are exact reals; the source's floating point is not modelled.
    Every operation is a function of the network's configuration and its
    arguments: no operation changes the configuration. */
module Ladder {

  /** Base resistance used when the caller gives none, in ohms. */
  const DefaultR: real := 10000.0
  /** The ladder always has three voltage sources (v1, v2, v3). */
  const NumBits: nat := 3
  /** The speaker the ladder drives, in ohms. */
  const SpeakerLoad: real := 16.0

  /** The configuration of an R2RNetwork object. */
  datatype Network = Network(r: real, numBits: nat, speakerLoad: real)

  /** The voltage source and series resistance seen from the ladder's output node. */
  datatype Thevenin = Thevenin(vTh: real, rTh: real)

  /** What the speaker sees: voltage across it, current through it, power it dissipates. */
  datatype Output = Output(vOut: real, current: real, power: real)

  /** The numbers display_results prints, in the units it prints them in. */
  datatype Report = Report(
    rKiloOhms: real, speakerLoad: real,
    v1: real, v2: real, v3: real,
    vTh: real, rThKiloOhms: real,
    vOut: real, currentMilliAmps: real, powerMilliWatts: real)

  /** R2RNetwork(r_value=...): the constructor fixes all three fields. */
  function Init(rValue: real := DefaultR): (n: Network)
    ensures n.r == rValue && n.numBits == 3 && n.speakerLoad == 16.0
    ensures rValue > 0.0 ==> Physical(n)
    ensures rValue != -16.0 ==> Computable(n)
  {
    Network(rValue, NumBits, SpeakerLoad)
  }

  /** Neither denominator of the output calculation is zero. The source does
      not check this; a caller that breaks it divides by zero. */
  predicate Computable(n: Network)
  {
    n.speakerLoad != 0.0 && n.r + n.speakerLoad != 0.0
  }

  /** Both resistances are positive, as in any real circuit. */
  predicate Physical(n: Network)
  {
    n.r > 0.0 && n.speakerLoad > 0.0
  }

  function Abs(x: real): real
  {
    if x < 0.0 then -x else x
  }

  /** calculate_thevenin_equivalent: v1 is the most significant input and
      weighs 1/2, v2 weighs 1/4 and v3 (least significant) 1/8; the
      resistance looking into the ladder is R whatever the inputs are. */
  function TheveninEquivalent(n: Network, v1: real, v2: real, v3: real): (t: Thevenin)
    ensures t.rTh == n.r
    ensures 8.0 * t.vTh == 4.0 * v1 + 2.0 * v2 + v3
  {
    Thevenin(v1 / 2.0 + v2 / 4.0 + v3 / 8.0, n.r)
  }

  /** calculate_output_voltage: the Thevenin source divided between its own
      resistance and the speaker, then Ohm's law and P = V * I. */
  function OutputVoltage(n: Network, v1: real, v2: real, v3: real): (o: Output)
    requires Computable(n)
    ensures o.vOut * (n.r + n.speakerLoad) == TheveninEquivalent(n, v1, v2, v3).vTh * n.speakerLoad
    ensures o.current * n.speakerLoad == o.vOut
    ensures o.power * n.speakerLoad == o.vOut * o.vOut
  {
    var t := TheveninEquivalent(n, v1, v2, v3);
    var vOut := t.vTh * (n.speakerLoad / (t.rTh + n.speakerLoad));
    var current := vOut / n.speakerLoad;
    var power := vOut * current;
    assert power * n.speakerLoad == vOut * vOut by {
      assert current * n.speakerLoad == vOut;
    }
    Output(vOut, current, power)
  }

  /** Ohms to kilo-ohms, as display_results prints resistances. */
  function KiloOhms(ohms: real): (k: real)
    ensures 1000.0 * k == ohms
  {
    ohms / 1000.0
  }

  /** Amperes to milliamperes, or watts to milliwatts. */
  function Milli(x: real): (m: real)
    ensures m / 1000.0 == x
  {
    x * 1000.0
  }

  /** display_results, without the text: the values it prints. The value it
      returns is the report's vOut, the output calculation's v_out. */
  function DisplayResults(n: Network, v1: real, v2: real, v3: real): (rep: Report)
    requires Computable(n)
    ensures rep.rThKiloOhms == rep.rKiloOhms
    ensures 1000.0 * rep.rKiloOhms == n.r && rep.speakerLoad == n.speakerLoad
    ensures rep.v1 == v1 && rep.v2 == v2 && rep.v3 == v3
    ensures rep.vTh == TheveninEquivalent(n, v1, v2, v3).vTh
    ensures rep.vOut == OutputVoltage(n, v1, v2, v3).vOut
    ensures rep.currentMilliAmps == 1000.0 * OutputVoltage(n, v1, v2, v3).current
    ensures rep.powerMilliWatts == 1000.0 * OutputVoltage(n, v1, v2, v3).power
    ensures rep.powerMilliWatts == rep.vOut * rep.currentMilliAmps
    ensures rep.currentMilliAmps * n.speakerLoad == 1000.0 * rep.vOut
  {
    var t := TheveninEquivalent(n, v1, v2, v3);
    var o := OutputVoltage(n, v1, v2, v3);
    Report(KiloOhms(n.r), n.speakerLoad, v1, v2, v3,
           t.vTh, KiloOhms(t.rTh), o.vOut, Milli(o.current), Milli(o.power))
  }

  lemma UnitRoundTrip(x: real)
    ensures Milli(KiloOhms(x)) == x && KiloOhms(Milli(x)) == x
  {
  }

  /** The Thevenin resistance does not depend on the inputs. */
  lemma TheveninResistanceIndependent(n: Network, v1: real, v2: real, v3: real, w1: real, w2: real, w3: real)
    ensures TheveninEquivalent(n, v1, v2, v3).rTh == TheveninEquivalent(n, w1, w2, w3).rTh == n.r
  {
  }

  /** Scaling every input by a scales the Thevenin voltage by a. */
  lemma TheveninHomogeneous(n: Network, a: real, v1: real, v2: real, v3: real)
    ensures TheveninEquivalent(n, a * v1, a * v2, a * v3).vTh == a * TheveninEquivalent(n, v1, v2, v3).vTh
  {
  }

  /** The Thevenin voltage of a sum of input triples is the sum of theirs. */
  lemma TheveninAdditive(n: Network, v1: real, v2: real, v3: real, w1: real, w2: real, w3: real)
    ensures TheveninEquivalent(n, v1 + w1, v2 + w2, v3 + w3).vTh
         == TheveninEquivalent(n, v1, v2, v3).vTh + TheveninEquivalent(n, w1, w2, w3).vTh
  {
  }

  /** With a positive load and a positive total resistance, v_out has the sign of v_th. */
  lemma DividerPreservesSign(n: Network, v1: real, v2: real, v3: real)
    requires n.speakerLoad > 0.0 && n.r + n.speakerLoad > 0.0
    ensures var vTh := TheveninEquivalent(n, v1, v2, v3).vTh;
            var vOut := OutputVoltage(n, v1, v2, v3).vOut;
            (vOut > 0.0 <==> vTh > 0.0) && (vOut < 0.0 <==> vTh < 0.0) && (vOut == 0.0 <==> vTh == 0.0)
  {
  }

  /** A real that multiplied by a positive d gives c has the sign of c. */
  lemma FactorSign(x: real, d: real, c: real)
    requires d > 0.0 && x * d == c
    ensures (x > 0.0 <==> c > 0.0) && (x == 0.0 <==> c == 0.0)
  {
    if x < 0.0 {
      assert x * d < 0.0;
    } else if x > 0.0 {
      assert x * d > 0.0;
    }
  }

  /** The divider never amplifies, and with R > 0 it strictly attenuates any nonzero v_th. */
  lemma DividerNeverAmplifies(n: Network, v1: real, v2: real, v3: real)
    requires n.speakerLoad > 0.0 && n.r >= 0.0
    ensures var vTh := TheveninEquivalent(n, v1, v2, v3).vTh;
            var vOut := OutputVoltage(n, v1, v2, v3).vOut;
            Abs(vOut) <= Abs(vTh) && (n.r > 0.0 && vTh != 0.0 ==> Abs(vOut) < Abs(vTh))
  {
    var vTh := TheveninEquivalent(n, v1, v2, v3).vTh;
    var vOut := OutputVoltage(n, v1, v2, v3).vOut;
    var g := n.speakerLoad / (n.r + n.speakerLoad);
    var d := n.r + n.speakerLoad;
    assert g * d == n.speakerLoad;
    assert (1.0 - g) * d == n.r;
    assert g > 0.0;
    FactorSign(1.0 - g, d, n.r);
    assert vOut == vTh * g;
    assert Abs(vOut) == Abs(vTh) * g;
  }

  /** A higher Thevenin voltage gives a higher voltage across the speaker. */
  lemma DividerMonotone(n: Network, v1: real, v2: real, v3: real, w1: real, w2: real, w3: real)
    requires n.speakerLoad > 0.0 && n.r + n.speakerLoad > 0.0
    ensures TheveninEquivalent(n, v1, v2, v3).vTh < TheveninEquivalent(n, w1, w2, w3).vTh
        <==> OutputVoltage(n, v1, v2, v3).vOut < OutputVoltage(n, w1, w2, w3).vOut
  {
    var x := TheveninEquivalent(n, v1, v2, v3).vTh;
    var y := TheveninEquivalent(n, w1, w2, w3).vTh;
    var a := OutputVoltage(n, v1, v2, v3).vOut;
    var b := OutputVoltage(n, w1, w2, w3).vOut;
    var d := n.r + n.speakerLoad;
    var g := n.speakerLoad / d;
    assert g * d == n.speakerLoad;
    FactorSign(g, d, n.speakerLoad);
    assert a == x * g && b == y * g;
    assert b - a == (y - x) * g;
    FactorSign(y - x, g, b - a);
  }

  /** The speaker dissipates v_out^2 / load, never a negative power, and none exactly when v_out is 0. */
  lemma PowerNonNegative(n: Network, v1: real, v2: real, v3: real)
    requires n.speakerLoad > 0.0 && n.r + n.speakerLoad != 0.0
    ensures var o := OutputVoltage(n, v1, v2, v3);
            o.power == o.vOut * o.vOut / n.speakerLoad && o.power >= 0.0 && (o.power == 0.0 <==> o.vOut == 0.0)
  {
    var o := OutputVoltage(n, v1, v2, v3);
    assert o.vOut * o.vOut >= 0.0;
  }

  /** Example 1: R = 2000, all three inputs HIGH (5 V). */
  lemma ExampleAllHigh()
    ensures TheveninEquivalent(Init(2000.0), 5.0, 5.0, 5.0) == Thevenin(4.375, 2000.0)
    ensures OutputVoltage(Init(2000.0), 5.0, 5.0, 5.0).vOut == 4.375 * 16.0 / 2016.0 == 5.0 / 144.0
  {
  }

  /** Example 2: R = 2000, inputs 101. */
  lemma ExamplePattern101()
    ensures TheveninEquivalent(Init(2000.0), 5.0, 0.0, 5.0).vTh == 3.125
    ensures OutputVoltage(Init(2000.0), 5.0, 0.0, 5.0).vOut == 3.125 * 16.0 / 2016.0
  {
  }

  /** Example 3: R = 2000, custom voltages 3.3, 1.5, 2.0. */
  lemma ExampleCustom()
    ensures TheveninEquivalent(Init(2000.0), 3.3, 1.5, 2.0).vTh == 2.275
    ensures OutputVoltage(Init(2000.0), 3.3, 1.5, 2.0).vOut == 2.275 * 16.0 / 2016.0
  {
  }
}
