/** The truth table of the example program in Theory/R2R/try2.py: every
    input code i in 0..7 drives the ladder with 5 V logic, bit 2 of i on v1
    (MSB), bit 1 on v2 and bit 0 on v3 (LSB), and each row shows the inputs,
    the output voltage and i as a 3-digit binary label. */
module TruthTable {
  import opened Ladder
  import opened Binary

  /** Logic HIGH and LOW voltages of the table. */
  const High: real := 5.0
  const Low: real := 0.0
  /** range(8): one row per 3-bit input code. */
  const Codes: nat := 8

  datatype Row = Row(v1: real, v2: real, v3: real, vOut: real, binary: string)

  function Level(on: bool): real
  {
    if on then High else Low
  }

  /** The body of the loop for one code i: each input is HIGH exactly when
      its bit of i is set (bit 2 for v1, 1 for v2, 0 for v3) and LOW
      otherwise, v_out is the ladder's output for those inputs, and the label
      is i in three binary digits. */
  function RowAt(n: Network, i: nat): (row: Row)
    requires Computable(n) && i < Codes
    ensures (row.v1 == High <==> Bit(i, 2)) && (row.v1 == Low <==> !Bit(i, 2))
    ensures (row.v2 == High <==> Bit(i, 1)) && (row.v2 == Low <==> !Bit(i, 1))
    ensures (row.v3 == High <==> Bit(i, 0)) && (row.v3 == Low <==> !Bit(i, 0))
    ensures row.vOut == OutputVoltage(n, row.v1, row.v2, row.v3).vOut
    ensures row.binary == Format(i, 3)
  {
    MasksAreBits(i);
    var bits := i as bv3;
    var v1 := Level((bits & 0x4) != 0);
    var v2 := Level((bits & 0x2) != 0);
    var v3 := Level((bits & 0x1) != 0);
    Row(v1, v2, v3, OutputVoltage(n, v1, v2, v3).vOut, Format(i, 3))
  }

  /** The whole loop: the rows in the order it produces them. */
  function Table(n: Network): (rows: seq<Row>)
    requires Computable(n)
    ensures |rows| == Codes
    ensures forall i :: 0 <= i < Codes ==> rows[i] == RowAt(n, i)
  {
    seq(Codes, i requires 0 <= i < Codes => RowAt(n, i))
  }

  function BitValue(i: nat, k: nat): nat
  {
    if Bit(i, k) then 1 else 0
  }

  /** The source's mask tests i & 0b100, i & 0b010, i & 0b001 read bits 2, 1, 0
      of i, and the three bits make up i. */
  lemma MasksAreBits(i: nat)
    requires i < Codes
    ensures (((i as bv3) & 0x4) != 0) == Bit(i, 2)
    ensures (((i as bv3) & 0x2) != 0) == Bit(i, 1)
    ensures (((i as bv3) & 0x1) != 0) == Bit(i, 0)
    ensures i == 4 * BitValue(i, 2) + 2 * BitValue(i, 1) + BitValue(i, 0)
  {
    // Dafny checks the eight codes by evaluation.
  }

  /** Each input of row i is HIGH exactly when its bit of i is set, LOW otherwise. */
  lemma RowInputs(n: Network, i: nat)
    requires Computable(n) && i < Codes
    ensures var row := Table(n)[i];
            (row.v1 == High <==> Bit(i, 2)) && (row.v1 == Low <==> !Bit(i, 2)) &&
            (row.v2 == High <==> Bit(i, 1)) && (row.v2 == Low <==> !Bit(i, 1)) &&
            (row.v3 == High <==> Bit(i, 0)) && (row.v3 == Low <==> !Bit(i, 0))
  {
    MasksAreBits(i);
  }

  /** Row i's label is 3 binary digits whose value is i; the digits from
      left to right are bits 2, 1, 0 of i and so agree with v1, v2, v3. */
  lemma RowLabel(n: Network, i: nat)
    requires Computable(n) && i < Codes
    ensures var row := Table(n)[i];
            |row.binary| == 3 && IsBinary(row.binary) && Value(row.binary) == i &&
            (row.binary[0] == '1' <==> row.v1 == High) &&
            (row.binary[1] == '1' <==> row.v2 == High) &&
            (row.binary[2] == '1' <==> row.v3 == High)
  {
    assert Pow2(3) == 8;
    FormatWidth(i, 3);
    FormatRoundTrip(i, 3);
    FormatBits(i, 3, 0);
    FormatBits(i, 3, 1);
    FormatBits(i, 3, 2);
    RowInputs(n, i);
  }

  /** The rows come in strictly ascending order of their labels, "000" to "111",
      so every label appears once. */
  lemma TableOrdered(n: Network, i: nat, j: nat)
    requires Computable(n) && i < j < Codes
    ensures Value(Table(n)[i].binary) < Value(Table(n)[j].binary)
    ensures Table(n)[i].binary != Table(n)[j].binary
  {
    RowLabel(n, i);
    RowLabel(n, j);
  }

  /** The table enumerates every 3-digit binary label. */
  lemma TableComplete(n: Network, s: string)
    requires Computable(n) && |s| == 3 && IsBinary(s)
    ensures exists i :: 0 <= i < Codes && Table(n)[i].binary == s
  {
    var i := Value(s);
    assert Value(s) < 8 by {
      ValueBound(s);
      assert Pow2(3) == 8;
    }
    assert Format(i, 3) == s by {
      RowLabel(n, i);
      forall j | 0 <= j < 3
        ensures Format(i, 3)[j] == s[j]
      {
        FormatBits(i, 3, j);
        CharIsBit(s, j);
      }
    }
  }

  /** Row i's Thevenin voltage is 5 V * i / 8: the ladder is a linear DAC. */
  lemma RowThevenin(n: Network, i: nat)
    requires Computable(n) && i < Codes
    ensures var row := Table(n)[i];
            TheveninEquivalent(n, row.v1, row.v2, row.v3).vTh == High * (i as real) / 8.0
  {
    MasksAreBits(i);
  }

  /** With a positive load and positive total resistance, v_out rises strictly with the code. */
  lemma OutputIncreasing(n: Network, i: nat, j: nat)
    requires n.speakerLoad > 0.0 && n.r + n.speakerLoad > 0.0
    requires i < j < Codes
    ensures Table(n)[i].vOut < Table(n)[j].vOut
  {
    RowThevenin(n, i);
    RowThevenin(n, j);
    var a, b := Table(n)[i], Table(n)[j];
    DividerMonotone(n, a.v1, a.v2, a.v3, b.v1, b.v2, b.v3);
  }

  /** Row 0 ("000"): all inputs LOW, and nothing reaches the speaker. */
  lemma RowAllLow(n: Network)
    requires Computable(n)
    ensures var row := Table(n)[0];
            row.v1 == row.v2 == row.v3 == 0.0 && row.binary == "000" &&
            OutputVoltage(n, row.v1, row.v2, row.v3) == Output(0.0, 0.0, 0.0)
  {
    RowLabel(n, 0);
    var row := Table(n)[0];
    assert row.binary == "000";
  }

  /** Row 7 ("111") is the all-HIGH example (5, 5, 5). */
  lemma RowAllHigh(n: Network)
    requires Computable(n)
    ensures var row := Table(n)[7];
            row.v1 == row.v2 == row.v3 == 5.0 && row.binary == "111" &&
            row.vOut == OutputVoltage(n, 5.0, 5.0, 5.0).vOut
  {
    RowLabel(n, 7);
    var row := Table(n)[7];
    assert row.binary == "111";
  }

  /** The table of the example program (R = 2000): row 7 repeats example 1. */
  lemma ExampleTable()
    ensures Table(Init(2000.0))[7].vOut == 5.0 / 144.0
    ensures Table(Init(2000.0))[5].vOut == OutputVoltage(Init(2000.0), 5.0, 0.0, 5.0).vOut
  {
    RowAllHigh(Init(2000.0));
    ExampleAllHigh();
    MasksAreBits(5);
  }
}
