/**
 * The chart colour format both pages use: `"#"` followed by a random integer
 * written in lower-case hexadecimal and left-padded with zeros to six digits.
 * The random integer, `floor(Math.random() * 16777215)`, is a parameter here.
 */
module Color {
  import opened Text

  /** The exclusive upper bound of the random draw: draws lie in [0, 16777214]. */
  const DrawBound: nat := 16777215

  /** `getRandomColor()` once the draw `n` has been made. */
  function HexColor(n: nat): (color: string)
    requires n < DrawBound
    ensures |color| == 7 && color[0] == '#'
    ensures IsNumeral(color[1..], 16)
    ensures NumeralValue(color[1..], 16) == n
  {
    var hex := NatToString(n, 16);
    assert Pow(16, 6) == 16777216;
    NatToStringLength(n, 16, 6);
    NatToStringRoundTrip(n, 16);
    LeadingZerosValue(6 - |hex|, hex, 16);
    "#" + PadStart(hex, 6, '0')
  }

  /** Distinct draws give distinct colours: the encoding loses nothing. */
  lemma HexColorInjective(m: nat, n: nat)
    requires m < DrawBound && n < DrawBound
    ensures HexColor(m) == HexColor(n) <==> m == n
  {
    if HexColor(m) == HexColor(n) {
      assert NumeralValue(HexColor(m)[1..], 16) == NumeralValue(HexColor(n)[1..], 16);
    }
  }

  /** Draw 255 gives "#0000ff"; draw 0 gives "#000000". */
  lemma HexColorExamples()
    ensures HexColor(255) == "#0000ff"
    ensures HexColor(0) == "#000000"
  {
    assert NatToString(255, 16) == "ff";
    assert NatToString(0, 16) == "0";
  }
}
