/**
 * `formatNumber`: a currency string with a K, M or B suffix for large
 * values, up to eight decimals for values strictly between -0.01 and 0.01,
 * two decimals otherwise, and "$0.00" for zero and for anything that is
 * not a number.
 *
 * Two parts of JavaScript's standard library are parameters of the model:
 * `parseFloat` (string to number) and the digit generation of
 * `Number.prototype.toFixed` on a finite value (`render(x, digits)`). The
 * choice of branch, the scaling, the suffixes and the trailing-zero strip
 * (`replace(/\.?0+$/, '')`) are modelled exactly.
 */
module Format {

  import opened Js
  import opened Text

  const Thousand: real := 1000.0
  const Million: real := 1000000.0
  const Billion: real := 1000000000.0
  const Cent: real := 0.01

  /** The argument of `formatNumber`: a string or a number. */
  datatype Input = FromString(s: string) | FromNumber(n: Number)

  /** `typeof num === "string" ? parseFloat(num) : num`. */
  function ToValue(num: Input, parseFloat: string -> Number): Number
  {
    match num
    case FromString(s) => parseFloat(s)
    case FromNumber(n) => n
  }

  // ---------------------------------------------------------------------------
  // Comparisons of a JavaScript number with a constant (always false for NaN)

  predicate AtLeast(v: Number, c: real)
  {
    match v
    case Finite(x) => x >= c
    case Infinity => true
    case _ => false
  }

  predicate Below(v: Number, c: real)
  {
    match v
    case Finite(x) => x < c
    case NegInfinity => true
    case _ => false
  }

  predicate Above(v: Number, c: real)
  {
    match v
    case Finite(x) => x > c
    case Infinity => true
    case _ => false
  }

  /** `v / d` for a positive constant `d`. */
  function Divide(v: Number, d: real): Number
    requires d > 0.0
  {
    match v
    case Finite(x) => Finite(x / d)
    case _ => v
  }

  /**
   * `v.toFixed(digits)`: a non-finite value prints as its name; a finite one
   * is rendered by `render`.
   */
  function ToFixed(v: Number, digits: nat, render: (real, nat) -> string): string
  {
    match v
    case Finite(x) => render(x, digits)
    case NaN => "NaN"
    case Infinity => "Infinity"
    case NegInfinity => "-Infinity"
  }

  // ---------------------------------------------------------------------------
  // The trailing-zero strip

  predicate AllZeros(t: string)
  {
    forall i :: 0 <= i < |t| ==> t[i] == '0'
  }

  /** `t` is matched in full by `\.?0+`. */
  predicate ZeroTail(t: string)
  {
    (|t| >= 1 && AllZeros(t)) || (|t| >= 2 && t[0] == '.' && AllZeros(t[1..]))
  }

  /** The length of the run of '0's at the end of `s`. */
  function TrailingZeros(s: string): (k: nat)
    ensures k <= |s| && AllZeros(s[|s| - k..])
    ensures k < |s| ==> s[|s| - k - 1] != '0'
  {
    if |s| > 0 && s[|s| - 1] == '0' then
      var t := s[..|s| - 1];
      var j := TrailingZeros(t);
      assert s[|s| - 1 - j..] == t[|t| - j..] + [s[|s| - 1]];
      assert j < |t| ==> s[|s| - j - 2] == t[|t| - j - 1];
      1 + j
    else 0
  }

  /**
   * `s.replace(/\.?0+$/, '')`: the regular expression is tried at every start
   * position from the left; the first position where it matches up to the
   * end of the string is where the result is cut. No match leaves `s` as it is.
   */
  function StripTrailingZeros(s: string): (r: string)
    ensures IsPrefix(r, s)
    ensures r == s || ZeroTail(s[|r|..])
    ensures forall i :: 0 <= i < |r| ==> !ZeroTail(s[i..])
  {
    var k := TrailingZeros(s);
    var r :=
      if k == 0 then s
      else if k < |s| && s[|s| - k - 1] == '.' then s[..|s| - k - 1]
      else s[..|s| - k];
    r
  }

  /** The regular-expression contract above determines the result. */
  lemma StripDetermined(s: string, r: string)
    requires IsPrefix(r, s)
    requires r == s || ZeroTail(s[|r|..])
    requires forall i :: 0 <= i < |r| ==> !ZeroTail(s[i..])
    ensures r == StripTrailingZeros(s)
  {
    var q := StripTrailingZeros(s);
    assert r == s[..|r|] && q == s[..|q|];
  }

  /** A rendering with a significant last digit keeps it and loses the zeros after it. */
  lemma StripKeepsSignificantDigits()
    ensures StripTrailingZeros("0.00500000") == "0.005"
  {
    var a := "0.00500000";
    assert TrailingZeros(a[..5]) == 0;
    assert TrailingZeros(a) == 5;
  }

  /** An all-zero fraction loses its point as well: it prints as "0". */
  lemma StripAllZeroFraction()
    ensures StripTrailingZeros("0.00000000") == "0"
  {
    var b := "0.00000000";
    assert b[..2] == "0.";
    assert TrailingZeros(b[..2]) == 0;
    assert b[..3][..2] == b[..2];
    assert TrailingZeros(b[..3]) == 1;
    assert b[..4][..3] == b[..3];
    assert TrailingZeros(b[..4]) == 2;
    assert b[..5][..4] == b[..4];
    assert TrailingZeros(b[..5]) == 3;
    assert b[..6][..5] == b[..5];
    assert TrailingZeros(b[..6]) == 4;
    assert b[..7][..6] == b[..6];
    assert TrailingZeros(b[..7]) == 5;
    assert b[..8][..7] == b[..7];
    assert TrailingZeros(b[..8]) == 6;
    assert b[..9][..8] == b[..8];
    assert TrailingZeros(b[..9]) == 7;
    assert b[..9] == b[..|b| - 1];
    assert TrailingZeros(b) == 8;
  }

  // ---------------------------------------------------------------------------
  // Branch selection

  datatype Branch =
    | Invalid        // NaN, including an unparseable string
    | Zero
    | Billions       // value >= 1e9
    | Millions       // 1e6 <= value < 1e9
    | Thousands      // 1e3 <= value < 1e6
    | SmallPositive  // 0 < value < 0.01
    | SmallNegative  // -0.01 < value < 0
    | TwoDecimals    // everything else

  /** The guards of `formatNumber`, tried in source order. */
  function SelectBranch(v: Number): (b: Branch)
    ensures b == Invalid <==> v.NaN?
    ensures b == Zero <==> v == Finite(0.0)
    ensures b in {Billions, Millions, Thousands} ==> AtLeast(v, Thousand)
  {
    if v.NaN? then Invalid
    else if v == Finite(0.0) then Zero
    else if AtLeast(v, Billion) then Billions
    else if AtLeast(v, Million) then Millions
    else if AtLeast(v, Thousand) then Thousands
    else if Below(v, Cent) && Above(v, 0.0) then SmallPositive
    else if Above(v, -Cent) && Below(v, 0.0) then SmallNegative
    else TwoDecimals
  }

  /** `formatNumber(num)`. */
  function FormatNumber(num: Input, parseFloat: string -> Number, render: (real, nat) -> string): (r: string)
    ensures |r| >= 1 && r[0] == '$'
  {
    var value := ToValue(num, parseFloat);
    match SelectBranch(value)
    case Invalid => "$0.00"
    case Zero => "$0.00"
    case Billions => "$" + ToFixed(Divide(value, Billion), 2, render) + "B"
    case Millions => "$" + ToFixed(Divide(value, Million), 2, render) + "M"
    case Thousands => "$" + ToFixed(Divide(value, Thousand), 2, render) + "K"
    case SmallPositive => "$" + StripTrailingZeros(ToFixed(value, 8, render))
    case SmallNegative => "$" + StripTrailingZeros(ToFixed(value, 8, render))
    case TwoDecimals => "$" + ToFixed(value, 2, render)
  }

  /**
   * The branches as intervals of the real line: each finite value falls in
   * exactly the branch whose interval holds it, whatever the order of the guards.
   */
  lemma BranchIntervals(x: real)
    ensures SelectBranch(Finite(x)) == Zero <==> x == 0.0
    ensures SelectBranch(Finite(x)) == Billions <==> x >= Billion
    ensures SelectBranch(Finite(x)) == Millions <==> Million <= x < Billion
    ensures SelectBranch(Finite(x)) == Thousands <==> Thousand <= x < Million
    ensures SelectBranch(Finite(x)) == SmallPositive <==> 0.0 < x < Cent
    ensures SelectBranch(Finite(x)) == SmallNegative <==> -Cent < x < 0.0
    ensures SelectBranch(Finite(x)) == TwoDecimals <==> (Cent <= x < Thousand || x <= -Cent)
    ensures SelectBranch(Finite(x)) != Invalid
  {
  }

  /** NaN, an unparseable string included, and zero both print as "$0.00". */
  lemma NaNAndZeroPrintZero(num: Input, parseFloat: string -> Number, render: (real, nat) -> string)
    requires ToValue(num, parseFloat) == NaN || ToValue(num, parseFloat) == Finite(0.0)
    ensures FormatNumber(num, parseFloat, render) == "$0.00"
  {
  }

  /**
   * The guards compare the signed value, not its magnitude: a negative value
   * never gets a suffix and prints as `"$" + toFixed(...)`, stripped when
   * above -0.01.
   */
  lemma NegativeNeverSuffixed(x: real, parseFloat: string -> Number, render: (real, nat) -> string)
    requires x < 0.0
    ensures FormatNumber(FromNumber(Finite(x)), parseFloat, render) ==
              if x > -Cent then "$" + StripTrailingZeros(render(x, 8)) else "$" + render(x, 2)
  {
    BranchIntervals(x);
    if x > -Cent {
      assert SelectBranch(Finite(x)) == SmallNegative;
    } else {
      assert SelectBranch(Finite(x)) == TwoDecimals;
    }
  }

  /**
   * In the K and M branches the value handed to `toFixed` is scaled into
   * [1, 1000); in the B branch it is at least 1. This bounds the argument of
   * `toFixed`, not the printed digits, which `toFixed` may round up.
   */
  lemma SuffixMantissaRange(x: real)
    ensures SelectBranch(Finite(x)) == Thousands ==> 1.0 <= x / Thousand < 1000.0
    ensures SelectBranch(Finite(x)) == Millions ==> 1.0 <= x / Million < 1000.0
    ensures SelectBranch(Finite(x)) == Billions ==> 1.0 <= x / Billion
  {
    BranchIntervals(x);
  }

  /** The order of the positive branches from small to large. */
  function Rank(b: Branch): int
  {
    match b
    case SmallPositive => 0
    case TwoDecimals => 1
    case Thousands => 2
    case Millions => 3
    case Billions => 4
    case _ => -1
  }

  /** A larger positive value never takes a smaller branch. */
  lemma BranchMonotone(x: real, y: real)
    requires 0.0 < x <= y
    ensures 0 <= Rank(SelectBranch(Finite(x))) <= Rank(SelectBranch(Finite(y)))
  {
    BranchIntervals(x);
    BranchIntervals(y);
  }

  /**
   * In the sub-cent branches the printed digits are a prefix of the
   * eight-decimal rendering, and what was cut is an optional '.' followed
   * by '0's only.
   */
  lemma SubCentIsStrippedRendering(x: real, parseFloat: string -> Number, render: (real, nat) -> string)
    requires -Cent < x < Cent && x != 0.0
    ensures var out := FormatNumber(FromNumber(Finite(x)), parseFloat, render);
            var full := render(x, 8);
            out[0] == '$' && IsPrefix(out[1..], full) &&
            (out[1..] == full || ZeroTail(full[|out| - 1..]))
  {
    var out := FormatNumber(FromNumber(Finite(x)), parseFloat, render);
    var stripped := StripTrailingZeros(render(x, 8));
    BranchIntervals(x);
    assert out == "$" + stripped;
    assert out[1..] == stripped;
  }

  /** Infinity takes the B branch and negative infinity the two-decimal one. */
  lemma InfinitiesPrint(parseFloat: string -> Number, render: (real, nat) -> string)
    ensures FormatNumber(FromNumber(Infinity), parseFloat, render) == "$InfinityB"
    ensures FormatNumber(FromNumber(NegInfinity), parseFloat, render) == "$-Infinity"
  {
  }

  /**
   * The boundary cases: 999 prints with two decimals, 1000 as 1 thousand, and
   * the string "1500000000" as 1.5 billion.
   */
  lemma ThresholdExamples(parseFloat: string -> Number, render: (real, nat) -> string)
    requires parseFloat("1500000000") == Finite(1500000000.0)
    ensures FormatNumber(FromNumber(Finite(999.0)), parseFloat, render) == "$" + render(999.0, 2)
    ensures FormatNumber(FromNumber(Finite(1000.0)), parseFloat, render) == "$" + render(1.0, 2) + "K"
    ensures FormatNumber(FromString("1500000000"), parseFloat, render) == "$" + render(1.5, 2) + "B"
  {
  }
}
