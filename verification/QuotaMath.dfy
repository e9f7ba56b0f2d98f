// Quota arithmetic (common/quota_math.go): a computed charge becomes a 32-bit
// quota by truncation, rounding or ceiling, saturating at the ends of the range.
// Floats are the real numbers with the two infinities and not-a-number; rounding
// to whole numbers is exact on them.

module QuotaMath {

  const MAX_QUOTA: int := 0x7FFF_FFFF
  const MIN_QUOTA: int := -0x8000_0000

  datatype Float = NaN | NegInf | PosInf | Finite(value: real)

  datatype Kind = Overflow | Underflow | NotANumber

  datatype Op = FromFloat | Round | Ceil | FromDecimal

  datatype Clamp = Clamp(op: Op, kind: Kind, original: Float, clamped: int)

  /** A quota and, when the value had to be clamped, the report of it. */
  datatype Checked = InRange(quota: int) | Clamped(clamp: Clamp)

  datatype Strict = Ok(quota: int) | Refused(clamp: Clamp)

  // ---- Whole numbers ----------------------------------------------------------------

  function Truncate(x: real): int {
    if x >= 0.0 then x.Floor else -(-x).Floor
  }

  function CeilOf(x: real): int {
    -(-x).Floor
  }

  /** Half away from zero. */
  function RoundOf(x: real): int {
    if x >= 0.0 then (x + 0.5).Floor else -(-x + 0.5).Floor
  }

  function Whole(f: Float, whole: real -> int): Float {
    match f case Finite(x) => Finite(whole(x) as real) case _ => f
  }

  // ---- The conversions ----------------------------------------------------------------

  function Saturate(f: Float, op: Op): Checked {
    match f
    case NaN => Clamped(Clamp(op, NotANumber, f, 0))
    case PosInf => Clamped(Clamp(op, Overflow, f, MAX_QUOTA))
    case NegInf => Clamped(Clamp(op, Underflow, f, MIN_QUOTA))
    case Finite(x) =>
      if x >= MAX_QUOTA as real then Clamped(Clamp(op, Overflow, f, MAX_QUOTA))
      else if x <= MIN_QUOTA as real then Clamped(Clamp(op, Underflow, f, MIN_QUOTA))
      else InRange(Truncate(x))
  }

  function QuotaOf(c: Checked): int {
    match c case InRange(quota) => quota case Clamped(clamp) => clamp.clamped
  }

  function StrictOf(c: Checked): Strict {
    match c case InRange(quota) => Ok(quota) case Clamped(clamp) => Refused(clamp)
  }

  function FromFloatChecked(f: Float): Checked {
    Saturate(f, FromFloat)
  }

  function RoundChecked(f: Float): Checked {
    Saturate(Whole(f, RoundOf), Round)
  }

  function CeilChecked(f: Float): Checked {
    Saturate(Whole(f, CeilOf), Ceil)
  }

  /** Any conversion of whole numbers to floats: monotone, and exact up to 2^53. */
  ghost predicate FloatConversion(convert: int -> Float) {
    && (forall n :: -0x20_0000_0000_0000 <= n <= 0x20_0000_0000_0000 ==> convert(n) == Finite(n as real))
    && (forall m, n {:trigger convert(m), convert(n)} :: m <= n ==> AtMost(convert(m), convert(n)))
  }

  function FromDecimalChecked(d: real, convert: int -> Float): Checked {
    Saturate(convert(RoundOf(d)), FromDecimal)
  }

  // ---- Order ------------------------------------------------------------------------

  /** The order of the floats; not-a-number is in no relation. */
  predicate AtMost(a: Float, b: Float) {
    !a.NaN? && !b.NaN? && (a.NegInf? || b.PosInf? || (a.Finite? && b.Finite? && a.value <= b.value))
  }

  function ClampInt(n: int): int {
    if n > MAX_QUOTA then MAX_QUOTA else if n < MIN_QUOTA then MIN_QUOTA else n
  }

  lemma SaturateInRange(f: Float, op: Op)
    ensures -2147483648 <= QuotaOf(Saturate(f, op)) <= 2147483647
  {
  }

  /** A clamp is reported exactly when the value is no number or reaches an end of the range, and the report says
      which, from what value, and by which conversion; no number counts as zero. */
  lemma ReportIff(f: Float, op: Op)
    ensures var r := Saturate(f, op);
            && (r.Clamped? <==> f.NaN? || f.PosInf? || f.NegInf? || f.value >= 2147483647.0 || f.value <= -2147483648.0)
            && (r.Clamped? ==>
                  && r.clamp.op == op && r.clamp.original == f
                  && (r.clamp.kind.NotANumber? <==> f.NaN?)
                  && (r.clamp.kind.Overflow? <==> AtMost(Finite(2147483647.0), f))
                  && (r.clamp.kind.Underflow? <==> AtMost(f, Finite(-2147483648.0))))
            && (f.NaN? ==> QuotaOf(r) == 0)
            && (AtMost(Finite(2147483647.0), f) ==> QuotaOf(r) == 2147483647)
            && (AtMost(f, Finite(-2147483648.0)) ==> QuotaOf(r) == -2147483648)
  {
  }

  /** The conversions report under their own names, and the strict ones refuse with the report. */
  lemma ReportedBy(f: Float)
    ensures FromFloatChecked(f).Clamped? ==> FromFloatChecked(f).clamp.op == FromFloat
    ensures RoundChecked(f).Clamped? ==> RoundChecked(f).clamp.op == Round
    ensures CeilChecked(f).Clamped? ==> CeilChecked(f).clamp.op == Ceil
    ensures forall c: Checked :: StrictOf(c).Ok? <==> c.InRange?
    ensures forall c: Checked :: c.InRange? ==> StrictOf(c) == Ok(c.quota)
    ensures forall c: Checked :: c.Clamped? ==> StrictOf(c) == Refused(c.clamp)
  {
  }

  lemma TruncateMonotone(a: real, b: real)
    requires a <= b
    ensures Truncate(a) <= Truncate(b)
  {
  }

  lemma SaturateMonotone(a: Float, b: Float, op: Op)
    requires AtMost(a, b)
    ensures QuotaOf(Saturate(a, op)) <= QuotaOf(Saturate(b, op))
  {
    if a.Finite? && b.Finite? {
      TruncateMonotone(a.value, b.value);
    }
    SaturateInRange(a, op);
    SaturateInRange(b, op);
  }

  /** Every conversion is monotone: a larger charge never costs less quota. */
  lemma QuotaMonotone(a: Float, b: Float)
    requires AtMost(a, b)
    ensures QuotaOf(FromFloatChecked(a)) <= QuotaOf(FromFloatChecked(b))
    ensures QuotaOf(RoundChecked(a)) <= QuotaOf(RoundChecked(b))
    ensures QuotaOf(CeilChecked(a)) <= QuotaOf(CeilChecked(b))
  {
    SaturateMonotone(a, b, FromFloat);
    WholeMonotone(a, b);
    SaturateMonotone(Whole(a, RoundOf), Whole(b, RoundOf), Round);
    SaturateMonotone(Whole(a, CeilOf), Whole(b, CeilOf), Ceil);
  }

  lemma WholeMonotone(a: Float, b: Float)
    requires AtMost(a, b)
    ensures AtMost(Whole(a, RoundOf), Whole(b, RoundOf)) && AtMost(Whole(a, CeilOf), Whole(b, CeilOf))
  {
    if a.Finite? && b.Finite? {
      RoundMonotone(a.value, b.value);
      CeilMonotone(a.value, b.value);
    }
  }

  lemma RoundMonotone(a: real, b: real)
    requires a <= b
    ensures RoundOf(a) <= RoundOf(b)
  {
  }

  lemma CeilMonotone(a: real, b: real)
    requires a <= b
    ensures CeilOf(a) <= CeilOf(b)
  {
  }

  // ---- Saturation is clamping of the whole number ---------------------------------------

  lemma SaturateWhole(n: int, op: Op)
    ensures QuotaOf(Saturate(Finite(n as real), op)) == ClampInt(n)
    ensures Saturate(Finite(n as real), op).InRange? <==> MIN_QUOTA < n < MAX_QUOTA
  {
  }

  lemma TruncateBounds(x: real)
    ensures x >= 0.0 ==> 0 <= Truncate(x) && (Truncate(x) as real) <= x < (Truncate(x) + 1) as real
    ensures x < 0.0 ==> Truncate(x) <= 0 && (Truncate(x) - 1) as real < x <= (Truncate(x) as real)
  {
  }

  /** Each conversion of a finite value is its whole number clamped to the 32-bit range. */
  lemma QuotaIsClamped(x: real)
    ensures QuotaOf(FromFloatChecked(Finite(x))) == ClampInt(Truncate(x))
    ensures QuotaOf(RoundChecked(Finite(x))) == ClampInt(RoundOf(x))
    ensures QuotaOf(CeilChecked(Finite(x))) == ClampInt(CeilOf(x))
  {
    TruncateBounds(x);
    SaturateWhole(RoundOf(x), Round);
    SaturateWhole(CeilOf(x), Ceil);
  }

  // ---- Strict conversions ---------------------------------------------------------------

  /** Exactly which values the strict conversions accept; the two ends of the range are refused. */
  lemma StrictIff(f: Float)
    ensures StrictOf(FromFloatChecked(f)).Ok? <==> f.Finite? && MIN_QUOTA as real < f.value < MAX_QUOTA as real
    ensures StrictOf(RoundChecked(f)).Ok? <==> f.Finite? && MIN_QUOTA as real + 0.5 < f.value < MAX_QUOTA as real - 0.5
    ensures StrictOf(CeilChecked(f)).Ok? <==> f.Finite? && MIN_QUOTA as real < f.value <= MAX_QUOTA as real - 1.0
  {
    if f.Finite? {
      SaturateWhole(RoundOf(f.value), Round);
      SaturateWhole(CeilOf(f.value), Ceil);
      RoundNear(f.value);
      CeilCovers(f.value);
    }
  }

  /** The rounded value is at most half away, and away from zero when exactly half. */
  lemma RoundNear(x: real)
    ensures x >= 0.0 ==> x - 0.5 < (RoundOf(x) as real) <= x + 0.5
    ensures x < 0.0 ==> x - 0.5 <= (RoundOf(x) as real) < x + 0.5
  {
  }

  predicate Covers(quota: int, charge: real) {
    charge <= quota as real
  }

  lemma CeilCovers(x: real)
    ensures x <= (CeilOf(x) as real) < x + 1.0
    ensures forall n :: Covers(n, x) ==> CeilOf(x) <= n
  {
  }

  /** An accepted ceiling is the least whole quota that covers the charge. */
  lemma StrictCeilLeast(f: Float)
    requires StrictOf(CeilChecked(f)).Ok?
    ensures var q := StrictOf(CeilChecked(f)).quota;
            f.Finite? && Covers(q, f.value) && forall n :: Covers(n, f.value) ==> q <= n
  {
    CeilCovers(f.value);
    SaturateWhole(CeilOf(f.value), Ceil);
  }

  // ---- The three against each other ------------------------------------------------------

  /** For a charge that is not negative: truncation, rounding, ceiling, each within one unit. */
  lemma NonNegativeOrder(x: real)
    requires x >= 0.0
    ensures var t, r, c := QuotaOf(FromFloatChecked(Finite(x))), QuotaOf(RoundChecked(Finite(x))), QuotaOf(CeilChecked(Finite(x)));
            t <= r <= c <= t + 1
  {
    QuotaIsClamped(x);
    CeilCovers(x);
    RoundNear(x);
    TruncateBounds(x);
  }

  /** Rounding falls below truncation exactly for a negative charge at least half a unit past a whole one. */
  lemma OrderIff(x: real)
    ensures QuotaOf(FromFloatChecked(Finite(x))) <= QuotaOf(RoundChecked(Finite(x)))
       <==> x >= 0.0 || x <= MIN_QUOTA as real || (Truncate(x) as real) - x < 0.5
  {
    QuotaIsClamped(x);
    RoundNear(x);
    TruncateBounds(x);
  }

  // ---- Decimals -------------------------------------------------------------------------

  /** The way through a float changes nothing: the result is the exact rounding, clamped, and
      a clamp is reported exactly when the rounding reaches an end of the range. */
  lemma DecimalExact(d: real, convert: int -> Float)
    requires FloatConversion(convert)
    ensures QuotaOf(FromDecimalChecked(d, convert)) == ClampInt(RoundOf(d))
    ensures FromDecimalChecked(d, convert).InRange? <==> MIN_QUOTA < RoundOf(d) < MAX_QUOTA
  {
    var n, exact := RoundOf(d), 0x20_0000_0000_0000;
    if n > exact {
      assert AtMost(convert(exact), convert(n));
    } else if n < -exact {
      assert AtMost(convert(n), convert(-exact));
    } else {
      SaturateWhole(n, FromDecimal);
    }
  }
}
