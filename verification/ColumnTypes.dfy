/** The column-type expansion order (`sqlserver_column.py`) and the values its types store.
    A column's lower-cased type name is its `Kind`. */
module ColumnTypes {
  import opened Text

  datatype Kind =
    | Char | VarChar | NChar | NVarChar
    | Bit | TinyInt | SmallInt | Int | Integer | BigInt
    | Decimal | Numeric | Money | SmallMoney
    | Float | Real | DateTime2 | Other(name: string)

  datatype Column = Column(kind: Kind, charSize: Option<int>, precision: Option<int>, scale: Option<int>)

  predicate IsString(c: Column) {
    c.kind.Char? || c.kind.VarChar? || c.kind.NChar? || c.kind.NVarChar?
  }

  predicate IsInteger(c: Column) {
    c.kind.Bit? || c.kind.TinyInt? || c.kind.SmallInt? || c.kind.Int? || c.kind.Integer? || c.kind.BigInt?
  }

  predicate IsDecimalType(c: Column) {
    c.kind.Decimal? || c.kind.Numeric?
  }

  predicate IsFixedNumeric(c: Column) {
    c.kind.Money? || c.kind.SmallMoney?
  }

  predicate IsNumber(c: Column) {
    IsInteger(c) || IsDecimalType(c) || IsFixedNumeric(c) || c.kind.Float? || c.kind.Real?
  }

  predicate IsMaxString(c: Column) {
    (c.kind.VarChar? || c.kind.NVarChar?) && c.charSize == Some(-1)
  }

  function StringSize(c: Column): int {
    if c.charSize.None? then 8000 else c.charSize.value
  }

  function OrZero(n: Option<int>): int {
    if n.None? then 0 else n.value
  }

  function IntegerDigits(c: Column): int {
    if IsDecimalType(c) then OrZero(c.precision) - OrZero(c.scale)
    else match c.kind
      case SmallMoney => 10 - 4
      case Money => 19 - 4
      case Bit => 1
      case TinyInt => 3
      case SmallInt => 5
      case BigInt => 19
      case Int => 10
      case Integer => 10
      case _ => 0
  }

  function Scale(c: Column): int {
    if IsDecimalType(c) then OrZero(c.scale) else if IsFixedNumeric(c) then 4 else 0
  }

  predicate CanExpandTo(c: Column, other: Column) {
    && IsString(c) && IsString(other) && c.kind == other.kind
    && !IsMaxString(c)
    && (IsMaxString(other) || StringSize(other) > StringSize(c))
  }

  /** Position in `("bit", "tinyint", "smallint", "int", "bigint")`; the synonym "integer" is not in it. */
  function FamilyIndex(k: Kind): int {
    match k
    case Bit => 0
    case TinyInt => 1
    case SmallInt => 2
    case Int => 3
    case BigInt => 4
    case _ => -1
  }

  predicate CanExpandSafe(c: Column, other: Column) {
    if IsString(c) && IsString(other) then
      if ((c.kind.VarChar? || c.kind.Char?) && (other.kind.NVarChar? || other.kind.NChar?))
         || (c.kind.NChar? && other.kind.NVarChar?)
      then
        if IsMaxString(c) then IsMaxString(other)
        else IsMaxString(other) || StringSize(other) >= StringSize(c)
      else false
    else if !IsNumber(c) || !IsNumber(other) then false
    else if FamilyIndex(c.kind) >= 0 && FamilyIndex(other.kind) >= 0 then
      FamilyIndex(other.kind) > FamilyIndex(c.kind)
    else if IsInteger(c) && IsDecimalType(other) then
      Scale(other) >= 0 && IntegerDigits(other) >= IntegerDigits(c)
    else if (IsDecimalType(c) || IsFixedNumeric(c)) && (IsDecimalType(other) || IsFixedNumeric(other)) then
      && Scale(other) >= Scale(c) && IntegerDigits(other) >= IntegerDigits(c)
      && (IntegerDigits(other) > IntegerDigits(c) || Scale(other) > Scale(c))
    else false
  }

  /** What `expand_column_types` acts on; `safe` is the gate for cross-family promotions. */
  predicate Expands(c: Column, other: Column, safe: bool) {
    CanExpandTo(c, other) || (safe && CanExpandSafe(c, other))
  }

  // --------------------------------------------------------------- stored values

  function Pow10(n: nat): (r: int)
    ensures r >= 1
  {
    if n == 0 then 1 else 10 * Pow10(n - 1)
  }

  /** Finest scale of any exact number: values are integers in units of ten to the minus 38. */
  const MAX_DIGITS: nat := 38

  /** `u` is `n` steps of ten to the minus `scale`. */
  predicate Steps(u: int, n: int, scale: nat)
    requires scale <= MAX_DIGITS
  {
    u == n * Pow10(MAX_DIGITS - scale)
  }

  /** The numbers from `lo` to `hi`, counted in steps of ten to the minus `scale`. */
  ghost predicate InRange(u: int, scale: nat, lo: int, hi: int)
    requires scale <= MAX_DIGITS
  {
    exists n: int :: Steps(u, n, scale) && lo <= n <= hi
  }

  /** The engine's rules for a numeric type: precision and scale that exist. */
  predicate ValidNumeric(c: Column) {
    IsDecimalType(c) ==>
      c.precision.Some? && c.scale.Some? && 0 <= c.scale.value <= c.precision.value <= MAX_DIGITS
      && 1 <= c.precision.value
  }

  /** The exact values of an integer, decimal or money column. */
  ghost predicate Stores(c: Column, u: int)
    requires ValidNumeric(c)
  {
    match c.kind
    case Bit => InRange(u, 0, 0, 1)
    case TinyInt => InRange(u, 0, 0, 255)
    case SmallInt => InRange(u, 0, -0x8000, 0x7FFF)
    case Int => InRange(u, 0, -0x8000_0000, 0x7FFF_FFFF)
    case Integer => InRange(u, 0, -0x8000_0000, 0x7FFF_FFFF)
    case BigInt => InRange(u, 0, -0x8000_0000_0000_0000, 0x7FFF_FFFF_FFFF_FFFF)
    case Money => InRange(u, 4, -0x8000_0000_0000_0000, 0x7FFF_FFFF_FFFF_FFFF)
    case SmallMoney => InRange(u, 4, -0x8000_0000, 0x7FFF_FFFF)
    case Decimal => StoresDecimal(c.precision.value, c.scale.value, u)
    case Numeric => StoresDecimal(c.precision.value, c.scale.value, u)
    case _ => false
  }

  /** `decimal(p, s)`: at most p digits, s of them after the point. */
  ghost predicate StoresDecimal(p: nat, s: nat, u: int)
    requires s <= p && s <= MAX_DIGITS
  {
    exists n: int :: Steps(u, n, s) && -Pow10(p) < n < Pow10(p)
  }

  predicate IsExactNumber(c: Column) {
    IsInteger(c) || IsDecimalType(c) || IsFixedNumeric(c)
  }

  lemma {:induction false} Pow10Add(a: nat, b: nat)
    ensures Pow10(a + b) == Pow10(a) * Pow10(b)
  {
    if a > 0 {
      Pow10Add(a - 1, b);
    }
  }

  lemma {:induction false} Pow10Monotone(a: nat, b: nat)
    requires a <= b
    ensures 1 <= Pow10(a) <= Pow10(b)
  {
    if b > 0 {
      Pow10Monotone(if a < b then a else a - 1, b - 1);
    }
  }

  lemma Pow10Values()
    ensures Pow10(1) == 10 && Pow10(3) == 1000 && Pow10(4) == 10000 && Pow10(5) == 100000
    ensures Pow10(9) == 1_000_000_000 && Pow10(10) == 10_000_000_000
    ensures Pow10(18) == 1_000_000_000_000_000_000 && Pow10(19) == 10_000_000_000_000_000_000
  {
    assert Pow10(2) == 100;
    assert Pow10(6) == 1000000;
    assert Pow10(7) == 10000000;
    assert Pow10(8) == 100000000;
    Pow10Add(9, 1);
    Pow10Add(9, 9);
    Pow10Add(9, 10);
  }

  /** Moving to a finer scale multiplies the number of steps. */
  lemma Rescale(u: int, n: int, s: nat, t: nat)
    requires s <= t <= MAX_DIGITS && Steps(u, n, s)
    ensures Steps(u, n * Pow10(t - s), t)
  {
    Pow10Add(t - s, MAX_DIGITS - t);
    assert MAX_DIGITS - s == (t - s) + (MAX_DIGITS - t);
    MulAssoc(n, Pow10(t - s), Pow10(MAX_DIGITS - t));
  }

  lemma MulAssoc(a: int, b: int, c: int)
    ensures a * (b * c) == (a * b) * c
  {
  }

  lemma MulStrict(n: int, bound: int, k: int)
    requires -bound < n < bound && k >= 1
    ensures -(bound * k) < n * k < bound * k
  {
  }

  /** Fewer than ten to the `d + s` steps stay in bounds when counted at a finer scale. */
  lemma RescaleBound(u: int, n: int, d: nat, s: nat, t: nat) returns (m: int)
    requires s <= t <= MAX_DIGITS && Steps(u, n, s) && -Pow10(d + s) < n < Pow10(d + s)
    ensures Steps(u, m, t) && -Pow10(d + t) < m < Pow10(d + t)
  {
    hide Steps;
    m := n * Pow10(t - s);
    Rescale(u, n, s, t);
    MulStrict(n, Pow10(d + s), Pow10(t - s));
    Pow10Add(d + s, t - s);
    assert d + s + (t - s) == d + t;
  }

  /** The number of steps behind a stored value, bounded by the digits the code assigns its type. */
  lemma StepsOf(c: Column, u: int) returns (n: int, d: nat, s: nat)
    requires ValidNumeric(c) && IsExactNumber(c) && Stores(c, u)
    ensures d == IntegerDigits(c) && s == Scale(c) && s <= MAX_DIGITS
    ensures Steps(u, n, s) && -Pow10(d + s) < n < Pow10(d + s)
  {
    hide Steps, Pow10;
    Pow10Values();
    d, s := IntegerDigits(c), Scale(c);
    if IsDecimalType(c) {
      n :| Steps(u, n, s) && -Pow10(c.precision.value) < n < Pow10(c.precision.value);
      assert d + s == c.precision.value;
    } else {
      n := IntegerSteps(c, u);
    }
  }

  lemma IntegerSteps(c: Column, u: int) returns (n: int)
    requires (IsInteger(c) || IsFixedNumeric(c)) && Stores(c, u)
    ensures Steps(u, n, Scale(c)) && -Pow10(IntegerDigits(c) + Scale(c)) < n < Pow10(IntegerDigits(c) + Scale(c))
  {
    hide Steps, Pow10;
    Pow10Values();
    match c.kind {
      case Bit => n :| Steps(u, n, 0) && 0 <= n <= 1;
      case TinyInt => n :| Steps(u, n, 0) && 0 <= n <= 255;
      case SmallInt => n :| Steps(u, n, 0) && -0x8000 <= n <= 0x7FFF;
      case Int => n :| Steps(u, n, 0) && -0x8000_0000 <= n <= 0x7FFF_FFFF;
      case Integer => n :| Steps(u, n, 0) && -0x8000_0000 <= n <= 0x7FFF_FFFF;
      case BigInt => n :| Steps(u, n, 0) && -0x8000_0000_0000_0000 <= n <= 0x7FFF_FFFF_FFFF_FFFF;
      case Money => n :| Steps(u, n, 4) && -0x8000_0000_0000_0000 <= n <= 0x7FFF_FFFF_FFFF_FFFF;
      case SmallMoney => n :| Steps(u, n, 4) && -0x8000_0000 <= n <= 0x7FFF_FFFF;
    }
  }

  /** The pairs where the accepted target's engine range is smaller than its digit count says. */
  predicate OverMoney(c: Column, other: Column) {
    && IsDecimalType(c)
    && ((other.kind.Money? && OrZero(c.precision) - OrZero(c.scale) == 15)
        || (other.kind.SmallMoney? && OrZero(c.precision) - OrZero(c.scale) == 6))
  }

  ghost predicate LosesNothing(c: Column, other: Column)
    requires ValidNumeric(c) && ValidNumeric(other)
  {
    forall u: int :: Stores(c, u) ==> Stores(other, u)
  }

  lemma IntoDecimal(c: Column, other: Column, u: int)
    requires ValidNumeric(c) && ValidNumeric(other) && IsExactNumber(c) && IsDecimalType(other)
    requires CanExpandSafe(c, other) && Stores(c, u)
    ensures Stores(other, u)
  {
    hide Steps, Pow10;
    var n, d, s := StepsOf(c, u);
    var m := RescaleBound(u, n, d, s, Scale(other));
    Pow10Monotone(d + Scale(other), other.precision.value);
    assert StoresDecimal(other.precision.value, other.scale.value, u);
  }

  lemma IntoMoney(c: Column, other: Column, u: int)
    requires ValidNumeric(c) && IsFixedNumeric(other) && IsDecimalType(c)
    requires CanExpandSafe(c, other) && !OverMoney(c, other) && Stores(c, u)
    ensures Stores(other, u)
  {
    hide Steps, Pow10;
    Pow10Values();
    var n, d, s := StepsOf(c, u);
    var m := RescaleBound(u, n, d, s, 4);
    Pow10Monotone(d + 4, if other.kind.Money? then 18 else 9);
  }

  lemma StepsUp(n: int, scale: nat)
    requires scale <= MAX_DIGITS
    ensures Steps(n * Pow10(MAX_DIGITS - scale), n, scale)
  {
  }

  /** The largest whole number with as many digits overflows the money type. */
  lemma OverflowsMoney(c: Column, other: Column) returns (u: int)
    requires ValidNumeric(c) && OverMoney(c, other)
    ensures Stores(c, u) && !Stores(other, u)
  {
    var d, s := IntegerDigits(c), Scale(c);
    hide Steps, Pow10;
    var whole := Pow10(d) - 1;
    u := whole * Pow10(MAX_DIGITS - 0);
    StepsUp(whole, 0);
    var m := RescaleBound(u, whole, d, 0, s);
    assert d + s == c.precision.value;
    assert StoresDecimal(c.precision.value, c.scale.value, u);
    OnlySteps(u, whole, d, if other.kind.Money? then 0x7FFF_FFFF_FFFF_FFFF else 0x7FFF_FFFF);
  }

  /** Counted in ten-thousandths, a number of whole units above the limit is out of range. */
  lemma OnlySteps(u: int, whole: int, d: nat, hi: int)
    requires Steps(u, whole, 0) && whole == Pow10(d) - 1
    requires (d == 15 && hi == 0x7FFF_FFFF_FFFF_FFFF) || (d == 6 && hi == 0x7FFF_FFFF)
    ensures forall n: int :: Steps(u, n, 4) ==> n > hi
  {
    Pow10Values();
    Pow10Add(10, 5);
    Pow10Add(5, 1);
    Rescale(u, whole, 0, 4);
    forall n: int | Steps(u, n, 4) ensures n == whole * 10000 {
      MulCancel(n, whole * 10000, Pow10(MAX_DIGITS - 4));
    }
  }

  lemma MulCancel(a: int, b: int, k: int)
    requires k >= 1 && a * k == b * k
    ensures a == b
  {
  }

  /** A safe numeric expansion loses no value exactly when it is not a decimal with 15 integer
      digits into money or with 6 into smallmoney. */
  lemma SafeExpansionLosesNothing(c: Column, other: Column)
    requires IsExactNumber(c) && IsExactNumber(other) && ValidNumeric(c) && ValidNumeric(other)
    requires CanExpandSafe(c, other)
    ensures LosesNothing(c, other) <==> !OverMoney(c, other)
  {
    if OverMoney(c, other) {
      var u := OverflowsMoney(c, other);
    } else {
      forall u: int | Stores(c, u) ensures Stores(other, u) {
        if IsDecimalType(other) {
          IntoDecimal(c, other, u);
        } else if IsDecimalType(c) {
          IntoMoney(c, other, u);
        }
      }
    }
  }

  // ---------------------------------------------------------------- the order

  /** Level, then MAX on top, then size: what every expansion increases. */
  function Rank(c: Column): (int, int, int) {
    match c.kind
    case Char => (0, 0, StringSize(c))
    case VarChar => if IsMaxString(c) then (0, 1, 0) else (0, 0, StringSize(c))
    case NChar => (1, 0, StringSize(c))
    case NVarChar => if IsMaxString(c) then (2, 1, 0) else (2, 0, StringSize(c))
    case Bit => (10, 0, 0)
    case TinyInt => (11, 0, 0)
    case SmallInt => (12, 0, 0)
    case Int => (13, 0, 0)
    case Integer => (13, 0, 0)
    case BigInt => (14, 0, 0)
    case _ => (20, 0, IntegerDigits(c) + Scale(c))
  }

  predicate Below(a: (int, int, int), b: (int, int, int)) {
    a.0 < b.0 || (a.0 == b.0 && (a.1 < b.1 || (a.1 == b.1 && a.2 < b.2)))
  }

  lemma ExpansionClimbs(c: Column, other: Column, safe: bool)
    requires Expands(c, other, safe)
    ensures Below(Rank(c), Rank(other))
  {
  }

  /** There is no cycle of expansions, of any length: a chain never returns to where it began. */
  lemma {:induction false} NoCycles(chain: seq<Column>, safe: bool)
    requires |chain| >= 2
    requires forall i :: 0 <= i < |chain| - 1 ==> Expands(chain[i], chain[i + 1], safe)
    ensures Below(Rank(chain[0]), Rank(chain[|chain| - 1])) && chain[0] != chain[|chain| - 1]
    decreases |chain|
  {
    ExpansionClimbs(chain[0], chain[1], safe);
    if |chain| > 2 {
      var rest := chain[1..];
      forall i | 0 <= i < |rest| - 1 ensures Expands(rest[i], rest[i + 1], safe) {
        assert Expands(chain[i + 1], chain[i + 1 + 1], safe);
      }
      NoCycles(rest, safe);
    }
  }

  /** Two expansions in a row make one, except from an integer through a decimal to money. */
  lemma TransitiveExceptThroughMoney(a: Column, b: Column, c: Column, safe: bool)
    requires Expands(a, b, safe) && Expands(b, c, safe)
    ensures Expands(a, c, safe) <==> !(IsInteger(a) && IsFixedNumeric(c))
  {
  }

  /** A string expansion never lowers how many characters fit. */
  lemma StringExpansionKeepsCapacity(c: Column, other: Column, safe: bool)
    requires Expands(c, other, safe) && IsString(c)
    ensures IsString(other)
    ensures IsMaxString(c) ==> IsMaxString(other)
    ensures !IsMaxString(other) ==> StringSize(c) <= StringSize(other)
  {
  }
}
