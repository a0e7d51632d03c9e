/** Which expansions are accepted, in terms of what the columns hold, and the pass that alters columns
    (`expand_column_types` in `sqlserver_adapter.py`). */
module ColumnExpansion {
  import opened Text
  import opened Dict
  import opened ColumnTypes

  // -------------------------------------------------------------------- texts

  /** The column has room for a text of that many characters; an unknown size counts as 8000. */
  predicate HasRoom(c: Column, length: int) {
    match c.charSize
    case None => length <= 8000
    case Some(size) => length <= size || (size == -1 && (c.kind.VarChar? || c.kind.NVarChar?))
  }

  predicate HoldsUnicode(c: Column) {
    c.kind.NChar? || c.kind.NVarChar?
  }

  /** It holds such texts; `unicode` says that some character is outside the code page. */
  predicate HoldsText(c: Column, unicode: bool, length: int) {
    HasRoom(c, length) && (unicode ==> HoldsUnicode(c))
  }

  ghost predicate KeepsTexts(c: Column, other: Column) {
    forall unicode, length :: HoldsText(c, unicode, length) ==> HoldsText(other, unicode, length)
  }

  ghost predicate AddsTexts(c: Column, other: Column) {
    exists unicode, length :: HoldsText(other, unicode, length) && !HoldsText(c, unicode, length)
  }

  lemma Room(c: Column, length: int)
    requires IsString(c)
    ensures HasRoom(c, length) <==> IsMaxString(c) || length <= StringSize(c)
  {
  }

  lemma KeepsTextsIff(c: Column, other: Column)
    requires IsString(c) && IsString(other)
    ensures KeepsTexts(c, other)
            <==> (IsMaxString(other) || (!IsMaxString(c) && StringSize(c) <= StringSize(other)))
                 && (HoldsUnicode(c) ==> HoldsUnicode(other))
  {
    hide IsMaxString, StringSize, HasRoom;
    forall n {
      Room(c, n);
    }
    forall n {
      Room(other, n);
    }
    if KeepsTexts(c, other) {
      var n := StringSize(c);
      assert HoldsText(c, HoldsUnicode(c), n);
      assert IsMaxString(c) ==> HoldsText(c, false, StringSize(other) + 1);
    }
  }

  lemma AddsTextsIff(c: Column, other: Column)
    requires IsString(c) && IsString(other)
    ensures AddsTexts(c, other)
            <==> (!IsMaxString(c) && (IsMaxString(other) || StringSize(c) < StringSize(other)))
                 || (HoldsUnicode(other) && !HoldsUnicode(c))
  {
    hide IsMaxString, StringSize, HasRoom;
    forall n {
      Room(c, n);
    }
    forall n {
      Room(other, n);
    }
    if HoldsUnicode(other) && !HoldsUnicode(c) {
      assert HoldsText(other, true, StringSize(other)) && !HoldsText(c, true, StringSize(other));
    } else if !IsMaxString(c) && (IsMaxString(other) || StringSize(c) < StringSize(other)) {
      assert HoldsText(other, false, StringSize(c) + 1) && !HoldsText(c, false, StringSize(c) + 1);
    }
  }

  /** Strings of one kind expand exactly when the reference keeps every text and adds some; strings of
      different kinds, behind the gate, exactly when the reference is a Unicode kind that keeps every
      text, except that nothing of variable length becomes nchar. */
  lemma StringsExpandIff(c: Column, other: Column, safe: bool)
    requires IsString(c) && IsString(other)
    ensures c.kind == other.kind ==> (Expands(c, other, safe) <==> KeepsTexts(c, other) && AddsTexts(c, other))
    ensures c.kind != other.kind ==>
              (Expands(c, other, safe) <==> safe && KeepsTexts(c, other) && HoldsUnicode(other) && !c.kind.NVarChar?)
    ensures safe && !Expands(c, other, safe) ==>
              || !KeepsTexts(c, other) || !AddsTexts(c, other)
              || (c.kind.Char? && other.kind.VarChar?) || (c.kind.VarChar? && other.kind.Char?)
              || (c.kind.NVarChar? && other.kind.NChar?)
  {
    hide KeepsTexts, AddsTexts;
    KeepsTextsIff(c, other);
    AddsTextsIff(c, other);
  }

  // ------------------------------------------------------------------ numbers

  ghost predicate AddsNumbers(c: Column, other: Column)
    requires ValidNumeric(c) && ValidNumeric(other)
  {
    exists u: int :: Stores(other, u) && !Stores(c, u)
  }

  /** The largest number of steps a column of an exact number stores. */
  function Hi(c: Column): int
    requires ValidNumeric(c)
  {
    match c.kind
    case Bit => 1
    case TinyInt => 255
    case SmallInt => 0x7FFF
    case Int => 0x7FFF_FFFF
    case Integer => 0x7FFF_FFFF
    case BigInt => 0x7FFF_FFFF_FFFF_FFFF
    case Money => 0x7FFF_FFFF_FFFF_FFFF
    case SmallMoney => 0x7FFF_FFFF
    case Decimal => Pow10(c.precision.value) - 1
    case Numeric => Pow10(c.precision.value) - 1
    case _ => 0
  }

  /** The smallest. */
  function Lo(c: Column): int
    requires ValidNumeric(c)
  {
    if c.kind.Bit? || c.kind.TinyInt? then 0 else if IsDecimalType(c) then -Hi(c) else -Hi(c) - 1
  }

  lemma StoresRange(c: Column, u: int)
    requires ValidNumeric(c) && IsExactNumber(c)
    ensures Stores(c, u) <==> InRange(u, Scale(c), Lo(c), Hi(c))
  {
  }

  /** Every number of the one range is one of the other, by the ends of both. */
  ghost predicate Within(s: nat, lo: int, hi: int, t: nat, low: int, high: int) {
    s <= t && low <= lo * Pow10(t - s) && hi * Pow10(t - s) <= high
  }

  /** The step of the coarser scale is no number of the finer one. */
  lemma FinestStep(s: nat, t: nat, m: int)
    requires t < s <= MAX_DIGITS
    ensures !Steps(Pow10(MAX_DIGITS - s), m, t)
  {
    Pow10Add(MAX_DIGITS - s, s - t);
    assert MAX_DIGITS - t == (MAX_DIGITS - s) + (s - t);
    var p, q := Pow10(MAX_DIGITS - s), Pow10(s - t);
    Pow10Monotone(1, s - t);
    assert q >= 10;
    if m >= 1 {
      MulAtLeast(m, p * q);
      MulAtLeast(q, p);
    } else {
      MulAtMost(m, p * q);
    }
  }

  lemma MulAtLeast(m: int, k: int)
    requires m >= 1 && k >= 1
    ensures m * k >= k && (m >= 10 ==> m * k >= 10 * k)
    ensures k * m == m * k
  {
  }

  lemma MulAtMost(m: int, k: int)
    requires m <= 0 && k >= 1
    ensures m * k <= 0
  {
  }

  /** The steps of a stored number, counted at a finer scale. */
  lemma StepsRescaled(u: int, n: int, s: nat, m: int, t: nat)
    requires s <= t <= MAX_DIGITS && Steps(u, n, s)
    ensures Steps(u, m, t) <==> m == n * Pow10(t - s)
  {
    Rescale(u, n, s, t);
    if Steps(u, m, t) {
      MulCancel(m, n * Pow10(t - s), Pow10(MAX_DIGITS - t));
    }
  }

  lemma RangesNest(s: nat, lo: int, hi: int, t: nat, low: int, high: int)
    requires s <= MAX_DIGITS && t <= MAX_DIGITS && lo <= 0 && 1 <= hi
    ensures (forall u :: InRange(u, s, lo, hi) ==> InRange(u, t, low, high)) <==> Within(s, lo, hi, t, low, high)
  {
    hide Pow10, Steps;
    if forall u :: InRange(u, s, lo, hi) ==> InRange(u, t, low, high) {
      StepIs(1, s);
      assert InRange(Pow10(MAX_DIGITS - s) * 1, s, lo, hi);
      if t < s {
        var m :| Steps(Pow10(MAX_DIGITS - s) * 1, m, t) && low <= m <= high;
        FinestStep(s, t, m);
      } else {
        EndInside(s, lo, hi, hi, t, low, high);
        EndInside(s, lo, hi, lo, t, low, high);
      }
    }
    if Within(s, lo, hi, t, low, high) {
      forall u | InRange(u, s, lo, hi) ensures InRange(u, t, low, high) {
        var n :| Steps(u, n, s) && lo <= n <= hi;
        StepsRescaled(u, n, s, n * Pow10(t - s), t);
        MulMonotone(lo, n, hi, Pow10(t - s));
      }
    }
  }

  lemma StepIs(n: int, s: nat)
    requires s <= MAX_DIGITS
    ensures Steps(Pow10(MAX_DIGITS - s) * n, n, s)
  {
  }

  lemma MulMonotone(lo: int, n: int, hi: int, k: int)
    requires lo <= n <= hi && k >= 1
    ensures lo * k <= n * k <= hi * k
  {
  }

  lemma EndInside(s: nat, lo: int, hi: int, end: int, t: nat, low: int, high: int)
    requires s <= t <= MAX_DIGITS && lo <= end <= hi
    requires forall u :: InRange(u, s, lo, hi) ==> InRange(u, t, low, high)
    ensures low <= end * Pow10(t - s) <= high
  {
    hide Pow10, Steps;
    var u := Pow10(MAX_DIGITS - s) * end;
    StepIs(end, s);
    assert InRange(u, s, lo, hi);
    var m :| Steps(u, m, t) && low <= m <= high;
    StepsRescaled(u, end, s, m, t);
  }

  ghost predicate Nests(c: Column, other: Column)
    requires ValidNumeric(c) && ValidNumeric(other) && IsExactNumber(c) && IsExactNumber(other)
  {
    Within(Scale(c), Lo(c), Hi(c), Scale(other), Lo(other), Hi(other))
  }

  lemma EndsOf(c: Column)
    requires ValidNumeric(c) && IsExactNumber(c)
    ensures Lo(c) <= 0 && 1 <= Hi(c) && 0 <= Scale(c) <= MAX_DIGITS
  {
  }

  /** Losing and adding numbers is a matter of the ends of the ranges. */
  lemma NestsIff(c: Column, other: Column)
    requires ValidNumeric(c) && ValidNumeric(other) && IsExactNumber(c) && IsExactNumber(other)
    ensures LosesNothing(c, other) <==> Nests(c, other)
    ensures AddsNumbers(c, other) <==> !Nests(other, c)
  {
    hide Stores, InRange, Within, Hi, Lo, ValidNumeric;
    EndsOf(c);
    EndsOf(other);
    RangesNest(Scale(c), Lo(c), Hi(c), Scale(other), Lo(other), Hi(other));
    RangesNest(Scale(other), Lo(other), Hi(other), Scale(c), Lo(c), Hi(c));
    forall u {
      StoresRange(c, u);
    }
    forall u {
      StoresRange(other, u);
    }
  }

  /** A number of `k` digits, moved up by `delta` digits, has at most `p` digits. */
  lemma DigitsFit(h: int, k: nat, delta: nat, p: nat)
    requires k >= 1 && Pow10(k - 1) <= h < Pow10(k)
    ensures h * Pow10(delta) <= Pow10(p) - 1 <==> k + delta <= p
  {
    hide Pow10;
    Pow10Add(k, delta);
    Pow10Add(k - 1, delta);
    if k + delta <= p {
      MulStrict(h, Pow10(k), Pow10(delta));
      Pow10Monotone(k + delta, p);
    } else {
      MulMonotone(Pow10(k - 1), h, h, Pow10(delta));
      Pow10Monotone(p, k - 1 + delta);
    }
  }

  /** The digits of the type: those of its largest and of its smallest number of steps. */
  lemma DigitsOf(c: Column)
    requires ValidNumeric(c) && IsExactNumber(c)
    ensures var k := IntegerDigits(c) + Scale(c);
            && k >= 1 && Pow10(k - 1) <= Hi(c) < Pow10(k) && -Lo(c) < Pow10(k)
            && (Lo(c) < 0 ==> Pow10(k - 1) <= -Lo(c))
  {
    hide Pow10;
    Pow10Values();
    assert Pow10(0) == 1 && Pow10(2) == 100 by { SmallPowers(); }
    if IsDecimalType(c) {
      var p := c.precision.value;
      Pow10Add(1, p - 1);
      assert Pow10(p) == 10 * Pow10(p - 1);
    }
  }

  lemma SmallPowers()
    ensures Pow10(0) == 1 && Pow10(1) == 10 && Pow10(2) == 100
  {
  }

  /** Into a decimal: what fits is a matter of digits before and behind the point. */
  lemma NestsInDecimal(c: Column, other: Column)
    requires ValidNumeric(c) && ValidNumeric(other) && IsExactNumber(c) && IsDecimalType(other)
    ensures Nests(c, other) <==> Scale(c) <= Scale(other) && IntegerDigits(c) <= IntegerDigits(other)
  {
    hide Pow10;
    DigitsOf(c);
    if Scale(c) <= Scale(other) {
      var k, delta := IntegerDigits(c) + Scale(c), Scale(other) - Scale(c);
      DigitsFit(Hi(c), k, delta, other.precision.value);
      if Lo(c) < 0 {
        DigitsFit(-Lo(c), k, delta, other.precision.value);
        MulNegated(Lo(c), Pow10(delta));
      }
    }
  }

  lemma MulNegated(a: int, k: int)
    ensures -a * k == -(a * k)
  {
  }


  /** Into money: one integer digit less than its type counts. */
  lemma NestsInMoney(c: Column, other: Column)
    requires ValidNumeric(c) && IsDecimalType(c) && IsFixedNumeric(other)
    ensures Nests(c, other) <==> Scale(c) <= 4 && IntegerDigits(c) <= (if other.kind.Money? then 14 else 5)
  {
    hide Pow10;
    Pow10Values();
    if Scale(c) <= 4 {
      var p, delta, q := c.precision.value, 4 - Scale(c), if other.kind.Money? then 18 else 9;
      EndsOf(c);
      DigitsOf(c);
      DigitsFit(Hi(c), p, delta, q);
      MulNegated(Hi(c), Pow10(delta));
      if p + delta > q {
        NinesMoved(p, delta);
        Pow10Monotone(q + 1, p + delta);
        Pow10Monotone(delta, 4);
      }
    }
  }

  lemma NinesMoved(p: nat, delta: nat)
    ensures (Pow10(p) - 1) * Pow10(delta) == Pow10(p + delta) - Pow10(delta)
  {
    hide Pow10;
    Pow10Add(p, delta);
  }

  /** The pairs the gate compares by range: integers of the family, an integer and a decimal, and decimals
      and money among themselves. The synonym `integer` is compared with decimals only. */
  predicate Compared(c: Column, other: Column) {
    || (IsInteger(c) && IsInteger(other) && !c.kind.Integer? && !other.kind.Integer?)
    || (IsInteger(c) && IsDecimalType(other))
    || (!IsInteger(c) && !IsInteger(other))
  }

  /** A decimal of exactly the digits counted for the money type. */
  predicate MoneyAsDecimal(c: Column, other: Column) {
    && IsDecimalType(other) && other.scale == Some(4)
    && ((c.kind.Money? && other.precision == Some(19)) || (c.kind.SmallMoney? && other.precision == Some(10)))
  }

  lemma IntegersExpandIff(c: Column, other: Column)
    requires IsInteger(c) && IsInteger(other) && !c.kind.Integer? && !other.kind.Integer?
    ensures CanExpandSafe(c, other) <==> Nests(c, other) && !Nests(other, c)
  {
  }

  lemma MulOne(a: int)
    ensures a * Pow10(0) == a
  {
  }

  lemma IntegerIntoDecimalIff(c: Column, other: Column)
    requires IsInteger(c) && IsDecimalType(other) && ValidNumeric(other)
    ensures CanExpandSafe(c, other) <==> Nests(c, other) && !Nests(other, c)
  {
    hide Pow10;
    NestsInDecimal(c, other);
    if Nests(c, other) && Nests(other, c) {
      DigitsOf(c);
      Pow10Monotone(IntegerDigits(c), other.precision.value);
      SmallPowers();
      Pow10Values();
      MulOne(Hi(other));
    }
  }

  lemma DecimalsExpandIff(c: Column, other: Column)
    requires ValidNumeric(c) && ValidNumeric(other)
    requires (IsDecimalType(c) || IsFixedNumeric(c)) && (IsDecimalType(other) || IsFixedNumeric(other))
    ensures CanExpandSafe(c, other)
            <==> if OverMoney(c, other) then c.scale.value < 4
                 else Nests(c, other) && !Nests(other, c) && !MoneyAsDecimal(c, other)
  {
    hide Nests, Pow10;
    if IsDecimalType(other) {
      NestsInDecimal(c, other);
    } else if IsDecimalType(c) {
      NestsInMoney(c, other);
    } else {
      MoneyNests(c, other);
    }
    if IsDecimalType(c) {
      NestsInDecimal(other, c);
    } else if IsDecimalType(other) {
      NestsInMoney(other, c);
    } else {
      MoneyNests(other, c);
    }
  }

  lemma MoneyNests(c: Column, other: Column)
    requires IsFixedNumeric(c) && IsFixedNumeric(other)
    ensures Nests(c, other) <==> c.kind.SmallMoney? || other.kind.Money?
  {
  }

  /** Exact numbers expand, behind the gate, exactly when the pair is compared at all and the reference
      stores every number of the column and some more. Two exceptions come from counting digits instead
      of numbers: a decimal with all integer digits of a money type is widened to it although the largest
      values do not fit, and a money type is not widened to the decimal of its own digits although that
      holds more. */
  lemma NumbersExpandIff(c: Column, other: Column, safe: bool)
    requires IsExactNumber(c) && IsExactNumber(other) && ValidNumeric(c) && ValidNumeric(other)
    ensures Expands(c, other, safe)
            <==> safe && Compared(c, other)
                 && if OverMoney(c, other) then c.scale.value < 4
                    else LosesNothing(c, other) && AddsNumbers(c, other) && !MoneyAsDecimal(c, other)
    ensures safe && Compared(c, other) && !Expands(c, other, safe) ==>
              !LosesNothing(c, other) || !AddsNumbers(c, other) || MoneyAsDecimal(c, other)
  {
    hide LosesNothing, AddsNumbers, Nests, Pow10;
    NestsIff(c, other);
    if OverMoney(c, other) {
      NestsInMoney(c, other);
    }
    if IsInteger(c) && IsInteger(other) {
      if !c.kind.Integer? && !other.kind.Integer? {
        IntegersExpandIff(c, other);
      }
    } else if IsInteger(c) && IsDecimalType(other) {
      IntegerIntoDecimalIff(c, other);
    } else if !IsInteger(c) && !IsInteger(other) {
      DecimalsExpandIff(c, other);
    }
  }

  /** Nothing else expands: not a string and a number, not an approximate number, not a date. */
  lemma NothingElseExpands(c: Column, other: Column, safe: bool)
    requires !(IsString(c) && IsString(other)) && !(IsExactNumber(c) && IsExactNumber(other))
    ensures !Expands(c, other, safe)
  {
  }

  /** An ALTER is due, by what the columns hold; `open` says that the gate for other kinds is open. */
  ghost predicate Due(c: Column, reference: Column, open: bool)
    requires ValidNumeric(c) && ValidNumeric(reference)
  {
    if IsString(c) && IsString(reference) then
      if c.kind == reference.kind then KeepsTexts(c, reference) && AddsTexts(c, reference)
      else open && KeepsTexts(c, reference) && HoldsUnicode(reference) && !c.kind.NVarChar?
    else
      && open && IsExactNumber(c) && IsExactNumber(reference) && Compared(c, reference)
      && if OverMoney(c, reference) then c.scale.value < 4
         else LosesNothing(c, reference) && AddsNumbers(c, reference) && !MoneyAsDecimal(c, reference)
  }

  lemma ExpandsIff(c: Column, reference: Column, open: bool)
    requires ValidNumeric(c) && ValidNumeric(reference)
    ensures Expands(c, reference, open) <==> Due(c, reference, open)
  {
    hide Expands, KeepsTexts, AddsTexts, LosesNothing, AddsNumbers, Compared, OverMoney, MoneyAsDecimal, ValidNumeric;
    if IsString(c) && IsString(reference) {
      StringsExpandIff(c, reference, open);
    } else if IsExactNumber(c) && IsExactNumber(reference) {
      NumbersExpandIff(c, reference, open);
    } else {
      NothingElseExpands(c, reference, open);
    }
  }

  // ------------------------------------------------------------ altering columns

  /** The type written in the ALTER. */
  datatype Ddl = Sized(kind: Kind, size: int) | Max(kind: Kind) | Exact(kind: Kind, p: int, s: int) | Bare(kind: Kind)

  datatype Result<T> = Ok(value: T) | Err(message: string)

  /** `string_type_instance(size)`. */
  function StringType(c: Column, size: int): Result<Ddl> {
    if size == -1 then
      if c.kind.VarChar? || c.kind.NVarChar? then Ok(Max(c.kind)) else Err("not a valid SQL Server type")
    else match c.kind
      case NVarChar => Ok(Sized(NVarChar, if size > 0 then size else 4000))
      case NChar => Ok(Sized(NChar, if size > 0 then size else 1))
      case Char => Ok(Sized(Char, if size > 0 then size else 1))
      case _ => Ok(Sized(VarChar, if size > 0 then size else 8000))
  }

  /** `data_type`. */
  function DataType(c: Column): Result<Ddl> {
    if c.kind.DateTime2? then Ok(Sized(DateTime2, 6))
    else if IsString(c) then StringType(c, StringSize(c))
    else if IsDecimalType(c) && c.precision.Some? && c.scale.Some? then
      Ok(Exact(c.kind, c.precision.value, c.scale.value))
    else Ok(Bare(c.kind))
  }

  function NewType(reference: Column): Result<Ddl> {
    if IsString(reference) then StringType(reference, StringSize(reference)) else DataType(reference)
  }

  /** The column the catalog reports for a type; a bare decimal defaults to (18, 0). */
  function CatalogColumn(t: Ddl): Column {
    match t
    case Sized(kind, size) => Column(kind, Some(size), None, None)
    case Max(kind) => Column(kind, Some(-1), None, None)
    case Exact(kind, p, s) => Column(kind, None, Some(p), Some(s))
    case Bare(kind) =>
      if kind.Decimal? || kind.Numeric? then Column(kind, None, Some(18), Some(0)) else Column(kind, None, None, None)
  }

  /** A column as the catalog reports it. */
  predicate InCatalog(c: Column) {
    && (IsString(c) ==> c.charSize.Some? && (c.charSize.value >= 1 || IsMaxString(c)))
    && ValidNumeric(c)
  }

  /** `_safe_expansion_allowed`. */
  function SafeExpansionAllowed(flag: bool, maxRows: int, rowCount: int): bool {
    flag && (maxRows == -1 || (maxRows != 0 && rowCount <= maxRows))
  }

  /** What happens to one column. */
  function Widened(c: Column, reference: Column, safe: bool): Result<Column> {
    if !Expands(c, reference, safe) then Ok(c)
    else match NewType(reference)
      case Ok(t) => Ok(CatalogColumn(t))
      case Err(message) => Err(message)
  }

  /** The column an ALTER leaves is the reference column in everything the order looks at. */
  lemma WidenedMatchesReference(c: Column, reference: Column, safe: bool)
    requires InCatalog(reference) && Expands(c, reference, safe)
    ensures var w := Widened(c, reference, safe);
            && w.Ok? && InCatalog(w.value) && w.value.kind == reference.kind
            && Rank(w.value) == Rank(reference)
            && IntegerDigits(w.value) == IntegerDigits(reference) && Scale(w.value) == Scale(reference)
            && IsMaxString(w.value) == IsMaxString(reference)
            && (IsString(reference) ==> w.value.charSize == reference.charSize)
            && (IsDecimalType(reference) ==>
                  w.value.precision == reference.precision && w.value.scale == reference.scale)
  {
  }

  /** Widening climbs, so it never narrows, and a second pass with the same gate leaves it alone. */
  lemma WidenedOnce(c: Column, reference: Column, safe: bool)
    requires InCatalog(reference)
    ensures var w := Widened(c, reference, safe);
            && w.Ok?
            && (w.value == c || Below(Rank(c), Rank(w.value)))
            && !Expands(w.value, reference, safe)
            && Widened(w.value, reference, safe) == w
  {
    if Expands(c, reference, safe) {
      WidenedMatchesReference(c, reference, safe);
      ExpansionClimbs(c, reference, safe);
      var w := Widened(c, reference, safe).value;
      if Expands(w, reference, safe) {
        ExpansionClimbs(w, reference, safe);
      }
    }
  }

  /** The gate is open behind the flag, for any number of rows under -1, never under 0, and otherwise up to the
      limit. */
  lemma GateOpen(flag: bool, maxRows: int, rowCount: int)
    ensures SafeExpansionAllowed(flag, maxRows, rowCount)
            <==> flag && (maxRows == -1 || (maxRows != 0 && rowCount <= maxRows))
  {
  }

  lemma CatalogValid(c: Column)
    requires InCatalog(c)
    ensures ValidNumeric(c)
  {
  }

  /** The relation being widened. */
  class Relation {
    var columns: map<string, Column>

    constructor (columns: map<string, Column>)
      ensures this.columns == columns
    {
      this.columns := columns;
    }

    /** `alter_column_type`. */
    method AlterColumnType(name: string, newType: Ddl)
      modifies this
      ensures columns == old(columns)[name := CatalogColumn(newType)]
    {
      columns := columns[name := CatalogColumn(newType)];
    }

    /** `expand_column_types`; `reference` is the goal's column dictionary. A column that both have is altered
        exactly when that is due by what the two columns hold, and then to the type of the reference. */
    method ExpandColumnTypes(reference: Entries<string, Column>, flag: bool, maxRows: int, rowCount: int)
      returns (altered: seq<string>)
      requires Distinct(reference)
      requires forall i :: 0 <= i < |reference| ==> InCatalog(reference[i].1)
      modifies this
      ensures columns.Keys == old(columns).Keys
      ensures forall name :: name in columns ==>
                Ok(columns[name]) == if name in AsMap(reference)
                                     then Widened(old(columns)[name], AsMap(reference)[name],
                                                  SafeExpansionAllowed(flag, maxRows, rowCount))
                                     else Ok(old(columns)[name])
      ensures forall name :: name in altered <==>
                name in old(columns) && name in AsMap(reference)
                && Expands(old(columns)[name], AsMap(reference)[name], SafeExpansionAllowed(flag, maxRows, rowCount))
      ensures forall name :: name in old(columns) && name in AsMap(reference) && ValidNumeric(old(columns)[name]) ==>
                ValidNumeric(AsMap(reference)[name])
                && (name in altered
                    <==> Due(old(columns)[name], AsMap(reference)[name],
                             flag && (maxRows == -1 || (maxRows != 0 && rowCount <= maxRows))))
    {
      hide Due, ValidNumeric, CanExpandTo, CanExpandSafe, NewType, CatalogColumn, InCatalog, Rank, Below, SafeExpansionAllowed, AsMap;
      var target := columns;
      var safe := SafeExpansionAllowed(flag, maxRows, rowCount);
      altered := [];
      for i := 0 to |reference|
        invariant columns.Keys == target.Keys
        invariant forall k :: 0 <= k < i && reference[k].0 in target ==>
                    Ok(columns[reference[k].0]) == Widened(target[reference[k].0], reference[k].1, safe)
        invariant forall name :: name in target && (forall k :: 0 <= k < i ==> reference[k].0 != name) ==>
                    columns[name] == target[name]
        invariant forall k :: 0 <= k < i ==>
                    (reference[k].0 in altered <==>
                     reference[k].0 in target && Expands(target[reference[k].0], reference[k].1, safe))
        invariant forall name :: name in altered ==> exists k :: 0 <= k < i && reference[k].0 == name
      {
        var (name, referenceColumn) := reference[i];
        ghost var before := altered;
        if name in target {
          WidenedOnce(target[name], referenceColumn, safe);
          if Expands(target[name], referenceColumn, safe) {
            AlterColumnType(name, NewType(referenceColumn).value);
            altered := altered + [name];
          }
        }
        assert forall n :: n in altered ==> n in before || n == name;
      }
      forall name | name in target
        ensures Ok(columns[name]) == if name in AsMap(reference)
                                     then Widened(target[name], AsMap(reference)[name], safe)
                                     else Ok(target[name])
      {
        if name in AsMap(reference) {
          var k := MapHasEntry(reference, name);
        } else {
          forall k | 0 <= k < |reference| ensures reference[k].0 != name {
            EntryInMap(reference, k);
          }
        }
      }
      forall name
        ensures name in altered <==>
                  name in target && name in AsMap(reference) && Expands(target[name], AsMap(reference)[name], safe)
      {
        if name in AsMap(reference) {
          var k := MapHasEntry(reference, name);
        } else {
          forall k | 0 <= k < |reference| ensures reference[k].0 != name {
            EntryInMap(reference, k);
          }
        }
      }
      GateOpen(flag, maxRows, rowCount);
      forall name | name in target && name in AsMap(reference) && ValidNumeric(target[name])
        ensures ValidNumeric(AsMap(reference)[name])
        ensures name in altered <==> Due(target[name], AsMap(reference)[name], safe)
      {
        var k := MapHasEntry(reference, name);
        CatalogValid(reference[k].1);
        ExpandsIff(target[name], reference[k].1, safe);
      }
    }

    /** A second pass under the same gate alters nothing. */
    method ExpandTwice(reference: Entries<string, Column>, flag: bool, maxRows: int, rowCount: int)
      returns (again: seq<string>)
      requires Distinct(reference)
      requires forall i :: 0 <= i < |reference| ==> InCatalog(reference[i].1)
      modifies this
      ensures forall name :: name !in again
    {
      ghost var first := columns;
      var altered := ExpandColumnTypes(reference, flag, maxRows, rowCount);
      ghost var safe := SafeExpansionAllowed(flag, maxRows, rowCount);
      forall name | name in columns && name in AsMap(reference)
        ensures !Expands(columns[name], AsMap(reference)[name], safe)
      {
        var k := MapHasEntry(reference, name);
        WidenedOnce(first[name], AsMap(reference)[name], safe);
      }
      again := ExpandColumnTypes(reference, flag, maxRows, rowCount);
    }
  }
}
