/**
 * `Money`: an immutable amount in one currency. The amount is always a whole number of
 * 10^-d units, d being the currency's significantDigits, so a Money stores that number of
 * units; `Amount()` is the decimal value it stands for.
 */
module MoneyValues {
  import opened Decimals
  import opened Outcomes
  import opened Currencies

  datatype Money = Money(units: int, currency: Currency) {
    /** The amount: `units` units of 10^-significantDigits. */
    function Amount(): real {
      FromUnits(units, currency.significantDigits)
    }

    function Code(): string {
      currency.code
    }

    function Digits(): nat {
      currency.significantDigits
    }
  }

  /** The right-hand operand of a Money operator: a Money, a number, or anything else. */
  datatype Operand = OfMoney(money: Money) | OfNumber(number: real) | OfOther

  /**
   * `Money(amount, currency)` with a currency object: the amount quantized half-even to the
   * currency's places.
   */
  function Make(amount: real, currency: Currency): (m: Money)
    ensures m.currency == currency
    ensures m.Amount() == Quantize(amount, currency.significantDigits)
    ensures -0.5 <= (amount - m.Amount()) * Scale(currency.significantDigits) <= 0.5
  {
    Money(ToUnits(amount, currency.significantDigits), currency)
  }

  /** Rebuilding a Money from its own amount and currency gives it back unchanged. */
  lemma {:induction false} MakeOwnAmount(m: Money)
    ensures Make(m.Amount(), m.currency) == m
  {
    UnitsRoundTrip(m.units, m.Digits());
  }

  /** Building from an already quantized amount keeps that amount exactly. */
  lemma {:induction false} MakeQuantized(x: real, c: Currency)
    ensures Make(Quantize(x, c.significantDigits), c) == Make(x, c)
  {
    QuantizeIdempotent(x, c.significantDigits);
  }

  /**
   * `Money(amount, code)` with a code: the code is upper-cased and looked up; an unknown code
   * raises `CurrencyDoesNotExist` naming the upper-cased code.
   */
  function New(amount: real, code: string, t: Table): (r: Result<Money>)
    ensures r.Success? <==> Upper(code) in t
    ensures r.Success? ==> r.value.currency == t[Upper(code)]
    ensures r.Success? ==> r.value.Amount() == Quantize(amount, t[Upper(code)].significantDigits)
    ensures r.Failure? ==> r.error == CurrencyDoesNotExist(Upper(code))
  {
    var c :- GetCurrency(t, Upper(code));
    Success(Make(amount, c))
  }

  /** `Money()`: zero in the currency now registered as "BTC". */
  function Zero(t: Table): (r: Result<Money>)
    ensures r.Success? <==> DefaultCurrencyCode in t
    ensures r.Success? ==> r.value.Amount() == 0.0 && r.value.currency == t[DefaultCurrencyCode]
  {
    assert Upper(DefaultCurrencyCode) == DefaultCurrencyCode;
    UnitsRoundTrip(0, 0);
    QuantizeUnits(0, if DefaultCurrencyCode in t then t[DefaultCurrencyCode].significantDigits else 0);
    New(0.0, DefaultCurrencyCode, t)
  }

  /** With the standard table a code is found whatever its case, so `Money(1, 'usd')` is dollars. */
  lemma LowerCaseCodeResolves()
    ensures New(1.0, "usd", StandardTable()).Success?
    ensures New(1.0, "usd", StandardTable()).value.currency == UsDollar
    ensures New(1.0, "xyz", StandardTable()) == Failure(CurrencyDoesNotExist("XYZ"))
  {
    assert Upper("usd") == "USD";
    assert Upper("xyz") == "XYZ";
  }

  /** `+m`: a Money equal to `m`. */
  function Pos(m: Money): (r: Money)
    ensures r == m
  {
    MakeOwnAmount(m);
    Make(m.Amount(), m.currency)
  }

  /** `-m`: the negated amount in the same currency, exactly. */
  function Neg(m: Money): (r: Money)
    ensures r.currency == m.currency
    ensures r.Amount() == -m.Amount()
    ensures r.units == -m.units
  {
    FromUnitsAdd(m.units, 0, m.Digits());
    UnitsRoundTrip(-m.units, m.Digits());
    Make(-m.Amount(), m.currency)
  }

  /** Negating twice gives the original Money. */
  lemma NegInvolutive(m: Money)
    ensures Neg(Neg(m)) == m
  {
  }

  /** `abs(m)`: the absolute amount in the same currency, exactly. */
  function Abs(m: Money): (r: Money)
    ensures r.currency == m.currency
    ensures r.Amount() >= 0.0
    ensures r.Amount() == if m.Amount() < 0.0 then -m.Amount() else m.Amount()
  {
    MakeOwnAmount(m);
    var a := if m.Amount() < 0.0 then -m.Amount() else m.Amount();
    if m.Amount() < 0.0 then Neg(m) else Make(a, m.currency)
  }

  /**
   * `m + other`: a Money of the same code adds amounts; a number is added to the amount; the
   * sum is quantized in `m`'s currency. A Money of another code, or anything that is not a
   * number, raises `TypeError`.
   */
  function Add(m: Money, other: Operand): (r: Result<Money>)
    ensures r.Success? <==> (other.OfMoney? && other.money.Code() == m.Code()) || other.OfNumber?
    ensures r.Failure? ==> r.error == TypeError
    ensures r.Success? ==> r.value.currency == m.currency
    ensures r.Success? && other.OfNumber? ==>
              r.value.Amount() == Quantize(m.Amount() + other.number, m.Digits())
    ensures r.Success? && other.OfMoney? ==>
              r.value.Amount() == Quantize(m.Amount() + other.money.Amount(), m.Digits())
  {
    match other
    case OfMoney(n) =>
      if CurrencyEquals(m.currency, OfCurrency(n.currency)) then
        Success(Make(m.Amount() + n.Amount(), m.currency))
      else
        Failure(TypeError)
    case OfNumber(x) => Success(Make(m.Amount() + x, m.currency))
    case OfOther => Failure(TypeError)
  }

  /** Adding two Moneys of one currency is exact: the units add up. */
  lemma {:induction false} AddExact(m: Money, n: Money)
    requires m.Code() == n.Code() && m.Digits() == n.Digits()
    ensures Add(m, OfMoney(n)) == Success(Money(m.units + n.units, m.currency))
    ensures Add(m, OfMoney(n)).value.Amount() == m.Amount() + n.Amount()
  {
    FromUnitsAdd(m.units, n.units, m.Digits());
    UnitsRoundTrip(m.units + n.units, m.Digits());
  }

  /** Addition of Moneys of one currency commutes in value. */
  lemma AddCommutes(m: Money, n: Money)
    requires m.Code() == n.Code() && m.Digits() == n.Digits()
    ensures Add(m, OfMoney(n)).value.Amount() == Add(n, OfMoney(m)).value.Amount()
  {
    AddExact(m, n);
    AddExact(n, m);
  }

  /** `-other` as `__sub__` computes it before adding. */
  function NegOperand(other: Operand): (r: Operand)
    ensures r.OfMoney? <==> other.OfMoney?
    ensures r.OfNumber? <==> other.OfNumber?
  {
    match other
    case OfMoney(n) => OfMoney(Neg(n))
    case OfNumber(x) => OfNumber(-x)
    case OfOther => OfOther
  }

  /** `m - other`: addition of the negated operand. */
  function Sub(m: Money, other: Operand): (r: Result<Money>)
    ensures r.Success? <==> (other.OfMoney? && other.money.Code() == m.Code()) || other.OfNumber?
    ensures r.Failure? ==> r.error == TypeError
    ensures r.Success? && other.OfNumber? ==>
              r.value.Amount() == Quantize(m.Amount() - other.number, m.Digits())
    ensures r.Success? && other.OfMoney? ==>
              r.value.Amount() == Quantize(m.Amount() - other.money.Amount(), m.Digits())
  {
    Add(m, NegOperand(other))
  }

  /** `m - m` is zero in `m`'s currency. */
  lemma {:induction false} SubSelf(m: Money)
    ensures Sub(m, OfMoney(m)) == Success(Money(0, m.currency))
    ensures Sub(m, OfMoney(m)).value.Amount() == 0.0
  {
    AddExact(m, Neg(m));
    FromUnitsAdd(0, 0, m.Digits());
  }

  /** `(m + n) - n` gives back `m` when both are in one currency. */
  lemma {:induction false} SubUndoesAdd(m: Money, n: Money)
    requires m.Code() == n.Code() && m.Digits() == n.Digits()
    ensures Sub(Add(m, OfMoney(n)).value, OfMoney(n)) == Success(m)
  {
    AddExact(m, n);
    AddExact(Money(m.units + n.units, m.currency), Neg(n));
  }

  /** The product of `m`'s amount and `k`, quantized in `m`'s currency. */
  function Times(m: Money, k: real): (r: Money)
    ensures r.currency == m.currency
    ensures r.Amount() == Quantize(m.Amount() * k, m.Digits())
  {
    MakeQuantized(m.Amount() * k, m.currency);
    Make(Quantize(m.Amount() * k, m.Digits()), m.currency)
  }

  /** Multiplying and then quantizing twice is the same as building from the product. */
  lemma {:induction false} TimesMakesProduct(m: Money, k: real)
    ensures Times(m, k) == Make(m.Amount() * k, m.currency)
  {
    MakeQuantized(m.Amount() * k, m.currency);
  }

  /** Multiplying by a whole number is exact. */
  lemma {:induction false} TimesWhole(m: Money, k: int)
    ensures Times(m, k as real) == Money(m.units * k, m.currency)
  {
    var d := m.Digits();
    FromUnitsScale(m.units, k, d);
    assert m.Amount() * k as real == FromUnits(m.units * k, d);
    QuantizeUnits(m.units * k, d);
    UnitsRoundTrip(m.units * k, d);
  }

  /**
   * `m * other`: a number or a Money of the same code multiplies the amount, quantized in
   * `m`'s currency; a Money of another code fails in `MoneyComparisonError`'s constructor,
   * which asserts that its argument is not a Money; anything else raises `TypeError`.
   */
  function Mul(m: Money, other: Operand): (r: Result<Money>)
    ensures r.Success? <==> (other.OfMoney? && other.money.Code() == m.Code()) || other.OfNumber?
    ensures r.Failure? && other.OfMoney? ==> r.error == AssertionError
    ensures other.OfOther? ==> r == Failure(TypeError)
    ensures r.Success? ==> r.value.currency == m.currency
    ensures other.OfNumber? ==> r == Success(Times(m, other.number))
    ensures r.Success? && other.OfMoney? ==> r.value == Times(m, other.money.Amount())
  {
    match other
    case OfMoney(n) =>
      if CurrencyEquals(m.currency, OfCurrency(n.currency)) then Success(Times(m, other.money.Amount()))
      else Failure(AssertionError)
    case OfNumber(x) => Success(Times(m, x))
    case OfOther => Failure(TypeError)
  }

  /** The quotient of `m`'s amount by a non-zero `k`, quantized in `m`'s currency. */
  function Quotient(m: Money, k: real): (r: Money)
    requires k != 0.0
    ensures r.currency == m.currency
    ensures r.Amount() == Quantize(m.Amount() / k, m.Digits())
  {
    MakeQuantized(m.Amount() / k, m.currency);
    Make(Quantize(m.Amount() / k, m.Digits()), m.currency)
  }

  /**
   * `m / other`: like `*` with the quotient, and a zero divisor (number or Money) raises the
   * decimal module's division error.
   */
  function Div(m: Money, other: Operand): (r: Result<Money>)
    ensures r.Success? <==>
              (other.OfMoney? && other.money.Code() == m.Code() && other.money.Amount() != 0.0) ||
              (other.OfNumber? && other.number != 0.0)
    ensures other.OfMoney? && other.money.Code() != m.Code() ==> r == Failure(AssertionError)
    ensures other.OfMoney? && other.money.Code() == m.Code() && other.money.Amount() == 0.0 ==>
              r == Failure(DecimalException)
    ensures other.OfNumber? && other.number == 0.0 ==> r == Failure(DecimalException)
    ensures other.OfOther? ==> r == Failure(TypeError)
    ensures r.Success? ==> r.value.currency == m.currency
    ensures r.Success? && other.OfNumber? ==> r.value == Quotient(m, other.number)
    ensures r.Success? && other.OfMoney? ==>
              r.value.Amount() == Quantize(m.Amount() / other.money.Amount(), m.Digits())
  {
    match other
    case OfMoney(n) =>
      if !CurrencyEquals(m.currency, OfCurrency(n.currency)) then Failure(AssertionError)
      else if n.Amount() == 0.0 then Failure(DecimalException)
      else Success(Quotient(m, n.Amount()))
    case OfNumber(x) =>
      if x == 0.0 then Failure(DecimalException) else Success(Quotient(m, x))
    case OfOther => Failure(TypeError)
  }

  /** Dividing by a Money of the same currency and amount gives one unit of the amount, 1. */
  lemma {:induction false} DivSelf(m: Money)
    requires m.Amount() != 0.0
    ensures Div(m, OfMoney(m)).Success?
    ensures Div(m, OfMoney(m)).value.Amount() == 1.0
  {
    assert m.Amount() / m.Amount() == 1.0;
    IntegralInt(0);
    QuantizeUnits(Pow10(m.Digits()), m.Digits());
    assert FromUnits(Pow10(m.Digits()), m.Digits()) == 1.0;
  }

  /** Multiplying by a whole non-zero number and dividing by it again gives `m` back. */
  lemma {:induction false} DivUndoesMul(m: Money, k: int)
    requires k != 0
    ensures Quotient(Times(m, k as real), k as real) == m
    ensures Div(Mul(m, OfNumber(k as real)).value, OfNumber(k as real)) == Success(m)
  {
    QuotientUndoesTimes(m, k);
    var p := Mul(m, OfNumber(k as real)).value;
    assert p == Times(m, k as real);
    assert Div(p, OfNumber(k as real)) == Success(Quotient(p, k as real));
  }

  /** Dividing the product by a non-zero whole factor gives the Money back. */
  lemma {:induction false} QuotientUndoesTimes(m: Money, k: int)
    requires k != 0
    ensures Quotient(Times(m, k as real), k as real) == m
  {
    var p := Times(m, k as real);
    ProductOverFactor(m, k);
    QuotientOfAmount(p, k as real, m.Amount());
    MakeQuantized(m.Amount(), m.currency);
    MakeOwnAmount(m);
  }

  lemma {:induction false} ProductOverFactor(m: Money, k: int)
    requires k != 0
    ensures Times(m, k as real).Amount() / k as real == m.Amount()
  {
    TimesWhole(m, k);
    FromUnitsScale(m.units, k, m.Digits());
    CancelFactor(m.Amount(), k as real);
  }

  lemma QuotientOfAmount(p: Money, k: real, a: real)
    requires k != 0.0 && p.Amount() / k == a
    ensures Quotient(p, k) == Make(Quantize(a, p.Digits()), p.currency)
  {
  }

  lemma CancelFactor(a: real, k: real)
    requires k != 0.0
    ensures (a * k) / k == a
  {
  }

  /** `x` percent of `a`. */
  function Percent(x: real, a: real): real {
    x * a / 100.0
  }

  /**
   * `other % m` (`__rmod__`): `other` percent of `m`, that is `other * amount / 100` quantized in
   * `m`'s currency. A Money, or anything that is not a number, on the left raises `TypeError`.
   */
  function RMod(m: Money, other: Operand): (r: Result<Money>)
    ensures r.Success? <==> other.OfNumber?
    ensures r.Failure? ==> r.error == TypeError
    ensures r.Success? ==> r.value == Make(Percent(other.number, m.Amount()), m.currency)
  {
    match other
    case OfNumber(x) => Success(Make(Percent(x, m.Amount()), m.currency))
    case _ => Failure(TypeError)
  }

  /** Taking `n` percent is multiplying by `n / 100`. */
  lemma {:induction false} RModIsPercentage(m: Money, n: real)
    ensures RMod(m, OfNumber(n)) == Mul(m, OfNumber(n / 100.0))
  {
    var k := n / 100.0;
    assert Mul(m, OfNumber(k)) == Success(Times(m, k));
    assert Percent(n, m.Amount()) == m.Amount() * k;
    TimesMakesProduct(m, k);
    assert RMod(m, OfNumber(n)) == Success(Make(Percent(n, m.Amount()), m.currency));
  }

  /** `1 % Money(1000000, 'USD')` is ten thousand dollars. */
  lemma OnePercentOfAMillion()
    ensures RMod(Make(1000000.0, UsDollar), OfNumber(1.0)).Success?
    ensures RMod(Make(1000000.0, UsDollar), OfNumber(1.0)).value == Make(10000.0, UsDollar)
  {
    var million := Money(100000000000, UsDollar);
    assert Pow10(5) == 100000;
    assert million.Amount() == 1000000.0;
    MakeOwnAmount(million);
  }

  /**
   * `m == other`: Moneys are equal when amounts and currency codes are; a number is compared
   * with its value quantized in `m`'s currency; anything else is unequal. Never raises.
   */
  function Equals(m: Money, other: Operand): (r: bool)
    ensures other.OfMoney? ==> (r <==> m.Amount() == other.money.Amount() && m.Code() == other.money.Code())
    ensures other.OfNumber? ==> (r <==> m.Amount() == Quantize(other.number, m.Digits()))
    ensures other.OfOther? ==> !r
  {
    match other
    case OfMoney(n) => m.Amount() == n.Amount() && CurrencyEquals(m.currency, OfCurrency(n.currency))
    case OfNumber(x) => m.Amount() == Quantize(x, m.Digits())
    case OfOther => false
  }

  /** `m != other`: exactly the negation of `==`. */
  function NotEquals(m: Money, other: Operand): (r: bool)
    ensures r <==> !Equals(m, other)
  {
    !Equals(m, other)
  }

  /**
   * Comparing with a number is comparing with the Money that number makes in `m`'s currency;
   * in one currency equality is equality of units.
   */
  lemma {:induction false} EqualsNumberAsMoney(m: Money, x: real)
    ensures Equals(m, OfNumber(x)) == Equals(m, OfMoney(Make(x, m.currency)))
    ensures Equals(m, OfNumber(x)) <==> m.units == ToUnits(x, m.Digits())
  {
    FromUnitsOrder(m.units, ToUnits(x, m.Digits()), m.Digits());
  }

  /** Money equality is an equivalence relation. */
  lemma EqualsEquivalence(a: Money, b: Money, c: Money)
    ensures Equals(a, OfMoney(a))
    ensures Equals(a, OfMoney(b)) == Equals(b, OfMoney(a))
    ensures Equals(a, OfMoney(b)) && Equals(b, OfMoney(c)) ==> Equals(a, OfMoney(c))
  {
  }

  /**
   * `m < other`: amounts of one currency, or `m`'s amount against the quantized number; a
   * non-number raises `MoneyComparisonError`, and a Money of another code fails in that
   * exception's constructor, which asserts that its argument is not a Money.
   */
  function Less(m: Money, other: Operand): (r: Result<bool>)
    ensures r.Success? <==> (other.OfMoney? && other.money.Code() == m.Code()) || other.OfNumber?
    ensures other.OfMoney? && r.Failure? ==> r.error == AssertionError
    ensures other.OfOther? ==> r == Failure(MoneyComparisonError)
    ensures r.Success? && other.OfMoney? ==> (r.value <==> m.Amount() < other.money.Amount())
    ensures r.Success? && other.OfNumber? ==>
              (r.value <==> m.Amount() < Quantize(other.number, m.Digits()))
  {
    match other
    case OfMoney(n) =>
      if CurrencyEquals(m.currency, OfCurrency(n.currency)) then Success(m.Amount() < n.Amount())
      else Failure(AssertionError)
    case OfNumber(x) => Success(m.Amount() < Quantize(x, m.Digits()))
    case OfOther => Failure(MoneyComparisonError)
  }

  /** `m > other`: the mirror image of `<`, with the same errors. */
  function Greater(m: Money, other: Operand): (r: Result<bool>)
    ensures r.Success? <==> (other.OfMoney? && other.money.Code() == m.Code()) || other.OfNumber?
    ensures other.OfMoney? && r.Failure? ==> r.error == AssertionError
    ensures other.OfOther? ==> r == Failure(MoneyComparisonError)
    ensures r.Success? && other.OfMoney? ==> (r.value <==> m.Amount() > other.money.Amount())
    ensures r.Success? && other.OfNumber? ==>
              (r.value <==> m.Amount() > Quantize(other.number, m.Digits()))
  {
    match other
    case OfMoney(n) =>
      if CurrencyEquals(m.currency, OfCurrency(n.currency)) then Success(m.Amount() > n.Amount())
      else Failure(AssertionError)
    case OfNumber(x) => Success(m.Amount() > Quantize(x, m.Digits()))
    case OfOther => Failure(MoneyComparisonError)
  }

  /** Comparing with the number 0 compares the amount with zero, whatever the currency's places. */
  lemma {:induction false} ComparesWithZero(m: Money)
    ensures Equals(m, OfNumber(0.0)) <==> m.Amount() == 0.0
    ensures Less(m, OfNumber(0.0)) == Success(m.Amount() < 0.0)
    ensures Greater(m, OfNumber(0.0)) == Success(m.Amount() > 0.0)
  {
    QuantizeZero(m.Digits());
  }

  /** `m <= other`: `m < other or m == other`, raising whatever `<` raises. */
  function LessEq(m: Money, other: Operand): (r: Result<bool>)
    ensures r.Success? <==> Less(m, other).Success?
    ensures r.Success? ==> (r.value <==> Less(m, other).value || Equals(m, other))
  {
    var lt :- Less(m, other);
    Success(lt || Equals(m, other))
  }

  /** `m >= other`: `m > other or m == other`, raising whatever `>` raises. */
  function GreaterEq(m: Money, other: Operand): (r: Result<bool>)
    ensures r.Success? <==> Greater(m, other).Success?
    ensures r.Success? ==> (r.value <==> Greater(m, other).value || Equals(m, other))
  {
    var gt :- Greater(m, other);
    Success(gt || Equals(m, other))
  }

  /**
   * In one currency `<=` and `>=` are the order on amounts, and exactly one of `<`, `==`, `>`
   * holds.
   */
  lemma Trichotomy(m: Money, n: Money)
    requires m.Code() == n.Code()
    ensures LessEq(m, OfMoney(n)) == Success(m.Amount() <= n.Amount())
    ensures GreaterEq(m, OfMoney(n)) == Success(m.Amount() >= n.Amount())
    ensures (if Less(m, OfMoney(n)).value then 1 else 0) + (if Equals(m, OfMoney(n)) then 1 else 0) +
            (if Greater(m, OfMoney(n)).value then 1 else 0) == 1
  {
  }

  /** `m < n` exactly when `n > m`, errors included. */
  lemma LessIsConverseGreater(m: Money, n: Money)
    ensures Less(m, OfMoney(n)) == Greater(n, OfMoney(m))
  {
  }

  /** Against a number, ordering is ordering against the Money that number makes. */
  lemma {:induction false} LessNumberAsMoney(m: Money, x: real)
    ensures Less(m, OfNumber(x)) == Less(m, OfMoney(Make(x, m.currency)))
    ensures Greater(m, OfNumber(x)) == Greater(m, OfMoney(Make(x, m.currency)))
  {
  }

  /** The test suite's case: equality against a Money of another currency is `False`, not an error. */
  lemma EqualsAcrossCurrencies()
    ensures !Equals(Make(1.0, UsDollar), OfMoney(Make(1.0, Euro)))
    ensures Less(Make(1.0, UsDollar), OfMoney(Make(1.0, Euro))) == Failure(AssertionError)
    ensures Mul(Make(1.0, UsDollar), OfMoney(Make(1.0, Euro))) == Failure(AssertionError)
    ensures Add(Make(1.0, UsDollar), OfMoney(Make(1.0, Euro))) == Failure(TypeError)
  {
  }

  /**
   * `other - m` as written: `__rsub__` is bound to `__sub__`, so `5 - m` computes `m - 5`.
   */
  function RSubAsWritten(m: Money, other: Operand): (r: Result<Money>)
    ensures r == Sub(m, other)
  {
    Sub(m, other)
  }

  /** `other - m` as evidently intended: the number minus the amount, in `m`'s currency. */
  function RSub(m: Money, other: Operand): (r: Result<Money>)
    ensures r.Success? <==> other.OfNumber?
    ensures r.Failure? ==> r.error == TypeError
    ensures r.Success? ==> r.value == Make(other.number - m.Amount(), m.currency)
  {
    match other
    case OfNumber(x) => Success(Make(x - m.Amount(), m.currency))
    case _ => Failure(TypeError)
  }

  /** The reflected subtraction is the negation of the forward one, and undoes `m + x`. */
  lemma {:induction false} RSubNegatesSub(m: Money, x: real)
    ensures RSub(m, OfNumber(x)).value == Neg(Sub(m, OfNumber(x)).value)
    ensures RSub(m, OfNumber(x)).value.Amount() == Quantize(x - m.Amount(), m.Digits())
  {
    var d := m.Digits();
    assert -(m.Amount() + -x) == x - m.Amount();
    QuantizeNegate(m.Amount() + -x, d);
    FromUnitsAdd(ToUnits(m.Amount() + -x, d), 0, d);
  }

  /** `5 - Money(1, 'USD')` is -4 dollars as written, where 4 dollars is meant. */
  lemma RSubAsWrittenSwapsOperands()
    ensures RSubAsWritten(Make(1.0, UsDollar), OfNumber(5.0)).value.Amount() == -4.0
    ensures RSub(Make(1.0, UsDollar), OfNumber(5.0)).value.Amount() == 4.0
  {
    assert Pow10(5) == 100000;
    var one := Money(100000, UsDollar);
    assert one.Amount() == 1.0;
    MakeOwnAmount(one);
    var minusFour := Money(-400000, UsDollar);
    assert minusFour.Amount() == -4.0;
    MakeOwnAmount(minusFour);
    var four := Money(400000, UsDollar);
    assert four.Amount() == 4.0;
    MakeOwnAmount(four);
  }
}
