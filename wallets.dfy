/**
 * `MultiMoney`: a mutable wallet holding at most one Money per currency code. Its methods
 * update the `moneys` dictionary in place or build new wallets; each is proved against the
 * functions of the `Holdings` module.
 */
module Wallets {
  import opened Decimals
  import opened Outcomes
  import opened Currencies
  import opened MoneyValues
  import opened Holdings
  import opened Documents

  /**
   * The order in which a dictionary yields its keys. Python fixes some order; the model
   * allows any, so every loop below is proved for every iteration order.
   */
  method Order(h: Holdings) returns (keys: seq<string>)
    ensures Enumerates(keys, h)
    ensures |keys| == |h|
  {
    keys := [];
    var todo := h.Keys;
    while todo != {}
      invariant todo <= h.Keys
      invariant forall i :: 0 <= i < |keys| ==> keys[i] in h && keys[i] !in todo
      invariant forall c :: c in h && c !in todo ==> c in keys
      invariant forall i, j :: 0 <= i < j < |keys| ==> keys[i] != keys[j]
      invariant |keys| + |todo| == |h|
      decreases |todo|
    {
      var k :| k in todo;
      keys := keys + [k];
      todo := todo - {k};
    }
  }

  /**
   * One loop of `__eq__` for a wallet operand: every entry of `b` equals the entry of `h` of
   * its code, or is zero where `h` has none. `__eq__` runs it over the operand and then, with
   * the roles swapped, over the wallet itself.
   */
  method EntriesMatch(h: Holdings, b: Holdings) returns (ok: bool)
    ensures ok <==> forall c :: c in b ==> AmountIn(h, c) == AmountIn(b, c)
  {
    var keys := Order(b);
    var i := 0;
    while i < |keys|
      invariant 0 <= i <= |keys|
      invariant forall j :: 0 <= j < i ==> AmountIn(h, keys[j]) == AmountIn(b, keys[j])
    {
      var m := b[keys[i]];
      if m.Code() !in h {
        ComparesWithZero(m);
        if !MoneyValues.Equals(m, OfNumber(0.0)) {
          return false;
        }
      } else if !MoneyValues.Equals(m, OfMoney(h[m.Code()])) {
        return false;
      }
      i := i + 1;
    }
    return true;
  }

  /** `__eq__` for a wallet operand: both loops, the second only when the first succeeds. */
  method SameAs(h: Holdings, b: Holdings) returns (same: bool)
    ensures same == SameHoldings(h, b)
  {
    same := EntriesMatch(h, b);
    if same {
      same := EntriesMatch(b, h);
    }
  }

  /**
   * The first loop of `__lt__` for a wallet operand: no entry of `b` is below the entry of
   * `h` of its code, nor negative where `h` has none.
   */
  method NoneAboveEntries(h: Holdings, b: Holdings) returns (ok: bool)
    ensures ok <==> forall c :: c in b ==> AmountIn(h, c) <= AmountIn(b, c)
  {
    var keys := Order(b);
    var i := 0;
    while i < |keys|
      invariant 0 <= i <= |keys|
      invariant forall j :: 0 <= j < i ==> AmountIn(h, keys[j]) <= AmountIn(b, keys[j])
    {
      var m := b[keys[i]];
      if m.Code() in h {
        if MoneyValues.Greater(h[m.Code()], OfMoney(m)).value {
          return false;
        }
      } else {
        ComparesWithZero(m);
        if MoneyValues.Less(m, OfNumber(0.0)).value {
          return false;
        }
      }
      i := i + 1;
    }
    return true;
  }

  /** The second loop of `__lt__`: no entry of `h` that `b` lacks is positive. */
  method NoPositiveExtras(h: Holdings, b: Holdings) returns (ok: bool)
    ensures ok <==> forall c :: c in h && c !in b ==> h[c].Amount() <= 0.0
  {
    var keys := Order(h);
    var i := 0;
    while i < |keys|
      invariant 0 <= i <= |keys|
      invariant forall j :: 0 <= j < i && keys[j] !in b ==> h[keys[j]].Amount() <= 0.0
    {
      var m := h[keys[i]];
      ComparesWithZero(m);
      if m.Code() !in b && MoneyValues.Greater(m, OfNumber(0.0)).value {
        return false;
      }
      i := i + 1;
    }
    return true;
  }

  /**
   * The first loop of `__gt__` for a wallet operand: no entry of `b` is above the entry of
   * `h` of its code, nor positive where `h` has none.
   */
  method NoneBelowEntries(h: Holdings, b: Holdings) returns (ok: bool)
    ensures ok <==> forall c :: c in b ==> AmountIn(b, c) <= AmountIn(h, c)
  {
    var keys := Order(b);
    var i := 0;
    while i < |keys|
      invariant 0 <= i <= |keys|
      invariant forall j :: 0 <= j < i ==> AmountIn(b, keys[j]) <= AmountIn(h, keys[j])
    {
      var m := b[keys[i]];
      if m.Code() in h {
        if MoneyValues.Less(h[m.Code()], OfMoney(m)).value {
          return false;
        }
      } else {
        ComparesWithZero(m);
        if MoneyValues.Greater(m, OfNumber(0.0)).value {
          return false;
        }
      }
      i := i + 1;
    }
    return true;
  }

  /**
   * The second loop of `__gt__`: no entry of `h` that `b` lacks is negative. Where `b` has the
   * code, the loop compares the entry of `h` with itself, which never fails.
   */
  method NoNegativeExtras(h: Holdings, b: Holdings) returns (ok: bool)
    ensures ok <==> forall c :: c in h && c !in b ==> h[c].Amount() >= 0.0
  {
    var keys := Order(h);
    var i := 0;
    while i < |keys|
      invariant 0 <= i <= |keys|
      invariant forall j :: 0 <= j < i && keys[j] !in b ==> h[keys[j]].Amount() >= 0.0
    {
      var m := h[keys[i]];
      if m.Code() in b {
        assert !MoneyValues.Less(h[m.Code()], OfMoney(m)).value;
      } else {
        ComparesWithZero(m);
        if MoneyValues.Less(m, OfNumber(0.0)).value {
          return false;
        }
      }
      i := i + 1;
    }
    return true;
  }

  /** Both loops of `__lt__` for a wallet operand: `h` is dominated by `b`. */
  method DominatedBy(h: Holdings, b: Holdings) returns (below: bool)
    ensures below == Dominated(h, b)
  {
    DominatedSplit(h, b);
    below := NoneAboveEntries(h, b);
    if below {
      below := NoPositiveExtras(h, b);
    }
  }

  /** Both loops of `__gt__` for a wallet operand: `h` dominates `b`. */
  method Dominates(h: Holdings, b: Holdings) returns (above: bool)
    ensures above == Dominated(b, h)
  {
    AllCodes(b, h);
    above := NoneBelowEntries(h, b);
    if above {
      above := NoNegativeExtras(h, b);
    }
  }

  /** The entries of `h` as `prep_json` lists them, in an iteration order of `h`. */
  method Listing(h: Holdings) returns (listing: seq<Field>)
    ensures ListsWallet(listing, h)
  {
    var keys := Order(h);
    listing := [];
    var i := 0;
    while i < |keys|
      invariant 0 <= i <= |keys|
      invariant |listing| == i
      invariant forall j :: 0 <= j < i ==> listing[j] == Field(keys[j], MoneyJson(h[keys[j]]))
    {
      var m := h[keys[i]];
      var f := Field(m.Code(), MoneyJson(m));
      assert f == Field(keys[i], MoneyJson(h[keys[i]]));
      var listing' := listing + [f];
      assert forall j :: 0 <= j < i ==> listing'[j] == listing[j];
      listing := listing';
      i := i + 1;
    }
    ListingOfOrder(h, keys, listing);
  }

  /** Filing each code of an iteration order with its Money's `prep_json` lists the wallet. */
  lemma ListingOfOrder(h: Holdings, keys: seq<string>, listing: seq<Field>)
    requires Enumerates(keys, h) && |keys| == |h| && |listing| == |keys|
    requires forall j :: 0 <= j < |keys| ==> listing[j] == Field(keys[j], MoneyJson(h[keys[j]]))
    ensures ListsWallet(listing, h)
  {
    assert forall j :: 0 <= j < |listing| ==> listing[j].key == keys[j];
  }

  class MultiMoney {
    var moneys: Holdings

    /** `MultiMoney(*args)`: deposit every Money argument in turn, ignoring anything else. */
    constructor (args: seq<Operand>)
      ensures moneys == Collect(args)
    {
      moneys := map[];
      new;
      var i := 0;
      while i < |args|
        invariant 0 <= i <= |args|
        invariant moneys == Collect(args[..i])
      {
        assert args[..i + 1][..i] == args[..i];
        if args[i].OfMoney? {
          AddMoney(args[i].money);
        }
        i := i + 1;
      }
      assert args[..|args|] == args;
    }

    /** `addMoney`: add `m` into the entry of its code, or file it as a new entry. */
    method AddMoney(m: Money)
      modifies this
      ensures moneys == Deposit(old(moneys), m)
    {
      var code := m.Code();
      if HasCurrency(code) {
        moneys := moneys[code := MoneyValues.Add(moneys[code], OfMoney(m)).value];
      } else {
        moneys := moneys[code := m];
      }
    }

    /** `hasCurrency`: whether there is an entry for `code`. */
    predicate HasCurrency(code: string)
      reads this
    {
      code in moneys
    }

    /** `getCurrencies`: the codes held, each once; `["BTC"]` for a wallet with no entries. */
    method GetCurrencies() returns (codes: seq<string>)
      ensures |moneys| == 0 ==> codes == [DefaultCurrencyCode]
      ensures |moneys| > 0 ==> Enumerates(codes, moneys) && |codes| == |moneys|
    {
      var h := moneys;
      var keys := Order(h);
      codes := [];
      var i := 0;
      while i < |keys|
        invariant 0 <= i <= |keys|
        invariant codes == keys[..i]
      {
        codes := codes + [h[keys[i]].Code()];
        i := i + 1;
      }
      assert codes == keys;
      if |codes| == 0 {
        codes := [DefaultCurrencyCode];
      }
    }

    /**
     * `getMoneys(code)`: the entry for `code`, first filing a zero `Money(currency=code)` when
     * there is none; an unknown currency raises `CurrencyDoesNotExist` and changes nothing.
     * The entry is read back under the code it was filed under (see `Holdings.Fetch`).
     */
    method GetMoneys(code: string, t: Table) returns (r: Result<Money>)
      modifies this
      ensures Fetched(r, moneys) == Fetch(old(moneys), code, t)
    {
      if !HasCurrency(code) {
        var zero := New(0.0, code, t);
        if zero.Failure? {
          return Failure(zero.error);
        }
        AddMoney(zero.value);
        r := Success(moneys[zero.value.Code()]);
      } else {
        r := Success(moneys[code]);
      }
    }

    /** `getMoneys()` with no code: every entry, each once, in iteration order. */
    method AllMoneys() returns (all: seq<Money>)
      ensures |all| == |moneys|
      ensures forall i :: 0 <= i < |all| ==> all[i].Code() in moneys && moneys[all[i].Code()] == all[i]
      ensures forall i, j :: 0 <= i < j < |all| ==> all[i].Code() != all[j].Code()
      ensures forall c :: c in moneys ==> exists i :: 0 <= i < |all| && all[i].Code() == c
    {
      var h := moneys;
      var keys := Order(h);
      all := [];
      var i := 0;
      while i < |keys|
        invariant 0 <= i <= |keys|
        invariant |all| == i
        invariant forall j :: 0 <= j < i ==> all[j] == h[keys[j]]
      {
        all := all + [h[keys[i]]];
        i := i + 1;
      }
    }

    /** `isEmpty`: true when no entry is greater than 0 (so negative wallets count as empty). */
    method IsEmpty() returns (empty: bool)
      ensures empty <==> forall c :: c in moneys ==> moneys[c].Amount() <= 0.0
    {
      var h := moneys;
      var keys := Order(h);
      var i := 0;
      while i < |keys|
        invariant 0 <= i <= |keys|
        invariant forall j :: 0 <= j < i ==> h[keys[j]].Amount() <= 0.0
      {
        var m := h[keys[i]];
        ComparesWithZero(m);
        if MoneyValues.Greater(m, OfNumber(0.0)).value {
          return false;
        }
        i := i + 1;
      }
      return true;
    }

    /** `__copy__`: a new wallet into which every entry is added in turn. */
    method Copy() returns (w: MultiMoney)
      ensures fresh(w)
      ensures w.moneys == moneys
    {
      var h := moneys;
      var keys := Order(h);
      w := new MultiMoney([]);
      SeenBounds(keys, h);
      RestrictBounds(h);
      var i := 0;
      while i < |keys|
        invariant 0 <= i <= |keys|
        invariant fresh(w)
        invariant w.moneys == Restrict(h, Seen(keys, i))
      {
        SeenStep(keys, i);
        RestrictStep(h, Seen(keys, i), keys[i]);
        w.AddMoney(h[keys[i]]);
        i := i + 1;
      }
    }

    /** `+wallet`: a new wallet built from `Money(amount, currency)` of every entry. */
    method Pos() returns (w: MultiMoney)
      ensures fresh(w)
      ensures w.moneys == moneys
    {
      var h := moneys;
      var keys := Order(h);
      var args: seq<Operand> := [];
      SeenBounds(keys, h);
      RestrictBounds(h);
      var i := 0;
      while i < |keys|
        invariant 0 <= i <= |keys|
        invariant Lists(args, Restrict(h, Seen(keys, i)))
      {
        SeenStep(keys, i);
        ListsStep(args, h, Seen(keys, i), keys[i]);
        args := args + [OfMoney(MoneyValues.Pos(h[keys[i]]))];
        i := i + 1;
      }
      CollectListing(args, h);
      w := new MultiMoney(args);
    }

    /** `-wallet`: a new wallet built from the negation of every entry. */
    method Neg() returns (w: MultiMoney)
      ensures fresh(w)
      ensures w.moneys == Negated(moneys)
    {
      var h := moneys;
      var negated := Negated(h);
      var keys := Order(h);
      var args: seq<Operand> := [];
      SeenBounds(keys, h);
      RestrictBounds(negated);
      var i := 0;
      while i < |keys|
        invariant 0 <= i <= |keys|
        invariant Lists(args, Restrict(negated, Seen(keys, i)))
      {
        SeenStep(keys, i);
        ListsStep(args, negated, Seen(keys, i), keys[i]);
        args := args + [OfMoney(MoneyValues.Neg(h[keys[i]]))];
        i := i + 1;
      }
      CollectListing(args, negated);
      w := new MultiMoney(args);
    }

    /**
     * `wallet + other`: a copy of this wallet with every entry of a wallet operand, or a Money
     * operand, added into it. This wallet is unchanged; anything else raises `TypeError`.
     */
    method Add(other: WalletOperand) returns (r: Result<MultiMoney>)
      ensures r.Success? <==> other.WalletArg? || other.MoneyArg?
      ensures r.Failure? ==> r.error == TypeError
      ensures r.Success? ==> fresh(r.value)
      ensures r.Success? && other.WalletArg? ==> r.value.moneys == Merged(moneys, other.holdings)
      ensures r.Success? && other.MoneyArg? ==> r.value.moneys == Deposit(moneys, other.money)
    {
      var h := moneys;
      var sum := Copy();
      match other
      case WalletArg(b) =>
        var keys := Order(b);
        SeenBounds(keys, b);
        RestrictBounds(b);
        MergedNothing(h);
        var i := 0;
        while i < |keys|
          invariant 0 <= i <= |keys|
          invariant fresh(sum)
          invariant sum.moneys == Merged(h, Restrict(b, Seen(keys, i)))
        {
          SeenStep(keys, i);
          MergeStep(h, b, Seen(keys, i), keys[i]);
          sum.AddMoney(b[keys[i]]);
          i := i + 1;
        }
        r := Success(sum);
      case MoneyArg(m) =>
        sum.AddMoney(m);
        r := Success(sum);
      case _ =>
        r := Failure(TypeError);
    }

    /** `wallet - other`: `wallet + (-other)`; a number or anything else raises `TypeError`. */
    method Sub(other: WalletOperand) returns (r: Result<MultiMoney>)
      ensures r.Success? <==> other.WalletArg? || other.MoneyArg?
      ensures r.Failure? ==> r.error == TypeError
      ensures r.Success? ==> fresh(r.value)
      ensures r.Success? && other.WalletArg? ==>
                r.value.moneys == Merged(moneys, Negated(other.holdings))
      ensures r.Success? && other.MoneyArg? ==>
                r.value.moneys == Deposit(moneys, MoneyValues.Neg(other.money))
    {
      match other
      case WalletArg(b) =>
        var operand := new MultiMoney([]);
        operand.moneys := b;
        var negative := operand.Neg();
        r := Add(WalletArg(negative.moneys));
      case MoneyArg(m) =>
        r := Add(MoneyArg(MoneyValues.Neg(m)));
      case NumberArg(x) =>
        r := Add(NumberArg(-x));
      case OtherArg =>
        r := Failure(TypeError);
    }

    /**
     * `wallet * other` (`__mul__`), on a copy of the wallet. A number multiplies every entry,
     * quantized in its currency. A Money multiplies the entry of its currency, or files a
     * zero for that code when there is none. A wallet does the latter for each of its entries
     * in turn, after which the method iterates over the copy itself, which a MultiMoney does
     * not support, and raises `TypeError`. Anything else raises `TypeError`.
     */
    method Mul(other: WalletOperand, t: Table) returns (r: Result<MultiMoney>)
      ensures other.NumberArg? ==>
                r.Success? && fresh(r.value) && r.value.moneys == Scaled(moneys, other.number)
      ensures other.MoneyArg? ==> (r.Success? <==> MoneyProduct(moneys, other.money, t).Success?)
      ensures other.MoneyArg? && r.Failure? ==> r.error == MoneyProduct(moneys, other.money, t).error
      ensures other.MoneyArg? && r.Success? ==>
                fresh(r.value) && r.value.moneys == MoneyProduct(moneys, other.money, t).value
      ensures other.WalletArg? ==> r.Failure? && (r.error == TypeError || r.error.CurrencyDoesNotExist?)
      ensures other.WalletArg? && (forall c :: c in other.holdings ==> c in moneys || Upper(c) in t) ==>
                r == Failure(TypeError)
      ensures other.OtherArg? ==> r == Failure(TypeError)
    {
      var h := moneys;
      var product := Pos();
      match other
      case OtherArg =>
        return Failure(TypeError);
      case MoneyArg(m) =>
        var step := MoneyProduct(h, m, t);
        if step.Failure? {
          return Failure(step.error);
        }
        product.moneys := step.value;
        return Success(product);
      case WalletArg(b) =>
        var keys := Order(b);
        var i := 0;
        while i < |keys|
          invariant 0 <= i <= |keys|
          invariant fresh(product)
          invariant h.Keys <= product.moneys.Keys
        {
          var step := MoneyProduct(product.moneys, b[keys[i]], t);
          if step.Failure? {
            return Failure(step.error);
          }
          product.moneys := step.value;
          i := i + 1;
        }
        return Failure(TypeError);
      case NumberArg(x) =>
        var target := Scaled(h, x);
        var keys := Order(h);
        SeenBounds(keys, h);
        PartlyBounds(h, target);
        var i := 0;
        while i < |keys|
          invariant 0 <= i <= |keys|
          invariant fresh(product)
          invariant product.moneys == Partly(h, target, Seen(keys, i))
        {
          var k := keys[i];
          var m := MoneyValues.Mul(h[k], OfNumber(x)).value;
          assert m == target[k];
          SeenStep(keys, i);
          PartlyStep(h, target, Seen(keys, i), k);
          product.moneys := product.moneys[k := m];
          i := i + 1;
        }
        return Success(product);
    }

    /**
     * `wallet / other` (`__div__`), on a copy of the wallet. A number divides every entry, a
     * zero divisor raising the division error. A Money divides the entry of its currency, or
     * files a zero for that code when there is none. A wallet does the latter for each of its
     * entries in turn; the method then reads the currency of each key of the copy, which is
     * text and has none, so it raises `AttributeError` unless both wallets were empty.
     * Anything else raises `TypeError`.
     */
    method Div(other: WalletOperand, t: Table) returns (r: Result<MultiMoney>)
      ensures other.NumberArg? ==> (r.Success? <==> Divided(moneys, other.number).Success?)
      ensures other.NumberArg? && r.Failure? ==> r.error == Divided(moneys, other.number).error
      ensures other.NumberArg? && r.Success? ==>
                fresh(r.value) && r.value.moneys == Divided(moneys, other.number).value
      ensures other.MoneyArg? ==> (r.Success? <==> MoneyQuotient(moneys, other.money, t).Success?)
      ensures other.MoneyArg? && r.Failure? ==> r.error == MoneyQuotient(moneys, other.money, t).error
      ensures other.MoneyArg? && r.Success? ==>
                fresh(r.value) && r.value.moneys == MoneyQuotient(moneys, other.money, t).value
      ensures other.WalletArg? ==> (r.Success? <==> |moneys| == 0 && |other.holdings| == 0)
      ensures other.WalletArg? && r.Success? ==> fresh(r.value) && r.value.moneys == map[]
      ensures other.WalletArg? && r.Failure? ==>
                r.error == AttributeError || r.error == DecimalException || r.error.CurrencyDoesNotExist?
      ensures other.OtherArg? ==> r == Failure(TypeError)
    {
      match other
      case OtherArg =>
        return Failure(TypeError);
      case MoneyArg(m) =>
        var quotient := Pos();
        var step := MoneyQuotient(moneys, m, t);
        if step.Failure? {
          return Failure(step.error);
        }
        quotient.moneys := step.value;
        return Success(quotient);
      case WalletArg(b) =>
        r := DivByWallet(b, t);
      case NumberArg(x) =>
        r := DivByNumber(x);
    }

    /** `wallet / other` for a wallet operand `b`. */
    method DivByWallet(b: Holdings, t: Table) returns (r: Result<MultiMoney>)
      ensures r.Success? <==> |moneys| == 0 && |b| == 0
      ensures r.Success? ==> fresh(r.value) && r.value.moneys == map[]
      ensures r.Failure? ==>
                r.error == AttributeError || r.error == DecimalException || r.error.CurrencyDoesNotExist?
    {
      var h := moneys;
      var quotient := Pos();
      var keys := Order(b);
      var i := 0;
      while i < |keys|
        invariant 0 <= i <= |keys|
        invariant fresh(quotient)
        invariant h.Keys <= quotient.moneys.Keys
        invariant i == 0 ==> quotient.moneys == h
        invariant i > 0 ==> quotient.moneys != map[]
      {
        var step := MoneyQuotient(quotient.moneys, b[keys[i]], t);
        if step.Failure? {
          return Failure(step.error);
        }
        quotient.moneys := step.value;
        i := i + 1;
      }
      if quotient.moneys != map[] {
        return Failure(AttributeError);
      }
      return Success(quotient);
    }

    /** `wallet / other` for a number `x`. */
    method DivByNumber(x: real) returns (r: Result<MultiMoney>)
      ensures r.Success? <==> Divided(moneys, x).Success?
      ensures r.Failure? ==> r.error == Divided(moneys, x).error
      ensures r.Success? ==> fresh(r.value) && r.value.moneys == Divided(moneys, x).value
    {
      if x == 0.0 {
        var quotient := Pos();
        var keys := Order(moneys);
        // The loop's first division raises; a wallet with no entries divides nothing.
        if |keys| > 0 {
          var q := MoneyValues.Div(moneys[keys[0]], OfNumber(x));
          return Failure(q.error);
        }
        return Success(quotient);
      }
      var quotient := DivEntries(x);
      r := Success(quotient);
    }

    /** The loop of `wallet / x` for a non-zero number `x`: every entry divided in turn. */
    method DivEntries(x: real) returns (quotient: MultiMoney)
      requires x != 0.0
      ensures fresh(quotient) && quotient.moneys == Divided(moneys, x).value
    {
      var h := moneys;
      quotient := Pos();
      var keys := Order(h);
      var target := Divided(h, x).value;
      SeenBounds(keys, h);
      PartlyBounds(h, target);
      var i := 0;
      while i < |keys|
        invariant 0 <= i <= |keys|
        invariant fresh(quotient)
        invariant quotient.moneys == Partly(h, target, Seen(keys, i))
      {
        var k := keys[i];
        var q := MoneyValues.Div(h[k], OfNumber(x)).value;
        assert q == target[k];
        SeenStep(keys, i);
        PartlyStep(h, target, Seen(keys, i), k);
        quotient.moneys := quotient.moneys[k := q];
        i := i + 1;
      }
    }

    /** `wallet == other` (`__eq__`). */
    method Equals(other: WalletOperand, t: Table) returns (r: Result<bool>)
      ensures r == EqualsSpec(moneys, other, t)
    {
      match other
      case WalletArg(b) =>
        var same := SameAs(moneys, b);
        r := Success(same);
      case MoneyArg(m) =>
        var single := new MultiMoney([OfMoney(m)]);
        var same := SameAs(moneys, single.moneys);
        r := Success(same);
      case NumberArg(x) =>
        assert Upper(DefaultCurrencyCode) == DefaultCurrencyCode;
        var m := New(x, DefaultCurrencyCode, t);
        if m.Failure? {
          return Failure(m.error);
        }
        var single := new MultiMoney([OfMoney(m.value)]);
        var same := SameAs(moneys, single.moneys);
        r := Success(same);
      case OtherArg =>
        r := Failure(TypeError);
    }

    /** `wallet != other`: `not wallet == other`. */
    method NotEquals(other: WalletOperand, t: Table) returns (r: Result<bool>)
      ensures r == NotEqualsSpec(moneys, other, t)
    {
      var eq := Equals(other, t);
      if eq.Failure? {
        return Failure(eq.error);
      }
      r := Success(!eq.value);
    }

    /** Every entry is below `x` (`for`-loop of `__lt__` against a number). */
    method AllBelow(x: real) returns (below: bool)
      ensures below <==> forall c :: c in moneys ==> moneys[c].Amount() < x
    {
      var h := moneys;
      var keys := Order(h);
      var i := 0;
      while i < |keys|
        invariant 0 <= i <= |keys|
        invariant forall j :: 0 <= j < i ==> h[keys[j]].Amount() < x
      {
        if h[keys[i]].Amount() >= x {
          return false;
        }
        i := i + 1;
      }
      return true;
    }

    /** Every entry is above `x` (`for`-loop of `__gt__` against a number). */
    method AllAbove(x: real) returns (above: bool)
      ensures above <==> forall c :: c in moneys ==> moneys[c].Amount() > x
    {
      var h := moneys;
      var keys := Order(h);
      var i := 0;
      while i < |keys|
        invariant 0 <= i <= |keys|
        invariant forall j :: 0 <= j < i ==> h[keys[j]].Amount() > x
      {
        if h[keys[i]].Amount() <= x {
          return false;
        }
        i := i + 1;
      }
      return true;
    }

    /** `wallet < other` (`__lt__`). */
    method Less(other: WalletOperand) returns (r: Result<bool>)
      ensures r == LessSpec(moneys, other)
    {
      match other
      case WalletArg(b) =>
        var eq := SameAs(moneys, b);
        if eq {
          return Success(false);
        }
        var below := DominatedBy(moneys, b);
        r := Success(below);
      case MoneyArg(m) =>
        if HasCurrency(m.Code()) {
          r := MoneyValues.Less(moneys[m.Code()], OfMoney(m));
        } else {
          ComparesWithZero(m);
          r := Success(!MoneyValues.Less(m, OfNumber(0.0)).value);
        }
      case NumberArg(x) =>
        var below := AllBelow(x);
        r := Success(below);
      case OtherArg =>
        r := Failure(TypeError);
    }

    /** `wallet > other` (`__gt__`). */
    method Greater(other: WalletOperand) returns (r: Result<bool>)
      ensures r == GreaterSpec(moneys, other)
    {
      match other
      case WalletArg(b) =>
        var eq := SameAs(moneys, b);
        if eq {
          return Success(false);
        }
        var above := Dominates(moneys, b);
        r := Success(above);
      case MoneyArg(m) =>
        if HasCurrency(m.Code()) {
          r := MoneyValues.Greater(moneys[m.Code()], OfMoney(m));
        } else {
          ComparesWithZero(m);
          r := Success(!MoneyValues.Greater(m, OfNumber(0.0)).value);
        }
      case NumberArg(x) =>
        var above := AllAbove(x);
        r := Success(above);
      case OtherArg =>
        r := Failure(TypeError);
    }

    /** `wallet <= other`: `wallet < other or wallet == other`. */
    method LessEq(other: WalletOperand, t: Table) returns (r: Result<bool>)
      ensures r == LessEqSpec(moneys, other, t)
    {
      var lt := Less(other);
      if lt.Failure? {
        return Failure(lt.error);
      }
      if lt.value {
        return Success(true);
      }
      r := Equals(other, t);
    }

    /** `wallet >= other`: `wallet > other or wallet == other`. */
    method GreaterEq(other: WalletOperand, t: Table) returns (r: Result<bool>)
      ensures r == GreaterEqSpec(moneys, other, t)
    {
      var gt := Greater(other);
      if gt.Failure? {
        return Failure(gt.error);
      }
      if gt.value {
        return Success(true);
      }
      r := Equals(other, t);
    }

    /** `prep_json`: `{'mm': True}` and, under each code, that entry's `prep_json`. */
    method PrepJson() returns (d: Doc)
      ensures EncodesWallet(d, moneys)
    {
      var copy := Copy();
      var listing := Listing(copy.moneys);
      d := Dict([Field("mm", Bool(true))] + listing);
      assert d.fields[1..] == listing;
    }
  }
}
