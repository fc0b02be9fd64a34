/**
 * The contents of a `MultiMoney` wallet as a value: a map from currency code to the Money
 * held in that currency, and the functions that say what the wallet operations compute.
 * A code that is not in the map is read as an amount of zero.
 */
module Holdings {
  import opened Decimals
  import opened Outcomes
  import opened Currencies
  import opened MoneyValues

  /** Every entry is filed under its own currency code. */
  predicate Keyed(h: map<string, Money>) {
    forall c :: c in h ==> h[c].Code() == c
  }

  type Holdings = h: map<string, Money> | Keyed(h) witness map[]

  /** The amount held in currency `c`, zero when there is no entry. */
  function AmountIn(h: Holdings, c: string): real {
    if c in h then h[c].Amount() else 0.0
  }

  /** `m` can be added to `h` exactly: an entry of its code, if any, has its places. */
  predicate Compatible(h: Holdings, m: Money) {
    m.Code() in h ==> h[m.Code()].Digits() == m.Digits()
  }

  /** Entries of the same code in `a` and `b` have the same places. */
  predicate Aligned(a: Holdings, b: Holdings) {
    forall c :: c in a && c in b ==> a[c].Digits() == b[c].Digits()
  }

  /**
   * `addMoney`: add into the entry of `m`'s code, in that entry's currency, or file `m` as a
   * new entry. All other entries are unchanged.
   */
  function Deposit(h: Holdings, m: Money): (r: Holdings)
    ensures r.Keys == h.Keys + {m.Code()}
    ensures forall c :: c in h && c != m.Code() ==> r[c] == h[c]
    ensures r[m.Code()].currency == if m.Code() in h then h[m.Code()].currency else m.currency
    ensures r[m.Code()].Amount() ==
              Quantize(AmountIn(h, m.Code()) + m.Amount(), r[m.Code()].Digits())
    ensures m.Code() !in h ==> r == h[m.Code() := m]
  {
    var c := m.Code();
    if c in h then
      h[c := Add(h[c], OfMoney(m)).value]
    else
      assert 0.0 + m.Amount() == FromUnits(m.units, m.Digits());
      QuantizeUnits(m.units, m.Digits());
      h[c := m]
  }

  /** Depositing a compatible Money adds its amount to its code and to nothing else. */
  lemma {:induction false} DepositAdds(h: Holdings, m: Money)
    requires Compatible(h, m)
    ensures forall c :: AmountIn(Deposit(h, m), c) ==
                          AmountIn(h, c) + (if c == m.Code() then m.Amount() else 0.0)
  {
    var c := m.Code();
    if c in h {
      AddExact(h[c], m);
    }
  }

  /**
   * `MultiMoney(*args)`: the Money arguments deposited one after another, in order; every
   * other argument is ignored.
   */
  function Collect(args: seq<Operand>): (r: Holdings)
    ensures r.Keys == set i | 0 <= i < |args| && args[i].OfMoney? :: args[i].money.Code()
  {
    if |args| == 0 then map[]
    else
      var h := Collect(args[..|args| - 1]);
      var last := args[|args| - 1];
      assert forall i :: 0 <= i < |args| - 1 ==> args[..|args| - 1][i] == args[i];
      if last.OfMoney? then Deposit(h, last.money) else h
  }

  /** The sum of the amounts of the Money arguments of code `c`. */
  function Total(args: seq<Operand>, c: string): real {
    if |args| == 0 then 0.0
    else
      var last := args[|args| - 1];
      Total(args[..|args| - 1], c) + (if last.OfMoney? && last.money.Code() == c then last.money.Amount() else 0.0)
  }

  /** All Money arguments of one code have the same places. */
  predicate UniformDigits(args: seq<Operand>) {
    forall i, j ::
      (0 <= i < |args| && 0 <= j < |args| && args[i].OfMoney? && args[j].OfMoney? &&
       args[i].money.Code() == args[j].money.Code()) ==>
        args[i].money.Digits() == args[j].money.Digits()
  }

  /** A wallet built from Moneys holds, in each currency, the sum of the arguments in it. */
  lemma {:induction false} CollectTotals(args: seq<Operand>)
    requires UniformDigits(args)
    ensures forall c :: AmountIn(Collect(args), c) == Total(args, c)
    decreases |args|
  {
    if |args| > 0 {
      var front := args[..|args| - 1];
      var last := args[|args| - 1];
      assert forall i :: 0 <= i < |front| ==> front[i] == args[i];
      CollectTotals(front);
      if last.OfMoney? {
        var h := Collect(front);
        var c := last.money.Code();
        if c in h {
          var i :| 0 <= i < |front| && front[i].OfMoney? && front[i].money.Code() == c;
          assert h[c].Digits() == front[i].money.Digits() by {
            CollectDigits(front, c);
          }
        }
        DepositAdds(h, last.money);
      }
    }
  }

  /** Each entry of a collected wallet has the places of some Money argument of its code. */
  lemma {:induction false} CollectDigits(args: seq<Operand>, c: string)
    requires c in Collect(args)
    ensures exists i :: 0 <= i < |args| && args[i].OfMoney? && args[i].money.Code() == c &&
                        args[i].money.Digits() == Collect(args)[c].Digits()
    decreases |args|
  {
    var front := args[..|args| - 1];
    var last := args[|args| - 1];
    assert forall i :: 0 <= i < |front| ==> front[i] == args[i];
    var h := Collect(front);
    if c in h && !(last.OfMoney? && last.money.Code() == c) {
      CollectDigits(front, c);
    } else if c in h {
      CollectDigits(front, c);
    } else {
      assert last.OfMoney? && last.money.Code() == c;
      assert args[|args| - 1] == last;
    }
  }

  /** `args` are the entries of `h`, each exactly once, in some order. */
  predicate Lists(args: seq<Operand>, h: Holdings) {
    (forall i :: 0 <= i < |args| ==> args[i].OfMoney?) &&
    (forall i, j :: 0 <= i < j < |args| ==> args[i].money.Code() != args[j].money.Code()) &&
    h.Keys == (set i | 0 <= i < |args| && args[i].OfMoney? :: args[i].money.Code()) &&
    (forall i :: 0 <= i < |args| ==> h[args[i].money.Code()] == args[i].money)
  }

  /** Moneys of distinct codes are each filed under their code, untouched. */
  lemma {:induction false} CollectDistinct(args: seq<Operand>)
    requires forall i :: 0 <= i < |args| ==> args[i].OfMoney?
    requires forall i, j :: 0 <= i < j < |args| ==> args[i].money.Code() != args[j].money.Code()
    ensures forall i :: 0 <= i < |args| ==> Collect(args)[args[i].money.Code()] == args[i].money
    decreases |args|
  {
    if |args| > 0 {
      var front := args[..|args| - 1];
      var last := args[|args| - 1].money;
      assert forall i :: 0 <= i < |front| ==> front[i] == args[i];
      CollectDistinct(front);
      var h := Collect(front);
      assert last.Code() !in h;
      var r := h[last.Code() := last];
      assert Collect(args) == r;
      forall i | 0 <= i < |args|
        ensures r[args[i].money.Code()] == args[i].money
      {
        if i < |front| {
          assert front[i] == args[i];
          assert h[front[i].money.Code()] == front[i].money;
        }
      }
    }
  }

  /** Building a wallet from a listing of `h` gives `h`, whatever the order of the listing. */
  lemma {:induction false} CollectListing(args: seq<Operand>, h: Holdings)
    requires Lists(args, h)
    ensures Collect(args) == h
  {
    CollectDistinct(args);
    var r := Collect(args);
    assert r.Keys == h.Keys;
    forall c | c in h
      ensures r[c] == h[c]
    {
      var i :| 0 <= i < |args| && args[i].OfMoney? && args[i].money.Code() == c;
    }
  }

  /** Listing one more entry of `h`. */
  lemma ListsStep(args: seq<Operand>, h: Holdings, done: set<string>, k: string)
    requires Lists(args, Restrict(h, done)) && k in h && k !in done
    ensures Lists(args + [OfMoney(h[k])], Restrict(h, done + {k}))
  {
    var args' := args + [OfMoney(h[k])];
    var r0, r1 := Restrict(h, done), Restrict(h, done + {k});
    assert forall i :: 0 <= i < |args| ==> args'[i] == args[i];
    assert args'[|args|].money.Code() == k;
    assert forall i :: 0 <= i < |args'| ==> args'[i].OfMoney?;
    assert forall i, j :: 0 <= i < j < |args'| ==> args'[i].money.Code() != args'[j].money.Code() by {
      assert forall i :: 0 <= i < |args| ==> args[i].money.Code() in r0;
    }
    ListedCodesStep(args, h[k]);
    assert r1.Keys == r0.Keys + {k};
    assert forall i :: 0 <= i < |args'| ==> r1[args'[i].money.Code()] == args'[i].money;
  }

  /** The codes of a listing with one more Money: those before and the new one. */
  lemma ListedCodesStep(args: seq<Operand>, m: Money)
    ensures (set i | 0 <= i < |args + [OfMoney(m)]| && (args + [OfMoney(m)])[i].OfMoney? ::
               (args + [OfMoney(m)])[i].money.Code()) ==
            (set i | 0 <= i < |args| && args[i].OfMoney? :: args[i].money.Code()) + {m.Code()}
  {
    var args' := args + [OfMoney(m)];
    var s0 := set i | 0 <= i < |args| && args[i].OfMoney? :: args[i].money.Code();
    var s1 := set i | 0 <= i < |args'| && args'[i].OfMoney? :: args'[i].money.Code();
    assert args'[|args|] == OfMoney(m);
    forall c | c in s1 ensures c in s0 + {m.Code()} {
      var i :| 0 <= i < |args'| && args'[i].OfMoney? && args'[i].money.Code() == c;
      if i < |args| {
        assert args'[i] == args[i];
      }
    }
    forall c | c in s0 + {m.Code()} ensures c in s1 {
      if c != m.Code() {
        var i :| 0 <= i < |args| && args[i].OfMoney? && args[i].money.Code() == c;
        assert args'[i] == args[i];
      }
    }
  }

  /** `keys` names every code of `h` exactly once, in some order: an iteration order of `h`. */
  predicate Enumerates(keys: seq<string>, h: Holdings) {
    (forall i, j :: 0 <= i < j < |keys| ==> keys[i] != keys[j]) &&
    (forall i :: 0 <= i < |keys| ==> keys[i] in h) &&
    (forall c :: c in h ==> c in keys)
  }

  /** The codes among the first `i` of an iteration order: those a loop has visited. */
  function Seen(keys: seq<string>, i: nat): (s: set<string>)
    requires i <= |keys|
    ensures forall j :: 0 <= j < i ==> keys[j] in s
  {
    set j | 0 <= j < i :: keys[j]
  }

  /** Visiting the next code of an iteration order adds a code not yet visited. */
  lemma SeenStep(keys: seq<string>, i: nat)
    requires i < |keys|
    requires forall a, b :: 0 <= a < b < |keys| ==> keys[a] != keys[b]
    ensures keys[i] !in Seen(keys, i)
    ensures Seen(keys, i + 1) == Seen(keys, i) + {keys[i]}
  {
  }

  /** Before the loop nothing is visited; after it every code is. */
  lemma SeenBounds(keys: seq<string>, h: Holdings)
    requires Enumerates(keys, h)
    ensures Seen(keys, 0) == {}
    ensures Seen(keys, |keys|) == h.Keys
  {
  }

  /** Depositing an entry of `h` not yet copied extends a partial copy of `h` by that entry. */
  lemma RestrictStep(h: Holdings, done: set<string>, k: string)
    requires k in h && k !in done
    ensures Deposit(Restrict(h, done), h[k]) == Restrict(h, done + {k})
  {
  }

  /** Restricting to every code keeps everything; restricting to no code keeps nothing. */
  lemma RestrictBounds(h: Holdings)
    ensures Restrict(h, h.Keys) == h
    ensures Restrict(h, {}) == map[]
  {
  }

  /** Merging nothing into a wallet leaves it as it is. */
  lemma MergedNothing(a: Holdings)
    ensures Merged(a, map[]) == a
  {
  }

  /** The one-entry wallet `MultiMoney(m)`. */
  function Single(m: Money): (r: Holdings)
    ensures r == Collect([OfMoney(m)])
    ensures forall c :: AmountIn(r, c) == if c == m.Code() then m.Amount() else 0.0
  {
    assert [OfMoney(m)][..0] == [];
    map[m.Code() := m]
  }

  /** `-wallet`: every entry negated. */
  function Negated(h: Holdings): (r: Holdings)
    ensures r.Keys == h.Keys
    ensures forall c :: c in h ==> r[c] == Neg(h[c]) && r[c].currency == h[c].currency
    ensures forall c :: AmountIn(r, c) == -AmountIn(h, c)
  {
    map c | c in h :: Neg(h[c])
  }

  /** The entry of code `c` once `b` is merged into `a`. */
  function MergedEntry(a: Holdings, b: Holdings, c: string): (m: Money)
    requires c in a || c in b
    ensures m.Code() == c
  {
    if c in a && c in b then Add(a[c], OfMoney(b[c])).value
    else if c in a then a[c]
    else b[c]
  }

  /**
   * `a + b` for wallets: every entry of `b` deposited into a copy of `a`. A code held by both
   * sums in `a`'s currency.
   */
  function Merged(a: Holdings, b: Holdings): (r: Holdings)
    ensures r.Keys == a.Keys + b.Keys
    ensures forall c :: c in r ==> r[c] == MergedEntry(a, b, c)
    ensures forall c :: c in a && c !in b ==> r[c] == a[c]
    ensures forall c :: c in b && c !in a ==> r[c] == b[c]
    ensures forall c :: c in a && c in b ==>
              r[c].currency == a[c].currency &&
              r[c].Amount() == Quantize(a[c].Amount() + b[c].Amount(), a[c].Digits())
  {
    map c | c in a.Keys + b.Keys :: MergedEntry(a, b, c)
  }

  /** Merging aligned wallets adds their amounts code by code. */
  lemma {:induction false} MergedAdds(a: Holdings, b: Holdings)
    requires Aligned(a, b)
    ensures forall c :: AmountIn(Merged(a, b), c) == AmountIn(a, c) + AmountIn(b, c)
  {
    forall c | c in a && c in b
      ensures AmountIn(Merged(a, b), c) == AmountIn(a, c) + AmountIn(b, c)
    {
      AddExact(a[c], b[c]);
    }
  }

  /** The Merged entries of the codes in `keys` of `b`: what a partial loop over `b` has added. */
  function Restrict(b: Holdings, keys: set<string>): (r: Holdings)
    ensures r.Keys == b.Keys * keys
    ensures forall c :: c in r ==> r[c] == b[c]
  {
    map c | c in b.Keys * keys :: b[c]
  }

  /** Depositing one more entry of `b` extends a partial merge by that entry. */
  lemma {:induction false} MergeStep(a: Holdings, b: Holdings, done: set<string>, k: string)
    requires k in b && k !in done
    ensures Deposit(Merged(a, Restrict(b, done)), b[k]) == Merged(a, Restrict(b, done + {k}))
  {
    var after := Deposit(Merged(a, Restrict(b, done)), b[k]);
    var target := Merged(a, Restrict(b, done + {k}));
    forall c | c in target
      ensures c in after && after[c] == target[c]
    {
      MergeStepAt(a, b, done, k, c);
    }
    MergeStepKeys(a, b, done, k);
    SameEntries(after, target);
  }

  /** MergeStep on the codes alone. */
  lemma MergeStepKeys(a: Holdings, b: Holdings, done: set<string>, k: string)
    requires k in b
    ensures Deposit(Merged(a, Restrict(b, done)), b[k]).Keys == Merged(a, Restrict(b, done + {k})).Keys
  {
  }

  /** Two wallets with the same codes and the same entry under each code are equal. */
  lemma SameEntries(x: Holdings, y: Holdings)
    requires x.Keys <= y.Keys
    requires forall c :: c in y ==> c in x && x[c] == y[c]
    ensures x == y
  {
  }

  /** MergeStep, one code at a time. */
  lemma {:induction false} MergeStepAt(a: Holdings, b: Holdings, done: set<string>, k: string, c: string)
    requires k in b && k !in done && c in Merged(a, Restrict(b, done + {k}))
    ensures c in Deposit(Merged(a, Restrict(b, done)), b[k])
    ensures Deposit(Merged(a, Restrict(b, done)), b[k])[c] == Merged(a, Restrict(b, done + {k}))[c]
  {
    var r0, r1 := Restrict(b, done), Restrict(b, done + {k});
    var before := Merged(a, r0);
    if c == k {
      assert k !in r0 && k in r1 && r1[k] == b[k];
      if k in a {
        assert before[k] == a[k];
      }
    } else {
      assert (c in r0 <==> c in r1) && (c in r0 ==> r0[c] == r1[c]);
      assert MergedEntry(a, r0, c) == MergedEntry(a, r1, c);
    }
  }

  /** `wallet * x` for a number: every entry multiplied, quantized in its currency. */
  function Scaled(h: Holdings, x: real): (r: Holdings)
    ensures r.Keys == h.Keys
    ensures forall c :: c in h ==> r[c] == Times(h[c], x)
  {
    map c | c in h :: Times(h[c], x)
  }

  /**
   * `wallet / x` for a number: every entry divided; a zero divisor raises the division error
   * as soon as there is an entry to divide.
   */
  function Divided(h: Holdings, x: real): (r: Result<Holdings>)
    ensures r.Failure? <==> x == 0.0 && |h| > 0
    ensures r.Failure? ==> r.error == DecimalException
    ensures r.Success? ==> r.value.Keys == h.Keys
    ensures r.Success? && x != 0.0 ==> forall c :: c in h ==> r.value[c] == Quotient(h[c], x)
  {
    if x == 0.0 then
      if |h| == 0 then Success(h) else Failure(DecimalException)
    else
      Success(map c | c in h :: Quotient(h[c], x))
  }

  /**
   * `h` with the entries of the codes in `done` already replaced by those of `target`: what
   * a loop that rewrites a wallet's entries one at a time has produced so far.
   */
  function Partly(h: Holdings, target: Holdings, done: set<string>): (r: Holdings)
    requires target.Keys == h.Keys
    ensures r.Keys == h.Keys
    ensures forall c :: c in h && c in done ==> r[c] == target[c]
    ensures forall c :: c in h && c !in done ==> r[c] == h[c]
  {
    map c | c in h :: if c in done then target[c] else h[c]
  }

  /** Rewriting one more entry. */
  lemma PartlyStep(h: Holdings, target: Holdings, done: set<string>, k: string)
    requires target.Keys == h.Keys && k in h
    ensures Partly(h, target, done)[k := target[k]] == Partly(h, target, done + {k})
  {
  }

  /** Rewriting no entry changes nothing; rewriting every entry gives the target. */
  lemma PartlyBounds(h: Holdings, target: Holdings)
    requires target.Keys == h.Keys
    ensures Partly(h, target, {}) == h
    ensures Partly(h, target, h.Keys) == target
  {
  }

  /** Multiplying a wallet by a whole non-zero number and dividing again gives it back. */
  lemma {:induction false} DividedUndoesScaled(h: Holdings, k: int)
    requires k != 0
    ensures Divided(Scaled(h, k as real), k as real) == Success(h)
  {
    var x := k as real;
    var s := Scaled(h, x);
    var r: map<string, Money> := map c | c in s :: Quotient(s[c], x);
    forall c | c in h
      ensures r[c] == h[c]
    {
      DivUndoesMul(h[c], k);
    }
    assert r == h;
  }

  /**
   * `Money(amount=0, currency=code)` filed in the wallet under its currency's code, or the
   * failure of looking that code up. No amount changes.
   */
  function ZeroFiled(h: Holdings, code: string, t: Table): (r: Result<Holdings>)
    ensures r.Success? <==> Upper(code) in t
    ensures r.Failure? ==> r.error == CurrencyDoesNotExist(Upper(code))
    ensures r.Success? ==> r.value.Keys == h.Keys + {t[Upper(code)].code}
    ensures r.Success? ==> forall c :: AmountIn(r.value, c) == AmountIn(h, c)
  {
    match New(0.0, code, t)
    case Failure(e) => Failure(e)
    case Success(zero) =>
      QuantizeZero(t[Upper(code)].significantDigits);
      DepositZero(h, zero);
      Success(Deposit(h, zero))
  }

  /**
   * `wallet * m` for a Money `m`: the entry in m's currency multiplied by m's amount, as
   * `Money * Money` computes it; a wallet without that currency gets a zero filed for it.
   * No other currency's amount changes.
   */
  function MoneyProduct(h: Holdings, m: Money, t: Table): (r: Result<Holdings>)
    ensures r.Success? <==> m.Code() in h || Upper(m.Code()) in t
    ensures r.Failure? ==> r.error == CurrencyDoesNotExist(Upper(m.Code()))
    ensures m.Code() in h ==>
              r.Success? && r.value.Keys == h.Keys &&
              r.value[m.Code()] == MoneyValues.Mul(h[m.Code()], OfMoney(m)).value
    ensures r.Success? ==> r.value.Keys >= h.Keys && r.value != map[]
    ensures r.Success? ==> forall c :: c != m.Code() ==> AmountIn(r.value, c) == AmountIn(h, c)
    ensures r.Success? ==>
              AmountIn(r.value, m.Code()) ==
                if m.Code() in h then Quantize(h[m.Code()].Amount() * m.Amount(), h[m.Code()].Digits())
                else 0.0
  {
    var c := m.Code();
    if c in h then
      var held := h[c];
      var p := Times(held, m.Amount());
      var after := h[c := p];
      assert AmountIn(after, c) == p.Amount();
      assert forall d :: d != c ==> AmountIn(after, d) == AmountIn(h, d);
      Success(after)
    else ZeroFiled(h, c, t)
  }

  /**
   * `wallet / m` for a Money `m`: the entry in m's currency divided by m's amount, as
   * `Money / Money` computes it, so a zero divisor raises the division error; a wallet
   * without that currency gets a zero filed for it. No other currency's amount changes.
   */
  function MoneyQuotient(h: Holdings, m: Money, t: Table): (r: Result<Holdings>)
    ensures r.Success? <==>
              (m.Code() in h && m.Amount() != 0.0) || (m.Code() !in h && Upper(m.Code()) in t)
    ensures m.Code() in h && m.Amount() == 0.0 ==> r == Failure(DecimalException)
    ensures m.Code() !in h && Upper(m.Code()) !in t ==>
              r == Failure(CurrencyDoesNotExist(Upper(m.Code())))
    ensures r.Success? && m.Code() in h ==>
              r.value.Keys == h.Keys &&
              r.value[m.Code()] == MoneyValues.Div(h[m.Code()], OfMoney(m)).value
    ensures r.Success? ==> r.value.Keys >= h.Keys && r.value != map[]
    ensures r.Success? ==> forall c :: c != m.Code() ==> AmountIn(r.value, c) == AmountIn(h, c)
    ensures r.Success? ==>
              AmountIn(r.value, m.Code()) ==
                if m.Code() in h then Quantize(h[m.Code()].Amount() / m.Amount(), h[m.Code()].Digits())
                else 0.0
  {
    var c := m.Code();
    if c in h then
      var q :- MoneyValues.Div(h[c], OfMoney(m));
      Success(h[c := q])
    else ZeroFiled(h, c, t)
  }

  /** Zero-default equality: the same amount in every currency, a missing code reading as 0. */
  predicate SameHoldings(a: Holdings, b: Holdings) {
    forall c :: c in a.Keys + b.Keys ==> AmountIn(a, c) == AmountIn(b, c)
  }

  /** `a` is at most `b` in every currency, missing codes reading as 0. */
  predicate Dominated(a: Holdings, b: Holdings) {
    forall c :: c in a.Keys + b.Keys ==> AmountIn(a, c) <= AmountIn(b, c)
  }

  /** The strict component-wise order of wallets: `a < b` for MultiMoney operands. */
  predicate Below(a: Holdings, b: Holdings) {
    !SameHoldings(a, b) && Dominated(a, b)
  }

  /** `a > b` for MultiMoney operands. */
  predicate Above(a: Holdings, b: Holdings) {
    !SameHoldings(a, b) && Dominated(b, a)
  }

  /** Restricting to the codes present loses nothing: both relations hold for every code. */
  lemma AllCodes(a: Holdings, b: Holdings)
    ensures SameHoldings(a, b) <==> forall c :: AmountIn(a, c) == AmountIn(b, c)
    ensures Dominated(a, b) <==> forall c :: AmountIn(a, c) <= AmountIn(b, c)
  {
  }

  /**
   * Dominance checked in two passes: over the codes of `b`, and over the codes only `a` holds,
   * which must not be positive.
   */
  lemma DominatedSplit(a: Holdings, b: Holdings)
    ensures Dominated(a, b) <==>
              (forall c :: c in b ==> AmountIn(a, c) <= AmountIn(b, c)) &&
              (forall c :: c in a && c !in b ==> a[c].Amount() <= 0.0)
  {
    AllCodes(a, b);
    assert forall c :: c in a && c !in b ==> AmountIn(a, c) == a[c].Amount() && AmountIn(b, c) == 0.0;
  }

  /** Zero-default equality is an equivalence relation. */
  lemma {:induction false} SameHoldingsEquivalence(a: Holdings, b: Holdings, c: Holdings)
    ensures SameHoldings(a, a)
    ensures SameHoldings(a, b) ==> SameHoldings(b, a)
    ensures SameHoldings(a, b) && SameHoldings(b, c) ==> SameHoldings(a, c)
  {
    AllCodes(a, b);
    AllCodes(b, c);
    AllCodes(a, c);
  }

  /** Dominance both ways is zero-default equality. */
  lemma {:induction false} DominatedAntisymmetric(a: Holdings, b: Holdings)
    ensures Dominated(a, b) && Dominated(b, a) <==> SameHoldings(a, b)
  {
    AllCodes(a, b);
    AllCodes(b, a);
  }

  /** `<` on wallets is a strict partial order: irreflexive, asymmetric and transitive. */
  lemma {:induction false} BelowStrictPartialOrder(a: Holdings, b: Holdings, c: Holdings)
    ensures !Below(a, a)
    ensures Below(a, b) ==> !Below(b, a)
    ensures Below(a, b) && Below(b, c) ==> Below(a, c)
  {
    SameHoldingsEquivalence(a, b, c);
    DominatedAntisymmetric(a, b);
    AllCodes(a, b);
    AllCodes(b, c);
    AllCodes(a, c);
    if Below(a, b) && Below(b, c) && SameHoldings(a, c) {
      assert false;
    }
  }

  /** `a > b` is exactly `b < a`. */
  lemma AboveIsConverse(a: Holdings, b: Holdings)
    ensures Above(a, b) <==> Below(b, a)
  {
    SameHoldingsEquivalence(a, b, b);
  }

  /** The order is partial: some wallets are neither below, above nor equal to each other. */
  lemma {:induction false} IncomparableWallets()
    ensures var a := map["BTC" := Make(1.0, Bitcoin), "USD" := Make(-1.0, UsDollar)];
            var b := map["BTC" := Make(0.5, Bitcoin)];
            Keyed(a) && Keyed(b) && !SameHoldings(a, b) && !Below(a, b) && !Below(b, a)
  {
    var one := Money(100000000, Bitcoin);
    var half := Money(50000000, Bitcoin);
    var debt := Money(-100000, UsDollar);
    assert Pow10(8) == 100000000 && Pow10(5) == 100000;
    assert one.Amount() == 1.0 && half.Amount() == 0.5 && debt.Amount() == -1.0;
    MakeOwnAmount(one);
    MakeOwnAmount(half);
    MakeOwnAmount(debt);
    var a: Holdings := map["BTC" := one, "USD" := debt];
    var b: Holdings := map["BTC" := half];
    assert AmountIn(a, "BTC") > AmountIn(b, "BTC");
    assert AmountIn(a, "USD") < AmountIn(b, "USD");
  }

  /** The right-hand operand of a wallet operator. */
  datatype WalletOperand =
    | WalletArg(holdings: Holdings)
    | MoneyArg(money: Money)
    | NumberArg(number: real)
    | OtherArg

  /**
   * `wallet == other`: zero-default equality; a Money is compared as a one-entry wallet, a
   * number as a one-entry wallet of `Money(number)` in the currency registered as "BTC";
   * anything else raises `TypeError`.
   */
  function EqualsSpec(h: Holdings, other: WalletOperand, t: Table): (r: Result<bool>)
    ensures other.WalletArg? ==> r == Success(SameHoldings(h, other.holdings))
    ensures other.MoneyArg? ==> r == Success(SameHoldings(h, Single(other.money)))
    ensures other.NumberArg? ==> (r.Success? <==> DefaultCurrencyCode in t)
    ensures other.NumberArg? && r.Success? ==>
              (r.value <==> SameHoldings(h, Single(Make(other.number, t[DefaultCurrencyCode]))))
    ensures other.NumberArg? && r.Failure? ==> r.error == CurrencyDoesNotExist(DefaultCurrencyCode)
    ensures other.OtherArg? ==> r == Failure(TypeError)
  {
    match other
    case WalletArg(b) => Success(SameHoldings(h, b))
    case MoneyArg(m) => Success(SameHoldings(h, Single(m)))
    case NumberArg(x) =>
      assert Upper(DefaultCurrencyCode) == DefaultCurrencyCode;
      var m :- New(x, DefaultCurrencyCode, t);
      Success(SameHoldings(h, Single(m)))
    case OtherArg => Failure(TypeError)
  }

  /** `wallet != other`: the negation of `==`, raising what `==` raises. */
  function NotEqualsSpec(h: Holdings, other: WalletOperand, t: Table): (r: Result<bool>)
    ensures r.Success? <==> EqualsSpec(h, other, t).Success?
    ensures r.Success? ==> r.value == !EqualsSpec(h, other, t).value
  {
    var eq :- EqualsSpec(h, other, t);
    Success(!eq)
  }

  /** A wallet with no entries, or only zero entries, equals the number 0. */
  lemma {:induction false} ZeroWalletEqualsZero(h: Holdings)
    requires forall c :: c in h ==> h[c].Amount() == 0.0
    ensures EqualsSpec(h, NumberArg(0.0), StandardTable()) == Success(true)
  {
    var t := StandardTable();
    assert DefaultCurrencyCode in t && t[DefaultCurrencyCode] == Bitcoin;
    var z := Make(0.0, Bitcoin);
    QuantizeZero(8);
    assert z.Amount() == 0.0;
    AllCodes(h, Single(z));
    assert SameHoldings(h, Single(z));
  }

  /**
   * `wallet < other`. Against a wallet, the strict component-wise order. Against a Money, only
   * that Money's code is looked at: its entry must be smaller, and a wallet without it is below
   * any Money that is not negative. Against a number, every entry must be smaller (so a wallet
   * with no entries is below every number). Anything else raises `TypeError`.
   */
  function LessSpec(h: Holdings, other: WalletOperand): (r: Result<bool>)
    ensures other.OtherArg? <==> r.Failure?
    ensures r.Failure? ==> r.error == TypeError
    ensures other.WalletArg? ==> r == Success(Below(h, other.holdings))
    ensures other.MoneyArg? ==> r == Success(
              if other.money.Code() in h then h[other.money.Code()].Amount() < other.money.Amount()
              else other.money.Amount() >= 0.0)
    ensures other.NumberArg? ==> r == Success(forall c :: c in h ==> h[c].Amount() < other.number)
  {
    match other
    case WalletArg(b) => Success(Below(h, b))
    case MoneyArg(m) =>
      if m.Code() in h then Less(h[m.Code()], OfMoney(m))
      else
        var negative := Less(m, OfNumber(0.0)).value;
        QuantizeUnits(0, m.Digits());
        Success(!negative)
    case NumberArg(x) => Success(forall c :: c in h ==> h[c].Amount() < x)
    case OtherArg => Failure(TypeError)
  }

  /** `wallet > other`: the mirror image of `<`. */
  function GreaterSpec(h: Holdings, other: WalletOperand): (r: Result<bool>)
    ensures other.OtherArg? <==> r.Failure?
    ensures r.Failure? ==> r.error == TypeError
    ensures other.WalletArg? ==> r == Success(Above(h, other.holdings))
    ensures other.MoneyArg? ==> r == Success(
              if other.money.Code() in h then h[other.money.Code()].Amount() > other.money.Amount()
              else other.money.Amount() <= 0.0)
    ensures other.NumberArg? ==> r == Success(forall c :: c in h ==> h[c].Amount() > other.number)
  {
    match other
    case WalletArg(b) => Success(Above(h, b))
    case MoneyArg(m) =>
      if m.Code() in h then Greater(h[m.Code()], OfMoney(m))
      else
        var positive := Greater(m, OfNumber(0.0)).value;
        QuantizeUnits(0, m.Digits());
        Success(!positive)
    case NumberArg(x) => Success(forall c :: c in h ==> h[c].Amount() > x)
    case OtherArg => Failure(TypeError)
  }

  /** `wallet <= other`: `<`, or else `==`; `==` is consulted only when `<` is false. */
  function LessEqSpec(h: Holdings, other: WalletOperand, t: Table): (r: Result<bool>)
    ensures LessSpec(h, other).Failure? ==> r == LessSpec(h, other)
    ensures LessSpec(h, other) == Success(true) ==> r == Success(true)
    ensures LessSpec(h, other) == Success(false) ==> r == EqualsSpec(h, other, t)
  {
    var lt :- LessSpec(h, other);
    if lt then Success(true) else EqualsSpec(h, other, t)
  }

  /** `wallet >= other`: `>`, or else `==`. */
  function GreaterEqSpec(h: Holdings, other: WalletOperand, t: Table): (r: Result<bool>)
    ensures GreaterSpec(h, other).Failure? ==> r == GreaterSpec(h, other)
    ensures GreaterSpec(h, other) == Success(true) ==> r == Success(true)
    ensures GreaterSpec(h, other) == Success(false) ==> r == EqualsSpec(h, other, t)
  {
    var gt :- GreaterSpec(h, other);
    if gt then Success(true) else EqualsSpec(h, other, t)
  }

  /** For two wallets `<=` is dominance and `>=` is dominance the other way. */
  lemma {:induction false} LessEqIsDominance(a: Holdings, b: Holdings, t: Table)
    ensures LessEqSpec(a, WalletArg(b), t) == Success(Dominated(a, b))
    ensures GreaterEqSpec(a, WalletArg(b), t) == Success(Dominated(b, a))
  {
    DominatedAntisymmetric(a, b);
    SameHoldingsEquivalence(a, b, b);
  }

  /** Against numbers the order says nothing about a wallet with no entries. */
  lemma EmptyWalletBetweenAllNumbers(x: real)
    ensures LessSpec(map[], NumberArg(x)) == Success(true)
    ensures GreaterSpec(map[], NumberArg(x)) == Success(true)
  {
  }

  /** What `getMoneys(code)` returns, with the wallet it leaves behind. */
  datatype Fetched = Fetched(result: Result<Money>, holdings: Holdings)

  /**
   * `getMoneys(code)` as written: a held code returns its entry; otherwise `Money(currency=code)`
   * is deposited (raising `CurrencyDoesNotExist` if the upper-cased code is unknown) and the
   * entry is then read back under `code` itself, which raises `KeyError` when the deposit was
   * filed under a different code.
   */
  function FetchAsWritten(h: Holdings, code: string, t: Table): (r: Fetched)
    ensures code in h ==> r == Fetched(Success(h[code]), h)
    ensures code !in h && Upper(code) !in t ==>
              r == Fetched(Failure(CurrencyDoesNotExist(Upper(code))), h)
    ensures code !in h && Upper(code) in t ==>
              r.holdings == Deposit(h, Make(0.0, t[Upper(code)])) &&
              (r.result.Success? <==> t[Upper(code)].code == code) &&
              (r.result.Failure? ==> r.result.error == KeyError(code))
  {
    if code in h then Fetched(Success(h[code]), h)
    else
      match New(0.0, code, t)
      case Failure(e) => Fetched(Failure(e), h)
      case Success(zero) =>
        var after := Deposit(h, zero);
        if code in after then Fetched(Success(after[code]), after)
        else Fetched(Failure(KeyError(code)), after)
  }

  /**
   * `getMoneys(code)` as evidently intended: for an absent code a zero Money of the registered
   * currency is deposited, and the entry filed under that currency's code is returned. It fails
   * only for an unknown currency, changes no amount, and returns the entry now held under the
   * result's own code.
   */
  function Fetch(h: Holdings, code: string, t: Table): (r: Fetched)
    ensures r.result.Success? <==> code in h || Upper(code) in t
    ensures r.result.Failure? ==> r == Fetched(Failure(CurrencyDoesNotExist(Upper(code))), h)
    ensures code in h ==> r == Fetched(Success(h[code]), h)
    ensures code !in h && Upper(code) in t ==>
              r.holdings == Deposit(h, Make(0.0, t[Upper(code)])) &&
              t[Upper(code)].code in r.holdings &&
              r.result == Success(r.holdings[t[Upper(code)].code])
    ensures r.result.Success? ==>
              r.result.value.Code() in r.holdings && r.holdings[r.result.value.Code()] == r.result.value
    ensures r.holdings.Keys >= h.Keys
    ensures forall c :: AmountIn(r.holdings, c) == AmountIn(h, c)
  {
    if code in h then Fetched(Success(h[code]), h)
    else
      match New(0.0, code, t)
      case Failure(e) => Fetched(Failure(e), h)
      case Success(zero) =>
        DepositZero(h, zero);
        var after := Deposit(h, zero);
        Fetched(Success(after[zero.Code()]), after)
  }

  /** Depositing a zero Money changes no amount. */
  lemma DepositZero(h: Holdings, m: Money)
    requires m.Amount() == 0.0
    ensures forall c :: AmountIn(Deposit(h, m), c) == AmountIn(h, c)
  {
    var c := m.Code();
    if c in h {
      var held := h[c];
      assert held.Amount() + m.Amount() == FromUnits(held.units, held.Digits());
      QuantizeUnits(held.units, held.Digits());
    }
  }

  /**
   * With the standard table, `getMoneys('usd')` on an empty wallet files a zero under "USD" and
   * then raises `KeyError('usd')`; the corrected lookup returns that zero.
   */
  lemma FetchAsWrittenLosesLowerCase()
    ensures FetchAsWritten(map[], "usd", StandardTable()).result == Failure(KeyError("usd"))
    ensures FetchAsWritten(map[], "usd", StandardTable()).holdings == map["USD" := Make(0.0, UsDollar)]
    ensures Fetch(map[], "usd", StandardTable()).result == Success(Make(0.0, UsDollar))
  {
    assert Upper("usd") == "USD";
  }
}
