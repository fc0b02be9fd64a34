/**
 * The encoding layer: recognising the dictionaries `prep_json` writes, decoding them back into
 * Money and MultiMoney values, the hook a JSON decoder calls on every dictionary, and the
 * database manipulator that encodes a document's Money values on the way in and decodes the
 * encoded ones on the way out.
 */
module Encoding {
  import opened Decimals
  import opened Outcomes
  import opened Currencies
  import opened MoneyValues
  import opened Holdings
  import opened Documents
  import opened Wallets

  /** `isEncodedMoney`: a dictionary with an "a" entry and a "c" entry of three characters of text. */
  predicate IsEncodedMoney(d: Doc) {
    d.Dict? && Lookup(d.fields, "a").Some? &&
    match Lookup(d.fields, "c")
    case Some(Str(s)) => |s| == 3
    case _ => false
  }

  /** `isEncodedMultiMoney`: a dictionary whose "mm" entry is the value `True` itself. */
  predicate IsEncodedMultiMoney(d: Doc) {
    d.Dict? && Lookup(d.fields, "mm") == Some(Bool(true))
  }

  /** The currency code of an encoded Money. */
  function CodeField(d: Doc): string
    requires IsEncodedMoney(d)
  {
    Lookup(d.fields, "c").value.s
  }

  /** The amount entry of an encoded Money. */
  function AmountField(d: Doc): Doc
    requires IsEncodedMoney(d)
  {
    Lookup(d.fields, "a").value
  }

  /**
   * `Decimal(value)`: a number or the text of a decimal is taken exactly, a boolean as 1 or 0;
   * other text is not a number, and a value of any other kind cannot be converted.
   */
  function DecimalOf(v: Doc): Result<real> {
    match v
    case Num(x) => Success(x)
    case Numeral(a) => Success(a)
    case Bool(b) => Success(if b then 1.0 else 0.0)
    case Str(_) => Failure(DecimalException)
    case _ => Failure(TypeError)
  }

  /**
   * `decodeMoney`: an encoded Money becomes `Money(amount=d['a'], currency=d['c'])`, which
   * resolves the upper-cased code before it converts the amount; any other value is returned
   * as it is.
   */
  function DecodeMoney(d: Doc, t: Table): (r: Result<Doc>)
    ensures !IsEncodedMoney(d) ==> r == Success(d)
    ensures IsEncodedMoney(d) ==>
              (r.Success? <==> Upper(CodeField(d)) in t && DecimalOf(AmountField(d)).Success?)
    ensures IsEncodedMoney(d) && Upper(CodeField(d)) !in t ==>
              r == Failure(CurrencyDoesNotExist(Upper(CodeField(d))))
    ensures IsEncodedMoney(d) && Upper(CodeField(d)) in t && r.Failure? ==>
              r.error == DecimalOf(AmountField(d)).error
    ensures IsEncodedMoney(d) && r.Success? ==>
              r.value.MoneyVal? && r.value.money.currency == t[Upper(CodeField(d))] &&
              r.value.money.Amount() ==
                Quantize(DecimalOf(AmountField(d)).value, t[Upper(CodeField(d))].significantDigits)
  {
    if !IsEncodedMoney(d) then Success(d)
    else
      var c :- GetCurrency(t, Upper(CodeField(d)));
      var x :- DecimalOf(AmountField(d));
      Success(MoneyVal(Make(x, c)))
  }

  /** A decoded value as the right-hand side of `wallet += value`. */
  function AsWalletOperand(v: Doc): WalletOperand {
    match v
    case MoneyVal(m) => MoneyArg(m)
    case WalletVal(h) => WalletArg(h)
    case Num(x) => NumberArg(x)
    case _ => OtherArg
  }

  /**
   * The wallet `decodeMultiMoney` accumulates from the entries `fs`, in their order: the "mm"
   * entry is skipped, every other value is decoded as a Money and added; the first decoding
   * that fails, or the first value that is neither a Money nor a MultiMoney, ends it.
   */
  function DecodeEntries(fs: seq<Field>, t: Table): Result<Holdings> {
    if |fs| == 0 then Success(map[])
    else
      var h :- DecodeEntries(fs[..|fs| - 1], t);
      var f := fs[|fs| - 1];
      if f.key == "mm" then Success(h)
      else
        var v :- DecodeMoney(f.value, t);
        match v
        case MoneyVal(m) => Success(Deposit(h, m))
        case WalletVal(b) => Success(Merged(h, b))
        case _ => Failure(TypeError)
  }

  /** Once a prefix of the entries fails, decoding all of them fails the same way. */
  lemma {:induction false} DecodeEntriesFailurePersists(fs: seq<Field>, i: nat, t: Table)
    requires i <= |fs| && DecodeEntries(fs[..i], t).Failure?
    ensures DecodeEntries(fs, t) == DecodeEntries(fs[..i], t)
    decreases |fs| - i
  {
    if i < |fs| {
      var next := fs[..i + 1];
      assert next[..i] == fs[..i];
      DecodeEntriesFailurePersists(fs, i + 1, t);
    } else {
      assert fs[..i] == fs;
    }
  }

  /** Decoding one more entry: skipped if it is "mm", else decoded and added to the wallet so far. */
  lemma DecodeEntriesStep(fs: seq<Field>, i: nat, t: Table)
    requires i < |fs|
    ensures DecodeEntries(fs[..i + 1], t) ==
              if DecodeEntries(fs[..i], t).Failure? then DecodeEntries(fs[..i], t)
              else if fs[i].key == "mm" then DecodeEntries(fs[..i], t)
              else if DecodeMoney(fs[i].value, t).Failure? then Failure(DecodeMoney(fs[i].value, t).error)
              else
                var h := DecodeEntries(fs[..i], t).value;
                match DecodeMoney(fs[i].value, t).value
                case MoneyVal(m) => Success(Deposit(h, m))
                case WalletVal(b) => Success(Merged(h, b))
                case _ => Failure(TypeError)
  {
    assert fs[..i + 1][..i] == fs[..i];
  }

  /** What `decodeMultiMoney` returns: the decoded wallet, or the input when it is no MultiMoney. */
  function MultiMoneyDecoding(d: Doc, t: Table): (r: Result<Doc>)
    ensures !IsEncodedMultiMoney(d) ==> r == Success(d)
    ensures IsEncodedMultiMoney(d) ==>
              (r.Success? <==> DecodeEntries(d.fields, t).Success?) &&
              (r.Success? ==> r.value == WalletVal(DecodeEntries(d.fields, t).value)) &&
              (r.Failure? ==> r.error == DecodeEntries(d.fields, t).error)
  {
    if IsEncodedMultiMoney(d) then
      var h :- DecodeEntries(d.fields, t);
      Success(WalletVal(h))
    else Success(d)
  }

  /** `decodeMultiMoney`: start from an empty wallet and `+=` every decoded entry but "mm". */
  /** What `moneys += operand` leaves in a wallet holding `h`, or the exception it raises. */
  function AddOutcome(h: Holdings, other: WalletOperand): Result<Holdings> {
    match other
    case WalletArg(b) => Success(Merged(h, b))
    case MoneyArg(m) => Success(Deposit(h, m))
    case _ => Failure(TypeError)
  }

  /** One entry other than "mm" read into a wallet holding `h`: its decoding, then `+=`. */
  lemma DecodeEntryStep(fs: seq<Field>, i: nat, t: Table, h: Holdings)
    requires i < |fs| && fs[i].key != "mm" && DecodeEntries(fs[..i], t) == Success(h)
    ensures DecodeMoney(fs[i].value, t).Failure? ==>
              DecodeEntries(fs[..i + 1], t) == Failure(DecodeMoney(fs[i].value, t).error)
    ensures DecodeMoney(fs[i].value, t).Success? ==>
              DecodeEntries(fs[..i + 1], t) == AddOutcome(h, AsWalletOperand(DecodeMoney(fs[i].value, t).value))
  {
    DecodeEntriesStep(fs, i, t);
  }

  /** `moneys += operand` on a MultiMoney, stated through `AddOutcome`. */
  method AddOperand(moneys: MultiMoney, operand: WalletOperand) returns (r: Result<MultiMoney>)
    ensures r.Success? <==> AddOutcome(moneys.moneys, operand).Success?
    ensures r.Failure? ==> r.error == AddOutcome(moneys.moneys, operand).error
    ensures r.Success? ==> fresh(r.value) && r.value.moneys == AddOutcome(moneys.moneys, operand).value
  {
    r := moneys.Add(operand);
  }

  method DecodeMultiMoney(d: Doc, t: Table) returns (r: Result<Doc>)
    ensures r == MultiMoneyDecoding(d, t)
  {
    if !IsEncodedMultiMoney(d) {
      return Success(d);
    }
    var moneys := new MultiMoney([]);
    assert moneys.moneys == map[];
    var fs := d.fields;
    var i := 0;
    while i < |fs|
      invariant 0 <= i <= |fs|
      invariant DecodeEntries(fs[..i], t) == Success(moneys.moneys)
    {
      var f := fs[i];
      if f.key == "mm" {
        DecodeEntriesStep(fs, i, t);
      } else {
        DecodeEntryStep(fs, i, t, moneys.moneys);
        var v := DecodeMoney(f.value, t);
        if v.Failure? {
          DecodeEntriesFailurePersists(fs, i + 1, t);
          return Failure(v.error);
        }
        var sum := AddOperand(moneys, AsWalletOperand(v.value));
        if sum.Failure? {
          DecodeEntriesFailurePersists(fs, i + 1, t);
          return Failure(sum.error);
        }
        moneys := sum.value;
      }
      i := i + 1;
    }
    assert fs[..i] == fs;
    r := Success(WalletVal(moneys.moneys));
  }

  /**
   * `money_object_hook`: a MultiMoney encoding is decoded as one before a Money encoding is;
   * any other document is returned as it is.
   */
  function MoneyObjectHook(d: Doc, t: Table): (r: Result<Doc>)
    ensures IsEncodedMultiMoney(d) ==> r == MultiMoneyDecoding(d, t)
    ensures !IsEncodedMultiMoney(d) ==> r == DecodeMoney(d, t)
  {
    if IsEncodedMultiMoney(d) then MultiMoneyDecoding(d, t)
    else if IsEncodedMoney(d) then DecodeMoney(d, t)
    else Success(d)
  }

  /**
   * `transform_incoming` on one value: a live Money becomes its `prep_json` dictionary, a
   * dictionary is rewritten entry by entry, anything else (a MultiMoney, a list) is kept.
   */
  function IncomingValue(v: Doc): (r: Doc)
    ensures r.Dict? <==> v.Dict? || v.MoneyVal?
    ensures !v.Dict? && !v.MoneyVal? ==> r == v
    decreases v, 1
  {
    match v
    case MoneyVal(m) => MoneyJson(m)
    case Dict(fs) => Dict(IncomingFields(fs))
    case _ => v
  }

  /** `transform_incoming` on the entries of a dictionary: every value rewritten, under its key. */
  function IncomingFields(fs: seq<Field>): (r: seq<Field>)
    ensures |r| == |fs|
    ensures forall i {:trigger r[i]} :: 0 <= i < |fs| ==> r[i] == Field(fs[i].key, IncomingValue(fs[i].value))
    decreases fs, 0
  {
    if |fs| == 0 then []
    else
      var last := fs[|fs| - 1];
      IncomingFields(fs[..|fs| - 1]) + [Field(last.key, IncomingValue(last.value))]
  }

  /** `MoneyManipulator.transform_incoming`: overwrite each entry in turn, recursing into dictionaries. */
  method TransformIncoming(son: seq<Field>) returns (out: seq<Field>)
    ensures out == IncomingFields(son)
    decreases son
  {
    out := son;
    var i := 0;
    while i < |son|
      invariant 0 <= i <= |son| && |out| == |son|
      invariant forall j :: 0 <= j < i ==> out[j] == Field(son[j].key, IncomingValue(son[j].value))
      invariant out[i..] == son[i..]
    {
      var f := son[i];
      assert out[i] == f;
      match f.value {
        case MoneyVal(m) =>
          out := out[i := Field(f.key, MoneyJson(m))];
        case Dict(inner) =>
          var rewritten := TransformIncoming(inner);
          out := out[i := Field(f.key, Dict(rewritten))];
        case _ =>
      }
      i := i + 1;
    }
  }

  /**
   * `transform_outgoing` on one value: a dictionary that encodes a Money is decoded as one,
   * else one that encodes a MultiMoney is decoded as one, else it is rewritten entry by entry;
   * a value that is not a dictionary is kept.
   */
  function OutgoingValue(v: Doc, t: Table): (r: Result<Doc>)
    ensures !v.Dict? ==> r == Success(v)
    ensures v.Dict? && IsEncodedMoney(v) ==> r == DecodeMoney(v, t)
    ensures v.Dict? && !IsEncodedMoney(v) && IsEncodedMultiMoney(v) ==> r == MultiMoneyDecoding(v, t)
    decreases v, 1
  {
    if !v.Dict? then Success(v)
    else if IsEncodedMoney(v) then DecodeMoney(v, t)
    else if IsEncodedMultiMoney(v) then MultiMoneyDecoding(v, t)
    else
      var fs :- OutgoingFields(v.fields, t);
      Success(Dict(fs))
  }

  /**
   * `transform_outgoing` on the entries of a dictionary, in order: every value rewritten under
   * its key, or the first failure. The dictionary itself is never decoded.
   */
  function OutgoingFields(fs: seq<Field>, t: Table): (r: Result<seq<Field>>)
    ensures r.Success? ==> |r.value| == |fs| && forall i :: 0 <= i < |fs| ==> r.value[i].key == fs[i].key
    decreases fs, 0
  {
    if |fs| == 0 then Success([])
    else
      var front :- OutgoingFields(fs[..|fs| - 1], t);
      var last := fs[|fs| - 1];
      var v :- OutgoingValue(last.value, t);
      Success(front + [Field(last.key, v)])
  }

  /** Rewriting one more entry on the way out. */
  lemma OutgoingStep(fs: seq<Field>, i: nat, t: Table)
    requires i < |fs|
    ensures OutgoingFields(fs[..i + 1], t) ==
              if OutgoingFields(fs[..i], t).Failure? then OutgoingFields(fs[..i], t)
              else if OutgoingValue(fs[i].value, t).Failure? then Failure(OutgoingValue(fs[i].value, t).error)
              else Success(OutgoingFields(fs[..i], t).value + [Field(fs[i].key, OutgoingValue(fs[i].value, t).value)])
  {
    assert fs[..i + 1][..i] == fs[..i];
  }

  /** A non-empty sequence of entries is its front followed by its last entry. */
  lemma SplitLast(fs: seq<Field>)
    requires |fs| > 0
    ensures fs == fs[..|fs| - 1] + [fs[|fs| - 1]]
    ensures forall i :: 0 <= i < |fs| - 1 ==> fs[..|fs| - 1][i] == fs[i]
  {
  }

  /** Rewriting a dictionary with one more entry, when neither part fails. */
  lemma OutgoingAppend(front: seq<Field>, f: Field, t: Table)
    requires OutgoingFields(front, t).Success? && OutgoingValue(f.value, t).Success?
    ensures OutgoingFields(front + [f], t) ==
              Success(OutgoingFields(front, t).value + [Field(f.key, OutgoingValue(f.value, t).value)])
  {
    var fs := front + [f];
    assert fs[..|fs| - 1] == front;
  }

  /** Once a prefix of the entries fails on the way out, all of them fail the same way. */
  lemma {:induction false} OutgoingFailurePersists(fs: seq<Field>, i: nat, t: Table)
    requires i <= |fs| && OutgoingFields(fs[..i], t).Failure?
    ensures OutgoingFields(fs, t) == OutgoingFields(fs[..i], t)
    decreases |fs| - i
  {
    if i < |fs| {
      var next := fs[..i + 1];
      assert next[..i] == fs[..i];
      OutgoingFailurePersists(fs, i + 1, t);
    } else {
      assert fs[..i] == fs;
    }
  }

  /** `transform_outgoing`'s treatment of one entry's value. */
  method TransformOutgoingValue(v: Doc, t: Table) returns (r: Result<Doc>)
    ensures r == OutgoingValue(v, t)
    decreases v, 1
  {
    if !v.Dict? {
      r := Success(v);
    } else if IsEncodedMoney(v) {
      r := DecodeMoney(v, t);
    } else if IsEncodedMultiMoney(v) {
      r := DecodeMultiMoney(v, t);
    } else {
      var inner := TransformOutgoing(v.fields, t);
      if inner.Failure? {
        r := Failure(inner.error);
      } else {
        r := Success(Dict(inner.value));
      }
    }
  }

  /**
   * `MoneyManipulator.transform_outgoing`: rewrite each entry in turn, stopping at the first
   * failure.
   */
  method TransformOutgoing(son: seq<Field>, t: Table) returns (r: Result<seq<Field>>)
    ensures r == OutgoingFields(son, t)
    decreases son, 0
  {
    var done: seq<Field> := [];
    var i := 0;
    assert son[..0] == [];
    while i < |son|
      invariant 0 <= i <= |son|
      invariant OutgoingFields(son[..i], t) == Success(done)
    {
      var f := son[i];
      OutgoingStep(son, i, t);
      var v := TransformOutgoingValue(f.value, t);
      if v.Failure? {
        OutgoingFailurePersists(son, i + 1, t);
        return Failure(v.error);
      }
      done := done + [Field(f.key, v.value)];
      i := i + 1;
    }
    assert son[..i] == son;
    r := Success(done);
  }

  /** Entries that hold no dictionary come out as they went in. */
  lemma {:induction false} OutgoingKeepsFlatEntries(fs: seq<Field>, t: Table)
    requires forall i :: 0 <= i < |fs| ==> !fs[i].value.Dict?
    ensures OutgoingFields(fs, t) == Success(fs)
  {
    if |fs| > 0 {
      var n := |fs| - 1;
      SplitLast(fs);
      OutgoingKeepsFlatEntries(fs[..n], t);
      OutgoingStep(fs, n, t);
      assert fs[..n + 1] == fs;
    }
  }

  /**
   * The whole document is never decoded: a top-level Money encoding comes out as the same
   * dictionary, whereas the same encoding one level down comes out as a Money.
   */
  lemma TopLevelNotDecoded(m: Money, t: Table)
    requires Decodable(m, t)
    ensures OutgoingFields(MoneyJson(m).fields, t) == Success(MoneyJson(m).fields)
    ensures OutgoingFields([Field("price", MoneyJson(m))], t) == Success([Field("price", MoneyVal(m))])
  {
    OutgoingKeepsFlatEntries(MoneyJson(m).fields, t);
    NestedMoneyDecoded(m, t);
  }

  /** One level down, a Money's encoding is decoded into the Money. */
  lemma NestedMoneyDecoded(m: Money, t: Table)
    requires Decodable(m, t)
    ensures OutgoingFields([Field("price", MoneyJson(m))], t) == Success([Field("price", MoneyVal(m))])
  {
    DecodeMoneyRoundTrip(m, t);
    MoneyJsonRecognised(m);
    var one := [Field("price", MoneyJson(m))];
    assert one[..0] == [];
    assert OutgoingValue(MoneyJson(m), t) == Success(MoneyVal(m));
    OutgoingStep(one, 0, t);
    assert one[..1] == one;
    var back: seq<Field> := [Field("price", MoneyVal(m))];
    assert [] + back == back;
  }

  /** `m` survives encoding and decoding: its code is three characters and resolves to its currency. */
  predicate Decodable(m: Money, t: Table) {
    |m.Code()| == 3 && GetCurrency(t, Upper(m.Code())) == Success(m.currency)
  }

  /** Every Money in a currency of the standard table, as registered, survives. */
  lemma StandardMoneyDecodable(m: Money)
    requires m.Code() in StandardTable() && StandardTable()[m.Code()] == m.currency
    ensures Decodable(m, StandardTable())
  {
    var c := m.Code();
    assert c in {"BTC", "EUR", "JPY", "PLN", "USD"};
    if c == "BTC" {
      assert Upper("BTC") == "BTC";
    } else if c == "EUR" {
      assert Upper("EUR") == "EUR";
    } else if c == "JPY" {
      assert Upper("JPY") == "JPY";
    } else if c == "PLN" {
      assert Upper("PLN") == "PLN";
    } else {
      assert Upper("USD") == "USD";
    }
  }

  /**
   * `prep_json` writes a Money encoding exactly when the code has three characters, and never
   * a MultiMoney encoding.
   */
  lemma MoneyJsonRecognised(m: Money)
    ensures IsEncodedMoney(MoneyJson(m)) <==> |m.Code()| == 3
    ensures IsEncodedMoney(MoneyJson(m)) ==>
              CodeField(MoneyJson(m)) == m.Code() && AmountField(MoneyJson(m)) == Numeral(m.Amount())
    ensures !IsEncodedMultiMoney(MoneyJson(m))
  {
    MoneyJsonEntries(m);
  }

  /**
   * `decodeMoney(m.prep_json())` gives back `m`, the amount text being read exactly; by the
   * hook too. A code that is not three characters long leaves the dictionary undecoded.
   */
  lemma {:induction false} DecodeMoneyRoundTrip(m: Money, t: Table)
    ensures Decodable(m, t) ==> DecodeMoney(MoneyJson(m), t) == Success(MoneyVal(m))
    ensures Decodable(m, t) ==> MoneyObjectHook(MoneyJson(m), t) == Success(MoneyVal(m))
    ensures |m.Code()| != 3 ==> DecodeMoney(MoneyJson(m), t) == Success(MoneyJson(m))
  {
    MoneyJsonRecognised(m);
    if Decodable(m, t) {
      MakeOwnAmount(m);
    }
  }

  /**
   * A Money in the 5-place default currency comes back in the 8-place Bitcoin currency that
   * replaced it under "BTC": equal as Money, with the same amount, but not the same value.
   */
  lemma {:induction false} DefaultCurrencyComesBackAsBitcoin(x: real)
    ensures var m := Make(x, DefaultCurrency);
            var back := DecodeMoney(MoneyJson(m), StandardTable());
            back.Success? && back.value.MoneyVal? &&
            back.value.money.currency == Bitcoin &&
            back.value.money.Amount() == m.Amount() &&
            MoneyValues.Equals(m, OfMoney(back.value.money)) && back.value.money != m
  {
    var m := Make(x, DefaultCurrency);
    MoneyJsonRecognised(m);
    assert Upper("BTC") == "BTC";
    FromUnitsRefine(m.units, 5, 8);
    assert Pow10(3) == 1000;
    QuantizeUnits(m.units * 1000, 8);
  }

  /** The Moneys `h` files under the keys of the listing `L`, as wallet-constructor arguments. */
  function ArgsOf(h: Holdings, L: seq<Field>): (args: seq<Operand>)
    requires forall j :: 0 <= j < |L| ==> L[j].key in h
    ensures |args| == |L|
    ensures forall j :: 0 <= j < |L| ==> args[j] == OfMoney(h[L[j].key])
  {
    if |L| == 0 then []
    else ArgsOf(h, L[..|L| - 1]) + [OfMoney(h[L[|L| - 1].key])]
  }

  /** Collecting one more of the listed Moneys deposits it. */
  lemma CollectArgsStep(h: Holdings, L: seq<Field>, i: nat)
    requires forall j :: 0 <= j < |L| ==> L[j].key in h
    requires i < |L|
    ensures Collect(ArgsOf(h, L[..i + 1])) == Deposit(Collect(ArgsOf(h, L[..i])), h[L[i].key])
  {
    var args := ArgsOf(h, L[..i + 1]);
    assert args[..i] == ArgsOf(h, L[..i]);
    assert args[i] == OfMoney(h[L[i].key]);
  }

  /** The entry a listing files under `key` decodes to the Money `h` holds under it. */
  lemma ListedEntryDecodes(h: Holdings, L: seq<Field>, i: nat, t: Table)
    requires ListsWallet(L, h) && i < |L|
    requires forall c :: c in h ==> Decodable(h[c], t)
    ensures L[i].key != "mm"
    ensures DecodeMoney(L[i].value, t) == Success(MoneyVal(h[L[i].key]))
  {
    DecodeMoneyRoundTrip(h[L[i].key], t);
  }

  /** Decoding `{'mm': True}` followed by the first `i` entries of a listing of `h`. */
  lemma {:induction false} DecodeListing(h: Holdings, L: seq<Field>, i: nat, t: Table)
    requires ListsWallet(L, h) && i <= |L|
    requires forall c :: c in h ==> Decodable(h[c], t)
    ensures DecodeEntries(([Field("mm", Bool(true))] + L)[..i + 1], t) == Success(Collect(ArgsOf(h, L[..i])))
  {
    var fs := [Field("mm", Bool(true))] + L;
    DecodeEntriesStep(fs, i, t);
    if i == 0 {
      assert fs[..0] == [];
      assert ArgsOf(h, L[..0]) == [];
    } else {
      DecodeListing(h, L, i - 1, t);
      assert fs[i] == L[i - 1];
      ListedEntryDecodes(h, L, i - 1, t);
      CollectArgsStep(h, L, i - 1);
    }
  }

  /**
   * A MultiMoney's `prep_json` is recognised as a MultiMoney encoding, never as a Money one:
   * each of its values but "mm" is a dictionary, so no "c" entry holds text.
   */
  lemma {:induction false} EncodedWalletIsNotMoney(d: Doc, h: Holdings)
    requires EncodesWallet(d, h)
    ensures IsEncodedMultiMoney(d) && !IsEncodedMoney(d)
  {
    var c := Lookup(d.fields, "c");
    if c.Some? {
      var i :| 0 <= i < |d.fields| && d.fields[i] == Field("c", c.value);
      assert d.fields[1..][i - 1] == d.fields[i];
    }
  }

  /** The keys of a listing of `h` enumerate `h`. */
  lemma ListingEnumerates(h: Holdings, L: seq<Field>)
    requires ListsWallet(L, h)
    ensures Enumerates(KeysOf(L), h)
  {
    ListingCoversWallet(L, h);
    var ks := KeysOf(L);
    forall c | c in h
      ensures c in ks
    {
      var i :| 0 <= i < |L| && L[i].key == c;
      assert ks[i] == c;
    }
  }

  /** The Moneys filed under an enumeration of `h` are the entries of `h`, each once. */
  lemma ListingArgs(h: Holdings, ks: seq<string>, args: seq<Operand>)
    requires Enumerates(ks, h)
    requires |args| == |ks| && forall j :: 0 <= j < |ks| ==> args[j] == OfMoney(h[ks[j]])
    ensures Lists(args, h)
  {
    assert forall i :: 0 <= i < |args| ==> args[i].money.Code() == ks[i];
    var codes := set i | 0 <= i < |args| && args[i].OfMoney? :: args[i].money.Code();
    forall c | c in h
      ensures c in codes
    {
      var i :| 0 <= i < |ks| && ks[i] == c;
      assert args[i].money.Code() == c;
    }
    assert codes <= h.Keys;
  }

  /**
   * `decodeMultiMoney(wallet.prep_json())` gives back the wallet, whatever order its entries
   * were listed in, when every entry survives decoding; the hook and `transform_outgoing`
   * decode it the same way.
   */
  lemma {:induction false} DecodeWalletRoundTrip(d: Doc, h: Holdings, t: Table)
    requires EncodesWallet(d, h)
    requires forall c :: c in h ==> Decodable(h[c], t)
    ensures MultiMoneyDecoding(d, t) == Success(WalletVal(h))
    ensures MoneyObjectHook(d, t) == Success(WalletVal(h))
    ensures OutgoingValue(d, t) == Success(WalletVal(h))
  {
    EncodedWalletDecodes(d, h, t);
    EncodedWalletIsNotMoney(d, h);
  }

  /** The entries of a MultiMoney's `prep_json` decode to the wallet. */
  lemma EncodedWalletDecodes(d: Doc, h: Holdings, t: Table)
    requires EncodesWallet(d, h)
    requires forall c :: c in h ==> Decodable(h[c], t)
    ensures DecodeEntries(d.fields, t) == Success(h)
  {
    var L := d.fields[1..];
    assert d.fields == ([Field("mm", Bool(true))] + L)[..|L| + 1];
    assert L[..|L|] == L;
    DecodeListing(h, L, |L|, t);
    CollectOfListing(h, L);
  }

  /** Building a wallet from the Moneys of a listing of `h` gives `h`. */
  lemma CollectOfListing(h: Holdings, L: seq<Field>)
    requires ListsWallet(L, h)
    ensures Collect(ArgsOf(h, L)) == h
  {
    ListingEnumerates(h, L);
    ListingArgs(h, KeysOf(L), ArgsOf(h, L));
    CollectListing(ArgsOf(h, L), h);
  }

  /** No live Money where `transform_incoming` looks: here or in any nested dictionary. */
  predicate MoneyFree(v: Doc) {
    match v
    case MoneyVal(_) => false
    case Dict(fs) => forall i :: 0 <= i < |fs| ==> MoneyFree(fs[i].value)
    case _ => true
  }

  /** `transform_incoming` leaves no live Money where it looks. */
  lemma {:induction false} IncomingLeavesNoMoney(v: Doc)
    ensures MoneyFree(IncomingValue(v))
  {
    match v
    case MoneyVal(m) =>
      var d := MoneyJson(m);
      assert d.fields[0].value == Numeral(m.Amount()) && d.fields[1].value == Str(m.Code());
    case Dict(fs) =>
      var r := IncomingFields(fs);
      forall i | 0 <= i < |r|
        ensures MoneyFree(r[i].value)
      {
        IncomingLeavesNoMoney(fs[i].value);
      }
    case _ =>
  }

  /** `transform_incoming` changes a value exactly when there is a live Money where it looks. */
  lemma {:induction false} IncomingChangesOnlyMoney(v: Doc)
    ensures IncomingValue(v) == v <==> MoneyFree(v)
  {
    match v
    case MoneyVal(m) =>
    case Dict(fs) =>
      var r := IncomingFields(fs);
      forall i | 0 <= i < |fs|
        ensures r[i] == fs[i] <==> MoneyFree(fs[i].value)
      {
        IncomingChangesOnlyMoney(fs[i].value);
      }
      if MoneyFree(v) {
        assert r == fs;
      } else {
        var i :| 0 <= i < |fs| && !MoneyFree(fs[i].value);
        assert r[i] != fs[i];
      }
    case _ =>
  }

  /** Encoding a document twice is encoding it once. */
  lemma IncomingIdempotent(v: Doc)
    ensures IncomingValue(IncomingValue(v)) == IncomingValue(v)
  {
    IncomingLeavesNoMoney(v);
    IncomingChangesOnlyMoney(IncomingValue(v));
  }

  /**
   * A value `transform_outgoing` restores after `transform_incoming`: its live Moneys survive
   * decoding, and none of its dictionaries already reads as a Money or MultiMoney encoding.
   */
  predicate Restorable(v: Doc, t: Table) {
    match v
    case MoneyVal(m) => Decodable(m, t)
    case Dict(fs) =>
      !IsEncodedMoney(v) && !IsEncodedMultiMoney(v) &&
      forall i :: 0 <= i < |fs| ==> Restorable(fs[i].value, t)
    case _ => true
  }

  /** Looking up a key after `transform_incoming` finds the rewritten value under it. */
  lemma {:induction false} LookupIncoming(fs: seq<Field>, key: string)
    ensures Lookup(IncomingFields(fs), key) ==
              match Lookup(fs, key)
              case None => None
              case Some(x) => Some(IncomingValue(x))
  {
    if |fs| > 0 {
      var r := IncomingFields(fs);
      assert r[1..] == IncomingFields(fs[1..]);
      LookupIncoming(fs[1..], key);
    }
  }

  /** Rewriting a prefix of the entries is a prefix of rewriting them all. */
  lemma IncomingFieldsPrefix(fs: seq<Field>, n: nat)
    requires n <= |fs|
    ensures IncomingFields(fs)[..n] == IncomingFields(fs[..n])
  {
  }

  /** `transform_outgoing` undoes `transform_incoming` on a restorable value. */
  lemma {:induction false} OutgoingUndoesIncoming(v: Doc, t: Table)
    requires Restorable(v, t)
    ensures OutgoingValue(IncomingValue(v), t) == Success(v)
    decreases v, 1
  {
    match v
    case MoneyVal(m) =>
      DecodeMoneyRoundTrip(m, t);
      MoneyJsonRecognised(m);
    case Dict(fs) =>
      var w := IncomingValue(v);
      LookupIncoming(fs, "a");
      LookupIncoming(fs, "c");
      LookupIncoming(fs, "mm");
      assert !IsEncodedMoney(w) && !IsEncodedMultiMoney(w);
      OutgoingUndoesIncomingFields(fs, t);
    case _ =>
  }

  /**
   * `transform_outgoing(transform_incoming(son)) == son` when every value is restorable: the
   * document itself may be an encoding, since it is never decoded.
   */
  lemma {:induction false} OutgoingUndoesIncomingFields(fs: seq<Field>, t: Table)
    requires forall i :: 0 <= i < |fs| ==> Restorable(fs[i].value, t)
    ensures OutgoingFields(IncomingFields(fs), t) == Success(fs)
    decreases fs, 0
  {
    if |fs| > 0 {
      var n := |fs| - 1;
      var front := fs[..n];
      var w := Field(fs[n].key, IncomingValue(fs[n].value));
      assert IncomingFields(fs) == IncomingFields(front) + [w];
      SplitLast(fs);
      OutgoingUndoesIncomingFields(front, t);
      OutgoingUndoesIncoming(fs[n].value, t);
      OutgoingAppend(IncomingFields(front), w, t);
    }
  }

  /**
   * The hook and `transform_outgoing` test in opposite orders: a dictionary with "mm" set and
   * a Money's "a" and "c" entries is a MultiMoney to the hook, whose first entry, the amount,
   * cannot be added to a wallet, but a Money to the manipulator.
   */
  lemma HookAndOutgoingDisagree()
    ensures var d := Dict([Field("mm", Bool(true)), Field("a", Numeral(1.0)), Field("c", Str("USD"))]);
            MoneyObjectHook(d, StandardTable()) == Failure(TypeError) &&
            OutgoingValue(d, StandardTable()) == Success(MoneyVal(Make(1.0, UsDollar)))
  {
    HookRejectsAmountEntry();
    OutgoingAcceptsMoneyEntries();
  }

  lemma HookRejectsAmountEntry()
    ensures var d := Dict([Field("mm", Bool(true)), Field("a", Numeral(1.0)), Field("c", Str("USD"))]);
            MoneyObjectHook(d, StandardTable()) == Failure(TypeError)
  {
    var fs := [Field("mm", Bool(true)), Field("a", Numeral(1.0)), Field("c", Str("USD"))];
    assert fs[..1][..0] == [] && fs[..2][..1] == fs[..1] && fs[..3] == fs;
    assert DecodeEntries(fs[..1], StandardTable()) == Success(map[]);
    assert DecodeMoney(Numeral(1.0), StandardTable()) == Success(Numeral(1.0));
  }

  lemma OutgoingAcceptsMoneyEntries()
    ensures var d := Dict([Field("mm", Bool(true)), Field("a", Numeral(1.0)), Field("c", Str("USD"))]);
            OutgoingValue(d, StandardTable()) == Success(MoneyVal(Make(1.0, UsDollar)))
  {
    var fs := [Field("mm", Bool(true)), Field("a", Numeral(1.0)), Field("c", Str("USD"))];
    assert fs[1..][1..] == [Field("c", Str("USD"))];
    assert Lookup(fs, "a") == Some(Numeral(1.0));
    assert Lookup(fs, "c") == Some(Str("USD"));
    assert IsEncodedMoney(Dict(fs));
    assert Upper("USD") == "USD";
    assert GetCurrency(StandardTable(), "USD") == Success(UsDollar);
    assert CodeField(Dict(fs)) == "USD" && AmountField(Dict(fs)) == Numeral(1.0);
    assert DecodeMoney(Dict(fs), StandardTable()) == Success(MoneyVal(Make(1.0, UsDollar)));
  }
}
