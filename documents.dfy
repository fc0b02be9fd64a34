/**
 * The JSON-like documents the encoding layer reads and writes, and the dictionaries that
 * `Money.prep_json` and `MultiMoney.prep_json` produce.
 */
module Documents {
  import opened Outcomes
  import opened MoneyValues
  import opened Holdings

  /**
   * A document value. `Num` is a JSON number; `Numeral(amount)` is text that spells the
   * decimal `amount` (as `prep_json` writes amounts); `Str` is any other text; `Dict` is a
   * dictionary as its list of entries in iteration order; `MoneyVal` and `WalletVal` are live
   * `Money` and `MultiMoney` objects stored in a document.
   */
  datatype Doc =
    | Null
    | Bool(b: bool)
    | Num(x: real)
    | Numeral(amount: real)
    | Str(s: string)
    | List(items: seq<Doc>)
    | Dict(fields: seq<Field>)
    | MoneyVal(money: Money)
    | WalletVal(holdings: Holdings)

  datatype Field = Field(key: string, value: Doc)

  /** The value of the first entry with `key`, if there is one: `d[key]`. */
  function Lookup(fs: seq<Field>, key: string): (r: Option<Doc>)
    ensures r.None? <==> forall i :: 0 <= i < |fs| ==> fs[i].key != key
    ensures r.Some? ==> exists i :: 0 <= i < |fs| && fs[i] == Field(key, r.value)
  {
    if |fs| == 0 then None
    else if fs[0].key == key then Some(fs[0].value)
    else
      var r := Lookup(fs[1..], key);
      assert forall i :: 1 <= i < |fs| ==> fs[1..][i - 1] == fs[i];
      r
  }

  /** The keys of a dictionary, in order. */
  function KeysOf(fs: seq<Field>): (ks: seq<string>)
    ensures |ks| == |fs|
    ensures forall i :: 0 <= i < |fs| ==> ks[i] == fs[i].key
  {
    if |fs| == 0 then [] else [fs[0].key] + KeysOf(fs[1..])
  }

  /** `Money.prep_json`: `{'a': <amount as text>, 'c': <currency code>}`. */
  function MoneyJson(m: Money): Doc {
    Dict([Field("a", Numeral(m.Amount())), Field("c", Str(m.Code()))])
  }

  /** A Money's `prep_json` has exactly the keys "a" and "c", holding its amount and its code. */
  lemma MoneyJsonEntries(m: Money)
    ensures MoneyJson(m).Dict? && KeysOf(MoneyJson(m).fields) == ["a", "c"]
    ensures Lookup(MoneyJson(m).fields, "a") == Some(Numeral(m.Amount()))
    ensures Lookup(MoneyJson(m).fields, "c") == Some(Str(m.Code()))
  {
    var fs := MoneyJson(m).fields;
    assert fs[1..] == [Field("c", Str(m.Code()))];
    assert fs[1..][1..] == [];
  }

  /**
   * `fs` lists the entries of `h` as `MultiMoney.prep_json` writes them: one entry per code,
   * filed under the code, holding that Money's `prep_json`, in some order.
   */
  predicate ListsWallet(fs: seq<Field>, h: Holdings) {
    |fs| == |h| &&
    (forall i :: 0 <= i < |fs| ==> fs[i].key in h && fs[i].value == MoneyJson(h[fs[i].key])) &&
    (forall i, j :: 0 <= i < j < |fs| ==> fs[i].key != fs[j].key)
  }

  /** `MultiMoney.prep_json`'s result: `{'mm': True}` followed by a listing of the wallet. */
  predicate EncodesWallet(d: Doc, h: Holdings) {
    d.Dict? && |d.fields| > 0 && d.fields[0] == Field("mm", Bool(true)) &&
    ListsWallet(d.fields[1..], h)
  }

  /** A listing names every code of the wallet. */
  lemma {:induction false} ListingCoversWallet(fs: seq<Field>, h: Holdings)
    requires ListsWallet(fs, h)
    ensures forall c :: c in h ==> exists i :: 0 <= i < |fs| && fs[i].key == c
  {
    var named := set i | 0 <= i < |fs| :: fs[i].key;
    assert named <= h.Keys;
    KeysCardinality(fs);
    if named != h.Keys {
      SubsetSmaller(named, h.Keys);
      assert false;
    }
  }

  /** Distinct keys: as many names as entries. */
  lemma {:induction false} KeysCardinality(fs: seq<Field>)
    requires forall i, j :: 0 <= i < j < |fs| ==> fs[i].key != fs[j].key
    ensures |set i | 0 <= i < |fs| :: fs[i].key| == |fs|
  {
    if |fs| > 0 {
      var front := fs[..|fs| - 1];
      KeysCardinality(front);
      var last := fs[|fs| - 1].key;
      var s0 := set i | 0 <= i < |front| :: front[i].key;
      var s1 := set i | 0 <= i < |fs| :: fs[i].key;
      forall k | k in s1 ensures k in s0 + {last} {
        var i :| 0 <= i < |fs| && fs[i].key == k;
        if i < |front| {
          assert front[i] == fs[i];
        }
      }
      forall k | k in s0 ensures k in s1 {
        var i :| 0 <= i < |front| && front[i].key == k;
        assert fs[i] == front[i];
      }
      assert s1 == s0 + {last};
      forall k | k in s0 ensures k != last {
        var i :| 0 <= i < |front| && front[i].key == k;
        assert fs[i] == front[i];
      }
    }
  }

  lemma SubsetSmaller<T>(a: set<T>, b: set<T>)
    requires a <= b && a != b
    ensures |a| < |b|
  {
    var x :| x in b && x !in a;
    assert a <= b - {x};
    assert |b - {x}| == |b| - 1;
    SubsetCardinality(a, b - {x});
  }

  lemma {:induction false} SubsetCardinality<T>(a: set<T>, b: set<T>)
    requires a <= b
    ensures |a| <= |b|
    decreases |b|
  {
    if a != {} {
      var x :| x in a;
      SubsetCardinality(a - {x}, b - {x});
    }
  }
}
