# py-moneyed: money, wallets and their document encoding, in Dafny

This project models the core of py-moneyed. `Money` is an amount in one currency, always
quantized to that currency's number of decimal places with half-even rounding. `MultiMoney`
is a wallet holding at most one Money per currency code, with arithmetic and a zero-default
ordering. Currencies live in a registry filled by `add_currency` and read by `get_currency`.
The encoding layer has three parts:

- it turns Moneys and wallets into `{'a': …, 'c': …}` and `{'mm': True, …}` dictionaries;
- a JSON object hook and a field-by-field decoder turn those dictionaries back into values;
- a database manipulator encodes a document's Moneys on the way in and decodes them on the way out.

As written, encoding.py raises `NameError` on import (see "## Left out"). The model takes its
functions as they would behave if the module loaded.

The modules follow the program's structure:

| module | file | models |
|---|---|---|
| `Decimals` | decimals.dfy | `Decimal.quantize` under ROUND_HALF_EVEN, as exact fractions |
| `Outcomes` | outcomes.dfy | the exceptions raised, and a `Result` carrying a value or the exception |
| `Currencies` | currencies.dfy | `Currency`, its equality, `str.upper`, the registry (a class whose table `add_currency` updates) |
| `MoneyValues` | money.dfy | `Money` and its operators, as functions on values |
| `Holdings` | holdings.dfy | a wallet's contents as a map, and the functions that specify every wallet operation |
| `Wallets` | wallets.dfy | the `MultiMoney` class: its methods loop over and update `moneys` in place, each proved against `Holdings` |
| `Documents` | documents.dfy | documents (JSON-like values with live Moneys and wallets in them) and `prep_json`'s output |
| `Encoding` | encoding.dfy | encoding.py's functions and the manipulator's two transforms, with the round trips |

A Money stores an integer number of units of 10^-d, d being its currency's
`significantDigits`. Its amount is therefore always quantized, as `Money.__init__`
guarantees. Dictionaries iterate in an order Python fixes but does not promise.
`Wallets.Order` allows every order, so each wallet loop is proved for all of them.

## Model

| member | source | states |
|---|---|---|
| Currencies.CurrencyEquals | src/moneyed/classes.py:33-39 | two currencies are equal exactly when their codes are; a currency equals the string that is its code and nothing else |
| Currencies.CurrencyNotEquals | src/moneyed/classes.py:41-43 | `!=` is exactly the negation of `==` |
| Currencies.CurrencyEqualsEquivalence | src/moneyed/classes.py:33-39 | currency equality is reflexive, symmetric and transitive, and comparing with a currency is comparing with its code |
| Currencies.Upper | src/moneyed/classes.py:77 | upper-casing keeps the length and maps each character through `UpperChar`, which turns a-z into A-Z and leaves the rest alone |
| Currencies.UpperIdempotent | src/moneyed/classes.py:77 | upper-casing an upper-cased code changes nothing |
| Currencies.GetCurrency | src/moneyed/classes.py:567-571 | succeeds exactly when the code is registered, with the registered currency; otherwise fails with `CurrencyDoesNotExist` naming the code |
| Currencies.DefaultCurrencyShadowed | src/moneyed/classes.py:573-595 | the loaded table files every currency under its own code; "BTC" resolves to the 8-place Bitcoin entry that replaced the 5-place default currency, which still compares equal to it |
| Currencies.Registry.constructor | src/moneyed/classes.py:573-723 | running the module's `add_currency` calls in order yields the standard table, and `DEFAULT_CURRENCY` is the 5-place default currency those calls register first |
| Currencies.Registry.AddCurrency | src/moneyed/classes.py:554-564 | returns the currency built from the arguments (5 places and 2 shown by default); the table gains it under its code, replacing any earlier entry; a well-formed table stays well-formed |
| Decimals.RoundHalfEven | src/moneyed/classes.py:82 | the rounded integer is within one half of its input, equals a whole input, and is even on a tie |
| Decimals.RoundHalfEvenUnique | src/moneyed/classes.py:82 | any integer with those three properties is the half-even rounding, so they define it |
| Decimals.RoundHalfEvenNegate | src/moneyed/classes.py:82 | half-even rounding is symmetric about zero |
| Decimals.RoundHalfEvenMonotone | src/moneyed/classes.py:82 | half-even rounding preserves order |
| Decimals.Quantize | src/moneyed/classes.py:27 | `quantize` to 10^-d moves a value by at most half a unit of 10^-d |
| Decimals.UnitsRoundTrip | src/moneyed/classes.py:27 | a whole number of units read as a value and rounded back gives the same units |
| Decimals.QuantizeIdempotent | src/moneyed/classes.py:82 | quantizing a quantized value changes nothing |
| Decimals.QuantizeMonotone | src/moneyed/classes.py:82 | quantizing preserves order |
| Decimals.QuantizeNegate | src/moneyed/classes.py:82 | quantizing commutes with negation |
| MoneyValues.Make | src/moneyed/classes.py:75-82 | `Money(amount, currency)` keeps the currency and holds the amount quantized half-even to its places, within half a unit of the given amount |
| MoneyValues.MakeOwnAmount | src/moneyed/classes.py:114-117 | rebuilding a Money from its own amount and currency gives it back |
| MoneyValues.MakeQuantized | src/moneyed/classes.py:144 | quantizing an amount before building a Money, as the operators do, changes nothing |
| MoneyValues.New | src/moneyed/classes.py:75-82 | `Money(amount, code)` succeeds exactly when the upper-cased code is registered, in that currency with the quantized amount; otherwise fails with `CurrencyDoesNotExist` of the upper-cased code |
| MoneyValues.Zero | src/moneyed/classes.py:75 | `Money()` is zero in the currency registered under "BTC", and fails exactly when that code is not registered |
| MoneyValues.LowerCaseCodeResolves | src/moneyed/classes.py:76-77 | "usd" resolves to the US dollar; an unknown "xyz" fails naming "XYZ" |
| MoneyValues.Pos | src/moneyed/classes.py:114-117 | `+m` is `m` |
| MoneyValues.Neg | src/moneyed/classes.py:119-122 | `-m` has m's currency and the negated amount, with no rounding |
| MoneyValues.NegInvolutive | src/moneyed/classes.py:119-122 | negating twice gives `m` back |
| MoneyValues.Abs | src/moneyed/classes.py:182-185 | `abs(m)` has m's currency and the absolute value of its amount, which is never negative |
| MoneyValues.Add | src/moneyed/classes.py:124-135 | succeeds exactly for a Money of the same code or a number, with the quantized sum in m's currency; otherwise `TypeError` |
| MoneyValues.AddExact | src/moneyed/classes.py:126-129 | adding a Money of the same currency is exact: the units add |
| MoneyValues.AddCommutes | src/moneyed/classes.py:124-129 | adding two Moneys of one currency gives the same amount in either order |
| MoneyValues.Sub | src/moneyed/classes.py:137-138 | `m - other` succeeds for a Money of the same code or a number (`Decimal`, `int` or `float`), with the quantized difference; any other non-text operand raises `TypeError` |
| MoneyValues.SubSelf | src/moneyed/classes.py:137-138 | `m - m` is zero in m's currency |
| MoneyValues.SubUndoesAdd | src/moneyed/classes.py:124-138 | `(m + n) - n` is `m` for Moneys of one currency |
| MoneyValues.Times | src/moneyed/classes.py:148-155 | the product of m's amount and a number, quantized in m's currency |
| MoneyValues.TimesMakesProduct | src/moneyed/classes.py:149-151 | quantizing the product and then building the Money is building the Money from the exact product |
| MoneyValues.TimesWhole | src/moneyed/classes.py:152-155 | multiplying by a whole number is exact on units |
| MoneyValues.Mul | src/moneyed/classes.py:140-156 | succeeds exactly for a Money of the same code or a number, with the quantized product; a Money of another currency ends in `AssertionError`, raised by the assert in `MoneyComparisonError`'s constructor (classes.py:51); anything else `TypeError` |
| MoneyValues.Quotient | src/moneyed/classes.py:166-173 | m's amount divided by a non-zero number, quantized in m's currency |
| MoneyValues.Div | src/moneyed/classes.py:158-174 | succeeds exactly for a non-zero Money of the same code or a non-zero number, with the quantized quotient; another currency ends in `AssertionError` from `MoneyComparisonError`'s constructor, a zero divisor in the division error, anything else in `TypeError` |
| MoneyValues.DivSelf | src/moneyed/classes.py:159-163 | a non-zero Money divided by itself is 1 |
| MoneyValues.DivUndoesMul | src/moneyed/classes.py:140-174 | multiplying by a non-zero whole number and dividing by it again gives `m` back |
| MoneyValues.QuotientUndoesTimes | src/moneyed/classes.py:148-173 | the product of a Money and a non-zero whole number, divided by that number, is the Money again |
| MoneyValues.RMod | src/moneyed/classes.py:187-202 | `x % m` succeeds exactly for a number, giving `x * m.amount / 100` in m's currency; a Money raises `TypeError` |
| MoneyValues.RModIsPercentage | src/moneyed/classes.py:187-202 | `x % m` is `m * (x / 100)` |
| MoneyValues.OnePercentOfAMillion | src/moneyed/test_moneyed_classes.py:155-156 | `1 % Money(1000000, 'USD')` is 10000 USD |
| MoneyValues.Equals | src/moneyed/classes.py:211-217 | equal to a Money exactly when amounts and codes agree; to a number exactly when the amount is that number quantized; never to a non-text operand of any other kind |
| MoneyValues.NotEquals | src/moneyed/classes.py:219-221 | `!=` is exactly the negation of `==` |
| MoneyValues.EqualsNumberAsMoney | src/moneyed/classes.py:211-215 | comparing with a number is comparing with the Money of that number in m's currency, and holds exactly when the units match the number's rounded units |
| MoneyValues.EqualsEquivalence | src/moneyed/classes.py:211-213 | Money equality is reflexive, symmetric and transitive |
| MoneyValues.Less | src/moneyed/classes.py:223-232 | `<` succeeds exactly for a Money of the same code or a number, comparing amounts (the number quantized); a Money of another currency ends in `AssertionError` from `MoneyComparisonError`'s constructor; anything else raises `MoneyComparisonError` |
| MoneyValues.Greater | src/moneyed/classes.py:234-243 | `>` succeeds exactly for a Money of the same code or a number, comparing amounts (the number quantized); a Money of another currency ends in `AssertionError` from `MoneyComparisonError`'s constructor; anything else raises `MoneyComparisonError` |
| MoneyValues.ComparesWithZero | src/moneyed/classes.py:211-243 | comparing with 0 reads the sign of the amount |
| MoneyValues.LessEq | src/moneyed/classes.py:245-246 | `<=` fails when `<` fails, and otherwise is `<` or `==` |
| MoneyValues.GreaterEq | src/moneyed/classes.py:248-249 | `>=` fails when `>` fails, and otherwise is `>` or `==` |
| MoneyValues.Trichotomy | src/moneyed/classes.py:223-249 | for one currency, `<=` and `>=` are the order of the amounts and exactly one of `<`, `==`, `>` holds |
| MoneyValues.LessIsConverseGreater | src/moneyed/classes.py:223-243 | `m < n` is `n > m`, failures included |
| MoneyValues.LessNumberAsMoney | src/moneyed/classes.py:229-241 | comparing with a number is comparing with the Money of that number in m's currency |
| MoneyValues.EqualsAcrossCurrencies | src/moneyed/classes.py:141-228 | 1 USD is not equal to 1 EUR; ordering or multiplying them ends in `AssertionError`, because `MoneyComparisonError` refuses a Money argument; adding them raises `TypeError` |
| MoneyValues.RSubAsWritten | src/moneyed/classes.py:205 | the reflected subtraction as written is the forward subtraction `m - x` |
| MoneyValues.RSub | src/moneyed/classes.py:205 | `x - m` succeeds exactly for a number, giving `x - m.amount` in m's currency; anything else raises `TypeError` |
| MoneyValues.RSubNegatesSub | src/moneyed/classes.py:205 | the corrected `x - m` is the negation of `m - x`, the quantized `x - m.amount` |
| MoneyValues.RSubAsWrittenSwapsOperands | src/moneyed/classes.py:205 | `5 - Money(1, 'USD')` is -4 USD as written and 4 USD corrected |
| Holdings.Deposit | src/moneyed/classes.py:303-307 | `addMoney` adds m's code to the keys and changes no other entry; the entry of that code keeps the held currency and holds the quantized sum, or is `m` itself when the code was absent |
| Holdings.DepositAdds | src/moneyed/classes.py:303-307 | when the places agree, depositing adds m's amount to its own currency and to no other |
| Holdings.Collect | src/moneyed/classes.py:260-264 | `MultiMoney(*args)` has exactly the codes of its Money arguments; other arguments are ignored |
| Holdings.CollectTotals | src/moneyed/classes.py:260-264 | when each code's arguments share their places, the wallet holds in every currency the total of the Money arguments in that code |
| Holdings.CollectDigits | src/moneyed/classes.py:260-264 | every entry has the places of some argument of its code |
| Holdings.CollectDistinct | src/moneyed/classes.py:260-264 | Moneys of distinct codes are each kept exactly as given |
| Holdings.CollectListing | src/moneyed/classes.py:364-369 | building a wallet from a listing of another wallet's entries gives that wallet back |
| Holdings.Single | src/moneyed/classes.py:471 | `MultiMoney(m)` holds m's amount in m's currency and zero elsewhere |
| Holdings.Negated | src/moneyed/classes.py:371-376 | the same codes, every entry negated in its own currency, every amount negated |
| Holdings.Merged | src/moneyed/classes.py:380-382 | adding a wallet gives the union of the codes; an entry in one wallet only is kept; a shared one is the quantized sum in the left wallet's currency |
| Holdings.MergedAdds | src/moneyed/classes.py:380-382 | when shared entries have the same places, amounts add in every currency |
| Holdings.MergeStep | src/moneyed/classes.py:381-382 | depositing one more entry of the right wallet extends the merge by that code, independently of the order of the entries |
| Holdings.Scaled | src/moneyed/classes.py:411-415 | `wallet * x` keeps the codes and multiplies every entry in its currency |
| Holdings.Divided | src/moneyed/classes.py:436-440 | `wallet / x` fails exactly when x is zero and there is an entry, with the division error; otherwise it keeps the codes and divides every entry |
| Holdings.DividedUndoesScaled | src/moneyed/classes.py:411-440 | multiplying a wallet by a non-zero whole number and dividing by it gives the wallet back |
| Holdings.ZeroFiled | src/moneyed/classes.py:409 | filing `Money(amount=0, currency=code)` succeeds exactly when the upper-cased code is registered, adds its code and changes no amount |
| Holdings.MoneyProduct | src/moneyed/classes.py:405-410 | `wallet * m` succeeds unless m's code is absent and unregistered; the entry of m's code becomes `entry * m`, or holds zero when it was absent; no other currency's amount changes |
| Holdings.MoneyQuotient | src/moneyed/classes.py:430-435 | `wallet / m`: a held entry of m's code becomes `entry / m`, and a zero m raises the division error; an absent one is filed as zero, and fails with `CurrencyDoesNotExist` when unregistered; no other currency's amount changes |
| Holdings.AllCodes | src/moneyed/classes.py:450-469 | two wallets are the same exactly when every currency holds the same amount, a missing code counting as zero, and dominated exactly when every amount is at most the other's |
| Holdings.DominatedSplit | src/moneyed/classes.py:486-494 | dominance is the two loops of `__lt__`: each entry of the operand is at least the wallet's, and the wallet's extra entries are not positive |
| Holdings.SameHoldingsEquivalence | src/moneyed/classes.py:450-476 | wallet equality is reflexive, symmetric and transitive |
| Holdings.DominatedAntisymmetric | src/moneyed/classes.py:541-545 | each wallet dominated by the other exactly when they are the same |
| Holdings.BelowStrictPartialOrder | src/moneyed/classes.py:481-495 | `<` on wallets is irreflexive, asymmetric and transitive |
| Holdings.AboveIsConverse | src/moneyed/classes.py:510-526 | `a > b` on wallets is `b < a` |
| Holdings.IncomparableWallets | src/moneyed/classes.py:481-526 | two wallets can be unequal with neither below the other |
| Holdings.EqualsSpec | src/moneyed/classes.py:450-476 | `==` against a wallet, a Money (as a one-entry wallet) or a number (as a Money in the "BTC" currency) is zero-default equality; without "BTC" registered a number raises `CurrencyDoesNotExist`; anything else raises `TypeError` |
| Holdings.NotEqualsSpec | src/moneyed/classes.py:478-479 | `!=` fails when `==` does and otherwise negates it |
| Holdings.ZeroWalletEqualsZero | src/moneyed/classes.py:472-473 | a wallet of zeros equals the number 0 |
| Holdings.LessSpec | src/moneyed/classes.py:481-508 | `<`: against a wallet, strict dominance; against a Money, the entry of its code is below it or, when there is none, the Money is not negative; against a number, every amount is below it; anything else `TypeError` |
| Holdings.GreaterSpec | src/moneyed/classes.py:510-539 | `>`: the mirror of `<` in all four cases |
| Holdings.LessEqSpec | src/moneyed/classes.py:541-542 | `<=` fails when `<` does, is true when `<` is, and is `==` otherwise |
| Holdings.GreaterEqSpec | src/moneyed/classes.py:544-545 | `>=` fails when `>` does, is true when `>` is, and is `==` otherwise |
| Holdings.LessEqIsDominance | src/moneyed/classes.py:541-545 | against a wallet, `<=` is dominance and `>=` is dominance the other way |
| Holdings.EmptyWalletBetweenAllNumbers | src/moneyed/classes.py:502-537 | an empty wallet is both below and above every number |
| Holdings.FetchAsWritten | src/moneyed/classes.py:320-326 | `getMoneys(code)` as written: a held code returns its entry; an unregistered one raises `CurrencyDoesNotExist`; otherwise a zero is filed under the registered currency's code, and reading the given code back raises `KeyError` unless that is the code given |
| Holdings.Fetch | src/moneyed/classes.py:320-326 | the corrected lookup succeeds exactly when the code is held or registered; a held code returns its entry; for an absent, registered code a zero of that currency is deposited and the entry under the currency's code is returned; no code is lost and no amount changes |
| Holdings.DepositZero | src/moneyed/classes.py:324 | filing a zero changes no amount |
| Holdings.FetchAsWrittenLosesLowerCase | src/moneyed/classes.py:320-326 | on an empty wallet `getMoneys('usd')` files a zero under "USD" and raises `KeyError('usd')`; the corrected lookup returns that zero |
| Wallets.Order | src/moneyed/classes.py:314 | a dictionary's iteration lists every key exactly once |
| Wallets.EntriesMatch | src/moneyed/classes.py:452-460 | one loop of `__eq__` is true exactly when every entry of the operand equals the wallet's amount in its code |
| Wallets.SameAs | src/moneyed/classes.py:451-469 | both loops of `__eq__` decide zero-default equality |
| Wallets.NoneAboveEntries | src/moneyed/classes.py:486-491 | the first loop of `__lt__` is true exactly when no amount of the wallet exceeds the operand's in the operand's codes |
| Wallets.NoPositiveExtras | src/moneyed/classes.py:492-494 | the second loop of `__lt__` is true exactly when no extra entry of the wallet is positive |
| Wallets.NoneBelowEntries | src/moneyed/classes.py:514-519 | the first loop of `__gt__` is true exactly when no amount of the wallet is below the operand's in the operand's codes |
| Wallets.NoNegativeExtras | src/moneyed/classes.py:520-525 | the second loop of `__gt__` is true exactly when no extra entry of the wallet is negative |
| Wallets.DominatedBy | src/moneyed/classes.py:486-495 | the loops of `__lt__` decide dominance |
| Wallets.Dominates | src/moneyed/classes.py:514-526 | the loops of `__gt__` decide dominance the other way |
| Wallets.Listing | src/moneyed/classes.py:290-291 | the entries `prep_json` writes list the wallet: one per code, under the code, holding that Money's encoding |
| Wallets.ListingOfOrder | src/moneyed/classes.py:289-291 | writing one entry per key, in any iteration order, lists the wallet |
| Wallets.MultiMoney.constructor | src/moneyed/classes.py:260-264 | the new wallet holds what depositing the Money arguments in order gives |
| Wallets.MultiMoney.AddMoney | src/moneyed/classes.py:303-307 | `addMoney` updates `moneys` in place to the deposit |
| Wallets.MultiMoney.GetCurrencies | src/moneyed/classes.py:312-318 | an empty wallet reports `['BTC']`; otherwise every held code exactly once |
| Wallets.MultiMoney.GetMoneys | src/moneyed/classes.py:320-326 | the result and the updated wallet are those of the corrected lookup |
| Wallets.MultiMoney.AllMoneys | src/moneyed/classes.py:326 | `getMoneys()` yields every entry exactly once |
| Wallets.MultiMoney.IsEmpty | src/moneyed/classes.py:297-301 | true exactly when no entry is positive |
| Wallets.MultiMoney.Copy | src/moneyed/classes.py:281-285 | a new wallet with the same entries |
| Wallets.MultiMoney.Pos | src/moneyed/classes.py:364-369 | a new wallet with the same entries |
| Wallets.MultiMoney.Neg | src/moneyed/classes.py:371-376 | a new wallet with every entry negated |
| Wallets.MultiMoney.Add | src/moneyed/classes.py:378-388 | a new wallet merging a wallet operand or depositing a Money; anything else `TypeError` |
| Wallets.MultiMoney.Sub | src/moneyed/classes.py:390-391 | a new wallet merging the negated wallet or depositing the negated Money; anything else `TypeError` |
| Wallets.MultiMoney.Mul | src/moneyed/classes.py:393-416 | a number scales every entry; a Money gives the wallet-by-Money product; a wallet always ends in an exception, `TypeError` whenever every code involved is held or registered; anything else `TypeError` |
| Wallets.MultiMoney.Div | src/moneyed/classes.py:418-441 | a number divides every entry, failing as the division does; a Money gives the wallet-by-Money quotient; a wallet succeeds only when both wallets are empty; anything else `TypeError` |
| Wallets.MultiMoney.DivByWallet | src/moneyed/classes.py:420-429 | dividing by a wallet succeeds exactly when both are empty, and otherwise raises `AttributeError`, the division error or `CurrencyDoesNotExist` |
| Wallets.MultiMoney.DivByNumber | src/moneyed/classes.py:436-440 | dividing by a number gives what `Holdings.Divided` specifies, failure included |
| Wallets.MultiMoney.DivEntries | src/moneyed/classes.py:438-440 | the loop divides every entry by a non-zero number |
| Wallets.MultiMoney.Equals | src/moneyed/classes.py:450-476 | `==` gives what `Holdings.EqualsSpec` specifies |
| Wallets.MultiMoney.NotEquals | src/moneyed/classes.py:478-479 | `!=` gives what `Holdings.NotEqualsSpec` specifies |
| Wallets.MultiMoney.AllBelow | src/moneyed/classes.py:503-506 | true exactly when every amount is below the number |
| Wallets.MultiMoney.AllAbove | src/moneyed/classes.py:534-537 | true exactly when every amount is above the number |
| Wallets.MultiMoney.Less | src/moneyed/classes.py:481-508 | `<` gives what `Holdings.LessSpec` specifies |
| Wallets.MultiMoney.Greater | src/moneyed/classes.py:510-539 | `>` gives what `Holdings.GreaterSpec` specifies |
| Wallets.MultiMoney.LessEq | src/moneyed/classes.py:541-542 | `<=` gives what `Holdings.LessEqSpec` specifies |
| Wallets.MultiMoney.GreaterEq | src/moneyed/classes.py:544-545 | `>=` gives what `Holdings.GreaterEqSpec` specifies |
| Wallets.MultiMoney.PrepJson | src/moneyed/classes.py:287-292 | the encoding is `{'mm': True}` followed by a listing of the wallet |
| Documents.Lookup | src/moneyed/encoding.py:40 | `d[key]` is absent exactly when no entry has the key, and otherwise is held by an entry with that key |
| Documents.MoneyJsonEntries | src/moneyed/classes.py:108-109 | a Money's encoding has exactly the keys "a" and "c", holding its amount as text and its code |
| Documents.ListingCoversWallet | src/moneyed/classes.py:290-291 | a listing names every code of the wallet |
| Encoding.DecodeMoney | src/moneyed/encoding.py:56-59 | a value that is not an encoded Money comes back unchanged; an encoded one decodes exactly when its upper-cased code is registered and its amount converts, into that currency with the quantized amount, and otherwise fails with the lookup's or the conversion's exception |
| Encoding.MultiMoneyDecoding | src/moneyed/encoding.py:46-54 | a value without `mm: True` comes back unchanged; otherwise the wallet accumulated from every other entry, or the first failure |
| Encoding.DecodeMultiMoney | src/moneyed/encoding.py:46-54 | the loop that adds each decoded entry to a new MultiMoney gives that wallet or that failure |
| Encoding.DecodeEntriesFailurePersists | src/moneyed/encoding.py:49-52 | once an entry fails, later entries do not change the outcome |
| Encoding.MoneyObjectHook | src/moneyed/encoding.py:32-37 | the hook decodes a wallet when `mm` is `True`, and otherwise decodes a Money, leaving any other value as it is |
| Encoding.IncomingValue | src/moneyed/encoding.py:63-69 | on the way in, the result is a dictionary exactly when the value was a dictionary or a live Money; other values are untouched |
| Encoding.IncomingFields | src/moneyed/encoding.py:64-68 | every entry keeps its key and position, and its value is encoded |
| Encoding.TransformIncoming | src/moneyed/encoding.py:63-69 | the loop that overwrites each entry in place gives the encoded entries |
| Encoding.OutgoingValue | src/moneyed/encoding.py:73-79 | on the way out, non-dictionaries are untouched; a dictionary is decoded as a Money first, and only otherwise as a wallet |
| Encoding.OutgoingFields | src/moneyed/encoding.py:71-80 | a successful rewrite keeps every key in place |
| Encoding.OutgoingFailurePersists | src/moneyed/encoding.py:72-79 | once an entry fails, later entries do not change the outcome |
| Encoding.TransformOutgoingValue | src/moneyed/encoding.py:73-79 | the recursive rewrite of one value gives `OutgoingValue` |
| Encoding.TransformOutgoing | src/moneyed/encoding.py:71-80 | the loop that overwrites each entry in place gives `OutgoingFields`, failure included |
| Encoding.OutgoingKeepsFlatEntries | src/moneyed/encoding.py:72-73 | a document without nested dictionaries comes out as it went in |
| Encoding.TopLevelNotDecoded | src/moneyed/encoding.py:71-80 | the document itself is never decoded: a top-level Money encoding stays a dictionary, while one level down it becomes the Money |
| Encoding.StandardMoneyDecodable | src/moneyed/encoding.py:56-59 | every Money whose currency is the standard table's entry for its code decodes back from its encoding |
| Encoding.MoneyJsonRecognised | src/moneyed/encoding.py:39-44 | a Money's encoding is recognised as one exactly when its code has three characters, giving back its code and amount, and is never a wallet encoding |
| Encoding.DecodeMoneyRoundTrip | src/moneyed/encoding.py:56-59 | when its code resolves to its own currency, decoding a Money's encoding, directly or through the hook, gives the Money back; a code not three characters long leaves the dictionary as it is |
| Encoding.DefaultCurrencyComesBackAsBitcoin | src/moneyed/encoding.py:56-59 | a Money in the 5-place default currency comes back in the 8-place Bitcoin currency, equal by `==` but not the same value |
| Encoding.EncodedWalletIsNotMoney | src/moneyed/encoding.py:32-44 | a wallet's encoding reads as a wallet and not as a Money |
| Encoding.EncodedWalletDecodes | src/moneyed/encoding.py:46-54 | the entries of a wallet's encoding accumulate to that wallet |
| Encoding.DecodeWalletRoundTrip | src/moneyed/encoding.py:32-54 | decoding a wallet's encoding, through `decodeMultiMoney`, the hook or the outgoing transform, gives the wallet back |
| Encoding.IncomingLeavesNoMoney | src/moneyed/encoding.py:63-69 | after the incoming transform no live Money is left, at the top or in any nested dictionary |
| Encoding.IncomingChangesOnlyMoney | src/moneyed/encoding.py:63-69 | the incoming transform changes a value exactly when it holds a live Money, at the top or in a nested dictionary |
| Encoding.IncomingIdempotent | src/moneyed/encoding.py:63-69 | encoding twice is encoding once |
| Encoding.LookupIncoming | src/moneyed/encoding.py:64-68 | after the incoming transform each key holds its encoded value |
| Encoding.OutgoingUndoesIncoming | src/moneyed/encoding.py:63-80 | for a document whose Moneys decode and whose own dictionaries do not read as encodings, decoding after encoding gives it back |
| Encoding.OutgoingUndoesIncomingFields | src/moneyed/encoding.py:63-80 | the same round trip, entry by entry |
| Encoding.HookAndOutgoingDisagree | src/moneyed/encoding.py:32-77 | `{mm: True, a: 1.0, c: 'USD'}` is a failed wallet to the hook, which tests `mm` first, and a Money to the outgoing transform, which tests for a Money first |
| Encoding.HookRejectsAmountEntry | src/moneyed/encoding.py:32-54 | the hook raises `TypeError` on that dictionary, because its amount entry cannot be added to a wallet |
| Encoding.OutgoingAcceptsMoneyEntries | src/moneyed/encoding.py:73-75 | the outgoing transform decodes that dictionary as 1 USD |

## Left out

- Amount text is not parsed, and the decimal module's special values are not modelled. `Numeral(x)` is text that spells the finite decimal `x`, and `Str` is any other text, which the model always rejects with `DecimalException`. The decimal module accepts `'NaN'`, `'Infinity'` and their variants, so `Money('NaN', 'USD')` succeeds in the source with a NaN amount, where `Encoding.DecimalOf(Str("NaN"))` fails.
- MoneyValues.Add, MoneyValues.Sub, MoneyValues.Mul, MoneyValues.Div, MoneyValues.Equals, MoneyValues.Less, MoneyValues.Greater and the Wallets.MultiMoney operators have no text operand: `OfNumber` and `NumberArg` stand for a `Decimal`, `int` or `float`, and `OfOther` and `OtherArg` for anything that is neither text, a number nor a Money. The source also accepts a `str` wherever it accepts an `int` (classes.py:132-134, 152-155, 170-173, 214-215, 229-230, 240-241, 411-414, 436-440), and then:
  - a numeral `str` behaves like the number it spells in `+`, `*`, `/`, `==`, `<` and `>` on a Money, and in `*` and `/` on a wallet;
  - `m - '5'` raises `TypeError`, because `__sub__` negates its operand first (classes.py:138) and text has no negation;
  - a `str` that is not a numeral raises `InvalidOperation` from `Decimal(other)`, including in `m == 'abc'`, which therefore does not return `False`;
  - wallet comparisons (`==`, `<`, `>`, classes.py:470-475, 502-508, 533-539) test for `float`, `int` or `Decimal` only, and raise `TypeError` for any text, while `wallet * '2'` succeeds.
- Floats are not modelled: a number is an exact decimal.
- Amounts in the model are exact and unbounded. The source works in the decimal module's default 28-significant-digit context: `+`, `*` and `/` round their result to 28 digits before `quantize`, so an amount can be rounded twice, and `quantize` raises `InvalidOperation` when its result needs more than 28 digits (`Money(10**26, 'USD') + Money('0.01', 'USD')`). Neither is modelled.
- `normalize()` after `quantize` is not modelled; it changes only how an amount is spelled, not its value.
- `repr`, `str`, `format_money`, `to_json`, pickling (`__getstate__`, `__setstate__`), `__dict__`, and the `MSONEncoder`/`MSONDecoder` wrappers are left out; they format or delegate to the functions the model has.
- encoding.py does not load as written. `MSONDecoder.__init__` names `money_object_hook` as a default argument (encoding.py:25), and Python evaluates that default while the class body runs, before `money_object_hook` is defined (encoding.py:32). So `import moneyed.encoding` raises `NameError`, and none of its functions can be reached. The `Encoding` module models those functions as if the module had loaded, for example with `MSONDecoder` defined after them.
- The pymongo `SONManipulator` base class is not part of this model. The `collection` argument is ignored by the source and left out.
- `copy.copy` of a Money (`__copy__`) looks its currency up again by code. The model copies the value instead, so a Money in the 5-place default currency stays in it.
- `MultiMoney.__copy__` rebuilds the wallet with `+=` of `copy.copy` of each entry, so it looks every currency up again by code. Wallets.MultiMoney.Copy, Wallets.MultiMoney.Add, Wallets.MultiMoney.Sub and Wallets.MultiMoney.PrepJson, which copy first in the source (classes.py:379, :289), keep each entry's currency instead. The source raises `CurrencyDoesNotExist` there for an entry whose currency is not registered, and turns an entry in the 5-place default currency into 8-place Bitcoin; the model's members succeed and keep the entry as it is.
- Operands are passed by value: a wallet operand is a snapshot of its entries. The model does not capture `w * w` or `w == w` on one object.
- Only the currencies the model uses are in the standard table: BTC (twice), EUR, JPY, PLN and USD. Their country lists are dropped.
- The reflected operators `__radd__`, `__rmul__` and `__rtruediv__` are the forward ones. `x * m` and `x + m` are `Mul` and `Add`. `x / m` as reflected division is left out: the source computes `m / x` for it, and the model has no member for that case.
- `/` is dispatched by the calling module's division flag. Code compiled with `from __future__ import division` reaches `__truediv__`, which Money defines and MultiMoney does not; code compiled without it, such as the test module, reaches `__div__`, which MultiMoney defines and Money does not, so `Money / x` there raises `TypeError`. MoneyValues.Div models `Money.__truediv__`, and Wallets.MultiMoney.Div models `MultiMoney.__div__`; the failed dispatch on the other side is not modelled.
- Python 2 `long` integers are treated as numbers. The source's type tests name `Decimal`, `float`, `int` and `str` only, so beyond the machine word it rejects the number: `Money(1, 'USD') * 10**20` raises `TypeError`, `Money(1, 'USD') == 10**20` is `False`, `Money(1, 'USD') < 10**20` raises `MoneyComparisonError`, and a wallet compared with it raises `TypeError`. The model computes a result for every number.
- Under `python -O` the assert in `MoneyComparisonError`'s constructor is skipped, and a Money in another currency raises `MoneyComparisonError` instead of `AssertionError`. The model follows the default interpreter.
- Currencies.CurrencyEquals: `OfText` stands for a byte string (`str`). Under `unicode_literals`, a `unicode` code such as one decoded from JSON is not a `str`, and the source compares it as `False`; the model has no separate case for it.
- Dictionaries map each key once. A `Dict` is a list of entries and may repeat a key; `Lookup` reads the first.
- Encoding.DecimalOf maps a list, the decimal module's tuple form, to `TypeError`.
- MoneyValues.RMod fails with `TypeError` for every operand that is not a number. The source calls `Decimal(other)` (classes.py:200-202), which raises `ValueError` on a list and accepts a 3-tuple in the decimal module's tuple form.
- Encoding.IsEncodedMoney reads a "c" entry holding numeral text, such as "100", as not text. `Numeral` keeps an amount's value, not its spelling.
- Documents.EncodesWallet fixes the `mm` entry first, as one order `prep_json`'s dictionary may iterate in. Python 2 dictionaries promise no order, and `decodeMultiMoney` skips `mm` wherever it is. Encoding.DecodeWalletRoundTrip is proved for that layout only.
- Encoding.TransformIncoming and Encoding.TransformOutgoing overwrite entries of a sequence value. When an entry fails, the source has already rewritten the earlier entries of the caller's dictionary. The model returns only the failure.
- Wallets.MultiMoney.Mul and Wallets.MultiMoney.Div file the zero for an absent currency with a deposit. When the registered currency's code differs from the operand's code, the source files it under the operand's code instead; a wallet in the model always files a Money under its own code.
- Wallets.MultiMoney.Mul states, for a wallet operand, only that it fails and with which exceptions. It names the exception exactly when every code involved is held or registered, because which of several failing codes is reported depends on iteration order.
- Wallets.MultiMoney.DivByWallet names its exception only as one of `AttributeError`, the division error and `CurrencyDoesNotExist`. Which one comes first depends on the order of the operand's entries; the source ends in `AttributeError` whenever the quotient is not empty.

## Findings

| source | as written | input that shows it | evidently intended | confidence | as-written member | corrected member |
|---|---|---|---|---|---|---|
| src/moneyed/classes.py:205 | `__rsub__ = __sub__`, so `x - m` computes `m - x` | `5 - Money(1, 'USD')` gives -4 USD (MoneyValues.RSubAsWrittenSwapsOperands) | `x - m` is `x - m.amount` in m's currency, 4 USD | not executed | MoneyValues.RSubAsWritten | MoneyValues.RSub |
| src/moneyed/classes.py:320-326 | `getMoneys(code)` files the zero under the upper-cased code, then reads `self.moneys[code]` with the code as given | `getMoneys('usd')` on an empty wallet raises `KeyError('usd')` after filing 0 USD (Holdings.FetchAsWrittenLosesLowerCase) | return the Money filed for that currency | not executed | Holdings.FetchAsWritten | Holdings.Fetch |
