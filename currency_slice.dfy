/**
 * The currency slice of the store: the balances in the three platform
 * currencies, the transaction history (newest first), the exchange rates to
 * USD and the request flags.
 */
module CurrencySlice {
  import opened Wrappers
  import opened Data

  datatype Coin = V | Y | Q

  datatype TxType = Send | Receive | Purchase | Reward

  datatype Transaction = Transaction(
    id: string,
    kind: TxType,
    coin: Coin,
    amount: real,
    from: string,
    to: string,
    description: string,
    timestamp: string)

  datatype ExchangeRates = ExchangeRates(vToUsd: real, yToUsd: real, qToUsd: real)

  datatype CurrencyState = CurrencyState(
    balances: Balances,
    transactions: seq<Transaction>,
    exchangeRates: ExchangeRates,
    loading: bool,
    error: Option<string>)

  const InitialRates := ExchangeRates(0.9, 1.0, 10.0)

  const InitialState := CurrencyState(Balances(0.0, 0.0, 0.0), [], InitialRates, false, None)

  /** `balances[c]`. */
  function BalanceOf(b: Balances, c: Coin): real {
    match c
    case V => b.v
    case Y => b.y
    case Q => b.q
  }

  /** `balances[c] += amount`: signed, with no floor at zero, the other two balances untouched. */
  function Credit(b: Balances, c: Coin, amount: real): (r: Balances)
    ensures BalanceOf(r, c) == BalanceOf(b, c) + amount
    ensures forall d :: d != c ==> BalanceOf(r, d) == BalanceOf(b, d)
  {
    match c
    case V => b.(v := b.v + amount)
    case Y => b.(y := b.y + amount)
    case Q => b.(q := b.q + amount)
  }

  /** Balances are equal when they agree in every currency. */
  lemma BalancesExt(a: Balances, b: Balances)
    requires forall c :: BalanceOf(a, c) == BalanceOf(b, c)
    ensures a == b
  {
    assert BalanceOf(a, V) == BalanceOf(b, V);
    assert BalanceOf(a, Y) == BalanceOf(b, Y);
    assert BalanceOf(a, Q) == BalanceOf(b, Q);
  }

  /** The payload of one `updateBalance` action. */
  datatype BalanceUpdate = BalanceUpdate(coin: Coin, amount: real)

  /** The balances after dispatching the updates in order. */
  function ApplyAll(b: Balances, us: seq<BalanceUpdate>): Balances
    decreases |us|
  {
    if us == [] then b else ApplyAll(Credit(b, us[0].coin, us[0].amount), us[1..])
  }

  /** The sum of the amounts of the updates for currency `c`. */
  function SumFor(us: seq<BalanceUpdate>, c: Coin): real
    decreases |us|
  {
    if us == [] then 0.0 else Contribution(us[0], c) + SumFor(us[1..], c)
  }

  lemma {:induction false} SumForConcat(a: seq<BalanceUpdate>, b: seq<BalanceUpdate>, c: Coin)
    ensures SumFor(a + b, c) == SumFor(a, c) + SumFor(b, c)
  {
    if a == [] {
      assert a + b == b;
    } else {
      SumForConcat(a[1..], b, c);
      assert (a + b)[1..] == a[1..] + b;
    }
  }

  function Contribution(u: BalanceUpdate, c: Coin): real {
    if u.coin == c then u.amount else 0.0
  }

  /** Taking one update out of the middle takes its contribution out of the sum. */
  lemma SumForRemoveAt(b: seq<BalanceUpdate>, j: int, c: Coin)
    requires 0 <= j < |b|
    ensures SumFor(b, c) == Contribution(b[j], c) + SumFor(b[..j] + b[j + 1..], c)
  {
    assert b == b[..j] + [b[j]] + b[j + 1..];
    SumForConcat(b[..j] + [b[j]], b[j + 1..], c);
    SumForConcat(b[..j], [b[j]], c);
    SumForConcat(b[..j], b[j + 1..], c);
    assert [b[j]][1..] == [];
  }

  lemma MultisetRemoveAt(a: seq<BalanceUpdate>, b: seq<BalanceUpdate>, j: int)
    requires a != [] && multiset(a) == multiset(b) && 0 <= j < |b| && b[j] == a[0]
    ensures multiset(a[1..]) == multiset(b[..j] + b[j + 1..])
  {
    assert b == b[..j] + [b[j]] + b[j + 1..];
    assert a == [a[0]] + a[1..];
    assert multiset(b) == multiset(b[..j]) + multiset{b[j]} + multiset(b[j + 1..]);
    assert multiset(a[1..]) == multiset(a) - multiset{a[0]};
  }

  /** The per-currency sums depend only on which updates there are, not on their order. */
  lemma {:induction false} SumForPermutation(a: seq<BalanceUpdate>, b: seq<BalanceUpdate>, c: Coin)
    requires multiset(a) == multiset(b)
    ensures SumFor(a, c) == SumFor(b, c)
    decreases |a|
  {
    if a == [] {
      assert |b| == |multiset(b)| == 0;
    } else {
      assert a[0] in multiset(b);
      var j :| 0 <= j < |b| && b[j] == a[0];
      MultisetRemoveAt(a, b, j);
      SumForPermutation(a[1..], b[..j] + b[j + 1..], c);
      SumForRemoveAt(b, j, c);
    }
  }

  /**
   * One more `updateBalance` after a run of them is one more `Credit`, so
   * `ApplyAll` is what the reducer computes over a run of dispatches.
   */
  lemma {:induction false} ApplyAllSnoc(b: Balances, us: seq<BalanceUpdate>, u: BalanceUpdate)
    ensures ApplyAll(b, us + [u]) == Credit(ApplyAll(b, us), u.coin, u.amount)
    decreases |us|
  {
    if us == [] {
      assert us + [u] == [u];
      assert [u][1..] == [];
    } else {
      assert (us + [u])[1..] == us[1..] + [u];
      ApplyAllSnoc(Credit(b, us[0].coin, us[0].amount), us[1..], u);
    }
  }

  /** Each balance ends at its start value plus the sum of that currency's amounts. */
  lemma {:induction false} ApplyAllBalance(b: Balances, us: seq<BalanceUpdate>, c: Coin)
    ensures BalanceOf(ApplyAll(b, us), c) == BalanceOf(b, c) + SumFor(us, c)
    decreases |us|
  {
    if us != [] {
      ApplyAllBalance(Credit(b, us[0].coin, us[0].amount), us[1..], c);
    }
  }

  /** Dispatching the same updates in any order gives the same balances. */
  lemma ApplyAllOrderIndependent(b: Balances, us1: seq<BalanceUpdate>, us2: seq<BalanceUpdate>)
    requires multiset(us1) == multiset(us2)
    ensures ApplyAll(b, us1) == ApplyAll(b, us2)
  {
    forall c ensures BalanceOf(ApplyAll(b, us1), c) == BalanceOf(ApplyAll(b, us2), c) {
      ApplyAllBalance(b, us1, c);
      ApplyAllBalance(b, us2, c);
      SumForPermutation(us1, us2, c);
    }
    BalancesExt(ApplyAll(b, us1), ApplyAll(b, us2));
  }

  class CurrencyStore {
    var balances: Balances
    var transactions: seq<Transaction>
    var exchangeRates: ExchangeRates
    var loading: bool
    var error: Option<string>

    function State(): CurrencyState
      reads this
    {
      CurrencyState(balances, transactions, exchangeRates, loading, error)
    }

    /** Every balance starts at 0 and the rates at V 0.9, Y 1.0, Q 10.0 USD. */
    constructor ()
      ensures State() == InitialState
      ensures forall c :: BalanceOf(balances, c) == 0.0
      ensures exchangeRates.vToUsd == 0.9 && exchangeRates.yToUsd == 1.0 && exchangeRates.qToUsd == 10.0
    {
      balances := Balances(0.0, 0.0, 0.0);
      transactions := [];
      exchangeRates := InitialRates;
      loading, error := false, None;
    }

    method SetBalances(payload: Balances)
      modifies this
      ensures State() == old(State()).(balances := payload)
    {
      balances := payload;
    }

    method UpdateBalance(c: Coin, amount: real)
      modifies this
      ensures State() == old(State()).(balances := Credit(old(balances), c, amount))
    {
      match c
      case V => balances := balances.(v := balances.v + amount);
      case Y => balances := balances.(y := balances.y + amount);
      case Q => balances := balances.(q := balances.q + amount);
    }

    /** `unshift`: the newest transaction comes first, the older ones follow in order. */
    method AddTransaction(t: Transaction)
      modifies this
      ensures State() == old(State()).(transactions := [t] + old(transactions))
      ensures |transactions| == |old(transactions)| + 1 && transactions[0] == t
      ensures transactions[1..] == old(transactions)
    {
      transactions := [t] + transactions;
    }

    method SetTransactions(payload: seq<Transaction>)
      modifies this
      ensures State() == old(State()).(transactions := payload)
    {
      transactions := payload;
    }

    method SetExchangeRates(payload: ExchangeRates)
      modifies this
      ensures State() == old(State()).(exchangeRates := payload)
    {
      exchangeRates := payload;
    }

    method SetLoading(payload: bool)
      modifies this
      ensures State() == old(State()).(loading := payload)
    {
      loading := payload;
    }

    /** `setError(null)` clears the message. */
    method SetError(payload: Option<string>)
      modifies this
      ensures State() == old(State()).(error := payload)
    {
      error := payload;
    }
  }
}
