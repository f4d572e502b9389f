/**
 * The wallet page: the rate table, the exchange preview, the balance cards
 * with their USD estimate and bar, the per-currency history tabs with the
 * incoming/outgoing sign, the receiving address and the two dialogs whose
 * buttons only reset their forms.
 */
module Wallet {
  import opened Wrappers
  import opened Data
  import CurrencySlice
  import Seqs

  type Coin = CurrencySlice.Coin

  /** The page's own transaction record, which also knows exchanges and a status. */
  datatype TxKind = Send | Receive | Purchase | Reward | Exchange

  datatype WalletTransaction = WalletTransaction(
    id: string,
    kind: TxKind,
    coin: Coin,
    amount: real,
    from: string,
    to: string,
    description: string,
    timestamp: string,
    completed: bool)

  /** The `exchangeRate` of `currencyInfo`: USD per unit. */
  function Rate(c: Coin): (r: real)
    ensures r > 0.0
  {
    match c
    case V => 0.9
    case Y => 1.0
    case Q => 10.0
  }

  /** The page's table agrees with the rates the currency slice starts with. */
  lemma RatesAgreeWithSlice()
    ensures Rate(CurrencySlice.V) == CurrencySlice.InitialRates.vToUsd
    ensures Rate(CurrencySlice.Y) == CurrencySlice.InitialRates.yToUsd
    ensures Rate(CurrencySlice.Q) == CurrencySlice.InitialRates.qToUsd
  {
  }

  /** The USD value of an amount of a currency. */
  function UsdValue(amount: real, c: Coin): real {
    amount * Rate(c)
  }

  /**
   * `getExchangeAmount`: 0 while the amount field is empty (`None`),
   * otherwise the amount converted through USD; the result has the same USD
   * value as the amount, so nothing is taken as a fee.
   */
  function ExchangeAmount(amount: Option<real>, from: Coin, to: Coin): (r: real)
    ensures amount.None? ==> r == 0.0
    ensures amount.Some? ==> UsdValue(r, to) == UsdValue(amount.value, from)
  {
    if amount.None? then 0.0 else amount.value * Rate(from) / Rate(to)
  }

  /**
   * Converting to the same currency gives the amount back; converting there
   * and back gives the original amount; and no fee is deducted, although
   * the dialog announces one of 2%.
   */
  lemma ExchangeFacts(amount: real, from: Coin, to: Coin)
    ensures ExchangeAmount(Some(amount), from, from) == amount
    ensures ExchangeAmount(Some(ExchangeAmount(Some(amount), from, to)), to, from) == amount
    ensures ExchangeAmount(Some(amount), from, to) != amount * Rate(from) / Rate(to) * 0.98 <==> amount != 0.0
  {
    var r := ExchangeAmount(Some(amount), from, to);
    assert r * Rate(to) == amount * Rate(from);
    var back := ExchangeAmount(Some(r), to, from);
    assert back * Rate(from) == amount * Rate(from);
  }

  /** The approximate USD value printed under a balance. */
  function UsdEstimate(balance: real, c: Coin): (usd: real)
    ensures balance >= 0.0 ==> usd >= 0.0
    ensures usd / Rate(c) == balance
  {
    UsdValue(balance, c)
  }

  /** The bar under a balance: its percentage of 5000, with no clamping. */
  function PercentOfMax(balance: real): (pct: real)
    ensures pct * 5000.0 == balance * 100.0
    ensures 0.0 <= balance <= 5000.0 ==> 0.0 <= pct <= 100.0
    ensures balance > 5000.0 ==> pct > 100.0
    ensures balance < 0.0 ==> pct < 0.0
  {
    balance / 5000.0 * 100.0
  }

  // ---------------------------------------------------------------- history

  /** The transactions listed on tab `tab`: all on tab 0, one currency on tabs 1 to 3, none on any other. */
  function TabTransactions(txs: seq<WalletTransaction>, tab: int): seq<WalletTransaction> {
    if tab == 0 then txs
    else if tab == 1 then InCoin(txs, CurrencySlice.V)
    else if tab == 2 then InCoin(txs, CurrencySlice.Y)
    else if tab == 3 then InCoin(txs, CurrencySlice.Q)
    else []
  }

  function InCoin(txs: seq<WalletTransaction>, c: Coin): seq<WalletTransaction> {
    Seqs.Filter(txs, (t: WalletTransaction) => t.coin == c)
  }

  /** The currency of tab `tab`, for the three currency tabs. */
  function TabCoin(tab: int): Option<Coin> {
    if tab == 1 then Some(CurrencySlice.V)
    else if tab == 2 then Some(CurrencySlice.Y)
    else if tab == 3 then Some(CurrencySlice.Q)
    else None
  }

  /**
   * Each currency tab lists exactly the transactions in its currency, in
   * their original order; the first tab lists everything.
   */
  lemma TabFacts(txs: seq<WalletTransaction>, tab: int)
    ensures tab == 0 ==> TabTransactions(txs, tab) == txs
    ensures TabCoin(tab).Some? ==>
      && (forall t :: t in TabTransactions(txs, tab) <==> t in txs && t.coin == TabCoin(tab).value)
      && Seqs.IsSubsequence(TabTransactions(txs, tab), txs)
  {
    if TabCoin(tab).Some? {
      Seqs.FilterIsSubsequence(txs, (t: WalletTransaction) => t.coin == TabCoin(tab).value);
    }
  }

  /** Every transaction is listed on exactly one currency tab: the three tabs' lengths add up to the history's. */
  lemma {:induction false} CoinTabsPartition(txs: seq<WalletTransaction>)
    ensures |InCoin(txs, CurrencySlice.V)| + |InCoin(txs, CurrencySlice.Y)| + |InCoin(txs, CurrencySlice.Q)| == |txs|
  {
    if txs != [] {
      CoinTabsPartition(txs[1..]);
    }
  }

  predicate Incoming(t: WalletTransaction) {
    t.kind == Receive || t.kind == Reward
  }

  /** The sign before an amount: '+' for what was received or rewarded, '-' for everything else. */
  function Sign(t: WalletTransaction): (s: char)
    ensures s == '+' <==> t.kind in {Receive, Reward}
    ensures s == '-' <==> t.kind in {Send, Purchase, Exchange}
  {
    if Incoming(t) then '+' else '-'
  }

  /** The secondary line: the sender of an incoming transaction, the recipient of any other. */
  function Counterparty(t: WalletTransaction): (text: string)
    ensures t.kind in {Receive, Reward} ==> text == "From: " + t.from
    ensures t.kind !in {Receive, Reward} ==> text == "To: " + t.to
  {
    if Incoming(t) then "From: " + t.from else "To: " + t.to
  }

  datatype TxIcon = SendIcon | ReceiveIcon | SwapIcon | WalletIcon

  /** `getTransactionIcon`: its own icon for sends, receipts and exchanges, the wallet icon otherwise. */
  function IconFor(kind: TxKind): (icon: TxIcon)
    ensures icon == SendIcon <==> kind == Send
    ensures icon == ReceiveIcon <==> kind == Receive
    ensures icon == SwapIcon <==> kind == Exchange
    ensures icon == WalletIcon <==> kind in {Purchase, Reward}
  {
    match kind
    case Send => SendIcon
    case Receive => ReceiveIcon
    case Exchange => SwapIcon
    case _ => WalletIcon
  }

  /** The receiving address: the user's id behind the `ecoscene:` scheme. */
  function Address(u: User): (a: string)
    ensures |a| == 9 + |u.id| && a[..9] == "ecoscene:" && a[9..] == u.id
  {
    "ecoscene:" + u.id
  }

  // ---------------------------------------------------------------- dialogs

  datatype SendForm = SendForm(coin: Coin, amount: string, recipient: string, description: string)

  datatype ExchangeForm = ExchangeForm(from: Coin, to: Coin, amount: string)

  datatype WalletPage = WalletPage(
    tab: int,
    sendOpen: bool,
    exchangeOpen: bool,
    sendForm: SendForm,
    exchangeForm: ExchangeForm)

  const InitialPage := WalletPage(0, false, false,
    SendForm(CurrencySlice.V, "", "", ""), ExchangeForm(CurrencySlice.V, CurrencySlice.Y, ""))

  /** `handleSend`: closes the dialog and resets the form; nothing is sent. */
  function HandleSend(page: WalletPage): (r: WalletPage)
    ensures !r.sendOpen && r.sendForm == InitialPage.sendForm
    ensures r.tab == page.tab && r.exchangeOpen == page.exchangeOpen && r.exchangeForm == page.exchangeForm
  {
    page.(sendOpen := false, sendForm := InitialPage.sendForm)
  }

  /** `handleExchange`: closes the dialog and resets the form; nothing is exchanged. */
  function HandleExchange(page: WalletPage): (r: WalletPage)
    ensures !r.exchangeOpen && r.exchangeForm == InitialPage.exchangeForm
    ensures r.tab == page.tab && r.sendOpen == page.sendOpen && r.sendForm == page.sendForm
  {
    page.(exchangeOpen := false, exchangeForm := InitialPage.exchangeForm)
  }

  /**
   * Whatever was typed into a dialog is discarded: two pages that differ
   * only in a form are equal after its button, and pressing it again
   * changes nothing.
   */
  lemma DialogsDiscardInput(p1: WalletPage, p2: WalletPage)
    ensures p1.(sendForm := p2.sendForm, sendOpen := p2.sendOpen) == p2 ==> HandleSend(p1) == HandleSend(p2)
    ensures p1.(exchangeForm := p2.exchangeForm, exchangeOpen := p2.exchangeOpen) == p2 ==>
      HandleExchange(p1) == HandleExchange(p2)
    ensures HandleSend(HandleSend(p1)) == HandleSend(p1)
    ensures HandleExchange(HandleExchange(p1)) == HandleExchange(p1)
  {
  }
}
