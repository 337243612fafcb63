/** The wallet state kept by the application shell (App.tsx): a balance for
    every currency and the transaction history, most recent first, with the
    two handlers that change them. */
module Ledger {
  import opened Optional
  import JsText

  datatype Currency = BRL | USD | BTC | XMR | GHOST | USDT

  datatype TxType = Send | Receive | Convert

  /** Declared by the record type; every record the application builds is
      created `Confirmed`, the other two values are never produced. */
  datatype TxStatus = Obfuscated | Mixing | Confirmed

  /** A history entry. `to` and `signature` are optional fields. */
  datatype Transaction = Transaction(
    id: string,
    kind: TxType,
    amount: real,
    currency: Currency,
    timestamp: int,
    status: TxStatus,
    to: Option<string>,
    signature: Option<string>)

  /** A balance for every currency. The source's `Record<CurrencyCode, number>`
      is total over the six codes, so it is kept as one field per code. */
  datatype Balances = Balances(inBRL: real, inUSD: real, inBTC: real, inXMR: real, inGHOST: real, inUSDT: real) {

    function Get(c: Currency): real {
      match c
      case BRL => inBRL
      case USD => inUSD
      case BTC => inBTC
      case XMR => inXMR
      case GHOST => inGHOST
      case USDT => inUSDT
    }

    /** `{...b, [c]: v}`: only the entry for `c` changes. */
    function Set(c: Currency, v: real): (r: Balances)
      ensures r.Get(c) == v
      ensures forall k :: k != c ==> r.Get(k) == Get(k)
    {
      match c
      case BRL => this.(inBRL := v)
      case USD => this.(inUSD := v)
      case BTC => this.(inBTC := v)
      case XMR => this.(inXMR := v)
      case GHOST => this.(inGHOST := v)
      case USDT => this.(inUSDT := v)
    }
  }

  datatype Wallet = Wallet(balances: Balances, history: seq<Transaction>)

  const InitialBalances := Balances(28450.00, 4120.50, 0.12, 124.0, 50000.00, 1250.00)

  /** The state when the session opens: the fixed opening balances and no history. */
  const InitialWallet := Wallet(InitialBalances, [])

  /** The signed change a record makes to currency `c` when it is added:
      a send takes its amount away, a receive adds it, a conversion record
      changes nothing (its balance change is made separately by the handler). */
  function Effect(tx: Transaction, c: Currency): real {
    if c != tx.currency then 0.0
    else match tx.kind
      case Send => -tx.amount
      case Receive => tx.amount
      case Convert => 0.0
  }

  /** `addTransaction`: the record goes to the head of the history and the
      balance of its currency moves by its signed amount. Nothing is checked:
      neither the sign of the amount nor the balance available. */
  function AddTransaction(w: Wallet, tx: Transaction): (r: Wallet)
    ensures r.history == [tx] + w.history
    ensures tx.kind == Send ==> r.balances.Get(tx.currency) == w.balances.Get(tx.currency) - tx.amount
    ensures tx.kind == Receive ==> r.balances.Get(tx.currency) == w.balances.Get(tx.currency) + tx.amount
    ensures tx.kind == Convert ==> r.balances == w.balances
    ensures forall c :: c != tx.currency ==> r.balances.Get(c) == w.balances.Get(c)
  {
    var b := w.balances;
    var c := tx.currency;
    var updated: Balances :=
      match tx.kind
      case Send => b.Set(c, b.Get(c) - tx.amount)
      case Receive => b.Set(c, b.Get(c) + tx.amount)
      case Convert => b;
    Wallet(updated, [tx] + w.history)
  }

  /** A send is applied whatever the balance: sending more than is held
      leaves a negative balance. */
  lemma SendWithoutBalanceCheck(w: Wallet, tx: Transaction)
    requires tx.kind == Send
    requires tx.amount > w.balances.Get(tx.currency)
    ensures AddTransaction(w, tx).balances.Get(tx.currency) < 0.0
  {
  }

  /** Adds the records one after the other, in the order given. */
  function AddAll(w: Wallet, txs: seq<Transaction>): Wallet
    decreases |txs|
  {
    if txs == [] then w else AddAll(AddTransaction(w, txs[0]), txs[1..])
  }

  /** The total signed change the records make to currency `c`. */
  function Net(txs: seq<Transaction>, c: Currency): real
    decreases |txs|
  {
    if txs == [] then 0.0 else Effect(txs[0], c) + Net(txs[1..], c)
  }

  function Reverse<T>(s: seq<T>): (r: seq<T>)
    decreases |s|
  {
    if s == [] then [] else Reverse(s[1..]) + [s[0]]
  }

  /** The ledger is an account of its records: after adding records one by
      one, each balance is the starting balance plus the records' net change,
      and the history lists the new records newest first ahead of the old
      history, which keeps its order. */
  lemma {:induction false} AddAllAccounts(w: Wallet, txs: seq<Transaction>)
    ensures forall c :: AddAll(w, txs).balances.Get(c) == w.balances.Get(c) + Net(txs, c)
    ensures AddAll(w, txs).history == Reverse(txs) + w.history
    decreases |txs|
  {
    if txs != [] {
      var w1 := AddTransaction(w, txs[0]);
      AddAllAccounts(w1, txs[1..]);
      forall c: Currency
        ensures w1.balances.Get(c) == w.balances.Get(c) + Effect(txs[0], c)
      {
      }
      assert Reverse(txs) == Reverse(txs[1..]) + [txs[0]];
      assert AddAll(w, txs).history == Reverse(txs[1..]) + ([txs[0]] + w.history);
    }
  }

  /** The balance update of the conversion handler: a copy of the old
      balances with two computed keys, the debited `from` entry and then the
      credited `to` entry. Both values are computed from the old balances and
      the later key wins, so when `from == to` the credit overwrites the debit. */
  function ConvertBalances(b: Balances, from: Currency, to: Currency, amtFrom: real, amtTo: real): (r: Balances)
    ensures from != to ==> r.Get(from) == b.Get(from) - amtFrom && r.Get(to) == b.Get(to) + amtTo
    ensures from == to ==> r.Get(to) == b.Get(to) + amtTo
    ensures forall c :: c != from && c != to ==> r.Get(c) == b.Get(c)
  {
    b.Set(from, b.Get(from) - amtFrom).Set(to, b.Get(to) + amtTo)
  }

  /** Conversion as debit then credit, the second leg reading the result of
      the first: every currency moves by what it receives minus what it gives. */
  function ConvertBalancesSequential(b: Balances, from: Currency, to: Currency, amtFrom: real, amtTo: real): (r: Balances)
    ensures forall c :: r.Get(c) == b.Get(c) - (if c == from then amtFrom else 0.0) + (if c == to then amtTo else 0.0)
  {
    var debited := b.Set(from, b.Get(from) - amtFrom);
    debited.Set(to, debited.Get(to) + amtTo)
  }

  /** With the corrected update a conversion of a currency into itself at
      the rate 1 leaves every balance as it was. */
  lemma SelfConversionNeutral(b: Balances, c: Currency, amount: real)
    ensures ConvertBalancesSequential(b, c, c, amount, amount) == b
  {
  }

  /** The handler's update and the corrected one agree exactly when the two
      currencies differ or nothing is debited. */
  lemma ConvertAgreesWithSequential(b: Balances, from: Currency, to: Currency, amtFrom: real, amtTo: real)
    ensures ConvertBalances(b, from, to, amtFrom, amtTo) == ConvertBalancesSequential(b, from, to, amtFrom, amtTo)
            <==> from != to || amtFrom == 0.0
  {
  }

  /** As written, converting 100 USD into USD at the fallback rate 1 adds
      100 USD to the opening 4120.50 instead of leaving it unchanged. */
  lemma SelfConversionCreatesFunds()
    ensures ConvertBalances(InitialBalances, USD, USD, 100.0, 100.0).Get(USD) == 4220.50
    ensures ConvertBalancesSequential(InitialBalances, USD, USD, 100.0, 100.0).Get(USD) == 4120.50
  {
  }

  /** Identifier of a conversion record: `BRIDGE-` followed by characters 2
      to 11 of the random number written in base 36, upper-cased. */
  function BridgeId(randomBase36: string): (id: string)
    ensures "BRIDGE-" <= id
    ensures 7 <= |id| <= 17
    ensures 12 <= |randomBase36| ==> |id| == 17
    ensures (forall j :: 2 <= j < |randomBase36| ==> JsText.IsLowerAlnum(randomBase36[j]))
            ==> forall i :: 7 <= i < |id| ==> JsText.IsUpperAlnum(id[i])
  {
    "BRIDGE-" + JsText.ToUpper(JsText.Slice(randomBase36, 2, 12))
  }

  /** The record the conversion handler adds. */
  function ConvertRecord(from: Currency, amtFrom: real, randomBase36: string, now: int): (tx: Transaction)
    ensures tx.kind == Convert && tx.status == Confirmed
    ensures tx.amount == amtFrom && tx.currency == from && tx.timestamp == now
    ensures tx.to == None && tx.signature == None
    ensures "BRIDGE-" <= tx.id
  {
    Transaction(BridgeId(randomBase36), Convert, amtFrom, from, now, Confirmed, None, None)
  }

  /** The converter's completion handler: the balance update of
      `ConvertBalances`, then `addTransaction` of a `convert` record, whose
      own balance update changes nothing. The two state updates compose in
      the order they are queued. */
  function OnConvertComplete(w: Wallet, from: Currency, to: Currency, amtFrom: real, amtTo: real,
                             randomBase36: string, now: int): (r: Wallet)
    ensures from != to ==> r.balances.Get(from) == w.balances.Get(from) - amtFrom
    ensures from != to ==> r.balances.Get(to) == w.balances.Get(to) + amtTo
    ensures from == to ==> r.balances.Get(to) == w.balances.Get(to) + amtTo
    ensures forall c :: c != from && c != to ==> r.balances.Get(c) == w.balances.Get(c)
    ensures |r.history| == |w.history| + 1 && r.history[1..] == w.history
    ensures r.history[0].kind == Convert && r.history[0].status == Confirmed
    ensures r.history[0].amount == amtFrom && r.history[0].currency == from
    ensures r.history[0].to == None && r.history[0].signature == None
    ensures "BRIDGE-" <= r.history[0].id
  {
    var converted := w.(balances := ConvertBalances(w.balances, from, to, amtFrom, amtTo));
    AddTransaction(converted, ConvertRecord(from, amtFrom, randomBase36, now))
  }
}
