/** The application shell's wiring of the converter screen to the wallet
    (App.tsx): an exchange on the screen feeds the conversion handler. */
module Session {
  import opened Optional
  import opened Ledger
  import opened Converter

  datatype SwapOutcome = SwapOutcome(wallet: Wallet, screen: ConverterState)

  /** Pressing the exchange button: the screen's request, if any, is applied
      to the wallet by the conversion handler. */
  function ExchangeOnWallet(w: Wallet, s: ConverterState, parse: string -> real,
                            randomBase36: string, now: int): (r: SwapOutcome)
    ensures s.amount == "" ==> r.wallet == w && r.screen == s
    ensures s.amount != "" ==> |r.wallet.history| == |w.history| + 1 && r.wallet.history[1..] == w.history
    ensures s.amount != "" ==> r.wallet.history[0].kind == Convert && r.wallet.history[0].currency == s.from
    ensures s.amount != "" ==> r.wallet.history[0].amount == parse(s.amount) && r.screen.amount == ""
  {
    var out := HandleExchange(s, parse);
    match out.request
    case None => SwapOutcome(w, out.state)
    case Some(q) => SwapOutcome(OnConvertComplete(w, q.from, q.to, q.amountFrom, q.amountTo, randomBase36, now), out.state)
  }

  /** On any screen the user can reach, an exchange between two different
      currencies takes the typed amount out of the source, adds it priced at
      the table's rate (1 for unlisted pairs) to the target, and leaves the
      other currencies alone; GHOST and USDT are never touched. */
  lemma ExchangeMovesFunds(w: Wallet, s: ConverterState, parse: string -> real, randomBase36: string, now: int)
    requires Valid(s) && s.amount != "" && s.from != s.to
    ensures var r := ExchangeOnWallet(w, s, parse, randomBase36, now).wallet;
            var a := parse(s.amount);
            && r.balances.Get(s.from) == w.balances.Get(s.from) - a
            && r.balances.Get(s.to) == w.balances.Get(s.to) + a * ValueOr(TableRate(s.from, s.to), 1.0)
            && (forall c :: c != s.from && c != s.to ==> r.balances.Get(c) == w.balances.Get(c))
            && r.balances.Get(GHOST) == w.balances.Get(GHOST)
            && r.balances.Get(USDT) == w.balances.Get(USDT)
  {
    ExchangeAtTableRate(s, parse);
  }

  /** The self-conversion the screen allows: from the mounted screen, choose
      USD as the source (the target is already USD), type 100 and exchange.
      The request converts USD into USD at the fallback rate 1, and the
      wallet's USD balance grows by 100 although nothing came in. */
  lemma SelfConversionThroughScreen(parse: string -> real, randomBase36: string, now: int)
    requires parse("100") == 100.0
    ensures var s := TypeAmount(SelectFrom(Mounted(), USD), "100");
            var r := ExchangeOnWallet(InitialWallet, s, parse, randomBase36, now);
            && s.from == USD && s.to == USD && Valid(s)
            && r.wallet.balances.Get(USD) == InitialWallet.balances.Get(USD) + 100.0
  {
    var s := TypeAmount(SelectFrom(Mounted(), USD), "100");
    LookupFallback(USD, USD);
    assert s.rate == 1.0;
  }
}
