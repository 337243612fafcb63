/** The currency converter screen (components/Converter.tsx): the fixed rate
    table with its fallback, the selected pair, the typed amount, and the
    exchange request it hands to the wallet. */
module Converter {
  import opened Optional
  import opened Ledger

  /** The currency code as written in the source, e.g. "BRL". */
  function Name(c: Currency): (s: string)
    ensures 3 <= |s| <= 5
    ensures forall i :: 0 <= i < |s| ==> 'A' <= s[i] <= 'Z'
  {
    match c
    case BRL => "BRL"
    case USD => "USD"
    case BTC => "BTC"
    case XMR => "XMR"
    case GHOST => "GHOST"
    case USDT => "USDT"
  }

  /** The string key the rate table is indexed by: both codes joined by '-'. */
  function PairKey(from: Currency, to: Currency): string {
    Name(from) + "-" + Name(to)
  }

  /** The rate table, keyed by strings exactly as in the source. */
  const Rates: map<string, real> := map[
    "BRL-USD" := 0.1824, "USD-BRL" := 5.4820,
    "BRL-BTC" := 0.0000028, "BTC-BRL" := 357142.85,
    "USD-BTC" := 0.000015, "BTC-USD" := 66666.66,
    "XMR-USD" := 164.20, "USD-XMR" := 0.0060,
    "BRL-XMR" := 0.0031, "XMR-BRL" := 322.58]

  /** The lookup the effect performs: the table entry for the pair's key, or
      1 when the key is absent (a zero entry would also fall back to 1, as any
      falsy value does; the table has none). */
  function Lookup(from: Currency, to: Currency): (rate: real)
    ensures rate > 0.0
  {
    var key := PairKey(from, to);
    if key in Rates && Rates[key] != 0.0 then Rates[key] else 1.0
  }

  /** The same table written over ordered pairs of codes, independently of
      the string keys: `None` for every pair the table does not list. */
  function TableRate(from: Currency, to: Currency): Option<real> {
    match (from, to)
    case (BRL, USD) => Some(0.1824)
    case (USD, BRL) => Some(5.4820)
    case (BRL, BTC) => Some(0.0000028)
    case (BTC, BRL) => Some(357142.85)
    case (USD, BTC) => Some(0.000015)
    case (BTC, USD) => Some(66666.66)
    case (XMR, USD) => Some(164.20)
    case (USD, XMR) => Some(0.0060)
    case (BRL, XMR) => Some(0.0031)
    case (XMR, BRL) => Some(322.58)
    case _ => None
  }

  /** The string-keyed lookup gives the listed rate for each of the ten
      listed ordered pairs and 1 for every other pair. */
  lemma LookupMatchesTable(from: Currency, to: Currency)
    ensures TableRate(from, to).Some? ==> Lookup(from, to) == TableRate(from, to).value
    ensures TableRate(from, to).None? ==> Lookup(from, to) == 1.0
  {
    match from
    case BRL => LookupFromBRL(to);
    case USD => LookupFromUSD(to);
    case BTC => LookupFromBTC(to);
    case XMR => LookupFromXMR(to);
    case GHOST => LookupFromGHOST(to);
    case USDT => LookupFromUSDT(to);
  }

  lemma LookupFromBRL(to: Currency)
    ensures TableRate(BRL, to).Some? ==> Lookup(BRL, to) == TableRate(BRL, to).value
    ensures TableRate(BRL, to).None? ==> Lookup(BRL, to) == 1.0
  {
    match to
    case BRL => assert PairKey(BRL, BRL) == "BRL-BRL";
    case USD => assert PairKey(BRL, USD) == "BRL-USD";
    case BTC => assert PairKey(BRL, BTC) == "BRL-BTC";
    case XMR => assert PairKey(BRL, XMR) == "BRL-XMR";
    case GHOST => assert PairKey(BRL, GHOST) == "BRL-GHOST";
    case USDT => assert PairKey(BRL, USDT) == "BRL-USDT";
  }

  lemma LookupFromUSD(to: Currency)
    ensures TableRate(USD, to).Some? ==> Lookup(USD, to) == TableRate(USD, to).value
    ensures TableRate(USD, to).None? ==> Lookup(USD, to) == 1.0
  {
    match to
    case BRL => assert PairKey(USD, BRL) == "USD-BRL";
    case USD => assert PairKey(USD, USD) == "USD-USD";
    case BTC => assert PairKey(USD, BTC) == "USD-BTC";
    case XMR => assert PairKey(USD, XMR) == "USD-XMR";
    case GHOST => assert PairKey(USD, GHOST) == "USD-GHOST";
    case USDT => assert PairKey(USD, USDT) == "USD-USDT";
  }

  lemma LookupFromBTC(to: Currency)
    ensures TableRate(BTC, to).Some? ==> Lookup(BTC, to) == TableRate(BTC, to).value
    ensures TableRate(BTC, to).None? ==> Lookup(BTC, to) == 1.0
  {
    match to
    case BRL => assert PairKey(BTC, BRL) == "BTC-BRL";
    case USD => assert PairKey(BTC, USD) == "BTC-USD";
    case BTC => assert PairKey(BTC, BTC) == "BTC-BTC";
    case XMR => assert PairKey(BTC, XMR) == "BTC-XMR";
    case GHOST => assert PairKey(BTC, GHOST) == "BTC-GHOST";
    case USDT => assert PairKey(BTC, USDT) == "BTC-USDT";
  }

  lemma LookupFromXMR(to: Currency)
    ensures TableRate(XMR, to).Some? ==> Lookup(XMR, to) == TableRate(XMR, to).value
    ensures TableRate(XMR, to).None? ==> Lookup(XMR, to) == 1.0
  {
    match to
    case BRL => assert PairKey(XMR, BRL) == "XMR-BRL";
    case USD => assert PairKey(XMR, USD) == "XMR-USD";
    case BTC => assert PairKey(XMR, BTC) == "XMR-BTC";
    case XMR => assert PairKey(XMR, XMR) == "XMR-XMR";
    case GHOST => assert PairKey(XMR, GHOST) == "XMR-GHOST";
    case USDT => assert PairKey(XMR, USDT) == "XMR-USDT";
  }

  lemma LookupFromGHOST(to: Currency)
    ensures TableRate(GHOST, to).Some? ==> Lookup(GHOST, to) == TableRate(GHOST, to).value
    ensures TableRate(GHOST, to).None? ==> Lookup(GHOST, to) == 1.0
  {
    match to
    case BRL => assert PairKey(GHOST, BRL) == "GHOST-BRL";
    case USD => assert PairKey(GHOST, USD) == "GHOST-USD";
    case BTC => assert PairKey(GHOST, BTC) == "GHOST-BTC";
    case XMR => assert PairKey(GHOST, XMR) == "GHOST-XMR";
    case GHOST => assert PairKey(GHOST, GHOST) == "GHOST-GHOST";
    case USDT => assert PairKey(GHOST, USDT) == "GHOST-USDT";
  }

  lemma LookupFromUSDT(to: Currency)
    ensures TableRate(USDT, to).Some? ==> Lookup(USDT, to) == TableRate(USDT, to).value
    ensures TableRate(USDT, to).None? ==> Lookup(USDT, to) == 1.0
  {
    match to
    case BRL => assert PairKey(USDT, BRL) == "USDT-BRL";
    case USD => assert PairKey(USDT, USD) == "USDT-USD";
    case BTC => assert PairKey(USDT, BTC) == "USDT-BTC";
    case XMR => assert PairKey(USDT, XMR) == "USDT-XMR";
    case GHOST => assert PairKey(USDT, GHOST) == "USDT-GHOST";
    case USDT => assert PairKey(USDT, USDT) == "USDT-USDT";
  }

  /** The fallback covers a currency paired with itself and every pair
      involving GHOST or USDT. */
  lemma LookupFallback(from: Currency, to: Currency)
    requires from == to || from in {GHOST, USDT} || to in {GHOST, USDT}
    ensures Lookup(from, to) == 1.0
  {
    LookupMatchesTable(from, to);
  }

  /** When `a` is shorter than the dash-free `c`, joining `a` puts its dash
      where `c` has a letter. */
  lemma DashInsidePrefix(a: string, b: string, c: string, d: string)
    requires forall i :: 0 <= i < |c| ==> c[i] != '-'
    requires |a| < |c|
    ensures a + "-" + b != c + "-" + d
  {
    assert (a + "-" + b)[|a|] == '-';
    assert (c + "-" + d)[|a|] == c[|a|];
  }

  /** Joining two dash-free strings with '-' can be undone: the parts are
      determined by the joined string. */
  lemma JoinInjective(a: string, b: string, c: string, d: string)
    requires forall i :: 0 <= i < |a| ==> a[i] != '-'
    requires forall i :: 0 <= i < |c| ==> c[i] != '-'
    requires a + "-" + b == c + "-" + d
    ensures a == c && b == d
  {
    var s := a + "-" + b;
    if |a| < |c| {
      DashInsidePrefix(a, b, c, d);
      assert false;
    } else if |c| < |a| {
      DashInsidePrefix(c, d, a, b);
      assert false;
    } else {
      assert a == s[..|a|] == c;
      assert b == s[|a| + 1..] == d;
    }
  }

  /** Distinct codes have distinct names. */
  lemma NameInjective(c: Currency, d: Currency)
    requires Name(c) == Name(d)
    ensures c == d
  {
  }

  /** Different ordered pairs have different keys, so the string-keyed table
      is a table over ordered pairs of codes. */
  lemma PairKeyInjective(a: Currency, b: Currency, c: Currency, d: Currency)
    requires PairKey(a, b) == PairKey(c, d)
    ensures a == c && b == d
  {
    JoinInjective(Name(a), Name(b), Name(c), Name(d));
    NameInjective(a, c);
    NameInjective(b, d);
  }

  /** The codes the two drop-downs offer. */
  predicate Selectable(c: Currency) {
    c in {BRL, USD, BTC, XMR}
  }

  type SelectableCurrency = c: Currency | Selectable(c) witness BRL

  /** The screen's state: the selected pair, the typed amount text, the rate
      last stored by the effect, and whether an exchange is in progress. */
  datatype ConverterState = ConverterState(
    from: Currency,
    to: Currency,
    amount: string,
    rate: real,
    swapping: bool)

  /** The state at first render: the stored rate is the literal initial
      value, not yet the table's. */
  const InitialConverter := ConverterState(BRL, USD, "", 0.1812, false)

  /** The stored rate is the table's rate for the selected pair. */
  predicate Synced(s: ConverterState) {
    s.rate == Lookup(s.from, s.to)
  }

  /** The effect that runs after render whenever the pair changed. */
  function SyncRate(s: ConverterState): (r: ConverterState)
    ensures Synced(r)
    ensures r.from == s.from && r.to == s.to && r.amount == s.amount && r.swapping == s.swapping
  {
    s.(rate := Lookup(s.from, s.to))
  }

  /** The screen after mounting: the effect has run once. */
  function Mounted(): (r: ConverterState)
    ensures r.from == BRL && r.to == USD && r.rate == 0.1824 && r.amount == ""
  {
    LookupMatchesTable(BRL, USD);
    SyncRate(InitialConverter)
  }

  /** Choosing the source currency, followed by the rate effect. */
  function SelectFrom(s: ConverterState, c: SelectableCurrency): (r: ConverterState)
    ensures r.from == c && r.to == s.to && r.amount == s.amount && Synced(r)
  {
    SyncRate(s.(from := c))
  }

  /** Choosing the target currency, followed by the rate effect. */
  function SelectTo(s: ConverterState, c: SelectableCurrency): (r: ConverterState)
    ensures r.from == s.from && r.to == c && r.amount == s.amount && Synced(r)
  {
    SyncRate(s.(to := c))
  }

  /** The swap button exchanges the two selections; the effect then stores
      the rate of the reversed pair. */
  function SwapPair(s: ConverterState): (r: ConverterState)
    ensures r.from == s.to && r.to == s.from && r.amount == s.amount && Synced(r)
  {
    SyncRate(s.(from := s.to, to := s.from))
  }

  /** Swapping twice restores the state exactly when the stored rate was in
      step with the pair; the pair itself always comes back. */
  lemma SwapTwice(s: ConverterState)
    ensures SwapPair(SwapPair(s)).from == s.from && SwapPair(SwapPair(s)).to == s.to
    ensures SwapPair(SwapPair(s)) == s <==> Synced(s)
  {
  }

  /** Typing in the amount field. */
  function TypeAmount(s: ConverterState, text: string): (r: ConverterState)
    ensures r.amount == text && r.from == s.from && r.to == s.to && r.rate == s.rate
    ensures r.swapping == s.swapping
  {
    s.(amount := text)
  }

  /** The exchange button is enabled when no exchange is running and the
      amount field is not empty. */
  predicate ExchangeEnabled(s: ConverterState) {
    !s.swapping && s.amount != ""
  }

  /** What the screen hands to the wallet's completion handler. */
  datatype ConvertRequest = ConvertRequest(from: Currency, to: Currency, amountFrom: real, amountTo: real)

  datatype ExchangeOutcome = ExchangeOutcome(state: ConverterState, request: Option<ConvertRequest>)

  /** `handleExchange`: with an empty amount it returns at once; otherwise it
      parses the amount, prices it at the stored rate, hands the request on
      exactly once and clears the field. `parse` stands for `parseFloat`. */
  function HandleExchange(s: ConverterState, parse: string -> real): (r: ExchangeOutcome)
    ensures s.amount == "" ==> r.request == None && r.state == s
    ensures s.amount != "" ==> r.request.Some? && r.state.amount == "" && !r.state.swapping
    ensures r.request.Some? ==> r.request.value.from == s.from && r.request.value.to == s.to
    ensures r.request.Some? ==> r.request.value.amountFrom == parse(s.amount)
    ensures r.request.Some? ==> r.request.value.amountTo == r.request.value.amountFrom * s.rate
    ensures r.state.from == s.from && r.state.to == s.to && r.state.rate == s.rate
  {
    if s.amount == "" then
      ExchangeOutcome(s, None)
    else
      var amtFrom := parse(s.amount);
      var amtTo := amtFrom * s.rate;
      ExchangeOutcome(s.(amount := "", swapping := false), Some(ConvertRequest(s.from, s.to, amtFrom, amtTo)))
  }

  /** On every reachable screen the button is enabled exactly when pressing
      it would hand a request on: the button's guard and the handler's own
      empty-amount guard agree. */
  lemma ExchangeGate(s: ConverterState, parse: string -> real)
    requires Valid(s)
    ensures ExchangeEnabled(s) <==> HandleExchange(s, parse).request.Some?
  {
  }

  /** On a screen whose rate is in step, an exchange is priced at the
      table's rate for the pair: the listed rate, or 1 for unlisted pairs. */
  lemma ExchangeAtTableRate(s: ConverterState, parse: string -> real)
    requires Synced(s) && s.amount != ""
    ensures HandleExchange(s, parse).request.Some?
    ensures HandleExchange(s, parse).request.value.amountTo
            == parse(s.amount) * ValueOr(TableRate(s.from, s.to), 1.0)
  {
    LookupMatchesTable(s.from, s.to);
  }

  /** The user actions on the screen. */
  datatype ConverterEvent =
    | PickFrom(c: SelectableCurrency)
    | PickTo(c: SelectableCurrency)
    | SwapClick
    | Type(text: string)
    | ExchangeClick

  function Step(s: ConverterState, e: ConverterEvent, parse: string -> real): ConverterState {
    match e
    case PickFrom(c) => SelectFrom(s, c)
    case PickTo(c) => SelectTo(s, c)
    case SwapClick => SwapPair(s)
    case Type(text) => TypeAmount(s, text)
    case ExchangeClick => HandleExchange(s, parse).state
  }

  function Run(s: ConverterState, events: seq<ConverterEvent>, parse: string -> real): ConverterState
    decreases |events|
  {
    if events == [] then s else Run(Step(s, events[0], parse), events[1..], parse)
  }

  /** What holds on every screen reachable by the user: both selections are
      among the offered codes, the stored rate is in step, nothing running. */
  predicate Valid(s: ConverterState) {
    Selectable(s.from) && Selectable(s.to) && Synced(s) && !s.swapping
  }

  /** Every sequence of user actions from the mounted screen keeps it valid:
      GHOST and USDT are never selected and the rate always matches the pair. */
  lemma {:induction false} RunKeepsValid(s: ConverterState, events: seq<ConverterEvent>, parse: string -> real)
    requires Valid(s)
    ensures Valid(Run(s, events, parse))
    decreases |events|
  {
    if events != [] {
      var s1 := Step(s, events[0], parse);
      assert Valid(s1);
      RunKeepsValid(s1, events[1..], parse);
    }
  }

  lemma MountedValid()
    ensures Valid(Mounted())
  {
  }
}
