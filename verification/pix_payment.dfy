/** The Pix send screen (components/PixPayment.tsx): the form, the button
    that starts a payment, and the record a payment hands to the wallet after
    its fixed sequence of stages. */
module PixPayment {
  import opened Optional
  import opened Ledger
  import JsText

  /** The form's state. `currency` starts at BRL and the screen never
      changes it. */
  datatype PixForm = PixForm(
    pixKey: string,
    amount: string,
    currency: Currency,
    processing: bool,
    finished: bool,
    processStep: string,
    lastTx: Option<Transaction>)

  const InitialForm := PixForm("", "", BRL, false, false, "", None)

  /** The six stage captions shown, in this order, while a payment runs. */
  const Stages: seq<string> := [
    "Estabelecendo túnel Tor...",
    "Saltando via Nó: Reykjavik...",
    "Saltando via Nó: Zurich...",
    "Assinando Ghost Signature...",
    "Deletando rastro local...",
    "Transmitindo para Blockchain..."]

  /** The destination every send record names, whatever key was typed. */
  const HiddenRecipient := "Destinatário Oculto via Tor"

  function SetPixKey(f: PixForm, text: string): (r: PixForm)
    ensures r.pixKey == text && r.amount == f.amount && r.currency == f.currency
    ensures r.processing == f.processing && r.finished == f.finished
    ensures r.processStep == f.processStep && r.lastTx == f.lastTx
  {
    f.(pixKey := text)
  }

  function SetAmount(f: PixForm, text: string): (r: PixForm)
    ensures r.amount == text && r.pixKey == f.pixKey && r.currency == f.currency
    ensures r.processing == f.processing && r.finished == f.finished
    ensures r.processStep == f.processStep && r.lastTx == f.lastTx
  {
    f.(amount := text)
  }

  /** The send button is disabled when either field is empty (an empty
      string is falsy). */
  predicate SendEnabled(f: PixForm) {
    !(f.amount == "" || f.pixKey == "")
  }

  /** After typing a key and an amount, the send button is enabled exactly
      when neither is empty; the amount's content is not checked. */
  lemma SendGate(f: PixForm, key: string, amount: string)
    ensures SendEnabled(SetAmount(SetPixKey(f, key), amount)) <==> key != "" && amount != ""
  {
  }

  /** The "new tunnel" button on the receipt clears both fields, so the send
      button is disabled again until both are filled. */
  function NewTunnel(f: PixForm): (r: PixForm)
    ensures !r.finished && r.pixKey == "" && r.amount == "" && r.currency == f.currency
    ensures !SendEnabled(r)
  {
    f.(finished := false, pixKey := "", amount := "")
  }

  /** Identifier of a send record: `GHOST-TX-` followed by characters 2 to 13
      of a random number written in base 36, upper-cased. */
  function PaymentId(randomBase36: string): (id: string)
    ensures "GHOST-TX-" <= id
    ensures 9 <= |id| <= 21
    ensures 14 <= |randomBase36| ==> |id| == 21
    ensures (forall j :: 2 <= j < |randomBase36| ==> JsText.IsLowerAlnum(randomBase36[j]))
            ==> forall i :: 9 <= i < |id| ==> JsText.IsUpperAlnum(id[i])
  {
    "GHOST-TX-" + JsText.ToUpper(JsText.Slice(randomBase36, 2, 14))
  }

  /** Signature of a send record: `SIG_0x`, characters 2 to 31 of a random
      number written in base 16, then the current time in hexadecimal. */
  function PaymentSignature(randomBase16: string, now: nat): (sig: string)
    ensures "SIG_0x" <= sig
    ensures var hex := JsText.ToHex(now);
            && 6 + |hex| <= |sig|
            && sig[|sig| - |hex|..] == hex
            && JsText.FromHex(sig[|sig| - |hex|..]) == now
  {
    var head := "SIG_0x" + JsText.Slice(randomBase16, 2, 32);
    var tail := JsText.ToHex(now);
    var sig := head + tail;
    assert sig[|sig| - |tail|..] == tail;
    JsText.HexRoundTrip(now);
    sig
  }

  /** The record a payment builds from the form: a confirmed send of the
      parsed amount in the form's currency to the hidden recipient, with an
      identifier and a signature. `parse` stands for `parseFloat`; the two
      times are two separate readings of the clock. */
  function PaymentRecord(f: PixForm, parse: string -> real, idRandom: string, sigRandom: string,
                         sigTime: nat, txTime: int): (tx: Transaction)
    ensures tx.kind == Send && tx.status == Confirmed
    ensures tx.amount == parse(f.amount) && tx.currency == f.currency && tx.timestamp == txTime
    ensures tx.to == Some(HiddenRecipient)
    ensures tx.signature.Some? && "SIG_0x" <= tx.signature.value
    ensures "GHOST-TX-" <= tx.id
  {
    Transaction(PaymentId(idRandom), Send, parse(f.amount), f.currency, txTime, Confirmed,
                Some(HiddenRecipient), Some(PaymentSignature(sigRandom, sigTime)))
  }

  /** What the payment makes observable, in order: each stage caption, then
      the hand-over of the record to the wallet. */
  datatype PaymentEvent = ShowStage(caption: string) | Complete(tx: Transaction)

  /** `startPayment`: shows the six stages in order, then builds the record
      and hands it over exactly once, keeps it as the receipt and ends in the
      finished state. The wallet's balances are not an input: nothing is
      checked before the record is handed over. */
  method StartPayment(f: PixForm, parse: string -> real, idRandom: string, sigRandom: string,
                      sigTime: nat, txTime: int)
    returns (r: PixForm, trace: seq<PaymentEvent>)
    ensures |trace| == |Stages| + 1
    ensures forall i :: 0 <= i < |Stages| ==> trace[i] == ShowStage(Stages[i])
    ensures forall i :: 0 <= i < |trace| ==> (trace[i].Complete? <==> i == |Stages|)
    ensures trace[|Stages|] == Complete(PaymentRecord(f, parse, idRandom, sigRandom, sigTime, txTime))
    ensures r.lastTx == Some(trace[|Stages|].tx)
    ensures !r.processing && r.finished && r.processStep == Stages[|Stages| - 1]
    ensures r.pixKey == f.pixKey && r.amount == f.amount && r.currency == f.currency
  {
    r := f.(processing := true);
    trace := [];
    for i := 0 to |Stages|
      invariant |trace| == i
      invariant forall j :: 0 <= j < i ==> trace[j] == ShowStage(Stages[j])
      invariant i > 0 ==> r.processStep == Stages[i - 1]
      invariant r == f.(processing := true, processStep := r.processStep)
    {
      r := r.(processStep := Stages[i]);
      trace := trace + [ShowStage(Stages[i])];
    }
    var tx := PaymentRecord(f, parse, idRandom, sigRandom, sigTime, txTime);
    r := r.(lastTx := Some(tx));
    trace := trace + [Complete(tx)];
    r := r.(processing := false, finished := true);
  }

  /** Handing a payment's record to the wallet takes its parsed amount out
      of the form's currency and leaves the other currencies alone, whatever
      the balance: an amount above the balance leaves it negative. */
  lemma PaymentDebitsWallet(w: Wallet, f: PixForm, parse: string -> real, idRandom: string,
                            sigRandom: string, sigTime: nat, txTime: int)
    ensures var tx := PaymentRecord(f, parse, idRandom, sigRandom, sigTime, txTime);
            var r := AddTransaction(w, tx);
            && r.balances.Get(f.currency) == w.balances.Get(f.currency) - parse(f.amount)
            && (forall c :: c != f.currency ==> r.balances.Get(c) == w.balances.Get(c))
            && r.history == [tx] + w.history
            && (parse(f.amount) > w.balances.Get(f.currency) ==> r.balances.Get(f.currency) < 0.0)
  {
  }
}
