/**
 * The token-exchange form of the Exchange page: a fixed token catalog, the
 * amount sanitiser, the quote (rate, fee, estimate), the submission gate, and
 * the form state with its six handlers.
 *
 * `parseFloat` is abstract: `None` stands for NaN, and every JavaScript
 * comparison with NaN is false.
 */
module Exchange {
  import opened Wrappers
  import opened Subsequence
  import opened Ascii

  datatype Token = Token(id: string, name: string, symbol: string, price: real, change: real, balance: real)

  /** The mock token list; its order matters, since the defaults and fallbacks are its first two entries. */
  const CATALOG: seq<Token> := [
    Token("nrf", "NeonRift", "NRF", 2.45, 5.2, 150.5),
    Token("cbt", "CyberToken", "CBT", 0.87, -2.1, 300.75),
    Token("ptk", "PixelToken", "PTK", 1.34, 1.7, 75.25),
    Token("vtx", "VirtualX", "VTX", 5.21, 8.3, 25.0),
    Token("ntk", "NeonToken", "NTK", 0.42, -0.5, 500.0)
  ]

  /** The catalog's ids are pairwise distinct. */
  lemma CatalogIdsDistinct()
    ensures forall i, j :: 0 <= i < j < |CATALOG| ==> CATALOG[i].id != CATALOG[j].id
  {
  }

  /** Every catalog price and balance is positive. */
  lemma CatalogAmountsPositive()
    ensures forall t :: t in CATALOG ==> t.price > 0.0 && t.balance > 0.0
  {
  }

  // ---------------------------------------------------------------------------
  // Token lookup

  /** The first token of `catalog` whose id is `id`, if any. */
  function FindToken(catalog: seq<Token>, id: string): (r: Option<Token>)
    ensures r.Some? ==> r.value in catalog && r.value.id == id
    ensures r.None? <==> forall t :: t in catalog ==> t.id != id
    ensures forall j :: 0 <= j < |catalog| && catalog[j].id == id && (forall k :: 0 <= k < j ==> catalog[k].id != id) ==>
      r == Some(catalog[j])
  {
    if catalog == [] then None
    else if catalog[0].id == id then Some(catalog[0])
    else FindToken(catalog[1..], id)
  }

  /** The catalog token with id `id`, or `fallback` when there is none. */
  function SelectToken(id: string, fallback: Token): (r: Token)
    ensures r in CATALOG || r == fallback
    ensures r != fallback ==> r.id == id
  {
    match FindToken(CATALOG, id)
    case Some(t) => t
    case None => fallback
  }

  /** Picking an id of the catalog selects exactly that token; any other id selects the fallback. */
  lemma {:induction false} SelectTokenSpec(id: string, fallback: Token)
    ensures forall t :: t in CATALOG && t.id == id ==> SelectToken(id, fallback) == t
    ensures (forall t :: t in CATALOG ==> t.id != id) ==> SelectToken(id, fallback) == fallback
    ensures SelectToken(id, fallback) in CATALOG || SelectToken(id, fallback) == fallback
  {
    CatalogIdsDistinct();
    forall t | t in CATALOG && t.id == id
      ensures SelectToken(id, fallback) == t
    {
      var u := FindToken(CATALOG, id).value;
      var i :| 0 <= i < |CATALOG| && CATALOG[i] == t;
      var j :| 0 <= j < |CATALOG| && CATALOG[j] == u;
      assert i == j;
    }
  }

  // ---------------------------------------------------------------------------
  // Amount sanitiser

  predicate IsAmountChar(c: char) { IsDigit(c) || c == '.' }

  /** The amount sanitiser: keeps digits and dots, in order, and drops every other character. */
  function Sanitize(s: string): (r: string)
    ensures |r| <= |s|
    ensures forall c :: c in r ==> IsAmountChar(c)
  {
    if s == [] then []
    else (if IsAmountChar(s[0]) then [s[0]] else []) + Sanitize(s[1..])
  }

  /** The sanitised text is an in-order subsequence of the input. */
  lemma {:induction false} SanitizeIsSubsequence(s: string)
    ensures IsSubsequence(Sanitize(s), s)
  {
    if s != [] {
      SanitizeIsSubsequence(s[1..]);
      ConsSubsequence(s[0], Sanitize(s[1..]), s[1..]);
      assert [s[0]] + s[1..] == s;
      if IsAmountChar(s[0]) {
        assert Sanitize(s) == [s[0]] + Sanitize(s[1..]);
      } else {
        assert Sanitize(s) == Sanitize(s[1..]);
      }
    }
  }

  /** No digit or dot is lost: each occurs in the output as often as in the input. */
  lemma {:induction false} SanitizeKeepsAmountChars(s: string)
    ensures forall c :: IsAmountChar(c) ==> multiset(Sanitize(s))[c] == multiset(s)[c]
    ensures forall c :: !IsAmountChar(c) ==> multiset(Sanitize(s))[c] == 0
  {
    if s != [] {
      SanitizeKeepsAmountChars(s[1..]);
      assert s == [s[0]] + s[1..];
      assert multiset(s) == multiset([s[0]]) + multiset(s[1..]);
    }
  }

  /** Text made only of digits and dots passes through unchanged. */
  lemma {:induction false} SanitizeClean(s: string)
    requires forall c :: c in s ==> IsAmountChar(c)
    ensures Sanitize(s) == s
  {
    if s != [] {
      assert s[0] in s;
      SanitizeClean(s[1..]);
      assert [s[0]] + s[1..] == s;
    }
  }

  /** Sanitising twice is sanitising once. */
  lemma SanitizeIdempotent(s: string)
    ensures Sanitize(Sanitize(s)) == Sanitize(s)
  {
    SanitizeClean(Sanitize(s));
  }

  /** Sanitising distributes over concatenation, so typing one more character extends the text by at most that character. */
  lemma {:induction false} SanitizeAppend(a: string, b: string)
    ensures Sanitize(a + b) == Sanitize(a) + Sanitize(b)
  {
    if a == [] {
      assert a + b == b;
    } else {
      assert (a + b)[0] == a[0];
      assert (a + b)[1..] == a[1..] + b;
      SanitizeAppend(a[1..], b);
    }
  }

  /** A leading minus sign is stripped, so "-5" becomes "5" rather than being refused; letters vanish; a lone dot stays. */
  lemma SanitizeExamples()
    ensures Sanitize("-5") == "5"
    ensures Sanitize("ab") == ""
    ensures Sanitize(".") == "."
  {
    assert Sanitize("5") == "5";
    assert Sanitize("b") == "";
  }

  // ---------------------------------------------------------------------------
  // Quote: rate, fee, estimate

  const FEE_RATE: real := 0.005

  /** The exchange rate: the source price divided by the destination price. */
  function Rate(from: Token, to: Token): (r: real)
    requires to.price > 0.0
    ensures from.price > 0.0 ==> r > 0.0
    ensures r * to.price == from.price
  {
    from.price / to.price
  }

  /** A parsed number times a constant; NaN stays NaN. */
  function Scale(x: Option<real>, k: real): Option<real>
  {
    match x
    case Some(v) => Some(v * k)
    case None => None
  }

  /** The estimated amount received: the parsed amount times the rate. */
  function Estimate(parsed: Option<real>, from: Token, to: Token): (r: Option<real>)
    requires to.price > 0.0
    ensures r.Some? <==> parsed.Some?
    ensures parsed.Some? ==> r.value * to.price == parsed.value * from.price
  {
    assert parsed.Some? ==> Scale(parsed, Rate(from, to)).value == parsed.value * Rate(from, to);
    Scale(parsed, Rate(from, to))
  }

  /** The fee: 0.5% of the parsed amount, in the source token. */
  function Fee(parsed: Option<real>): (r: Option<real>)
    ensures r.Some? <==> parsed.Some?
    ensures parsed.Some? ==> r.value * 200.0 == parsed.value
    ensures parsed.Some? && parsed.value >= 0.0 ==> 0.0 <= r.value <= parsed.value
  {
    assert parsed.Some? ==> Scale(parsed, FEE_RATE).value == parsed.value * FEE_RATE;
    Scale(parsed, FEE_RATE)
  }

  /** JavaScript `x > y` where `x` may be NaN. */
  predicate Exceeds(x: Option<real>, y: real) { x.Some? && x.value > y }

  /** JavaScript `x <= y` where `x` may be NaN. */
  predicate AtMost(x: Option<real>, y: real) { x.Some? && x.value <= y }

  /** The read-only "receive" field: the estimate when the amount is positive, and 0 otherwise. */
  function ReceiveShown(parsed: Option<real>, from: Token, to: Token): (r: real)
    requires to.price > 0.0
    ensures from.price > 0.0 ==> r >= 0.0
  {
    assert Exceeds(parsed, 0.0) ==> Estimate(parsed, from, to).value == parsed.value * Rate(from, to);
    if Exceeds(parsed, 0.0) then Estimate(parsed, from, to).value else 0.0
  }

  /** The rate in one direction times the rate in the other is 1. */
  lemma RateInverse(a: Token, b: Token)
    requires a.price > 0.0 && b.price > 0.0
    ensures Rate(a, b) * Rate(b, a) == 1.0
    ensures Rate(a, b) > 0.0
  {
    assert Rate(a, b) * Rate(b, a) == (a.price * b.price) / (b.price * a.price);
  }

  /** Converting an estimate back at the reverse rate gives the original amount. */
  lemma EstimateRoundTrip(x: real, a: Token, b: Token)
    requires a.price > 0.0 && b.price > 0.0
    ensures Estimate(Estimate(Some(x), a, b), b, a) == Some(x)
  {
    RateInverse(a, b);
    var y := Estimate(Some(x), a, b);
    assert y.value == x * Rate(a, b);
    assert Estimate(y, b, a).value == x * Rate(a, b) * Rate(b, a);
    assert x * Rate(a, b) * Rate(b, a) == x * (Rate(a, b) * Rate(b, a));
    assert Estimate(y, b, a).Some? && Estimate(y, b, a).value == x;
  }

  /** The "receive" field is never negative, and shows the estimate exactly when the amount is positive. */
  lemma ReceiveShownSpec(parsed: Option<real>, from: Token, to: Token)
    requires from.price > 0.0 && to.price > 0.0
    ensures ReceiveShown(parsed, from, to) >= 0.0
    ensures Exceeds(parsed, 0.0) ==> Some(ReceiveShown(parsed, from, to)) == Estimate(parsed, from, to)
    ensures !Exceeds(parsed, 0.0) ==> ReceiveShown(parsed, from, to) == 0.0
  {
    RateInverse(from, to);
    if Exceeds(parsed, 0.0) {
      assert parsed.value * Rate(from, to) > 0.0;
    }
  }

  /** NRF to CBT with amount 10: rate 2.45 / 0.87, fee 0.05, estimate 24.5 / 0.87. */
  lemma QuoteExample()
    ensures Rate(CATALOG[0], CATALOG[1]) == 245.0 / 87.0
    ensures Fee(Some(10.0)) == Some(0.05)
    ensures Estimate(Some(10.0), CATALOG[0], CATALOG[1]) == Some(2450.0 / 87.0)
  {
  }

  // ---------------------------------------------------------------------------
  // Submission gate

  datatype Verdict = Invalid | Insufficient | Accepted

  /** Non-positive amounts are refused first, then amounts above the balance; NaN fails both tests. */
  function Gate(parsed: Option<real>, balance: real): (r: Verdict)
    ensures r == Accepted ==> parsed.None? || 0.0 < parsed.value <= balance
  {
    if AtMost(parsed, 0.0) then Invalid
    else if Exceeds(parsed, balance) then Insufficient
    else Accepted
  }

  /** What the gate lets through, with the invalid-amount test taking priority over the balance test. */
  lemma GateSpec(parsed: Option<real>, balance: real)
    ensures Gate(parsed, balance) == Invalid <==> parsed.Some? && parsed.value <= 0.0
    ensures Gate(parsed, balance) == Insufficient <==> parsed.Some? && 0.0 < parsed.value && balance < parsed.value
    ensures Gate(parsed, balance) == Accepted <==> parsed.None? || 0.0 < parsed.value <= balance
  {
  }

  /** An amount that parses to NaN (the empty text or "." after sanitising) passes both tests. */
  lemma NaNPassesGate(balance: real)
    ensures Gate(None, balance) == Accepted
  {
  }

  // ---------------------------------------------------------------------------
  // Form state and its transitions

  datatype Selection = Selection(fromToken: Token, toToken: Token, amount: string)

  /** The form's invariant: both sides are catalog tokens, and their ids differ. */
  predicate Valid(s: Selection)
    ensures Valid(s) ==> s.fromToken != s.toToken
  {
    s.fromToken in CATALOG && s.toToken in CATALOG && s.fromToken.id != s.toToken.id
  }

  /** The notification emitted by a submission. */
  datatype Notice =
    | InvalidAmount
    | InsufficientBalance(symbol: string)
    | ExchangeSuccessful(sent: Option<real>, fromSymbol: string, received: Option<real>, toSymbol: string)

  datatype Outcome = Outcome(next: Selection, notice: Notice)

  /** The form starts with the first two catalog tokens and amount "0", which satisfies the invariant. */
  function Initial(): (r: Selection)
    ensures Valid(r)
    ensures r.fromToken.symbol == "NRF" && r.toToken.symbol == "CBT" && r.amount == "0"
  {
    Selection(CATALOG[0], CATALOG[1], "0")
  }

  function FromTokenChanged(s: Selection, value: string): (r: Selection)
    ensures Valid(s) ==> Valid(r)
    ensures r.amount == s.amount
  {
    SelectTokenSpec(value, CATALOG[0]);
    var selected := SelectToken(value, CATALOG[0]);
    if selected.id == s.toToken.id then Selection(selected, s.fromToken, s.amount)
    else s.(fromToken := selected)
  }

  function ToTokenChanged(s: Selection, value: string): (r: Selection)
    ensures Valid(s) ==> Valid(r)
    ensures r.amount == s.amount
  {
    SelectTokenSpec(value, CATALOG[1]);
    var selected := SelectToken(value, CATALOG[1]);
    if selected.id == s.fromToken.id then Selection(s.toToken, selected, s.amount)
    else s.(toToken := selected)
  }

  function Swapped(s: Selection): (r: Selection)
    ensures Valid(s) ==> Valid(r)
    ensures r.amount == s.amount
  {
    s.(fromToken := s.toToken, toToken := s.fromToken)
  }

  function AmountChanged(s: Selection, value: string): (r: Selection)
    ensures Valid(s) ==> Valid(r)
    ensures forall c :: c in r.amount ==> IsAmountChar(c)
  {
    s.(amount := Sanitize(value))
  }

  function MaxAmount(s: Selection, numberText: real -> string): (r: Selection)
    ensures Valid(s) ==> Valid(r)
    ensures r.fromToken == s.fromToken && r.toToken == s.toToken
  {
    s.(amount := numberText(s.fromToken.balance))
  }

  /** Submitting the form, where `parsed` is the amount text parsed as a number. */
  function Submit(s: Selection, parsed: Option<real>): (r: Outcome)
    requires s.toToken.price > 0.0
    ensures Valid(s) ==> Valid(r.next)
    ensures r.next.fromToken == s.fromToken && r.next.toToken == s.toToken
    ensures r.next.amount == s.amount || (r.next.amount == "0" && r.notice.ExchangeSuccessful?)
  {
    match Gate(parsed, s.fromToken.balance)
    case Invalid => Outcome(s, InvalidAmount)
    case Insufficient => Outcome(s, InsufficientBalance(s.fromToken.symbol))
    case Accepted =>
      Outcome(s.(amount := "0"),
              ExchangeSuccessful(parsed, s.fromToken.symbol, Estimate(parsed, s.fromToken, s.toToken), s.toToken.symbol))
  }

  /** Picking a from-token: the pick lands on the from-side; on a clash the old from-token moves to the to-side; the invariant is kept. */
  lemma FromTokenChangedSpec(s: Selection, value: string)
    requires Valid(s)
    ensures var r := FromTokenChanged(s, value);
      && Valid(r)
      && r.fromToken == SelectToken(value, CATALOG[0])
      && r.toToken == (if r.fromToken.id == s.toToken.id then s.fromToken else s.toToken)
      && r.amount == s.amount
  {
    SelectTokenSpec(value, CATALOG[0]);
  }

  /** Picking a to-token is the mirror image, with the second catalog token as the fallback. */
  lemma ToTokenChangedSpec(s: Selection, value: string)
    requires Valid(s)
    ensures var r := ToTokenChanged(s, value);
      && Valid(r)
      && r.toToken == SelectToken(value, CATALOG[1])
      && r.fromToken == (if r.toToken.id == s.fromToken.id then s.toToken else s.fromToken)
      && r.amount == s.amount
  {
    SelectTokenSpec(value, CATALOG[1]);
  }

  /** Picking the token that already sits on the other side exchanges the two sides. */
  lemma PickOtherSideSwaps(s: Selection)
    requires Valid(s)
    ensures FromTokenChanged(s, s.toToken.id) == Swapped(s)
    ensures ToTokenChanged(s, s.fromToken.id) == Swapped(s)
  {
    SelectTokenSpec(s.toToken.id, CATALOG[0]);
    SelectTokenSpec(s.fromToken.id, CATALOG[1]);
  }

  /** Swapping keeps the invariant and the amount, and swapping twice restores the pair. */
  lemma SwappedSpec(s: Selection)
    requires Valid(s)
    ensures Valid(Swapped(s))
    ensures Swapped(s).amount == s.amount
    ensures Swapped(Swapped(s)) == s
  {
  }

  /** Swapping inverts the exchange rate. */
  lemma SwapInvertsRate(s: Selection)
    requires s.fromToken.price > 0.0 && s.toToken.price > 0.0
    ensures Rate(s.fromToken, s.toToken) * Rate(Swapped(s).fromToken, Swapped(s).toToken) == 1.0
  {
    RateInverse(s.fromToken, s.toToken);
  }

  /** Editing the amount stores the sanitised text and leaves both tokens alone. */
  lemma AmountChangedSpec(s: Selection, value: string)
    requires Valid(s)
    ensures var r := AmountChanged(s, value);
      && Valid(r)
      && r.fromToken == s.fromToken && r.toToken == s.toToken
      && (forall c :: c in r.amount ==> IsAmountChar(c))
      && IsSubsequence(r.amount, value)
  {
    SanitizeIsSubsequence(value);
  }

  /** MAX writes the text of the from-token's balance and leaves both tokens alone. */
  lemma MaxAmountSpec(s: Selection, numberText: real -> string)
    requires Valid(s)
    ensures var r := MaxAmount(s, numberText);
      Valid(r) && r.fromToken == s.fromToken && r.toToken == s.toToken && r.amount == numberText(s.fromToken.balance)
  {
  }

  /** Submission never changes a token or a balance; only success resets the amount, to "0". */
  lemma SubmitSpec(s: Selection, parsed: Option<real>)
    requires Valid(s)
    ensures var o := Submit(s, parsed);
      && Valid(o.next)
      && o.next.fromToken == s.fromToken && o.next.toToken == s.toToken
      && (parsed.Some? && parsed.value <= 0.0 ==> o.notice == InvalidAmount && o.next == s)
      && (parsed.Some? && 0.0 < parsed.value && s.fromToken.balance < parsed.value ==>
            o.notice == InsufficientBalance(s.fromToken.symbol) && o.next == s)
      && (o.notice.ExchangeSuccessful? <==> parsed.None? || 0.0 < parsed.value <= s.fromToken.balance)
      && (o.notice.ExchangeSuccessful? ==> o.next.amount == "0" && o.notice.sent == parsed)
  {
    CatalogAmountsPositive();
    GateSpec(parsed, s.fromToken.balance);
  }

  /** After MAX, submitting always succeeds, provided the balance's text parses back to the balance. */
  lemma MaxThenSubmitSucceeds(s: Selection, numberText: real -> string, parseFloat: string -> Option<real>)
    requires Valid(s)
    requires parseFloat(numberText(s.fromToken.balance)) == Some(s.fromToken.balance)
    ensures var m := MaxAmount(s, numberText);
      Submit(m, parseFloat(m.amount)).notice.ExchangeSuccessful?
  {
    CatalogAmountsPositive();
  }

  /** Any typed text whose sanitised form parses to NaN ("" from letters only, or a lone ".") is reported as a successful exchange of NaN, and the amount is reset. */
  lemma NaNAmountSucceeds(s: Selection, value: string, parseFloat: string -> Option<real>)
    requires Valid(s)
    requires parseFloat(Sanitize(value)) == None
    ensures var m := AmountChanged(s, value);
      Submit(m, parseFloat(m.amount)) == Outcome(s.(amount := "0"), ExchangeSuccessful(None, s.fromToken.symbol, None, s.toToken.symbol))
  {
    CatalogAmountsPositive();
  }

  // ---------------------------------------------------------------------------
  // The component

  /** The component's held state and its handlers; each handler reads the values from before the event. */
  class ExchangeForm {
    const parseFloat: string -> Option<real>
    const numberText: real -> string
    var fromToken: Token
    var toToken: Token
    var amount: string

    function State(): Selection
      reads this
    {
      Selection(fromToken, toToken, amount)
    }

    ghost predicate Invariant()
      reads this
    {
      Valid(State())
    }

    constructor (parseFloat: string -> Option<real>, numberText: real -> string)
      ensures Invariant() && State() == Initial()
      ensures this.parseFloat == parseFloat && this.numberText == numberText
    {
      this.parseFloat := parseFloat;
      this.numberText := numberText;
      fromToken := CATALOG[0];
      toToken := CATALOG[1];
      amount := "0";
    }

    method HandleFromTokenChange(value: string)
      requires Invariant()
      modifies this
      ensures Invariant()
      ensures State() == FromTokenChanged(old(State()), value)
    {
      var selected := SelectToken(value, CATALOG[0]);
      if selected.id == toToken.id {
        toToken := fromToken;
      }
      fromToken := selected;
      FromTokenChangedSpec(old(State()), value);
    }

    method HandleToTokenChange(value: string)
      requires Invariant()
      modifies this
      ensures Invariant()
      ensures State() == ToTokenChanged(old(State()), value)
    {
      var selected := SelectToken(value, CATALOG[1]);
      if selected.id == fromToken.id {
        fromToken := toToken;
      }
      toToken := selected;
      ToTokenChangedSpec(old(State()), value);
    }

    method HandleSwapTokens()
      requires Invariant()
      modifies this
      ensures Invariant()
      ensures State() == Swapped(old(State()))
    {
      var temp := fromToken;
      fromToken := toToken;
      toToken := temp;
    }

    method HandleAmountChange(value: string)
      requires Invariant()
      modifies this
      ensures Invariant()
      ensures State() == AmountChanged(old(State()), value)
    {
      amount := Sanitize(value);
    }

    method HandleMaxAmount()
      requires Invariant()
      modifies this
      ensures Invariant()
      ensures State() == MaxAmount(old(State()), numberText)
    {
      amount := numberText(fromToken.balance);
    }

    /** Returns the notification that the page shows. */
    method HandleExchange() returns (notice: Notice)
      requires Invariant()
      modifies this
      ensures Invariant()
      ensures Outcome(State(), notice) == Submit(old(State()), parseFloat(old(amount)))
    {
      CatalogAmountsPositive();
      var numAmount := parseFloat(amount);
      if AtMost(numAmount, 0.0) {
        notice := InvalidAmount;
        return;
      }
      if Exceeds(numAmount, fromToken.balance) {
        notice := InsufficientBalance(fromToken.symbol);
        return;
      }
      notice := ExchangeSuccessful(numAmount, fromToken.symbol, Estimate(numAmount, fromToken, toToken), toToken.symbol);
      amount := "0";
    }
  }
}
