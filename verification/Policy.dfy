/**
  Which deposits get a drip, and of how much: policy.Drip.Match and the selection loop,
  Faucet.shouldTransfer, calMetisDrip and makeDripTx (internal/services/faucet.go),
  as functions of the deposit, the tables and the answers of the outside world.
 */
module Policy {
  import opened Data
  import opened Rebate
  import opened Rounding
  import PriceCache

  datatype Policy = Policy(matchAll: bool, matchToken: set<Address>, checkIfFirst: bool, checkIfNoGas: bool,
                           startTime: int, endTime: int, minUSDEqual: real, rebateType: int)

  const DEFAULT_REBATE_TYPE := 0
  const GAS_FEE_REBATE_TYPE := 1

  predicate Match(p: Policy, time: int, token: Address) {
    p.matchAll || (time > p.startTime && time < p.endTime && token in p.matchToken)
  }

  /** A policy for some tokens matches strictly between its start and its end only. */
  lemma MatchMeaning(p: Policy, time: int, token: Address)
    ensures p.matchAll ==> Match(p, time, token)
    ensures !p.matchAll && (time <= p.startTime || time >= p.endTime || token !in p.matchToken) ==> !Match(p, time, token)
    ensures p.startTime < time < p.endTime && token in p.matchToken ==> Match(p, time, token)
  {}

  /** Policy i matches and no later one does. */
  ghost predicate LastMatch(policies: seq<Policy>, time: int, token: Address, i: int) {
    && 0 <= i < |policies| && Match(policies[i], time, token)
    && forall j :: i < j < |policies| ==> !Match(policies[j], time, token)
  }

  /** The last policy in the list that matches. */
  function Select(policies: seq<Policy>, time: int, token: Address): Option<Policy> {
    if policies == [] then None
    else if Match(policies[|policies| - 1], time, token) then Some(policies[|policies| - 1])
    else Select(policies[..|policies| - 1], time, token)
  }

  lemma {:induction false} SelectsLastMatch(policies: seq<Policy>, time: int, token: Address)
    ensures Select(policies, time, token).None? <==> forall i :: 0 <= i < |policies| ==> !Match(policies[i], time, token)
    ensures forall i :: LastMatch(policies, time, token, i) ==> Select(policies, time, token) == Some(policies[i])
  {
    hide Match;
    if policies != [] {
      var n := |policies| - 1;
      var front := policies[..n];
      SelectsLastMatch(front, time, token);
      forall i | LastMatch(policies, time, token, i) ensures Select(policies, time, token) == Some(policies[i]) {
        if i < n { assert LastMatch(front, time, token, i); }
      }
    }
  }

  /** Initial refuses to start without a catch-all policy. */
  predicate HasDefault(policies: seq<Policy>) {
    exists i :: 0 <= i < |policies| && policies[i].matchAll
  }

  lemma DefaultAlwaysSelects(policies: seq<Policy>, time: int, token: Address)
    requires HasDefault(policies)
    ensures Select(policies, time, token).Some?
  {
    SelectsLastMatch(policies, time, token);
    var i :| 0 <= i < |policies| && policies[i].matchAll;
    assert Match(policies[i], time, token);
  }

  // ----- shouldTransfer -----

  /** What price feed, L1 and L2 nodes answer while one deposit is handled; None is an error. */
  datatype Probe = Probe(price: PriceCache.Answer, decimals: Option<nat>, query: bool, nonce: Option<nat>,
                         balance: Option<int>, codeSize: Option<nat>, gasSpent: Option<nat>,
                         metisPrice: PriceCache.Answer, gasPrice: Option<nat>, gas: Option<nat>)

  datatype Decision = Go | NoNeed | Fail

  const STABLE_TOKENS: set<Address> := {
    "0xdac17f958d2ee523a2206206994597c13d831ec7", "0xa0b86991c6218b36c1d19d4a2e9eb0ce3606eb48",
    "0x6b175474e89094c44da98b954eedeac495271d0f", "0x4fabb145d64652a948d72533023f6e7a623c7c53" }

  predicate IsStableL1Token(token: Address) { PriceCache.ToLower(token) in STABLE_TOKENS }

  /** An amount in the token's smallest unit, as a number of tokens in binary64. */
  function Readable(amount: nat, decimals: nat): real { Round64(amount as real / TenTo(decimals)) }

  function TenTo(k: nat): (r: real)
    ensures r > 0.0
  {
    if k == 0 then 1.0 else 10.0 * TenTo(k - 1)
  }

  function Rate(token: Address, probe: Probe): PriceCache.Answer {
    if IsStableL1Token(token) then PriceCache.Success(Price(1.0, 1.0)) else probe.price
  }

  function Decimals(token: Address, probe: Probe): Option<nat> {
    if token == PriceCache.ETHER_L1_ADDRESS then Some(18) else probe.decimals
  }

  function WorthUSD(rate: real, amount: real): real { Product64(rate, amount) }

  /** The minimum-value check. */
  function CheckValue(p: Policy, row: Row, probe: Probe): Decision {
    if p.minUSDEqual <= 0.0 then Go else
      match Rate(row.l1token, probe)
      case NoTokenInfo => NoNeed
      case QueryError => Fail
      case Success(info) =>
        match Decimals(row.l1token, probe)
        case None => Fail
        case Some(decimals) =>
          if WorthUSD(info.inUSD, Readable(row.amount, decimals)) < p.minUSDEqual then NoNeed else Go
  }

  function CheckFirst(p: Policy, to: Address, drips: map<nat, Drip>, probe: Probe): Decision {
    if !p.checkIfFirst then Go
    else if !probe.query then Fail
    else if !HasGotDrip(drips, to) then NoNeed
    else match probe.nonce
         case None => Fail
         case Some(n) => if n > 0 then NoNeed else Go
  }

  function CheckNoGas(p: Policy, probe: Probe): Decision {
    if !p.checkIfNoGas then Go
    else match probe.balance
         case None => Fail
         case Some(b) => if b > 0 then NoNeed else Go
  }

  function CheckCode(probe: Probe): Decision {
    match probe.codeSize
    case None => Fail
    case Some(n) => if n > 0 then NoNeed else Go
  }

  function Then(first: Decision, second: Decision): Decision { if first.Go? then second else first }

  /** The decision under the selected policy, in the order of the checks. */
  function DecideUnder(policy: Option<Policy>, item: Deposit, recset: set<Address>, tokens: set<Address>,
                       drips: map<nat, Drip>, probe: Probe): Decision {
    match policy
    case None => NoNeed
    case Some(p) =>
      if item.row.l2token !in tokens || item.row.to in recset then NoNeed
      else Then(CheckValue(p, item.row, probe),
           Then(CheckFirst(p, item.row.to, drips, probe),
           Then(CheckNoGas(p, probe), CheckCode(probe))))
  }

  function Decide(policies: seq<Policy>, item: Deposit, recset: set<Address>, tokens: set<Address>,
                  drips: map<nat, Drip>, probe: Probe): Decision {
    DecideUnder(Select(policies, item.ctime, item.row.l1token), item, recset, tokens, drips, probe)
  }

  /** Everything a recipient has to satisfy under policy p. */
  ghost predicate Passes(p: Policy, item: Deposit, tokens: set<Address>, drips: map<nat, Drip>, probe: Probe) {
    && item.row.l2token in tokens
    && (p.minUSDEqual > 0.0 ==>
          Rate(item.row.l1token, probe).Success? && Decimals(item.row.l1token, probe).Some? &&
          WorthUSD(Rate(item.row.l1token, probe).token.inUSD,
                   Readable(item.row.amount, Decimals(item.row.l1token, probe).value)) >= p.minUSDEqual)
    && (p.checkIfFirst ==> probe.query && (forall pid :: pid in drips ==> drips[pid].to != item.row.to) && probe.nonce == Some(0))
    && (p.checkIfNoGas ==> probe.balance.Some? && probe.balance.value <= 0)
    && probe.codeSize == Some(0)
  }

  /** A drip is decided exactly when a policy matches and its last match passes every check. */
  lemma DecideGo(policies: seq<Policy>, item: Deposit, recset: set<Address>, tokens: set<Address>,
                 drips: map<nat, Drip>, probe: Probe)
    ensures Decide(policies, item, recset, tokens, drips, probe).Go? <==>
              var s := Select(policies, item.ctime, item.row.l1token);
              s.Some? && item.row.to !in recset && Passes(s.value, item, tokens, drips, probe)
  {
    hide IsStableL1Token, Readable, Select, HasGotDrip;
    HasGotDripMeaning(drips, item.row.to);
  }

  // ----- What the value check measures -----

  lemma {:induction false} TenToPow10(d: nat)
    ensures TenTo(d) == Ether.Pow10(d) as real
  {
    if d > 0 { TenToPow10(d - 1); }
  }

  /** The exact number of tokens, for an amount in the smallest unit. */
  function Tokens(amount: nat, decimals: nat): (q: real)
    ensures q >= 0.0 && q * Ether.Pow10(decimals) as real == amount as real
  {
    TenToPow10(decimals);
    amount as real / Ether.Pow10(decimals) as real
  }

  /** Whole numbers of tokens below 2^53 are read exactly, whatever the decimals. */
  lemma ReadableExact(n: nat, decimals: nat)
    requires n < 9007199254740992
    ensures Readable(n * Ether.Pow10(decimals), decimals) == n as real
  {
    hide Round64;
    TenToPow10(decimals);
    var ten := Ether.Pow10(decimals) as real;
    assert (n * Ether.Pow10(decimals)) as real == n as real * ten;
    Cancel(n as real, ten);
    Round64Whole(n);
  }

  lemma Cancel(x: real, y: real)
    requires y > 0.0
    ensures x * y / y == x
  {}

  lemma ReadableError(amount: nat, decimals: nat)
    ensures Gap(Tokens(amount, decimals), Readable(amount, decimals)) <= Scale(Tokens(amount, decimals), -53)
  {
    hide Round64, Scale;
    TenToPow10(decimals);
    Round64Error(Tokens(amount, decimals));
  }

  lemma ReadableMonotone(a: nat, b: nat, decimals: nat)
    requires a <= b
    ensures 0.0 <= Readable(a, decimals) <= Readable(b, decimals)
  {
    hide Round64;
    TenToPow10(decimals);
    var ten := TenTo(decimals);
    DivideMonotone(a as real, b as real, ten);
    Round64Monotone(a as real / ten, b as real / ten);
  }

  lemma DivideMonotone(a: real, b: real, c: real)
    requires 0.0 <= a <= b && c > 0.0
    ensures 0.0 <= a / c <= b / c
  {}

  lemma WorthError(rate: real, amount: real)
    ensures Gap(rate * amount, WorthUSD(rate, amount)) <= Scale(Ether.Magnitude(rate * amount), -53)
  {
    hide Round64, Scale;
    Round64Error(rate * amount);
  }

  function ExactProduct(a: real, b: real): real { a * b }

  /** Two roundings together: a relative error of at most 2^-51. */
  lemma TwoRoundings(q: real, a: real, w: real, rate: real)
    requires q >= 0.0 && rate >= 0.0 && a >= 0.0 && Gap(q, a) <= Scale(q, -53)
    requires Gap(ExactProduct(rate, a), w) <= Scale(ExactProduct(rate, a), -53)
    ensures Gap(ExactProduct(rate, q), w) <= Scale(ExactProduct(rate, q), -51)
  {
    hide Scale, ExactProduct;
    ProductScale(rate, q);
    Spread(rate, q, a, Scale(q, -53));
    ProductSign'(rate, q);
    ProductSign'(rate, a);
    AddErrors(ExactProduct(rate, q), ExactProduct(rate, a), w);
  }

  lemma ProductScale(rate: real, q: real)
    ensures Scale(ExactProduct(rate, q), -53) == ExactProduct(rate, Scale(q, -53))
  {
    hide Scale;
    ScaleProduct(q, rate, -53);
    assert q * rate == rate * q;
  }

  lemma AddErrors(y: real, z: real, w: real)
    requires y >= 0.0 && z >= 0.0 && Gap(y, z) <= Scale(y, -53) && Gap(z, w) <= Scale(z, -53)
    ensures Gap(y, w) <= Scale(y, -51)
  {
    hide Scale;
    Fraction53(y);
    Fraction53(z);
  }

  lemma ProductSign'(a: real, b: real)
    requires a >= 0.0 && b >= 0.0
    ensures ExactProduct(a, b) >= 0.0
  {}

  lemma Spread(rate: real, q: real, a: real, e: real)
    requires rate >= 0.0 && Gap(q, a) <= e
    ensures Gap(ExactProduct(rate, q), ExactProduct(rate, a)) <= ExactProduct(rate, e)
  {
    if q <= a {
      assert rate * (a - q) <= rate * e;
    } else {
      assert rate * (q - a) <= rate * e;
    }
  }

  lemma WorthErrorPositive(rate: real, amount: real)
    requires rate >= 0.0 && amount >= 0.0
    ensures Gap(ExactProduct(rate, amount), WorthUSD(rate, amount)) <= Scale(ExactProduct(rate, amount), -53)
  {
    hide WorthUSD, Scale;
    ProductSign'(rate, amount);
    WorthError(rate, amount);
  }

  /** The dollar value that is compared differs from rate * amount / 10^decimals by at most a relative 2^-51. */
  lemma ValueError(rate: real, amount: nat, decimals: nat)
    requires rate >= 0.0
    ensures Gap(ExactProduct(rate, Tokens(amount, decimals)), WorthUSD(rate, Readable(amount, decimals)))
            <= Scale(ExactProduct(rate, Tokens(amount, decimals)), -51)
  {
    hide Scale, Tokens, Readable, WorthUSD, ExactProduct;
    ReadableError(amount, decimals);
    ReadableSign(amount, decimals);
    var a := Readable(amount, decimals);
    WorthErrorPositive(rate, a);
    TwoRoundings(Tokens(amount, decimals), a, WorthUSD(rate, a), rate);
  }

  lemma ReadableSign(amount: nat, decimals: nat)
    ensures Readable(amount, decimals) >= 0.0
  {
    ReadableMonotone(0, amount, decimals);
  }

  /** Stable tokens count one dollar each, whatever the price feed says; the case of their address does not matter. */
  lemma StableRate(token: Address, probe: Probe)
    ensures IsStableL1Token(token) ==> Rate(token, probe).Success? && Rate(token, probe).token.inUSD == 1.0
    ensures !IsStableL1Token(token) ==> Rate(token, probe) == probe.price
    ensures IsStableL1Token(PriceCache.ToLower(token)) == IsStableL1Token(token)
  {
    PriceCache.LowerIdempotent(token);
  }

  /** The stable tokens are USDT, USDC, DAI and BUSD. */
  lemma StableTokens(token: Address)
    ensures IsStableL1Token(token) <==>
              var lower := PriceCache.ToLower(token);
              || lower == "0xdac17f958d2ee523a2206206994597c13d831ec7"
              || lower == "0xa0b86991c6218b36c1d19d4a2e9eb0ce3606eb48"
              || lower == "0x6b175474e89094c44da98b954eedeac495271d0f"
              || lower == "0x4fabb145d64652a948d72533023f6e7a623c7c53"
  {
    hide PriceCache.ToLower;
  }

  /** Ether has 18 decimals, every other token those that were read. */
  lemma DecimalsMeaning(token: Address, probe: Probe)
    ensures token == "0x0000000000000000000000000000000000000000" ==> Decimals(token, probe) == Some(18)
    ensures token != "0x0000000000000000000000000000000000000000" ==> Decimals(token, probe) == probe.decimals
  {}

  /** The dollar value of a deposit at the answered rate, without any rounding. */
  function ExactWorth(row: Row, probe: Probe): real
    requires Rate(row.l1token, probe).Success? && Decimals(row.l1token, probe).Some?
  {
    ExactProduct(Rate(row.l1token, probe).token.inUSD, Tokens(row.amount, Decimals(row.l1token, probe).value))
  }

  /**
    The value check in units: with a rate and decimals answered, a deposit worth the minimum by more
    than the rounding passes, one worth less by more than the rounding fails.
   */
  lemma ValueInUnits(p: Policy, row: Row, probe: Probe)
    requires p.minUSDEqual > 0.0 && Rate(row.l1token, probe).Success? && Decimals(row.l1token, probe).Some?
    requires Rate(row.l1token, probe).token.inUSD >= 0.0
    ensures var worth := ExactWorth(row, probe);
            && (ValuePasses(p, row, probe) ==> worth + Scale(worth, -51) >= p.minUSDEqual)
            && (worth - Scale(worth, -51) >= p.minUSDEqual ==> ValuePasses(p, row, probe))
            && (ValueFails(p, row, probe) ==> worth - Scale(worth, -51) < p.minUSDEqual)
            && (worth + Scale(worth, -51) < p.minUSDEqual ==> ValueFails(p, row, probe))
  {
    hide Scale, ExactWorth, Readable, WorthUSD, Rate, Decimals;
    var rate, decimals := Rate(row.l1token, probe).token.inUSD, Decimals(row.l1token, probe).value;
    var worth, value := ExactWorth(row, probe), WorthUSD(rate, Readable(row.amount, decimals));
    WorthOff(row, probe);
    Around(worth, value, Scale(worth, -51));
  }

  lemma WorthOff(row: Row, probe: Probe)
    requires Rate(row.l1token, probe).Success? && Decimals(row.l1token, probe).Some?
    requires Rate(row.l1token, probe).token.inUSD >= 0.0
    ensures Gap(ExactWorth(row, probe),
                WorthUSD(Rate(row.l1token, probe).token.inUSD, Readable(row.amount, Decimals(row.l1token, probe).value)))
            <= Scale(ExactWorth(row, probe), -51)
  {
    hide Scale, Tokens, Readable, WorthUSD, Rate, Decimals, ExactProduct;
    ValueError(Rate(row.l1token, probe).token.inUSD, row.amount, Decimals(row.l1token, probe).value);
  }

  lemma Around(worth: real, value: real, e: real)
    requires Gap(worth, value) <= e
    ensures worth - e <= value <= worth + e
  {}

  /** A drip under a minimum value is only decided for a deposit worth that much, up to the rounding. */
  lemma GoIsWorth(policies: seq<Policy>, item: Deposit, recset: set<Address>, tokens: set<Address>,
                  drips: map<nat, Drip>, probe: Probe, i: int)
    requires LastMatch(policies, item.ctime, item.row.l1token, i) && policies[i].minUSDEqual > 0.0
    requires Rate(item.row.l1token, probe).Success? ==> Rate(item.row.l1token, probe).token.inUSD >= 0.0
    requires Decide(policies, item, recset, tokens, drips, probe).Go?
    ensures Rate(item.row.l1token, probe).Success? && Decimals(item.row.l1token, probe).Some?
    ensures var worth := ExactWorth(item.row, probe);
            worth + Scale(worth, -51) >= policies[i].minUSDEqual
  {
    hide Scale, ExactWorth, Readable, WorthUSD, IsStableL1Token, Match, Select;
    SelectsLastMatch(policies, item.ctime, item.row.l1token);
    DecideGo(policies, item, recset, tokens, drips, probe);
    ValueInUnits(policies[i], item.row, probe);
  }

  /** A deposit worth less gets none: the decision is that no drip is needed, not an error. */
  lemma WorthTooLittle(policies: seq<Policy>, item: Deposit, recset: set<Address>, tokens: set<Address>,
                       drips: map<nat, Drip>, probe: Probe, i: int)
    requires LastMatch(policies, item.ctime, item.row.l1token, i) && policies[i].minUSDEqual > 0.0
    requires Rate(item.row.l1token, probe).Success? && Decimals(item.row.l1token, probe).Some?
    requires Rate(item.row.l1token, probe).token.inUSD >= 0.0
    requires var worth := ExactWorth(item.row, probe);
             worth + Scale(worth, -51) < policies[i].minUSDEqual
    ensures Decide(policies, item, recset, tokens, drips, probe).NoNeed?
  {
    hide Scale, ExactWorth, Readable, WorthUSD, IsStableL1Token, Match, Select;
    ValueInUnits(policies[i], item.row, probe);
    DecideNoNeed(policies, item, recset, tokens, drips, probe);
    assert Disqualified(policies[i], item.row, drips, probe);
  }

  // ----- When no drip is needed -----

  /** The answers show that the deposit is worth too little, or has no price. */
  ghost predicate ValueFails(p: Policy, row: Row, probe: Probe) {
    && p.minUSDEqual > 0.0
    && (|| Rate(row.l1token, probe).NoTokenInfo?
        || (Rate(row.l1token, probe).Success? && Decimals(row.l1token, probe).Some? &&
            WorthUSD(Rate(row.l1token, probe).token.inUSD,
                     Readable(row.amount, Decimals(row.l1token, probe).value)) < p.minUSDEqual))
  }

  ghost predicate ValuePasses(p: Policy, row: Row, probe: Probe) {
    p.minUSDEqual > 0.0 ==>
      Rate(row.l1token, probe).Success? && Decimals(row.l1token, probe).Some? &&
      WorthUSD(Rate(row.l1token, probe).token.inUSD,
               Readable(row.amount, Decimals(row.l1token, probe).value)) >= p.minUSDEqual
  }

  /** The answers show a drip to this recipient already, or an account that has been used. */
  ghost predicate FirstFails(p: Policy, to: Address, drips: map<nat, Drip>, probe: Probe) {
    && p.checkIfFirst && probe.query
    && ((exists pid :: pid in drips && drips[pid].to == to) || (probe.nonce.Some? && probe.nonce.value > 0))
  }

  ghost predicate FirstPasses(p: Policy, to: Address, drips: map<nat, Drip>, probe: Probe) {
    p.checkIfFirst ==> probe.query && (forall pid :: pid in drips ==> drips[pid].to != to) && probe.nonce == Some(0)
  }

  ghost predicate GasFails(p: Policy, probe: Probe) {
    p.checkIfNoGas && probe.balance.Some? && probe.balance.value > 0
  }

  ghost predicate GasPasses(p: Policy, probe: Probe) {
    p.checkIfNoGas ==> probe.balance.Some? && probe.balance.value <= 0
  }

  /** A check of policy p was answered and failed, and all questions before it were answered and passed. */
  ghost predicate Disqualified(p: Policy, row: Row, drips: map<nat, Drip>, probe: Probe) {
    || ValueFails(p, row, probe)
    || (ValuePasses(p, row, probe) &&
        (|| FirstFails(p, row.to, drips, probe)
         || (FirstPasses(p, row.to, drips, probe) &&
             (|| GasFails(p, probe)
              || (GasPasses(p, probe) && probe.codeSize.Some? && probe.codeSize.value > 0)))))
  }

  /** Why a deposit gets no drip: no policy, an unsupported token, a drip in this batch, or a failed check. */
  ghost predicate NoDrip(policies: seq<Policy>, item: Deposit, recset: set<Address>, tokens: set<Address>,
                         drips: map<nat, Drip>, probe: Probe) {
    || (forall i :: 0 <= i < |policies| ==> !Match(policies[i], item.ctime, item.row.l1token))
    || item.row.l2token !in tokens || item.row.to in recset
    || exists i :: LastMatch(policies, item.ctime, item.row.l1token, i) && Disqualified(policies[i], item.row, drips, probe)
  }

  lemma CheckedNoNeed(p: Policy, item: Deposit, recset: set<Address>, tokens: set<Address>,
                      drips: map<nat, Drip>, probe: Probe)
    ensures DecideUnder(Some(p), item, recset, tokens, drips, probe).NoNeed?
            <==> item.row.l2token !in tokens || item.row.to in recset || Disqualified(p, item.row, drips, probe)
  {
    hide IsStableL1Token, Readable, WorthUSD, HasGotDrip;
    HasGotDripMeaning(drips, item.row.to);
  }

  /**
    No drip is given exactly when one of these reasons holds: never on an unanswered question, nor
    after one.
   */
  lemma DecideNoNeed(policies: seq<Policy>, item: Deposit, recset: set<Address>, tokens: set<Address>,
                     drips: map<nat, Drip>, probe: Probe)
    ensures Decide(policies, item, recset, tokens, drips, probe).NoNeed?
            <==> NoDrip(policies, item, recset, tokens, drips, probe)
  {
    hide DecideUnder, Disqualified, Match;
    var s := Select(policies, item.ctime, item.row.l1token);
    SelectsLastMatch(policies, item.ctime, item.row.l1token);
    if s.None? {
      NoPolicyNoNeed(item, recset, tokens, drips, probe);
    } else {
      SelectFrom(policies, item.ctime, item.row.l1token);
      CheckedNoNeed(s.value, item, recset, tokens, drips, probe);
    }
  }

  /** For instance: a token whose decimals cannot be read makes every decision fail that needs its value. */
  lemma NoDecimalsFails(policies: seq<Policy>, item: Deposit, recset: set<Address>, tokens: set<Address>,
                        drips: map<nat, Drip>, probe: Probe, i: int)
    requires LastMatch(policies, item.ctime, item.row.l1token, i) && policies[i].minUSDEqual > 0.0
    requires item.row.l2token in tokens && item.row.to !in recset
    requires item.row.l1token != PriceCache.ETHER_L1_ADDRESS && Rate(item.row.l1token, probe).Success? && probe.decimals.None?
    ensures Decide(policies, item, recset, tokens, drips, probe).Fail?
  {
    hide IsStableL1Token, Match;
    SelectsLastMatch(policies, item.ctime, item.row.l1token);
  }

  lemma NoPolicyNoNeed(item: Deposit, recset: set<Address>, tokens: set<Address>, drips: map<nat, Drip>, probe: Probe)
    ensures DecideUnder(None, item, recset, tokens, drips, probe).NoNeed?
  {}

  lemma {:induction false} SelectFrom(policies: seq<Policy>, time: int, token: Address)
    requires Select(policies, time, token).Some?
    ensures exists i :: LastMatch(policies, time, token, i) && Select(policies, time, token).value == policies[i]
  {
    var n := |policies| - 1;
    if Match(policies[n], time, token) {
      assert LastMatch(policies, time, token, n);
    } else {
      SelectFrom(policies[..n], time, token);
      var i :| LastMatch(policies[..n], time, token, i) && Select(policies, time, token).value == policies[..n][i];
      assert LastMatch(policies, time, token, i);
    }
  }

  // ----- calMetisDrip and makeDripTx -----

  /** The amount of a drip in wei, or the error or panic that the computation ends in. */
  function DripAmount(defaultDrip: int, maxUSD: real, rebateType: int, probe: Probe): Amount {
    if rebateType == DEFAULT_REBATE_TYPE then Wei(defaultDrip)
    else if rebateType == GAS_FEE_REBATE_TYPE then
      if probe.gasSpent.None? then Failed
      else if !probe.metisPrice.Success? then Failed
      else ToWeiChecked(GasFeeEther(Ether.ToEther(probe.gasSpent.value), probe.metisPrice.token, maxUSD))
    else Failed
  }

  /** The unsigned transfer; a negative amount cannot be estimated. */
  function MakeTx(nonce: nat, to: Address, amount: Amount, probe: Probe): Option<Tx> {
    if amount.Wei? && amount.wei >= 0 && probe.gasPrice.Some? && probe.gas.Some?
    then Some(Tx(nonce, to, amount.wei, probe.gasPrice.value, probe.gas.value))
    else None
  }

  /** Only a gas rebate at answered prices can panic, and it does so exactly where PanicsIff says. */
  lemma AmountPanicsIff(defaultDrip: int, maxUSD: real, rebateType: int, probe: Probe)
    ensures DripAmount(defaultDrip, maxUSD, rebateType, probe).Panic?
            <==> && rebateType == GAS_FEE_REBATE_TYPE && probe.gasSpent.Some? && probe.metisPrice.Success?
                 && var cost, price := Ether.ToEther(probe.gasSpent.value), probe.metisPrice.token;
                    if price.inEther == 0.0
                    then cost == 0.0 || price.inUSD == 0.0 || (cost > 0.0) != (price.inUSD > 0.0)
                    else price.inUSD == 0.0 && maxUSD < 0.0
  {
    hide Ether.ToEther, GasFeeEther, ToWeiChecked;
    if probe.gasSpent.Some? && probe.metisPrice.Success? {
      PanicsIff(Ether.ToEther(probe.gasSpent.value), probe.metisPrice.token, maxUSD);
    }
  }

  /** A transfer can be built exactly from an amount that is not negative, a gas price and a gas limit; it carries these. */
  lemma MakeTxMeaning(nonce: nat, to: Address, amount: Amount, probe: Probe)
    ensures MakeTx(nonce, to, amount, probe).Some?
            <==> amount.Wei? && amount.wei >= 0 && probe.gasPrice.Some? && probe.gas.Some?
    ensures MakeTx(nonce, to, amount, probe).Some? ==>
              var tx := MakeTx(nonce, to, amount, probe).value;
              tx.nonce == nonce && tx.to == to && Wei(tx.value) == amount
              && probe.gasPrice == Some(tx.gasPrice) && probe.gas == Some(tx.gas)
  {}

  function MakeDrip(pid: nat, account: Address, tx: Tx): Drip {
    Drip(pid, HashOf(tx), account, tx.to, Ether.ToEther(tx.value), Encoded(tx))
  }

  // ----- Calm conditions -----

  /** Every question was answered, and the prices are positive. */
  predicate Complete(probe: Probe) {
    && !probe.price.QueryError? && probe.decimals.Some? && probe.query && probe.nonce.Some? && probe.balance.Some?
    && probe.codeSize.Some? && probe.gasSpent.Some? && probe.metisPrice.Success?
    && probe.metisPrice.token.inEther > 0.0 && probe.metisPrice.token.inUSD > 0.0
    && probe.gasPrice.Some? && probe.gas.Some?
  }

  predicate Sane(policies: seq<Policy>, defaultDrip: int, maxUSD: real) {
    && defaultDrip >= 0 && maxUSD >= 0.0
    && forall i :: 0 <= i < |policies| ==> policies[i].rebateType in {DEFAULT_REBATE_TYPE, GAS_FEE_REBATE_TYPE}
  }

  /** With complete answers and a sane configuration nothing fails between decision and signature. */
  lemma CompleteNeverFails(policies: seq<Policy>, defaultDrip: int, maxUSD: real, item: Deposit, recset: set<Address>,
                           tokens: set<Address>, drips: map<nat, Drip>, probe: Probe, nonce: nat)
    requires Complete(probe) && Sane(policies, defaultDrip, maxUSD)
    ensures !Decide(policies, item, recset, tokens, drips, probe).Fail?
    ensures var p := Select(policies, item.ctime, item.row.l1token);
            p.Some? ==> MakeTx(nonce, item.row.to, DripAmount(defaultDrip, maxUSD, p.value.rebateType, probe), probe).Some?
  {
    hide IsStableL1Token, Readable, HasGotDrip, GasFeeEther, ToWeiChecked;
    var p := Select(policies, item.ctime, item.row.l1token);
    if p.Some? {
      SelectedIn(policies, item.ctime, item.row.l1token);
      var cost := Ether.ToEther(probe.gasSpent.value);
      Ether.ToEtherError(probe.gasSpent.value);
      CapSurvivesRounding(cost, probe.metisPrice.token, maxUSD);
    }
  }

  lemma {:induction false} SelectedIn(policies: seq<Policy>, time: int, token: Address)
    requires Select(policies, time, token).Some?
    ensures Select(policies, time, token).value in policies
  {
    if !Match(policies[|policies| - 1], time, token) {
      SelectedIn(policies[..|policies| - 1], time, token);
    }
  }
}
