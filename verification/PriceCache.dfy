/**
  The token price cache: Uniswap.GetToken (internal/utils/uniswap.go).
 */
module PriceCache {
  import opened Rebate
  import opened Rounding
  import Ether

  const ETHER_L1_ADDRESS: string := "0x0000000000000000000000000000000000000000"
  const WETH9_ADDRESS: string := "0xc02aaa39b223fe8d0a0e5c4f27ead9083c756cc2"

  function LowerChar(c: char): char {
    if 'A' <= c <= 'Z' then c - 'A' + 'a' else c
  }

  function ToLower(s: string): (r: string)
    ensures |r| == |s| && forall i :: 0 <= i < |s| ==> r[i] == LowerChar(s[i])
  {
    seq(|s|, i requires 0 <= i < |s| => LowerChar(s[i]))
  }

  /** Lower case, with the zero address standing for wrapped ether. */
  function Canonical(address: string): string {
    var lower := ToLower(address);
    if lower == ETHER_L1_ADDRESS then WETH9_ADDRESS else lower
  }

  datatype Entry = Entry(token: Price, timestamp: int)

  type Cache = map<string, Entry>

  /** What the subgraph answers: hourly closing prices of ether and derived ether values, possibly none. */
  datatype Reply = CallError | Reply(ethPrices: seq<real>, tokens: seq<real>)

  datatype Answer = Success(token: Price) | NoTokenInfo | QueryError

  /** One call: its argument, the clock at the freshness test and at the store, and the reply a query would get. */
  datatype Call = Call(address: string, now: int, later: int, reply: Reply)

  function Fetch(reply: Reply): Answer {
    match reply
    case CallError => QueryError
    case Reply(prices, tokens) =>
      if |prices| == 0 || |tokens| == 0 then NoTokenInfo
      else Success(Price(tokens[0], Product64(tokens[0], prices[0])))
  }

  predicate Fresh(cache: Cache, duration: int, call: Call) {
    var key := Canonical(call.address);
    key in cache && call.now - cache[key].timestamp < duration
  }

  function AnswerOf(cache: Cache, duration: int, call: Call): Answer {
    if Fresh(cache, duration, call) then Success(cache[Canonical(call.address)].token) else Fetch(call.reply)
  }

  function CacheAfter(cache: Cache, duration: int, call: Call): Cache {
    if !Fresh(cache, duration, call) && Fetch(call.reply).Success?
    then cache[Canonical(call.address) := Entry(Fetch(call.reply).token, call.later)]
    else cache
  }

  /**
    What a query means: no token information exactly when a list is empty, an error exactly when
    the call failed, and otherwise the derived price and its product with the ether price, rounded once.
   */
  lemma FetchMeaning(reply: Reply)
    ensures Fetch(reply).QueryError? <==> reply.CallError?
    ensures Fetch(reply).NoTokenInfo? <==> reply.Reply? && (reply.ethPrices == [] || reply.tokens == [])
    ensures Fetch(reply).Success? ==>
              && reply.Reply? && reply.ethPrices != [] && reply.tokens != []
              && Fetch(reply).token.inEther == reply.tokens[0]
              && var product := reply.tokens[0] * reply.ethPrices[0];
                 Gap(product, Fetch(reply).token.inUSD) <= Scale(Ether.Magnitude(product), -53)
  {
    hide Round64;
    if reply.Reply? && reply.ethPrices != [] && reply.tokens != [] {
      Round64Error(reply.tokens[0] * reply.ethPrices[0]);
    }
  }

  /** Upper-case letters become lower-case, everything else stays. */
  lemma LowerCase(s: string, i: nat)
    requires i < |s|
    ensures |ToLower(s)| == |s| && !('A' <= ToLower(s)[i] <= 'Z')
    ensures 'A' <= s[i] <= 'Z' ==> 'a' <= ToLower(s)[i] <= 'z' && ToLower(s)[i] - 'a' == s[i] - 'A'
    ensures !('A' <= s[i] <= 'Z') ==> ToLower(s)[i] == s[i]
  {}

  /** The zero address, in any case, stands for wrapped ether; every other address for itself. */
  lemma CanonicalMeaning(address: string)
    ensures ToLower(address) == "0x0000000000000000000000000000000000000000" ==>
              Canonical(address) == "0xc02aaa39b223fe8d0a0e5c4f27ead9083c756cc2"
    ensures ToLower(address) != "0x0000000000000000000000000000000000000000" ==> Canonical(address) == ToLower(address)
  {
    hide ToLower;
  }

  class Uniswap {
    var cache: Cache
    const duration: int

    constructor (duration: int)
      ensures cache == map[] && this.duration == duration
    {
      cache := map[];
      this.duration := duration;
    }

    method GetToken(call: Call) returns (r: Answer)
      modifies this`cache
      ensures r == AnswerOf(old(cache), duration, call)
      ensures cache == CacheAfter(old(cache), duration, call)
      ensures var key := Canonical(call.address);
              key in old(cache) && call.now - old(cache)[key].timestamp < duration ==>
                r == Success(old(cache)[key].token) && cache == old(cache)
    {
      var tokenAddress := ToLower(call.address);
      if tokenAddress == ETHER_L1_ADDRESS {
        tokenAddress := WETH9_ADDRESS;
      }
      if tokenAddress in cache {
        var res := cache[tokenAddress];
        if call.now - res.timestamp < duration {
          return Success(res.token);
        }
      }
      if call.reply.CallError? {
        return QueryError;
      }
      if |call.reply.ethPrices| == 0 {
        return NoTokenInfo;
      }
      if |call.reply.tokens| == 0 {
        return NoTokenInfo;
      }
      var ethPrice := call.reply.ethPrices[0];
      var ethValue := call.reply.tokens[0];
      var tokenPrice := Product64(ethValue, ethPrice);
      var res := Price(ethValue, tokenPrice);
      cache := cache[tokenAddress := Entry(res, call.later)];
      return Success(res);
    }
  }

  lemma LowerIdempotent(s: string)
    ensures ToLower(ToLower(s)) == ToLower(s)
  {
    forall i | 0 <= i < |s| ensures LowerChar(ToLower(s)[i]) == ToLower(s)[i] { LowerTwice(s[i]); }
  }

  lemma CanonicalIdempotent(address: string)
    ensures Canonical(Canonical(address)) == Canonical(address)
  {
    WethLower();
    LowerIdempotent(address);
  }

  lemma LowerTwice(c: char)
    ensures LowerChar(LowerChar(c)) == LowerChar(c)
  {}

  lemma WethLower()
    ensures ToLower(WETH9_ADDRESS) == WETH9_ADDRESS != ETHER_L1_ADDRESS
  {
    var w := WETH9_ADDRESS;
    assert w[2] != ETHER_L1_ADDRESS[2];
    forall i | 0 <= i < |w| ensures LowerChar(w[i]) == w[i] {}
  }

  // ----- Any sequence of calls -----

  /** The cache after a sequence of calls on an empty cache. */
  function Run(duration: int, calls: seq<Call>): Cache {
    if calls == [] then map[]
    else CacheAfter(Run(duration, calls[..|calls| - 1]), duration, calls[|calls| - 1])
  }

  function AnswerAt(duration: int, calls: seq<Call>, n: nat): Answer
    requires n < |calls|
  {
    AnswerOf(Run(duration, calls[..n]), duration, calls[n])
  }

  ghost predicate MonotoneClock(calls: seq<Call>) {
    && (forall i :: 0 <= i < |calls| ==> calls[i].now <= calls[i].later)
    && (forall i, j :: 0 <= i < j < |calls| ==> calls[i].later <= calls[j].now)
  }

  /** Call j went to the subgraph and stored what it got. */
  ghost predicate Stored(duration: int, calls: seq<Call>, j: int) {
    0 <= j < |calls| && !Fresh(Run(duration, calls[..j]), duration, calls[j]) && Fetch(calls[j].reply).Success?
  }

  /** Call j is the last one so far that stored a price under this key. */
  ghost predicate LastStore(duration: int, calls: seq<Call>, key: string, j: int) {
    && Stored(duration, calls, j) && Canonical(calls[j].address) == key
    && forall i :: j < i < |calls| && Canonical(calls[i].address) == key ==> !Stored(duration, calls, i)
  }

  lemma StoredPrefix(duration: int, calls: seq<Call>, n: nat, j: int)
    requires j < n <= |calls|
    ensures Stored(duration, calls, j) == Stored(duration, calls[..n], j)
  {
    if 0 <= j {
      assert calls[..n][..j] == calls[..j];
    }
  }

  lemma LastStorePrefix(duration: int, calls: seq<Call>, key: string, j: int)
    requires calls != []
    requires !(Stored(duration, calls, |calls| - 1) && Canonical(calls[|calls| - 1].address) == key)
    ensures LastStore(duration, calls, key, j) == LastStore(duration, calls[..|calls| - 1], key, j)
  {
    hide Canonical, Fetch, Fresh, Run;
    var n := |calls| - 1;
    var before := calls[..n];
    if j < n { StoredPrefix(duration, calls, n, j); }
    if LastStore(duration, before, key, j) {
      forall i | j < i < |calls| && Canonical(calls[i].address) == key
        ensures !Stored(duration, calls, i)
      {
        if i < n { StoredPrefix(duration, calls, n, i); }
      }
    }
    if LastStore(duration, calls, key, j) {
      forall i | j < i < n && Canonical(before[i].address) == key
        ensures !Stored(duration, before, i)
      {
        StoredPrefix(duration, calls, n, i);
      }
    }
  }

  ghost predicate Holds(duration: int, calls: seq<Call>, key: string, j: int) {
    LastStore(duration, calls, key, j) && key in Run(duration, calls) &&
    Run(duration, calls)[key] == Entry(Fetch(calls[j].reply).token, calls[j].later)
  }

  /** The cache holds, for each key, exactly what the last storing call for it fetched, stamped with its clock. */
  lemma {:induction false} RunHolds(duration: int, calls: seq<Call>, key: string)
    ensures key in Run(duration, calls) ==> Canonical(key) == key && exists j :: Holds(duration, calls, key, j)
    ensures forall j :: LastStore(duration, calls, key, j) ==> Holds(duration, calls, key, j)
  {
    hide Canonical, Fetch;
    if calls != [] {
      var n := |calls| - 1;
      var before := calls[..n];
      RunHolds(duration, before, key);
      CanonicalIdempotent(calls[n].address);
      if Stored(duration, calls, n) && Canonical(calls[n].address) == key {
        assert Holds(duration, calls, key, n);
      } else {
        forall j ensures LastStore(duration, calls, key, j) == LastStore(duration, before, key, j) {
          LastStorePrefix(duration, calls, key, j);
        }
        forall j | Holds(duration, before, key, j) ensures Holds(duration, calls, key, j) {}
      }
    }
  }

  /**
    Every success is either what this call fetched, or what the last storing call
    for the same canonical address fetched, less than `duration` and not less than
    no time ago.
   */
  lemma CacheAgreement(duration: int, calls: seq<Call>, n: nat)
    requires n < |calls| && MonotoneClock(calls)
    ensures var a := AnswerAt(duration, calls, n);
            a.Success? ==>
              || (Stored(duration, calls, n) && a == Fetch(calls[n].reply))
              || (exists j :: LastStore(duration, calls[..n], Canonical(calls[n].address), j)
                    && a == Fetch(calls[j].reply)
                    && 0 <= calls[n].now - calls[j].later < duration)
  {
    hide Canonical, Fetch;
    var key := Canonical(calls[n].address);
    RunHolds(duration, calls[..n], key);
    if Fresh(Run(duration, calls[..n]), duration, calls[n]) {
      var j :| Holds(duration, calls[..n], key, j);
      assert calls[..n][j] == calls[j];
    }
  }
}
