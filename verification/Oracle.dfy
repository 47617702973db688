/**
 * The price oracle: a database cache over a recorder, over an upstream with an in-memory
 * cache and a table of fixed prices behind it.  Other callers run at every await.  Clock
 * readings are whole seconds; symbols are upper-case already.  `quotes` and `failures` log
 * what the upstream said, and every cached row remembers where its price came from.
 */
module Oracle {
  import opened Prelude

  /** A price the upstream gave for a symbol. */
  datatype Quote = Quote(symbol: string, price: real, at: int)

  datatype FailureKind = StatusError | NoPrice

  /** A lookup upstream that met an error status, or that ended without a positive price. */
  datatype Failure = Failure(symbol: string, at: int, kind: FailureKind)

  datatype Reply = Unreachable | ErrorStatus | BadBody | Price(price: real)

  /** Where a price came from: a quote, an old quote after an error status, or the fixed table. */
  datatype Origin = Quoted(at: int) | Stale(at: int, failed: int) | Fixed(failed: int)

  datatype Priced = Priced(price: real, origin: Origin)

  datatype CachedPrice = CachedPrice(price: real, fetchedAt: int)

  datatype CacheRow = CacheRow(price: real, expiresAt: int, origin: Origin)

  datatype PriceError = LookupFailed

  const MIN_CACHE_SECS := 10

  function CacheSecs(ttl: nat): (secs: nat)
    ensures secs >= 10 && secs >= ttl && (secs == 10 || secs == ttl)
  {
    if ttl < MIN_CACHE_SECS then MIN_CACHE_SECS else ttl
  }

  function WithDefault(prices: map<string, real>, symbol: string, price: real): map<string, real> {
    if symbol in prices then prices else prices[symbol := price]
  }

  function WithDefaults(prices: map<string, real>): map<string, real> {
    WithDefault(WithDefault(WithDefault(prices, "ETH", 3000.0), "BNB", 600.0), "USDC", 1.0)
  }

  /** The fixed price of a symbol. */
  function FixedPrice(prices: map<string, real>, symbol: string): real {
    if symbol in prices then prices[symbol] else if symbol == "ETH" then 3000.0 else 1.0
  }

  /** With positive configured prices every symbol has a positive fixed price, so no lookup ends in an error. */
  lemma FixedPricesPositive(prices: map<string, real>, symbol: string)
    requires forall s :: s in prices ==> prices[s] > 0.0
    ensures FixedPrice(WithDefaults(prices), symbol) > 0.0
    ensures symbol in prices ==> FixedPrice(WithDefaults(prices), symbol) == prices[symbol]
    ensures symbol !in prices && symbol == "ETH" ==> FixedPrice(WithDefaults(prices), symbol) == 3000.0
    ensures symbol !in prices && symbol == "BNB" ==> FixedPrice(WithDefaults(prices), symbol) == 600.0
    ensures symbol !in prices && symbol != "ETH" && symbol != "BNB" ==> FixedPrice(WithDefaults(prices), symbol) == 1.0
  {
    assert "ETH" != "BNB" && "BNB" != "USDC" && "ETH" != "USDC" by {
      assert "ETH"[0] != "BNB"[0] && "BNB"[0] != "USDC"[0] && "ETH"[0] != "USDC"[0];
    }
  }

  /** A price of this origin was good at this time at the latest. */
  function GoodAt(origin: Origin, ttl: nat): int {
    match origin
    case Quoted(at) => at + ttl
    case Stale(_, failed) => failed
    case Fixed(failed) => failed
  }

  /** `slack` bounds the time a call spends between getting a price and storing it in the database. */
  class Stack {
    const ttl: nat
    const slack: nat
    const fixedPrices: map<string, real>
    var memory: map<string, CachedPrice>
    var rows: map<string, CacheRow>
    var clock: int
    var quotes: set<Quote>
    var failures: set<Failure>

    constructor (ttl: nat, slack: nat, prices: map<string, real>, clock: int)
      ensures Valid() && rows == map[] && memory == map[] && this.ttl == ttl && this.slack == slack
      ensures fixedPrices == WithDefaults(prices)
    {
      this.ttl, this.slack, this.clock := ttl, slack, clock;
      fixedPrices := WithDefaults(prices);
      memory, rows, quotes, failures := map[], map[], {}, {};
    }

    /** The price really has this origin. */
    predicate Backed(symbol: string, p: Priced)
      reads this
    {
      match p.origin
      case Quoted(at) => Quote(symbol, p.price, at) in quotes
      case Stale(at, failed) => Quote(symbol, p.price, at) in quotes && Failure(symbol, failed, StatusError) in failures
      case Fixed(failed) => p.price == FixedPrice(fixedPrices, symbol) && Failure(symbol, failed, NoPrice) in failures
    }

    /** What may be written to the database cache now. */
    predicate MayStore(symbol: string, p: Priced)
      reads this
    {
      p.price > 0.0 && Backed(symbol, p) && clock <= GoodAt(p.origin, ttl) + slack
    }

    /** Every row is positive, has its origin, and expires within the bound. */
    ghost predicate Valid()
      reads this
    {
      && (forall s :: s in memory ==> Quote(s, memory[s].price, memory[s].fetchedAt) in quotes)
      && (forall s :: s in rows ==>
            && rows[s].price > 0.0
            && Backed(s, Priced(rows[s].price, rows[s].origin))
            && rows[s].expiresAt <= GoodAt(rows[s].origin, ttl) + slack + CacheSecs(ttl))
    }

    /** What every statement of every caller does at most. */
    twostate predicate Grew()
      reads this
    {
      && old(quotes) <= quotes && old(failures) <= failures && old(clock) <= clock
      && old(memory.Keys) <= memory.Keys && old(rows.Keys) <= rows.Keys
    }

    // ----- Single statements -----

    /** A quote arrives and is put into memory with the current time. */
    method StorePrice(symbol: string, price: real)
      requires Valid()
      modifies this`memory, this`quotes
      ensures Valid() && Grew()
      ensures memory == old(memory)[symbol := CachedPrice(price, clock)]
      ensures quotes == old(quotes) + {Quote(symbol, price, clock)}
    {
      quotes := quotes + {Quote(symbol, price, clock)};
      memory := memory[symbol := CachedPrice(price, clock)];
    }

    /** The upsert of the database cache; its error is ignored. */
    method UpsertPrice(symbol: string, p: Priced) returns (lost: bool)
      requires Valid() && MayStore(symbol, p)
      modifies this`rows
      ensures Valid() && Grew()
      ensures rows ==
                if lost then old(rows) else old(rows)[symbol := CacheRow(p.price, clock + CacheSecs(ttl), p.origin)]
    {
      lost := *;
      if !lost {
        rows := rows[symbol := CacheRow(p.price, clock + CacheSecs(ttl), p.origin)];
      }
    }

    method RecordFailure(symbol: string, kind: FailureKind)
      requires Valid()
      modifies this`failures
      ensures Valid() && Grew() && failures == old(failures) + {Failure(symbol, clock, kind)}
    {
      failures := failures + {Failure(symbol, clock, kind)};
    }

    /** Any number of statements of other callers, and time passing, up to a deadline if there is one. */
    method Await(deadline: Option<int>)
      requires Valid() && (deadline.Some? ==> clock <= deadline.value)
      modifies this
      ensures Valid() && Grew() && (deadline.Some? ==> clock <= deadline.value)
    {
      var n: nat :| n >= 0;
      for i := 0 to n
        invariant Valid() && Grew() && (deadline.Some? ==> clock <= deadline.value)
      {
        var choice: int, symbol: string, p: Priced, later: int, kind: FailureKind := *, *, *, *, *;
        if choice == 0 {
          StorePrice(symbol, p.price);
        } else if choice == 1 {
          RecordFailure(symbol, kind);
        } else if choice == 2 && MayStore(symbol, p) {
          var lost := UpsertPrice(symbol, p);
        } else if later >= clock && (deadline.None? || later <= deadline.value) {
          clock := later;
        }
      }
    }

    // ----- The layers -----

    /**
     * The upstream: memory while fresh, then a request; an error status falls back on old memory.
     * `reply` is what the request met, if there was one.
     */
    method CoingeckoPrice(symbol: string) returns (r: Result<Priced, PriceError>, ghost reply: Option<Reply>)
      requires Valid()
      modifies this
      ensures Valid() && Grew()
      ensures r.Ok? ==> Backed(symbol, r.value) && !r.value.origin.Fixed?
      ensures r.Ok? ==> clock <= GoodAt(r.value.origin, ttl)
      ensures old(symbol in memory && clock - memory[symbol].fetchedAt <= ttl) ==>
                && r == Ok(Priced(old(memory[symbol].price), Quoted(old(memory[symbol].fetchedAt))))
                && reply == None && quotes == old(quotes) && failures == old(failures)
      ensures r.Ok? && r.value.origin.Quoted? ==>
                symbol in memory && memory[symbol] == CachedPrice(r.value.price, r.value.origin.at)
      ensures reply.None? ==> old(symbol in memory && clock - memory[symbol].fetchedAt <= ttl)
      ensures reply.Some? && reply.value.Price? ==> r == Ok(Priced(reply.value.price, Quoted(clock)))
      ensures reply == Some(ErrorStatus) && old(symbol in memory) ==> r.Ok? && r.value.origin.Stale?
      ensures reply == Some(Unreachable) || reply == Some(BadBody) ==> r.Err?
    {
      reply := None;
      if symbol in memory && clock - memory[symbol].fetchedAt <= ttl {
        return Ok(Priced(memory[symbol].price, Quoted(memory[symbol].fetchedAt))), None;
      }
      Await(None);
      var stale := if symbol in memory then Some(memory[symbol]) else None;
      Await(None);
      var answer: Reply := *;
      reply := Some(answer);
      match answer {
        case Unreachable => return Err(LookupFailed), reply;
        case ErrorStatus =>
          RecordFailure(symbol, StatusError);
          if stale.Some? {
            return Ok(Priced(stale.value.price, Stale(stale.value.fetchedAt, clock))), reply;
          }
          return Err(LookupFailed), reply;
        case BadBody => return Err(LookupFailed), reply;
        case Price(price) =>
          StorePrice(symbol, price);
          return Ok(Priced(price, Quoted(clock))), reply;
      }
    }

    /** The upstream's price if it is positive, else the fixed price if that is. */
    method FallbackPrice(symbol: string)
      returns (r: Result<Priced, PriceError>, ghost primary: Result<Priced, PriceError>)
      requires Valid()
      modifies this
      ensures Valid() && Grew()
      ensures r.Ok? ==> MayStore(symbol, r.value) && clock <= GoodAt(r.value.origin, ttl)
      ensures r.Err? ==> FixedPrice(fixedPrices, symbol) <= 0.0 && Failure(symbol, clock, NoPrice) in failures
      ensures primary.Ok? && primary.value.price > 0.0 ==> r == primary
      ensures r != primary && r.Ok? ==> r.value.origin.Fixed?
      ensures old(symbol in memory && clock - memory[symbol].fetchedAt <= ttl) ==>
                primary == Ok(Priced(old(memory[symbol].price), Quoted(old(memory[symbol].fetchedAt))))
    {
      ghost var reply;
      var answer;
      answer, reply := CoingeckoPrice(symbol);
      primary := answer;
      if answer.Ok? && answer.value.price > 0.0 {
        return answer, primary;
      }
      RecordFailure(symbol, NoPrice);
      var price := FixedPrice(fixedPrices, symbol);
      if price > 0.0 {
        return Ok(Priced(price, Fixed(clock))), primary;
      }
      return Err(LookupFailed), primary;
    }

    /** The recorder writes the price history and passes the price on. */
    method RecordedPrice(symbol: string) returns (r: Result<Priced, PriceError>)
      requires Valid()
      modifies this
      ensures Valid() && Grew()
      ensures r.Ok? ==> MayStore(symbol, r.value)
      ensures r.Err? ==> FixedPrice(fixedPrices, symbol) <= 0.0
      ensures r.Err? ==> exists at :: at >= old(clock) && Failure(symbol, at, NoPrice) in failures
    {
      ghost var primary;
      r, primary := FallbackPrice(symbol);
      if r.Ok? {
        Await(Some(clock + slack));
      } else {
        assert Failure(symbol, clock, NoPrice) in failures;
      }
    }

    /** The cache row holds a positive price and expires after the time of asking. */
    predicate FreshRow(symbol: string, asked: int)
      reads this
    {
      symbol in rows && asked < rows[symbol].expiresAt && rows[symbol].price > 0.0
    }

    /**
     * The price, once the time of asking is taken and the cache answers or fails to.  A fresh row
     * that can be read is served as it is, and nothing is looked up; any other price is looked up
     * and stored, unless that store fails.
     */
    method ServePrice(symbol: string, asked: int, readable: bool) returns (r: Result<Priced, PriceError>, lost: bool)
      requires Valid() && asked <= clock
      modifies this
      ensures Valid() && Grew()
      ensures readable && old(FreshRow(symbol, asked)) ==>
                && r == Ok(Priced(old(rows[symbol].price), old(rows[symbol].origin)))
                && rows == old(rows) && quotes == old(quotes) && failures == old(failures) && clock == old(clock)
      ensures !(readable && old(FreshRow(symbol, asked))) && r.Ok? && !lost ==>
                symbol in rows && rows[symbol] == CacheRow(r.value.price, clock + CacheSecs(ttl), r.value.origin)
      ensures r.Ok? ==> r.value.price > 0.0 && Backed(symbol, r.value)
      ensures r.Ok? ==> asked < GoodAt(r.value.origin, ttl) + slack + CacheSecs(ttl)
      ensures r.Err? ==> FixedPrice(fixedPrices, symbol) <= 0.0
      ensures r.Err? ==> exists at :: at >= old(clock) && Failure(symbol, at, NoPrice) in failures
    {
      if readable && symbol in rows && rows[symbol].expiresAt > asked && rows[symbol].price > 0.0 {
        return Ok(Priced(rows[symbol].price, rows[symbol].origin)), false;
      }
      r := RecordedPrice(symbol);
      lost := false;
      if r.Ok? {
        lost := UpsertPrice(symbol, r.value);
      }
    }

    /**
     * A price from the whole stack.  It is positive and has an origin that was good, when the
     * caller asked, at most `slack` and the cache time ago.
     */
    method PriceUsd(symbol: string) returns (r: Result<Priced, PriceError>)
      requires Valid()
      modifies this
      ensures Valid() && Grew()
      ensures r.Ok? ==> r.value.price > 0.0 && Backed(symbol, r.value)
      ensures r.Ok? ==> old(clock) < GoodAt(r.value.origin, ttl) + slack + CacheSecs(ttl)
      ensures r.Err? ==> FixedPrice(fixedPrices, symbol) <= 0.0
      ensures r.Err? ==> exists at :: at >= old(clock) && Failure(symbol, at, NoPrice) in failures
    {
      var now := clock;
      Await(None);
      var readable: bool := *;
      var lost;
      r, lost := ServePrice(symbol, now, readable);
    }

    /** No lookup of the symbol has failed in this way for the slack and the cache time. */
    ghost predicate Quiet(symbol: string, kind: FailureKind, asked: int)
      reads this
    {
      forall f :: f in failures && f.symbol == symbol && f.kind == kind ==> f.at + slack + CacheSecs(ttl) <= asked
    }

    /** A quote of the symbol less than the memory time, the slack and the cache time old. */
    ghost predicate RecentQuote(symbol: string, price: real, asked: int)
      reads this
    {
      exists at :: Quote(symbol, price, at) in quotes && asked - at < ttl + slack + CacheSecs(ttl)
    }

    /** Without a recent error status a served price is a recent quote or the fixed price. */
    lemma OnlyErrorStatusMakesStale(symbol: string, p: Priced, asked: int)
      requires Backed(symbol, p) && asked < GoodAt(p.origin, ttl) + slack + CacheSecs(ttl)
      requires Quiet(symbol, StatusError, asked)
      ensures RecentQuote(symbol, p.price, asked) || (p.origin.Fixed? && p.price == FixedPrice(fixedPrices, symbol))
    {
      match p.origin
      case Quoted(at) =>
        assert Quote(symbol, p.price, at) in quotes;
      case Stale(_, failed) =>
        assert false;
      case Fixed(_) =>
    }

    /** And if every lookup also gave a positive price, it is a recent quote. */
    lemma NoRecentFailureMeansRecentQuote(symbol: string, p: Priced, asked: int)
      requires Backed(symbol, p) && asked < GoodAt(p.origin, ttl) + slack + CacheSecs(ttl)
      requires Quiet(symbol, StatusError, asked) && Quiet(symbol, NoPrice, asked)
      ensures RecentQuote(symbol, p.price, asked)
    {
      OnlyErrorStatusMakesStale(symbol, p, asked);
      if p.origin.Fixed? {
        assert false;
      }
    }

    /** What is in the database cache is positive and, without failures, a quote. */
    lemma CacheHoldsQuotes(symbol: string)
      requires Valid() && symbol in rows
      ensures rows[symbol].price > 0.0
      ensures failures == {} ==> exists at ::
          Quote(symbol, rows[symbol].price, at) in quotes && rows[symbol].expiresAt <= at + ttl + slack + CacheSecs(ttl)
    {
      if failures == {} {
        var at := rows[symbol].origin.at;
        assert Quote(symbol, rows[symbol].price, at) in quotes;
      }
    }
  }
}
