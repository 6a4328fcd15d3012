/** Messages that differ only in the case of their letters, over the live-tick gateway. */
module SymbolCase {
  import opened Wrappers
  import opened SignalsGateway

  /** The counts are determined by who watches what. */
  lemma SameWatchersSameCounts(counts: map<string, nat>, clients: map<ClientId, Watching>,
                               counts': map<string, nat>, clients': map<ClientId, Watching>)
    requires CountsAgree(counts, clients) && CountsAgree(counts', clients')
    requires forall key :: Watchers(clients', key) == Watchers(clients, key)
    ensures counts' == counts
  {
    forall key ensures key in counts <==> key in counts' {
      assert key in counts ==> |Watchers(clients, key)| > 0;
      assert key in counts' ==> |Watchers(clients', key)| > 0;
    }
    assert counts'.Keys == counts.Keys;
  }

  /** Two gateways in one state are in one state again after two messages that differ only in case. */
  method SameEffect(g: SignalsGateway, h: SignalsGateway, client: ClientId, subscribing: bool,
                    symbol: string, exchange: string, symbol': string, exchange': string)
    requires g != h && g.Valid() && h.Valid() && g.clientWatching == h.clientWatching && g.calls == h.calls
    requires symbol != "" && exchange != "" && SameLetters(symbol, symbol') && SameLetters(exchange, exchange')
    modifies g, h
    ensures g.Valid() && h.Valid()
    ensures g.clientWatching == h.clientWatching && g.calls == h.calls && g.watcherCounts == h.watcherCounts
  {
    SamePairIff(symbol, exchange, symbol', exchange');
    if subscribing {
      g.HandleSubscribeSymbol(client, Some(symbol), Some(exchange));
      h.HandleSubscribeSymbol(client, Some(symbol'), Some(exchange'));
    } else {
      g.HandleUnsubscribeSymbol(client, Some(symbol), Some(exchange));
      h.HandleUnsubscribeSymbol(client, Some(symbol'), Some(exchange'));
    }
    SameWatchersSameCounts(g.watcherCounts, g.clientWatching, h.watcherCounts, h.clientWatching);
  }

  /** A client that watches a symbol and stops is back where it was. */
  lemma WatchThenUnwatch(clients: map<ClientId, Watching>, c: ClientId, s: string, e: string)
    requires s !in Of(clients, c)
    ensures var joined := clients[c := Of(clients, c)[s := e]];
            && joined[c := joined[c] - {s}] == clients[c := Of(clients, c)]
            && |Watchers(joined, PairKey(s, e))| == |Watchers(clients, PairKey(s, e))| + 1
  {
    var joined := clients[c := Of(clients, c)[s := e]];
    WatchAdds(clients, c, s, e);
    assert joined[c] - {s} == Of(clients, c);
  }

  /** Knowing a client that watches nothing does not change the counts. */
  lemma BackToTheSameCounts(counts: map<string, nat>, clients: map<ClientId, Watching>, counts': map<string, nat>, c: ClientId)
    requires CountsAgree(counts, clients) && CountsAgree(counts', clients[c := Of(clients, c)])
    ensures counts' == counts
  {
    if c in clients {
      assert clients[c := Of(clients, c)] == clients;
    } else {
      AddEmpty(clients, c);
    }
    SameWatchersSameCounts(counts, clients, counts', clients[c := Of(clients, c)]);
  }

  /** The index with this client watching this pair too. */
  ghost function Joined(clients: map<ClientId, Watching>, c: ClientId, p: Pair): map<ClientId, Watching> {
    clients[c := Of(clients, c)[p.symbol := p.exchange]]
  }

  method WatchNew(g: SignalsGateway, client: ClientId, symbol: string, exchange: string, ghost p: Pair)
    requires g.Valid() && p.symbol !in Of(g.clientWatching, client) && Requested(Some(symbol), Some(exchange)) == Some(p)
    modifies g
    ensures g.Valid() && g.clientWatching == Joined(old(g.clientWatching), client, p)
    ensures g.calls == old(g.calls) + if Watchers(old(g.clientWatching), PairKey(p.symbol, p.exchange)) != {} then []
                                      else [Call(Subscribe, p.symbol, p.exchange)]
  {
    g.HandleSubscribeSymbol(client, Some(symbol), Some(exchange));
  }

  method UnwatchAgain(g: SignalsGateway, ghost was: map<ClientId, Watching>, client: ClientId, symbol: string, exchange: string, ghost p: Pair)
    requires g.Valid() && p.symbol !in Of(was, client) && g.clientWatching == Joined(was, client, p)
    requires Requested(Some(symbol), Some(exchange)) == Some(p)
    modifies g
    ensures g.Valid() && g.clientWatching == was[client := Of(was, client)]
    ensures g.calls == old(g.calls) + if Watchers(was, PairKey(p.symbol, p.exchange)) != {} then []
                                      else [Call(Unsubscribe, p.symbol, p.exchange)]
  {
    WatchThenUnwatch(was, client, p.symbol, p.exchange);
    g.HandleUnsubscribeSymbol(client, Some(symbol), Some(exchange));
  }

  method WatchAndUnwatch(g: SignalsGateway, client: ClientId, symbol: string, exchange: string, symbol': string, exchange': string, ghost p: Pair)
    requires g.Valid() && p.symbol !in Of(g.clientWatching, client)
    requires Requested(Some(symbol), Some(exchange)) == Requested(Some(symbol'), Some(exchange')) == Some(p)
    modifies g
    ensures g.Valid()
    ensures g.clientWatching == old(g.clientWatching)[client := Of(old(g.clientWatching), client)]
    ensures g.watcherCounts == old(g.watcherCounts)
    ensures g.calls == old(g.calls) +
                       if Watchers(old(g.clientWatching), PairKey(p.symbol, p.exchange)) != {} then []
                       else [Call(Subscribe, p.symbol, p.exchange), Call(Unsubscribe, p.symbol, p.exchange)]
  {
    ghost var was, counts := g.clientWatching, g.watcherCounts;
    WatchNew(g, client, symbol, exchange, p);
    UnwatchAgain(g, was, client, symbol', exchange', p);
    BackToTheSameCounts(counts, was, g.watcherCounts, client);
  }

  /**
   * Subscribing in one case and unsubscribing in another restores the index,
   * for a symbol the client did not watch: the same watchers, the same counts,
   * and upstream nothing, or one subscribe followed by its unsubscribe.
   */
  method SubscribeThenUnsubscribe(g: SignalsGateway, client: ClientId, symbol: string, exchange: string, symbol': string, exchange': string)
    returns (pair: Pair)
    requires g.Valid() && symbol != "" && exchange != "" && SameLetters(symbol, symbol') && SameLetters(exchange, exchange')
    requires forall s :: s in Of(g.clientWatching, client) ==> !SameLetters(symbol, s)
    modifies g
    ensures g.Valid() && SameLetters(symbol, pair.symbol) && SameLetters(exchange, pair.exchange)
    ensures g.clientWatching == old(g.clientWatching)[client := Of(old(g.clientWatching), client)]
    ensures g.watcherCounts == old(g.watcherCounts)
    ensures g.calls == old(g.calls) +
                       if Watchers(old(g.clientWatching), PairKey(pair.symbol, pair.exchange)) != {} then []
                       else [Call(Subscribe, pair.symbol, pair.exchange), Call(Unsubscribe, pair.symbol, pair.exchange)]
  {
    SamePairIff(symbol, exchange, symbol', exchange');
    pair := Requested(Some(symbol), Some(exchange)).value;
    WatchAndUnwatch(g, client, symbol, exchange, symbol', exchange', pair);
  }

  function OneWatches(a: ClientId, p: Pair): map<ClientId, Watching> {
    map[a := map[p.symbol := p.exchange]]
  }

  function TwoWatch(a: ClientId, b: ClientId, p: Pair): map<ClientId, Watching> {
    map[a := map[p.symbol := p.exchange], b := map[p.symbol := p.exchange]]
  }

  lemma TwoWatchers(a: ClientId, b: ClientId, p: Pair)
    requires a != b
    ensures Watchers(map[], PairKey(p.symbol, p.exchange)) == {}
    ensures Watchers(OneWatches(a, p), PairKey(p.symbol, p.exchange)) != {}
    ensures CountsAgree(map[PairKey(p.symbol, p.exchange) := 2], TwoWatch(a, b, p))
    ensures OneWatches(a, p)[b := Of(OneWatches(a, p), b)[p.symbol := p.exchange]] == TwoWatch(a, b, p)
  {
    var key := PairKey(p.symbol, p.exchange);
    assert (a, p.symbol) in Watchers(OneWatches(a, p), key);
    assert Watchers(TwoWatch(a, b, p), key) == {(a, p.symbol), (b, p.symbol)};
    assert forall other :: other != key ==> Watchers(TwoWatch(a, b, p), other) == {};
  }

  method FirstWatcher(a: ClientId, symbol: string, exchange: string, ghost p: Pair) returns (g: SignalsGateway)
    requires Requested(Some(symbol), Some(exchange)) == Some(p)
    ensures fresh(g) && g.Valid() && g.clientWatching == OneWatches(a, p) && g.calls == [Call(Subscribe, p.symbol, p.exchange)]
  {
    g := new SignalsGateway();
    TwoWatchers(a, a + "'", p);
    g.HandleSubscribeSymbol(a, Some(symbol), Some(exchange));
  }

  method SecondWatcher(g: SignalsGateway, a: ClientId, b: ClientId, symbol: string, exchange: string, ghost p: Pair)
    requires a != b && g.Valid() && g.clientWatching == OneWatches(a, p) && Requested(Some(symbol), Some(exchange)) == Some(p)
    modifies g
    ensures g.Valid() && g.clientWatching == TwoWatch(a, b, p) && g.calls == old(g.calls)
  {
    TwoWatchers(a, b, p);
    g.HandleSubscribeSymbol(b, Some(symbol), Some(exchange));
  }

  /** Two clients asking for one pair, each in its own case, share one count of two and one subscribe. */
  method TwoClientsOneFeed(a: ClientId, b: ClientId, symbol: string, exchange: string, symbol': string, exchange': string)
    returns (g: SignalsGateway, pair: Pair)
    requires a != b && symbol != "" && exchange != "" && SameLetters(symbol, symbol') && SameLetters(exchange, exchange')
    ensures fresh(g) && g.Valid() && SameLetters(symbol, pair.symbol) && SameLetters(exchange, pair.exchange)
    ensures g.watcherCounts == map[PairKey(pair.symbol, pair.exchange) := 2]
    ensures g.calls == [Call(Subscribe, pair.symbol, pair.exchange)]
  {
    SamePairIff(symbol, exchange, symbol', exchange');
    pair := Requested(Some(symbol), Some(exchange)).value;
    g := FirstWatcher(a, symbol, exchange, pair);
    SecondWatcher(g, a, b, symbol', exchange', pair);
    TwoWatchers(a, b, pair);
    SameWatchersSameCounts(map[PairKey(pair.symbol, pair.exchange) := 2], g.clientWatching, g.watcherCounts, g.clientWatching);
  }
}
