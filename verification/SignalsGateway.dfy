/**
 * The live-tick watcher index: reference counts per (symbol, exchange) pair
 * that drive edge-triggered subscribe and unsubscribe calls upstream.
 */
module SignalsGateway {
  import opened Wrappers

  type ClientId = string
  type Watching = map<string, string>   // symbol -> exchange, for one client

  datatype Action = Subscribe | Unsubscribe
  datatype Call = Call(action: Action, symbol: string, exchange: string)
  datatype Pair = Pair(symbol: string, exchange: string)

  // ---- Pair keys ----

  function PairKey(symbol: string, exchange: string): string {
    symbol + ":" + exchange
  }

  /** `lastIndexOf(':')`, or -1. */
  function LastColon(s: string): (r: int)
    ensures -1 <= r < |s|
    ensures r >= 0 ==> s[r] == ':'
    ensures forall j :: r < j < |s| ==> s[j] != ':'
  {
    if |s| == 0 then -1 else if s[|s| - 1] == ':' then |s| - 1 else LastColon(s[..|s| - 1])
  }

  /** A key always holds a colon, so the -1 case of the source's slice does not arise. */
  function Decode(key: string): Pair
    requires ':' in key
  {
    var i := LastColon(key);
    Pair(key[..i], key[i + 1..])
  }

  /** Decoding a pair's key gives the pair back exactly when the exchange holds no colon. */
  lemma DecodeIff(symbol: string, exchange: string)
    ensures ':' in PairKey(symbol, exchange)
    ensures Decode(PairKey(symbol, exchange)) == Pair(symbol, exchange) <==> ':' !in exchange
  {
    var key := PairKey(symbol, exchange);
    assert key[|symbol|] == ':';
    var i := LastColon(key);
    if ':' !in exchange {
      assert forall j :: |symbol| < j < |key| ==> key[j] == exchange[j - |symbol| - 1];
      assert i == |symbol|;
      assert key[..i] == symbol && key[i + 1..] == exchange;
    } else {
      var j :| 0 <= j < |exchange| && exchange[j] == ':';
      assert key[|symbol| + 1 + j] == ':';
      assert |key[..i]| > |symbol|;
    }
  }

  /** Without colons in the exchanges, different pairs have different keys. */
  lemma KeysInjective(s: string, e: string, s': string, e': string)
    requires ':' !in e && ':' !in e' && PairKey(s, e) == PairKey(s', e')
    ensures s == s' && e == e'
  {
    DecodeIff(s, e);
    DecodeIff(s', e');
  }

  /** With a colon in an exchange, another pair shares the key. */
  lemma KeysCollide(s: string, e: string) returns (s': string, e': string)
    requires ':' in e
    ensures (s', e') != (s, e) && PairKey(s', e') == PairKey(s, e) && ':' !in e'
  {
    var i := LastColon(e);
    s', e' := s + ":" + e[..i], e[i + 1..];
    assert |s'| > |s|;
    assert e == e[..i] + ":" + e[i + 1..];
    assert PairKey(s', e') == s + ":" + (e[..i] + ":" + e[i + 1..]);
  }

  // ---- Who watches what ----

  /** The (client, symbol) entries whose pair has this key. */
  ghost function Watchers(clients: map<ClientId, Watching>, key: string): set<(ClientId, string)> {
    set c, s | c in clients && s in clients[c] && PairKey(s, clients[c][s]) == key :: (c, s)
  }

  /** The clients watching exactly this pair. */
  ghost function ClientsOf(clients: map<ClientId, Watching>, symbol: string, exchange: string): set<ClientId> {
    set c | c in clients && symbol in clients[c] && clients[c][symbol] == exchange
  }

  ghost predicate CountsAgree(counts: map<string, nat>, clients: map<ClientId, Watching>) {
    && (forall key :: key in counts ==> counts[key] > 0 && counts[key] == |Watchers(clients, key)|)
    && (forall key :: key !in counts ==> Watchers(clients, key) == {})
  }

  function CountOf(counts: map<string, nat>, key: string): nat {
    if key in counts then counts[key] else 0
  }

  // ---- The upstream calls ----

  function KeyOf(call: Call): string { PairKey(call.symbol, call.exchange) }

  /** Whether the last call for a key was a subscribe. */
  function Active(log: seq<Call>, key: string): bool {
    if |log| == 0 then false
    else if KeyOf(log[|log| - 1]) == key then log[|log| - 1].action.Subscribe?
    else Active(log[..|log| - 1], key)
  }

  /** Per key, calls alternate starting with a subscribe. */
  ghost predicate Alternates(log: seq<Call>) {
    forall i :: 0 <= i < |log| ==> (log[i].action.Subscribe? <==> !Active(log[..i], KeyOf(log[i])))
  }

  lemma AppendCall(log: seq<Call>, call: Call)
    requires Alternates(log) && (call.action.Subscribe? <==> !Active(log, KeyOf(call)))
    ensures Alternates(log + [call])
    ensures forall key :: Active(log + [call], key) == if key == KeyOf(call) then call.action.Subscribe? else Active(log, key)
  {
    var more := log + [call];
    assert more[..|log|] == log;
    forall i | 0 <= i < |more| ensures more[i].action.Subscribe? <==> !Active(more[..i], KeyOf(more[i])) {
      if i < |log| {
        assert more[..i] == log[..i] && more[i] == log[i];
      }
    }
  }

  // ---- Cardinalities under updates ----

  function Of(clients: map<ClientId, Watching>, c: ClientId): Watching {
    if c in clients then clients[c] else map[]
  }

  lemma WatchersAfterWatch(clients: map<ClientId, Watching>, c: ClientId, s: string, e: string, key: string)
    requires s !in Of(clients, c)
    ensures Watchers(clients[c := Of(clients, c)[s := e]], key)
            == Watchers(clients, key) + if key == PairKey(s, e) then {(c, s)} else {}
  {
    var clients' := clients[c := Of(clients, c)[s := e]];
    forall w: (ClientId, string)
      ensures w in Watchers(clients', key) <==> w in Watchers(clients, key) || (key == PairKey(s, e) && w == (c, s))
    {
      assert w.0 != c || w.1 != s ==> (w in Watchers(clients', key) <==> w in Watchers(clients, key));
    }
  }

  /** Starting to watch a symbol adds one entry to the new key. */
  lemma WatchAdds(clients: map<ClientId, Watching>, c: ClientId, s: string, e: string)
    requires s !in Of(clients, c)
    ensures var clients' := clients[c := Of(clients, c)[s := e]];
            && |Watchers(clients', PairKey(s, e))| == |Watchers(clients, PairKey(s, e))| + 1
            && forall key :: key != PairKey(s, e) ==> Watchers(clients', key) == Watchers(clients, key)
  {
    forall key {
      WatchersAfterWatch(clients, c, s, e, key);
    }
    assert (c, s) !in Watchers(clients, PairKey(s, e));
  }

  /** Ceasing to watch it removes one entry from its key. */
  lemma UnwatchRemoves(clients: map<ClientId, Watching>, c: ClientId, s: string)
    requires c in clients && s in clients[c]
    ensures var clients' := clients[c := clients[c] - {s}]; var key := PairKey(s, clients[c][s]);
            && Watchers(clients', key) == Watchers(clients, key) - {(c, s)}
            && |Watchers(clients', key)| == |Watchers(clients, key)| - 1
            && forall other :: other != key ==> Watchers(clients', other) == Watchers(clients, other)
  {
    var clients' := clients[c := clients[c] - {s}];
    var key := PairKey(s, clients[c][s]);
    assert (c, s) in Watchers(clients, key);
    assert Watchers(clients', key) == Watchers(clients, key) - {(c, s)};
  }

  /** A client that watches nothing does not change who watches what. */
  lemma AddEmpty(clients: map<ClientId, Watching>, c: ClientId)
    requires c !in clients
    ensures forall key :: Watchers(clients[c := map[]], key) == Watchers(clients, key)
  {
    forall key ensures Watchers(clients[c := map[]], key) == Watchers(clients, key) {}
  }

  // ---- Upper case ----

  predicate IsLower(c: char) { 'a' <= c <= 'z' }

  /** No ASCII letter in lower case. */
  predicate NoLower(s: string) {
    forall i :: 0 <= i < |s| ==> !IsLower(s[i])
  }

  /** Two characters that are one ASCII letter in either case, or the same. */
  predicate SameLetter(c: char, d: char) {
    c == d || (IsLower(c) && c as int - 32 == d as int) || (IsLower(d) && d as int - 32 == c as int)
  }

  /** The two texts differ at most in the case of ASCII letters. */
  predicate SameLetters(s: string, t: string) {
    |s| == |t| && forall i :: 0 <= i < |s| ==> SameLetter(s[i], t[i])
  }

  function UpperChar(c: char): char {
    if 'a' <= c <= 'z' then (c as int - 32) as char else c
  }

  lemma UpperCharIs(c: char, d: char)
    ensures !IsLower(UpperChar(c)) && SameLetter(c, UpperChar(c))
    ensures UpperChar(c) == UpperChar(d) <==> SameLetter(c, d)
  {
  }

  /** Upper case of the ASCII letters. */
  function ToUpper(s: string): (r: string)
    ensures |r| == |s| && forall i :: 0 <= i < |s| ==> r[i] == UpperChar(s[i])
  {
    if |s| == 0 then "" else [UpperChar(s[0])] + ToUpper(s[1..])
  }

  /** Folding leaves no lower-case letter and changes nothing but case. */
  lemma UpperFolds(s: string)
    ensures NoLower(ToUpper(s)) && SameLetters(s, ToUpper(s))
  {
    forall i | 0 <= i < |s| ensures !IsLower(ToUpper(s)[i]) && SameLetter(s[i], ToUpper(s)[i]) {
      UpperCharIs(s[i], s[i]);
    }
  }

  /** Two texts fold to one exactly when they differ at most in case. */
  lemma UpperSameIff(s: string, t: string)
    ensures ToUpper(s) == ToUpper(t) <==> SameLetters(s, t)
  {
    if |s| == |t| {
      forall i | 0 <= i < |s| ensures ToUpper(s)[i] == ToUpper(t)[i] <==> SameLetter(s[i], t[i]) {
        UpperCharIs(s[i], t[i]);
      }
    }
  }

  // ---- Messages ----

  /**
   * The pair a message names; a missing or empty field makes it malformed. The
   * pair has the message's own characters, with no lower-case letter left.
   */
  function Requested(symbol: Option<string>, exchange: Option<string>): (r: Option<Pair>)
    ensures r.Some? <==> symbol.Some? && exchange.Some? && symbol.value != "" && exchange.value != ""
    ensures r.Some? ==> r.value.symbol != "" && NoLower(r.value.symbol) && SameLetters(symbol.value, r.value.symbol)
    ensures r.Some? ==> r.value.exchange != "" && NoLower(r.value.exchange) && SameLetters(exchange.value, r.value.exchange)
  {
    if symbol.GetOr("") == "" || exchange.GetOr("") == "" then None
    else
      UpperFolds(symbol.value);
      UpperFolds(exchange.value);
      Some(Pair(ToUpper(symbol.value), ToUpper(exchange.value)))
  }

  /** Two messages name the same pair exactly when they differ at most in the case of ASCII letters. */
  lemma SamePairIff(s: string, e: string, s': string, e': string)
    requires s != "" && e != "" && s' != "" && e' != ""
    ensures Requested(Some(s), Some(e)) == Requested(Some(s'), Some(e')) <==> SameLetters(s, s') && SameLetters(e, e')
  {
    UpperSameIff(s, s');
    UpperSameIff(e, e');
  }

  /** The call sent when this subscription moves the client off the last watcher of its old pair. */
  ghost function LeaveCalls(clients: map<ClientId, Watching>, c: ClientId, p: Pair): seq<Call> {
    var was := Of(clients, c);
    if p.symbol in was && was[p.symbol] != p.exchange && |Watchers(clients, PairKey(p.symbol, was[p.symbol]))| == 1
    then [Call(Unsubscribe, p.symbol, was[p.symbol])] else []
  }

  /** The call sent when this subscription is the first watcher of its pair. */
  ghost function JoinCalls(clients: map<ClientId, Watching>, c: ClientId, p: Pair): seq<Call> {
    var was := Of(clients, c);
    if !(p.symbol in was && was[p.symbol] == p.exchange) && Watchers(clients, PairKey(p.symbol, p.exchange)) == {}
    then [Call(Subscribe, p.symbol, p.exchange)] else []
  }

  lemma EmptyChangesNothing(clients: map<ClientId, Watching>, c: ClientId, counts: map<string, nat>, p: Pair)
    requires c !in clients
    ensures CountsAgree(counts, clients) ==> CountsAgree(counts, clients[c := map[]])
    ensures LeaveCalls(clients[c := map[]], c, p) == LeaveCalls(clients, c, p)
    ensures JoinCalls(clients[c := map[]], c, p) == JoinCalls(clients, c, p)
  {
    AddEmpty(clients, c);
  }

  /** The log grew by unsubscribes of these pairs and nothing else. */
  ghost predicate UnsubscribesOnly(before: seq<Call>, log: seq<Call>, was: Watching) {
    && before <= log
    && forall i :: |before| <= i < |log| ==>
         log[i].action.Unsubscribe? && log[i].symbol in was && log[i].exchange == was[log[i].symbol]
  }

  lemma OneMoreUnsubscribe(before: seq<Call>, sent: seq<Call>, log: seq<Call>, was: Watching, symbol: string)
    requires UnsubscribesOnly(before, sent, was) && symbol in was
    requires log == sent || log == sent + [Call(Unsubscribe, symbol, was[symbol])]
    ensures UnsubscribesOnly(before, log, was)
  {
  }

  lemma LastUpdateWins(clients: map<ClientId, Watching>, c: ClientId, first: Watching, second: Watching)
    ensures clients[c := first][c := second] == clients[c := second]
  {
  }

  lemma AlreadyWatching(clients: map<ClientId, Watching>, c: ClientId, p: Pair)
    requires c in clients && p.symbol in clients[c] && clients[c][p.symbol] == p.exchange
    ensures clients[c := clients[c][p.symbol := p.exchange]] == clients
    ensures LeaveCalls(clients, c, p) == [] && JoinCalls(clients, c, p) == []
  {
    assert clients[c][p.symbol := p.exchange] == clients[c];
  }

  /** The counts after one watcher of a client leaves. */
  function Decremented(counts: map<string, nat>, key: string): map<string, nat>
    requires key in counts && counts[key] > 0
  {
    if counts[key] == 1 then counts - {key} else counts[key := counts[key] - 1]
  }

  /** Counts that follow the watchers of one key and keep those of the others agree. */
  lemma AgreeAtKey(counts: map<string, nat>, clients: map<ClientId, Watching>,
                   counts': map<string, nat>, clients': map<ClientId, Watching>, key: string)
    requires CountsAgree(counts, clients) && CountOf(counts', key) == |Watchers(clients', key)|
    requires key in counts' ==> counts'[key] > 0
    requires forall other :: other != key ==>
               && Watchers(clients', other) == Watchers(clients, other)
               && (other in counts' <==> other in counts) && CountOf(counts', other) == CountOf(counts, other)
    ensures CountsAgree(counts', clients')
  {
    forall other | other in counts' ensures counts'[other] > 0 && counts'[other] == |Watchers(clients', other)| {
      assert other != key ==> counts[other] == counts'[other];
    }
  }

  lemma DecrementAgrees(counts: map<string, nat>, clients: map<ClientId, Watching>, c: ClientId, s: string)
    requires CountsAgree(counts, clients) && c in clients && s in clients[c]
    ensures PairKey(s, clients[c][s]) in counts
    ensures CountsAgree(Decremented(counts, PairKey(s, clients[c][s])), clients[c := clients[c] - {s}])
  {
    var key := PairKey(s, clients[c][s]);
    assert (c, s) in Watchers(clients, key);
    UnwatchRemoves(clients, c, s);
    AgreeAtKey(counts, clients, Decremented(counts, key), clients[c := clients[c] - {s}], key);
  }

  lemma IncrementAgrees(counts: map<string, nat>, clients: map<ClientId, Watching>, c: ClientId, s: string, e: string)
    requires CountsAgree(counts, clients) && s !in Of(clients, c)
    ensures var key := PairKey(s, e);
            CountsAgree(counts[key := CountOf(counts, key) + 1], clients[c := Of(clients, c)[s := e]])
  {
    var key := PairKey(s, e);
    WatchAdds(clients, c, s, e);
    AgreeAtKey(counts, clients, counts[key := CountOf(counts, key) + 1], clients[c := Of(clients, c)[s := e]], key);
  }

  lemma LeaveThenJoin(clients: map<ClientId, Watching>, c: ClientId, s: string, e: string)
    requires c in clients
    ensures clients[c := clients[c] - {s}][c := (clients[c] - {s})[s := e]] == clients[c := clients[c][s := e]]
  {
    assert (clients[c] - {s})[s := e] == clients[c][s := e];
  }

  // ---- Colon-free messages ----

  datatype Message =
    | SubscribeSymbol(client: ClientId, symbol: Option<string>, exchange: Option<string>)
    | UnsubscribeSymbol(client: ClientId, symbol: Option<string>, exchange: Option<string>)
    | Disconnected(client: ClientId)

  predicate ColonFreeMessage(m: Message) {
    !m.Disconnected? ==> ':' !in m.exchange.GetOr("")
  }

  ghost predicate ColonFree(clients: map<ClientId, Watching>) {
    forall c, s :: c in clients && s in clients[c] ==> ':' !in clients[c][s]
  }

  ghost predicate ColonFreeCalls(log: seq<Call>) {
    forall i :: 0 <= i < |log| ==> ':' !in log[i].exchange
  }

  lemma UpperStaysColonFree(s: string)
    requires ':' !in s
    ensures ':' !in ToUpper(s)
  {
    forall i | 0 <= i < |s| ensures ToUpper(s)[i] != ':' {
      assert s[i] in s && UpperChar(s[i]) != ':';
    }
  }

  lemma ColonFreeConcat(a: seq<Call>, b: seq<Call>)
    requires ColonFreeCalls(a) && ColonFreeCalls(b)
    ensures ColonFreeCalls(a + b)
  {
  }

  lemma SubscribingStaysColonFree(log: seq<Call>, clients: map<ClientId, Watching>, c: ClientId,
                                  symbol: Option<string>, exchange: Option<string>)
    requires ColonFreeCalls(log) && ColonFree(clients) && ':' !in exchange.GetOr("") && Requested(symbol, exchange).Some?
    ensures var p := Requested(symbol, exchange).value;
            && ColonFree(clients[c := Of(clients, c)[p.symbol := p.exchange]])
            && ColonFreeCalls(log + LeaveCalls(clients, c, p) + JoinCalls(clients, c, p))
  {
    var p := Requested(symbol, exchange).value;
    UpperStaysColonFree(exchange.value);
    ColonFreeConcat(log, LeaveCalls(clients, c, p));
    ColonFreeConcat(log + LeaveCalls(clients, c, p), JoinCalls(clients, c, p));
  }

  lemma UnsubscribingStaysColonFree(clients: map<ClientId, Watching>, c: ClientId, symbol: Option<string>, exchange: Option<string>)
    ensures ColonFree(clients) && ':' !in exchange.GetOr("") && Requested(symbol, exchange).Some? ==>
              var p := Requested(symbol, exchange).value;
              ':' !in p.exchange && (c in clients ==> ColonFree(clients[c := clients[c] - {p.symbol}]))
  {
    if exchange.Some? && ':' !in exchange.value {
      UpperStaysColonFree(exchange.value);
    }
  }

  // ---- Folded indexes ----

  ghost predicate Folded(clients: map<ClientId, Watching>) {
    forall c, s :: c in clients && s in clients[c] ==> NoLower(s) && NoLower(clients[c][s])
  }

  ghost predicate FoldedCalls(log: seq<Call>) {
    forall i :: 0 <= i < |log| ==> NoLower(log[i].symbol) && NoLower(log[i].exchange)
  }

  lemma FoldedConcat(a: seq<Call>, b: seq<Call>)
    requires FoldedCalls(a) && FoldedCalls(b)
    ensures FoldedCalls(a + b)
  {
  }

  lemma SubscribingStaysFolded(log: seq<Call>, clients: map<ClientId, Watching>, c: ClientId,
                               symbol: Option<string>, exchange: Option<string>)
    requires FoldedCalls(log) && Folded(clients) && Requested(symbol, exchange).Some?
    ensures var p := Requested(symbol, exchange).value;
            && Folded(clients[c := Of(clients, c)[p.symbol := p.exchange]])
            && FoldedCalls(log + LeaveCalls(clients, c, p) + JoinCalls(clients, c, p))
  {
    var p := Requested(symbol, exchange).value;
    FoldedConcat(log, LeaveCalls(clients, c, p));
    FoldedConcat(log + LeaveCalls(clients, c, p), JoinCalls(clients, c, p));
  }

  lemma UnsubscribingStaysFolded(clients: map<ClientId, Watching>, c: ClientId, symbol: Option<string>, exchange: Option<string>)
    ensures Folded(clients) && Requested(symbol, exchange).Some? ==>
              var p := Requested(symbol, exchange).value;
              NoLower(p.symbol) && NoLower(p.exchange) && (c in clients ==> Folded(clients[c := clients[c] - {p.symbol}]))
  {
  }

  // ---- The gateway ----

  class SignalsGateway {
    var watcherCounts: map<string, nat>
    var clientWatching: map<ClientId, Watching>
    ghost var calls: seq<Call>

    ghost predicate Valid()
      reads this
    {
      && CountsAgree(watcherCounts, clientWatching)
      && Alternates(calls)
      && (forall key :: Active(calls, key) <==> key in watcherCounts)
      && (forall c, s :: c in clientWatching && s in clientWatching[c] ==> clientWatching[c][s] != "")
    }

    constructor ()
      ensures Valid() && clientWatching == map[] && calls == []
    {
      watcherCounts, clientWatching, calls := map[], map[], [];
    }

    method CallInternal(action: Action, symbol: string, exchange: string)
      modifies this`calls
      ensures calls == old(calls) + [Call(action, symbol, exchange)]
    {
      calls := calls + [Call(action, symbol, exchange)];
    }

    /** One watcher fewer: the last one sends the unsubscribe. */
    method DecrementWatcher(symbol: string, exchange: string)
      requires PairKey(symbol, exchange) in watcherCounts && watcherCounts[PairKey(symbol, exchange)] > 0
      requires Alternates(calls) && forall key :: Active(calls, key) <==> key in watcherCounts
      modifies this`watcherCounts, this`calls
      ensures var key := PairKey(symbol, exchange);
              && watcherCounts == Decremented(old(watcherCounts), key)
              && calls == old(calls) + if old(watcherCounts)[key] == 1 then [Call(Unsubscribe, symbol, exchange)] else []
      ensures Alternates(calls) && forall key :: Active(calls, key) <==> key in watcherCounts
    {
      var pairKey := PairKey(symbol, exchange);
      var count := CountOf(watcherCounts, pairKey);
      if count <= 1 {
        AppendCall(calls, Call(Unsubscribe, symbol, exchange));
        watcherCounts := watcherCounts - {pairKey};
        CallInternal(Unsubscribe, symbol, exchange);
      } else {
        watcherCounts := watcherCounts[pairKey := count - 1];
      }
    }

    method IncrementWatcher(symbol: string, exchange: string)
      requires Alternates(calls) && forall key :: Active(calls, key) <==> key in watcherCounts
      requires forall key :: key in watcherCounts ==> watcherCounts[key] > 0
      modifies this`watcherCounts, this`calls
      ensures var key := PairKey(symbol, exchange);
              && watcherCounts == old(watcherCounts)[key := CountOf(old(watcherCounts), key) + 1]
              && calls == old(calls) + if key !in old(watcherCounts) then [Call(Subscribe, symbol, exchange)] else []
      ensures Alternates(calls) && forall key :: Active(calls, key) <==> key in watcherCounts
    {
      var pairKey := PairKey(symbol, exchange);
      var count := CountOf(watcherCounts, pairKey) + 1;
      watcherCounts := watcherCounts[pairKey := count];
      if count == 1 {
        AppendCall(calls, Call(Subscribe, symbol, exchange));
        CallInternal(Subscribe, symbol, exchange);
      }
    }

    /** Malformed messages are ignored; a switch of exchange leaves the old pair before joining the new one. */
    method HandleSubscribeSymbol(client: ClientId, symbol: Option<string>, exchange: Option<string>)
      requires Valid()
      modifies this
      ensures Valid()
      ensures match Requested(symbol, exchange)
              case None => clientWatching == old(clientWatching) && calls == old(calls)
              case Some(p) =>
                && clientWatching == old(clientWatching)[client := Of(old(clientWatching), client)[p.symbol := p.exchange]]
                && calls == old(calls) + LeaveCalls(old(clientWatching), client, p) + JoinCalls(old(clientWatching), client, p)
    {
      var requested := Requested(symbol, exchange);
      if requested.None? { return; }
      var pair := requested.value;
      TrackClient(client, pair);
      ghost var was := Of(old(clientWatching), client);
      LastUpdateWins(old(clientWatching), client, was, was[pair.symbol := pair.exchange]);
      Watch(client, pair);
    }

    /** A pair already watched changes nothing. */
    method Watch(client: ClientId, pair: Pair)
      requires Valid() && client in clientWatching && pair.exchange != ""
      modifies this
      ensures Valid()
      ensures clientWatching == old(clientWatching)[client := old(clientWatching)[client][pair.symbol := pair.exchange]]
      ensures calls == old(calls) + LeaveCalls(old(clientWatching), client, pair) + JoinCalls(old(clientWatching), client, pair)
    {
      var watching := clientWatching[client];
      if pair.symbol in watching && watching[pair.symbol] == pair.exchange {
        AlreadyWatching(clientWatching, client, pair);
      } else {
        SwitchPair(client, pair);
      }
    }

    /** Gives a new client an empty map of its own. */
    method TrackClient(client: ClientId, ghost pair: Pair)
      requires Valid()
      modifies this`clientWatching
      ensures Valid() && client in clientWatching && clientWatching[client] == Of(old(clientWatching), client)
      ensures clientWatching == old(clientWatching)[client := Of(old(clientWatching), client)]
      ensures LeaveCalls(clientWatching, client, pair) == LeaveCalls(old(clientWatching), client, pair)
      ensures JoinCalls(clientWatching, client, pair) == JoinCalls(old(clientWatching), client, pair)
    {
      if client !in clientWatching {
        clientWatching := clientWatching[client := map[]];
        EmptyChangesNothing(old(clientWatching), client, watcherCounts, pair);
      } else {
        assert clientWatching[client := clientWatching[client]] == clientWatching;
      }
    }

    /** Leaves the pair watched so far for this symbol, if any, and joins the new one. */
    method SwitchPair(client: ClientId, pair: Pair)
      requires Valid() && client in clientWatching && pair.exchange != ""
      requires pair.symbol in clientWatching[client] ==> clientWatching[client][pair.symbol] != pair.exchange
      modifies this
      ensures Valid()
      ensures clientWatching == old(clientWatching)[client := old(clientWatching)[client][pair.symbol := pair.exchange]]
      ensures calls == old(calls) + LeaveCalls(old(clientWatching), client, pair) + JoinCalls(old(clientWatching), client, pair)
    {
      var watching := clientWatching[client];
      if pair.symbol in watching {
        DifferentExchangeDifferentKey(pair.symbol, watching[pair.symbol], pair.exchange);
        LeavePair(client, pair.symbol);
        LeaveThenJoin(old(clientWatching), client, pair.symbol, pair.exchange);
      }
      JoinPair(client, pair.symbol, pair.exchange);
    }

    /** Stops watching a symbol and counts the pair down. */
    method LeavePair(client: ClientId, symbol: string)
      requires Valid() && client in clientWatching && symbol in clientWatching[client]
      modifies this
      ensures Valid()
      ensures clientWatching == old(clientWatching)[client := old(clientWatching)[client] - {symbol}]
      ensures var exchange := old(clientWatching)[client][symbol];
              calls == old(calls) + if |Watchers(old(clientWatching), PairKey(symbol, exchange))| == 1
                                    then [Call(Unsubscribe, symbol, exchange)] else []
      ensures forall key :: key != PairKey(symbol, old(clientWatching)[client][symbol]) ==>
                Watchers(clientWatching, key) == Watchers(old(clientWatching), key)
    {
      var exchange := clientWatching[client][symbol];
      DecrementAgrees(watcherCounts, clientWatching, client, symbol);
      UnwatchRemoves(clientWatching, client, symbol);
      clientWatching := clientWatching[client := clientWatching[client] - {symbol}];
      DecrementWatcher(symbol, exchange);
    }

    /** Starts watching a symbol this client does not watch and counts the pair up. */
    method JoinPair(client: ClientId, symbol: string, exchange: string)
      requires Valid() && client in clientWatching && symbol !in clientWatching[client] && exchange != ""
      modifies this
      ensures Valid()
      ensures clientWatching == old(clientWatching)[client := old(clientWatching)[client][symbol := exchange]]
      ensures calls == old(calls) + if Watchers(old(clientWatching), PairKey(symbol, exchange)) == {}
                                    then [Call(Subscribe, symbol, exchange)] else []
    {
      IncrementAgrees(watcherCounts, clientWatching, client, symbol, exchange);
      clientWatching := clientWatching[client := clientWatching[client][symbol := exchange]];
      IncrementWatcher(symbol, exchange);
    }

    /** Only a pair this client is tracked as watching is left; anything else changes nothing. */
    method HandleUnsubscribeSymbol(client: ClientId, symbol: Option<string>, exchange: Option<string>)
      requires Valid()
      modifies this
      ensures Valid()
      ensures match Requested(symbol, exchange)
              case None => clientWatching == old(clientWatching) && calls == old(calls)
              case Some(p) =>
                if !(p.symbol in Of(old(clientWatching), client) && old(clientWatching)[client][p.symbol] == p.exchange)
                then clientWatching == old(clientWatching) && calls == old(calls)
                else
                  && clientWatching == old(clientWatching)[client := old(clientWatching)[client] - {p.symbol}]
                  && calls == old(calls) + if |Watchers(old(clientWatching), PairKey(p.symbol, p.exchange))| == 1
                                           then [Call(Unsubscribe, p.symbol, p.exchange)] else []
    {
      var requested := Requested(symbol, exchange);
      if requested.None? { return; }
      var pair := requested.value;
      if client !in clientWatching || pair.symbol !in clientWatching[client] || clientWatching[client][pair.symbol] != pair.exchange {
        return;
      }
      LeavePair(client, pair.symbol);
    }

    /** Counts down one pair, in any order, of a client that is already forgotten. */
    method DecrementOne(client: ClientId, rest: Watching) returns (symbol: string)
      requires client !in clientWatching && rest != map[]
      requires CountsAgree(watcherCounts, clientWatching[client := rest])
      requires Alternates(calls) && forall key :: Active(calls, key) <==> key in watcherCounts
      modifies this`watcherCounts, this`calls
      ensures symbol in rest && CountsAgree(watcherCounts, clientWatching[client := rest - {symbol}])
      ensures Alternates(calls) && forall key :: Active(calls, key) <==> key in watcherCounts
      ensures calls == old(calls) || calls == old(calls) + [Call(Unsubscribe, symbol, rest[symbol])]
    {
      symbol :| symbol in rest;
      ghost var clients := clientWatching[client := rest];
      DecrementAgrees(watcherCounts, clients, client, symbol);
      assert clients[client := rest - {symbol}] == clientWatching[client := rest - {symbol}];
      DecrementWatcher(symbol, rest[symbol]);
    }

    /** Counts down every pair of a client that is already forgotten. */
    method DecrementAll(client: ClientId, watching: Watching)
      requires client !in clientWatching
      requires CountsAgree(watcherCounts, clientWatching[client := watching])
      requires Alternates(calls) && forall key :: Active(calls, key) <==> key in watcherCounts
      modifies this`watcherCounts, this`calls
      ensures CountsAgree(watcherCounts, clientWatching)
      ensures Alternates(calls) && forall key :: Active(calls, key) <==> key in watcherCounts
      ensures UnsubscribesOnly(old(calls), calls, watching)
    {
      var rest := watching;
      while rest != map[]
        invariant rest.Keys <= watching.Keys && forall s :: s in rest ==> rest[s] == watching[s]
        invariant CountsAgree(watcherCounts, clientWatching[client := rest])
        invariant Alternates(calls) && forall key :: Active(calls, key) <==> key in watcherCounts
        invariant UnsubscribesOnly(old(calls), calls, watching)
        decreases |rest|
      {
        ghost var sent := calls;
        var symbol := DecrementOne(client, rest);
        OneMoreUnsubscribe(old(calls), sent, calls, watching, symbol);
        rest := rest - {symbol};
      }
      AddEmpty(clientWatching, client);
    }

    /**
     * The client is forgotten and each of its pairs counted down: the calls
     * sent are unsubscribes of its own pairs, at most one for each key.
     */
    method HandleDisconnect(client: ClientId)
      requires Valid()
      modifies this
      ensures Valid()
      ensures clientWatching == old(clientWatching) - {client}
      ensures UnsubscribesOnly(old(calls), calls, Of(old(clientWatching), client))
    {
      if client !in clientWatching {
        assert clientWatching - {client} == clientWatching;
        return;
      }
      var watching := clientWatching[client];
      clientWatching := clientWatching - {client};
      assert clientWatching[client := watching] == old(clientWatching);
      DecrementAll(client, watching);
    }

    /** No exchange in the index or in a call holds a colon. */
    ghost predicate ColonFreeIndex()
      reads this
    {
      ColonFree(clientWatching) && ColonFreeCalls(calls)
    }

    /** No symbol or exchange in the index or in a call holds a lower-case letter. */
    ghost predicate FoldedIndex()
      reads this
    {
      Folded(clientWatching) && FoldedCalls(calls)
    }

    method OnSubscribe(client: ClientId, symbol: Option<string>, exchange: Option<string>)
      requires Valid()
      modifies this
      ensures Valid()
      ensures old(ColonFreeIndex()) && ':' !in exchange.GetOr("") ==> ColonFreeIndex()
      ensures old(FoldedIndex()) ==> FoldedIndex()
    {
      ghost var log, was, p := calls, clientWatching, Requested(symbol, exchange);
      HandleSubscribeSymbol(client, symbol, exchange);
      if p.Some? && ColonFreeCalls(log) && ColonFree(was) && ':' !in exchange.GetOr("") {
        SubscribingStaysColonFree(log, was, client, symbol, exchange);
      }
      if p.Some? && FoldedCalls(log) && Folded(was) {
        SubscribingStaysFolded(log, was, client, symbol, exchange);
      }
    }

    method OnUnsubscribe(client: ClientId, symbol: Option<string>, exchange: Option<string>)
      requires Valid()
      modifies this
      ensures Valid()
      ensures old(ColonFreeIndex()) && ':' !in exchange.GetOr("") ==> ColonFreeIndex()
      ensures old(FoldedIndex()) ==> FoldedIndex()
    {
      UnsubscribingStaysColonFree(clientWatching, client, symbol, exchange);
      UnsubscribingStaysFolded(clientWatching, client, symbol, exchange);
      HandleUnsubscribeSymbol(client, symbol, exchange);
    }

    method OnDisconnect(client: ClientId)
      requires Valid()
      modifies this
      ensures Valid()
      ensures old(ColonFreeIndex()) ==> ColonFreeIndex()
      ensures old(FoldedIndex()) ==> FoldedIndex()
    {
      ghost var log := calls;
      HandleDisconnect(client);
      assert forall i :: 0 <= i < |log| ==> calls[i] == log[i];
    }

    /** Any message keeps the index valid, and a colon-free one keeps it colon-free. */
    method Handle(m: Message)
      requires Valid()
      modifies this
      ensures Valid()
      ensures old(ColonFreeIndex()) && ColonFreeMessage(m) ==> ColonFreeIndex()
      ensures old(FoldedIndex()) ==> FoldedIndex()
    {
      match m
      case SubscribeSymbol(client, symbol, exchange) => OnSubscribe(client, symbol, exchange);
      case UnsubscribeSymbol(client, symbol, exchange) => OnUnsubscribe(client, symbol, exchange);
      case Disconnected(client) => OnDisconnect(client);
    }

    /** The pairs with a live watcher, decoded from their keys. */
    method GetActiveSymbols() returns (active: set<Pair>)
      requires Valid()
      ensures forall p :: p in active <==> exists key :: key in watcherCounts && ':' in key && Decode(key) == p
      ensures forall p :: p in active <==> exists key :: Active(calls, key) && ':' in key && Decode(key) == p
      ensures (forall c, s :: c in clientWatching && s in clientWatching[c] ==> ':' !in clientWatching[c][s]) ==>
                forall s, e :: Pair(s, e) in active <==> ClientsOf(clientWatching, s, e) != {}
    {
      KeysHoldColons(watcherCounts, clientWatching);
      active := set key | key in watcherCounts :: Decode(key);
      if forall c, s :: c in clientWatching && s in clientWatching[c] ==> ':' !in clientWatching[c][s] {
        forall s, e ensures Pair(s, e) in active <==> ClientsOf(clientWatching, s, e) != {} {
          ActiveIffWatched(watcherCounts, clientWatching, s, e);
        }
      }
    }
  }

  lemma DifferentExchangeDifferentKey(s: string, e: string, e': string)
    requires e != e'
    ensures PairKey(s, e) != PairKey(s, e')
  {
    assert PairKey(s, e)[|s| + 1..] == e && PairKey(s, e')[|s| + 1..] == e';
  }

  lemma KeysHoldColons(counts: map<string, nat>, clients: map<ClientId, Watching>)
    requires CountsAgree(counts, clients)
    ensures forall key :: key in counts ==> ':' in key
  {
    forall key | key in counts ensures ':' in key {
      var w :| w in Watchers(clients, key);
      DecodeIff(w.1, clients[w.0][w.1]);
    }
  }

  /** With colon-free exchanges a key's entries are one per client watching the pair. */
  lemma WatchersArePairClients(clients: map<ClientId, Watching>, s: string, e: string)
    requires ColonFree(clients) && ':' !in e
    ensures Watchers(clients, PairKey(s, e)) == set c | c in ClientsOf(clients, s, e) :: (c, s)
    ensures |Watchers(clients, PairKey(s, e))| == |ClientsOf(clients, s, e)|
  {
    forall w | w in Watchers(clients, PairKey(s, e)) ensures w.1 == s && w.0 in ClientsOf(clients, s, e) {
      KeysInjective(w.1, clients[w.0][w.1], s, e);
    }
    TagCount(ClientsOf(clients, s, e), s);
  }

  lemma {:induction false} TagCount(cs: set<ClientId>, s: string)
    ensures |set c | c in cs :: (c, s)| == |cs|
  {
    if cs != {} {
      var c :| c in cs;
      TagCount(cs - {c}, s);
      assert (set d | d in cs :: (d, s)) == (set d | d in cs - {c} :: (d, s)) + {(c, s)};
    }
  }

  /** The stored count of a pair is the number of clients watching it, and absent when there are none. */
  lemma CountIsClients(counts: map<string, nat>, clients: map<ClientId, Watching>, s: string, e: string)
    requires CountsAgree(counts, clients) && ColonFree(clients) && ':' !in e
    ensures CountOf(counts, PairKey(s, e)) == |ClientsOf(clients, s, e)|
    ensures PairKey(s, e) in counts <==> ClientsOf(clients, s, e) != {}
  {
    WatchersArePairClients(clients, s, e);
  }

  /** Nobody watches another pair under this pair's key. */
  ghost predicate KeyIsOwn(clients: map<ClientId, Watching>, s: string, e: string) {
    forall c, t :: c in clients && t in clients[c] && PairKey(t, clients[c][t]) == PairKey(s, e) ==> t == s && clients[c][t] == e
  }

  /** Every client of the pair is an entry under its key. */
  lemma PairClientsAreWatchers(clients: map<ClientId, Watching>, s: string, e: string)
    ensures (set c | c in ClientsOf(clients, s, e) :: (c, s)) <= Watchers(clients, PairKey(s, e))
    ensures (set c | c in ClientsOf(clients, s, e) :: (c, s)) == Watchers(clients, PairKey(s, e)) <==> KeyIsOwn(clients, s, e)
  {
    var own, all := set c | c in ClientsOf(clients, s, e) :: (c, s), Watchers(clients, PairKey(s, e));
    if own == all {
      forall c, t | c in clients && t in clients[c] && PairKey(t, clients[c][t]) == PairKey(s, e)
        ensures t == s && clients[c][t] == e
      {
        assert (c, t) in all;
      }
    }
  }

  lemma ProperSubsetIsSmaller<T>(small: set<T>, large: set<T>)
    requires small <= large
    ensures |small| == |large| <==> small == large
  {
    assert large == small + (large - small);
  }

  /** The stored count of a pair is the number of clients watching it exactly when nobody watches another pair under its key. */
  lemma CountIsClientsIff(counts: map<string, nat>, clients: map<ClientId, Watching>, s: string, e: string)
    requires CountsAgree(counts, clients)
    ensures CountOf(counts, PairKey(s, e)) == |ClientsOf(clients, s, e)| <==> KeyIsOwn(clients, s, e)
  {
    TagCount(ClientsOf(clients, s, e), s);
    PairClientsAreWatchers(clients, s, e);
    ProperSubsetIsSmaller(set c | c in ClientsOf(clients, s, e) :: (c, s), Watchers(clients, PairKey(s, e)));
  }

  lemma ActiveIffWatched(counts: map<string, nat>, clients: map<ClientId, Watching>, s: string, e: string)
    requires CountsAgree(counts, clients) && ColonFree(clients)
    requires forall key :: key in counts ==> ':' in key
    ensures (exists key :: key in counts && Decode(key) == Pair(s, e)) <==> ClientsOf(clients, s, e) != {}
  {
    if key :| key in counts && Decode(key) == Pair(s, e) {
      var w :| w in Watchers(clients, key);
      DecodeIff(w.1, clients[w.0][w.1]);
      assert w.0 in ClientsOf(clients, s, e);
    }
    if ClientsOf(clients, s, e) != {} {
      var c :| c in ClientsOf(clients, s, e);
      CountIsClients(counts, clients, s, e);
      DecodeIff(s, e);
    }
  }

  // ---- Per pair ----

  /** Whether the last call for exactly this pair was a subscribe. */
  function ActivePair(log: seq<Call>, p: Pair): bool {
    if |log| == 0 then false
    else if Pair(log[|log| - 1].symbol, log[|log| - 1].exchange) == p then log[|log| - 1].action.Subscribe?
    else ActivePair(log[..|log| - 1], p)
  }

  lemma {:induction false} ActiveIsActivePair(log: seq<Call>, p: Pair)
    requires ':' !in p.exchange && ColonFreeCalls(log)
    ensures ActivePair(log, p) == Active(log, PairKey(p.symbol, p.exchange))
  {
    if |log| > 0 {
      var last := log[|log| - 1];
      ActiveIsActivePair(log[..|log| - 1], p);
      if KeyOf(last) == PairKey(p.symbol, p.exchange) {
        KeysInjective(last.symbol, last.exchange, p.symbol, p.exchange);
      }
    }
  }

  /** With colon-free exchanges the calls of every single pair alternate, starting with a subscribe. */
  lemma PairCallsAlternate(log: seq<Call>, i: nat)
    requires Alternates(log) && i < |log| && ColonFreeCalls(log)
    ensures log[i].action.Subscribe? <==> !ActivePair(log[..i], Pair(log[i].symbol, log[i].exchange))
  {
    ActiveIsActivePair(log[..i], Pair(log[i].symbol, log[i].exchange));
  }

  ghost predicate PairsAlternate(log: seq<Call>) {
    forall i :: 0 <= i < |log| ==>
      (log[i].action.Subscribe? <==> !ActivePair(log[..i], Pair(log[i].symbol, log[i].exchange)))
  }

  ghost predicate CountsClients(counts: map<string, nat>, clients: map<ClientId, Watching>) {
    forall s, e :: ':' !in e ==> CountOf(counts, PairKey(s, e)) == |ClientsOf(clients, s, e)|
  }

  /** The last call of every pair is a subscribe exactly when some client watches the pair. */
  ghost predicate CallsFollowWatchers(log: seq<Call>, clients: map<ClientId, Watching>) {
    forall s, e :: ':' !in e ==> (ActivePair(log, Pair(s, e)) <==> ClientsOf(clients, s, e) != {})
  }

  lemma ColonFreeMeans(gateway: SignalsGateway)
    requires gateway.Valid() && gateway.ColonFreeIndex()
    ensures PairsAlternate(gateway.calls)
    ensures CountsClients(gateway.watcherCounts, gateway.clientWatching)
    ensures CallsFollowWatchers(gateway.calls, gateway.clientWatching)
  {
    var log, counts, clients := gateway.calls, gateway.watcherCounts, gateway.clientWatching;
    forall i | 0 <= i < |log|
      ensures log[i].action.Subscribe? <==> !ActivePair(log[..i], Pair(log[i].symbol, log[i].exchange))
    {
      PairCallsAlternate(log, i);
    }
    forall s, e | ':' !in e
      ensures CountOf(counts, PairKey(s, e)) == |ClientsOf(clients, s, e)|
      ensures ActivePair(log, Pair(s, e)) <==> ClientsOf(clients, s, e) != {}
    {
      CountIsClients(counts, clients, s, e);
      ActiveIsActivePair(log, Pair(s, e));
    }
  }

  /**
   * From a new gateway, over every list of messages: no symbol or exchange
   * watched or sent upstream holds a lower-case letter. If their exchanges hold
   * no colon, each pair's count is the number of clients watching it, its calls
   * alternate starting with a subscribe, and the last one is a subscribe exactly
   * while somebody watches.
   */
  method Serve(messages: seq<Message>) returns (gateway: SignalsGateway)
    ensures fresh(gateway) && gateway.Valid() && gateway.FoldedIndex()
    ensures (forall i :: 0 <= i < |messages| ==> ColonFreeMessage(messages[i])) ==>
              && CountsClients(gateway.watcherCounts, gateway.clientWatching)
              && PairsAlternate(gateway.calls) && CallsFollowWatchers(gateway.calls, gateway.clientWatching)
  {
    gateway := new SignalsGateway();
    var i := 0;
    while i < |messages|
      invariant 0 <= i <= |messages|
      invariant fresh(gateway) && gateway.Valid() && gateway.FoldedIndex()
      invariant (forall j :: 0 <= j < i ==> ColonFreeMessage(messages[j])) ==> gateway.ColonFreeIndex()
    {
      gateway.Handle(messages[i]);
      i := i + 1;
    }
    if forall j :: 0 <= j < |messages| ==> ColonFreeMessage(messages[j]) {
      ColonFreeMeans(gateway);
    }
  }

  /** A message without lower-case letters names its own pair. */
  lemma AlreadyFolded(s: string, e: string)
    requires s != "" && e != "" && NoLower(s) && NoLower(e)
    ensures Requested(Some(s), Some(e)) == Some(Pair(s, e))
  {
    assert ToUpper(s) == s && ToUpper(e) == e;
  }

  const NONE_WATCHED: map<ClientId, Watching> := map["a" := map[], "b" := map[]]
  const ONE_WATCHED: map<ClientId, Watching> := map["a" := map[], "b" := map["X" := "Y:Z"]]
  const BOTH_WATCHED: map<ClientId, Watching> := map["a" := map["X:Y" := "Z"], "b" := map["X" := "Y:Z"]]

  lemma CollidingRequests()
    ensures Requested(Some("X:Y"), Some("Z")) == Some(Pair("X:Y", "Z"))
    ensures Requested(Some("X"), Some("Y:Z")) == Some(Pair("X", "Y:Z"))
  {
    AlreadyFolded("X:Y", "Z");
    AlreadyFolded("X", "Y:Z");
  }

  lemma CollidingKeys()
    ensures PairKey("X:Y", "Z") == PairKey("X", "Y:Z") == "X:Y:Z"
  {
  }

  lemma CollidingWatchers()
    ensures |Watchers(BOTH_WATCHED, "X:Y:Z")| == 2
    ensures |Watchers(ONE_WATCHED, "X:Y:Z")| == 1
  {
    CollidingKeys();
    assert Watchers(BOTH_WATCHED, "X:Y:Z") == {("a", "X:Y"), ("b", "X")};
    assert Watchers(ONE_WATCHED, "X:Y:Z") == {("b", "X")};
  }

  lemma CollidingLeaves()
    ensures BOTH_WATCHED["a" := BOTH_WATCHED["a"] - {"X:Y"}] == ONE_WATCHED
    ensures ONE_WATCHED["b" := ONE_WATCHED["b"] - {"X"}] == NONE_WATCHED
  {
    assert BOTH_WATCHED["a"] - {"X:Y"} == map[] && ONE_WATCHED["b"] - {"X"} == map[];
  }

  const A_WATCHES: map<ClientId, Watching> := map["a" := map["X:Y" := "Z"]]

  lemma SubscribingCollides()
    ensures Watchers(map[], "X:Y:Z") == {} && Watchers(A_WATCHES, "X:Y:Z") != {}
    ensures LeaveCalls(map[], "a", Pair("X:Y", "Z")) == [] && LeaveCalls(A_WATCHES, "b", Pair("X", "Y:Z")) == []
    ensures JoinCalls(map[], "a", Pair("X:Y", "Z")) == [Call(Subscribe, "X:Y", "Z")]
    ensures JoinCalls(A_WATCHES, "b", Pair("X", "Y:Z")) == []
    ensures A_WATCHES["b" := map["X" := "Y:Z"]] == BOTH_WATCHED
  {
    CollidingKeys();
    assert Watchers(map[], "X:Y:Z") == {};
    assert ("a", "X:Y") in Watchers(A_WATCHES, "X:Y:Z");
  }

  /** Two clients watching two different pairs under one key: only the first sends a subscribe. */
  method SubscribeColliding() returns (gateway: SignalsGateway)
    ensures fresh(gateway) && gateway.Valid()
    ensures gateway.calls == [Call(Subscribe, "X:Y", "Z")]
    ensures gateway.clientWatching == BOTH_WATCHED
  {
    gateway := new SignalsGateway();
    CollidingRequests();
    CollidingKeys();
    SubscribingCollides();
    gateway.HandleSubscribeSymbol("a", Some("X:Y"), Some("Z"));
    assert gateway.clientWatching == A_WATCHES;
    gateway.HandleSubscribeSymbol("b", Some("X"), Some("Y:Z"));
  }

  method UnsubscribeFirst(gateway: SignalsGateway)
    requires gateway.Valid() && gateway.clientWatching == BOTH_WATCHED
    modifies gateway
    ensures gateway.Valid() && gateway.clientWatching == ONE_WATCHED && gateway.calls == old(gateway.calls)
  {
    CollidingRequests();
    CollidingKeys();
    CollidingWatchers();
    CollidingLeaves();
    gateway.HandleUnsubscribeSymbol("a", Some("X:Y"), Some("Z"));
  }

  method UnsubscribeSecond(gateway: SignalsGateway)
    requires gateway.Valid() && gateway.clientWatching == ONE_WATCHED
    modifies gateway
    ensures gateway.Valid() && gateway.clientWatching == NONE_WATCHED
    ensures gateway.calls == old(gateway.calls) + [Call(Unsubscribe, "X", "Y:Z")]
  {
    CollidingRequests();
    CollidingKeys();
    CollidingWatchers();
    CollidingLeaves();
    gateway.HandleUnsubscribeSymbol("b", Some("X"), Some("Y:Z"));
  }

  /** A colon in an exchange lets two pairs share a count: the pair that was subscribed upstream is never unsubscribed. */
  method ColonsCollide() returns (gateway: SignalsGateway)
    ensures fresh(gateway) && gateway.Valid()
    ensures gateway.calls == [Call(Subscribe, "X:Y", "Z"), Call(Unsubscribe, "X", "Y:Z")]
    ensures gateway.clientWatching == NONE_WATCHED
  {
    gateway := SubscribeColliding();
    UnsubscribeFirst(gateway);
    UnsubscribeSecond(gateway);
  }
}
