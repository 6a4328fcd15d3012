/** Published signals: suppression of restated setups, and the store behind it. */
module SignalStore {
  import opened Wrappers

  const DEDUPE_WINDOW_MS := 4 * 60 * 60 * 1000
  const DEDUPE_PRICE_TOLERANCE := 0.005

  /** An unparsable time is `None`. */
  datatype Candidate = Candidate(symbol: string, direction: string, entryPrice: real, generatedAt: Option<int>)

  datatype Signal = Signal(body: Candidate, createdAt: int)

  datatype Outcome = Stored | Restated | AlreadyStored | Invalid

  // ---- The dedupe predicate ----

  function Distance(a: int, b: int): int { if a < b then b - a else a - b }

  function Gap(a: real, b: real): real { if a < b then b - a else a - b }

  predicate Restates(incoming: Candidate, prior: Candidate) {
    && incoming.generatedAt.Some? && incoming.entryPrice != 0.0
    && prior.symbol == incoming.symbol && prior.direction == incoming.direction
    && prior.generatedAt.Some?
    && Distance(incoming.generatedAt.value, prior.generatedAt.value) <= DEDUPE_WINDOW_MS
    && Gap(prior.entryPrice, incoming.entryPrice) / incoming.entryPrice <= DEDUPE_PRICE_TOLERANCE
  }

  predicate IsDuplicateSetup(incoming: Candidate, recent: seq<Candidate>) {
    exists i :: 0 <= i < |recent| && Restates(incoming, recent[i])
  }

  /** Same symbol, direction and, within four hours either way, time of generation. */
  predicate SameSetup(a: Candidate, b: Candidate) {
    && a.symbol == b.symbol && a.direction == b.direction
    && a.generatedAt.Some? && b.generatedAt.Some?
    && a.generatedAt.value <= b.generatedAt.value + DEDUPE_WINDOW_MS
    && b.generatedAt.value <= a.generatedAt.value + DEDUPE_WINDOW_MS
  }

  lemma QuotientAtMost(x: real, y: real, z: real)
    requires y > 0.0
    ensures x / y <= z <==> x <= z * y
  {
    assert x == (x / y) * y;
    if x / y <= z {
      assert (z - x / y) * y >= 0.0;
    } else {
      assert (x / y - z) * y > 0.0;
    }
  }

  lemma NegativeQuotient(x: real, y: real)
    requires x >= 0.0 && y < 0.0
    ensures x / y <= 0.0
  {
    assert x == (x / y) * y;
    assert (x / y) * (0.0 - y) == 0.0 - x;
  }

  /**
   * A priced signal restates one of the same setup exactly when the entries
   * are within half a percent of the incoming entry; a negative entry restates
   * every one, and a zero entry none.
   */
  lemma RestatesIff(incoming: Candidate, prior: Candidate)
    ensures Restates(incoming, prior) <==>
              && SameSetup(prior, incoming) && incoming.entryPrice != 0.0
              && (incoming.entryPrice > 0.0 ==>
                    && prior.entryPrice - incoming.entryPrice <= DEDUPE_PRICE_TOLERANCE * incoming.entryPrice
                    && incoming.entryPrice - prior.entryPrice <= DEDUPE_PRICE_TOLERANCE * incoming.entryPrice)
  {
    var gap := Gap(prior.entryPrice, incoming.entryPrice);
    if incoming.entryPrice > 0.0 {
      QuotientAtMost(gap, incoming.entryPrice, DEDUPE_PRICE_TOLERANCE);
    } else if incoming.entryPrice < 0.0 {
      NegativeQuotient(gap, incoming.entryPrice);
    }
  }

  // ---- The store ----

  /** The query for recent stored signals of the incoming symbol and direction, oldest first. */
  function Recent(store: seq<Signal>, incoming: Candidate, now: int): seq<Candidate> {
    if |store| == 0 then []
    else
      var last := store[|store| - 1];
      Recent(store[..|store| - 1], incoming, now)
      + if last.body.symbol == incoming.symbol && last.body.direction == incoming.direction
           && last.createdAt >= now - DEDUPE_WINDOW_MS
        then [last.body] else []
  }

  /** The unique index over symbol, time of generation and direction. */
  predicate SameKey(a: Candidate, b: Candidate) {
    a.symbol == b.symbol && a.direction == b.direction && a.generatedAt == b.generatedAt
  }

  predicate Taken(store: seq<Signal>, incoming: Candidate) {
    exists i :: 0 <= i < |store| && SameKey(store[i].body, incoming)
  }

  function OutcomeOf(store: seq<Signal>, incoming: Candidate, now: int): Outcome {
    if IsDuplicateSetup(incoming, Recent(store, incoming, now)) then Restated
    else if incoming.generatedAt.None? then Invalid
    else if Taken(store, incoming) then AlreadyStored
    else Stored
  }

  function Persist(store: seq<Signal>, incoming: Candidate, now: int): seq<Signal> {
    if OutcomeOf(store, incoming, now).Stored? then store + [Signal(incoming, now)] else store
  }

  datatype Publication = Publication(body: Candidate, now: int)

  function After(publications: seq<Publication>): seq<Signal> {
    if |publications| == 0 then []
    else
      var last := publications[|publications| - 1];
      Persist(After(publications[..|publications| - 1]), last.body, last.now)
  }

  /** A stored signal young enough to be compared with, that the incoming one restates. */
  predicate RestatedBy(s: Signal, incoming: Candidate, now: int) {
    s.createdAt >= now - DEDUPE_WINDOW_MS && Restates(incoming, s.body)
  }

  lemma {:induction false} RestatedIff(store: seq<Signal>, incoming: Candidate, now: int)
    ensures IsDuplicateSetup(incoming, Recent(store, incoming, now))
            <==> exists i :: 0 <= i < |store| && RestatedBy(store[i], incoming, now)
  {
    if |store| > 0 {
      var before, last := store[..|store| - 1], store[|store| - 1];
      RestatedIff(before, incoming, now);
      var r0, r := Recent(before, incoming, now), Recent(store, incoming, now);
      if IsDuplicateSetup(incoming, r) && !RestatedBy(last, incoming, now) {
        var i :| 0 <= i < |r| && Restates(incoming, r[i]);
        assert i < |r0|;
        assert r0[i] == r[i];
      }
      if exists i :: 0 <= i < |store| && RestatedBy(store[i], incoming, now) {
        if RestatedBy(last, incoming, now) {
          assert r[|r| - 1] == last.body;
        } else {
          var i :| 0 <= i < |store| && RestatedBy(store[i], incoming, now);
          assert before[i] == store[i];
          var k :| 0 <= k < |r0| && Restates(incoming, r0[k]);
          assert r[k] == r0[k];
        }
      }
    }
  }

  /** A stored signal of another symbol or direction never bears on what happens to a publication. */
  lemma OtherSetupsDoNotMatter(store: seq<Signal>, other: Signal, incoming: Candidate, now: int)
    requires other.body.symbol != incoming.symbol || other.body.direction != incoming.direction
    ensures OutcomeOf(store + [other], incoming, now) == OutcomeOf(store, incoming, now)
  {
    assert (store + [other])[..|store|] == store;
    assert Recent(store + [other], incoming, now) == Recent(store, incoming, now);
    TakenIff(store, incoming);
    TakenIff(store + [other], incoming);
  }

  /** A key is taken exactly by a stored signal of the same symbol, direction and time of generation. */
  lemma TakenIff(store: seq<Signal>, incoming: Candidate)
    ensures Taken(store, incoming) <==>
              exists s :: s in store && s.body.symbol == incoming.symbol && s.body.direction == incoming.direction
                          && s.body.generatedAt == incoming.generatedAt
  {
    if s :| s in store && SameKey(s.body, incoming) {
      var i :| 0 <= i < |store| && store[i] == s;
      assert SameKey(store[i].body, incoming);
    }
  }

  // ---- The service ----

  class SignalsService {
    var signals: seq<Signal>
    var broadcasts: seq<Signal>

    constructor ()
      ensures signals == [] && broadcasts == []
    {
      signals, broadcasts := [], [];
    }

    /** Refused exactly when a young stored signal is restated, the key is taken or the time is unreadable; broadcast exactly when stored. */
    method PersistSignal(incoming: Candidate, now: int) returns (outcome: Outcome)
      modifies this
      ensures signals == Persist(old(signals), incoming, now) && outcome == OutcomeOf(old(signals), incoming, now)
      ensures outcome.Stored? <==> signals == old(signals) + [Signal(incoming, now)]
      ensures outcome.Restated? <==> exists i :: 0 <= i < |old(signals)| && RestatedBy(old(signals)[i], incoming, now)
      ensures outcome.AlreadyStored? ==> Taken(old(signals), incoming)
      ensures outcome.Invalid? ==> incoming.generatedAt.None?
      ensures broadcasts == old(broadcasts) + signals[|old(signals)|..]
    {
      var recent := Recent(signals, incoming, now);
      RestatedIff(signals, incoming, now);
      if IsDuplicateSetup(incoming, recent) {
        return Restated;
      }
      if incoming.generatedAt.None? {
        return Invalid;
      }
      if Taken(signals, incoming) {
        return AlreadyStored;
      }
      var signal := Signal(incoming, now);
      signals := signals + [signal];
      broadcasts := broadcasts + [signal];
      outcome := Stored;
    }
  }

  // ---- Every run ----

  /** Later stored and earlier stored signal are apart, unless the later one's entry is zero. */
  predicate Apart(earlier: Signal, later: Signal) {
    SameSetup(earlier.body, later.body) && earlier.createdAt >= later.createdAt - DEDUPE_WINDOW_MS
    && later.body.entryPrice != 0.0 ==>
      && later.body.entryPrice > 0.0
      && Gap(earlier.body.entryPrice, later.body.entryPrice) > DEDUPE_PRICE_TOLERANCE * later.body.entryPrice
  }

  predicate AllApart(store: seq<Signal>) {
    forall i, j :: 0 <= i < j < |store| ==> Apart(store[i], store[j])
  }

  lemma PersistKeepsApart(store: seq<Signal>, incoming: Candidate, now: int)
    requires AllApart(store)
    ensures AllApart(Persist(store, incoming, now))
  {
    if OutcomeOf(store, incoming, now).Stored? {
      RestatedIff(store, incoming, now);
      forall i | 0 <= i < |store| ensures Apart(store[i], Signal(incoming, now)) {
        RestatesIff(incoming, store[i].body);
        assert !RestatedBy(store[i], incoming, now);
      }
    }
  }

  /**
   * Whatever is published, in whatever order: two stored signals of one symbol
   * and direction, created and generated within four hours of each other, differ
   * in entry by more than half a percent of the later one's entry.
   */
  lemma StoredSetupsAreApart(publications: seq<Publication>, i: nat, j: nat)
    requires i < j < |After(publications)|
    requires var earlier, later := After(publications)[i], After(publications)[j];
             && earlier.body.symbol == later.body.symbol && earlier.body.direction == later.body.direction
             && earlier.body.generatedAt.Some? && later.body.generatedAt.Some?
             && -14_400_000 <= later.body.generatedAt.value - earlier.body.generatedAt.value <= 14_400_000
             && later.createdAt - earlier.createdAt <= 14_400_000
             && later.body.entryPrice != 0.0
    ensures var earlier, later := After(publications)[i].body.entryPrice, After(publications)[j].body.entryPrice;
            later > 0.0 && (earlier - later > 0.005 * later || later - earlier > 0.005 * later)
  {
    StoredAreApart(publications);
    assert Apart(After(publications)[i], After(publications)[j]);
  }

  lemma {:induction false} StoredAreApart(publications: seq<Publication>)
    ensures AllApart(After(publications))
  {
    if |publications| > 0 {
      var n := |publications| - 1;
      StoredAreApart(publications[..n]);
      PersistKeepsApart(After(publications[..n]), publications[n].body, publications[n].now);
    }
  }

  /** The guard reads a zero entry as a missing one: only the key keeps such a signal out. */
  lemma ZeroEntryStoredIff(store: seq<Signal>, incoming: Candidate, now: int)
    requires incoming.entryPrice == 0.0
    ensures OutcomeOf(store, incoming, now).Stored? <==> incoming.generatedAt.Some? && !Taken(store, incoming)
  {
    var recent := Recent(store, incoming, now);
    assert forall i :: 0 <= i < |recent| ==> !Restates(incoming, recent[i]);
  }

  /** So one zero-priced setup is stored again a millisecond later. */
  lemma ZeroEntriesRepeat(symbol: string, direction: string, at: int)
    ensures var c0, c1 := Candidate(symbol, direction, 0.0, Some(at)), Candidate(symbol, direction, 0.0, Some(at + 1));
            SameSetup(c0, c1) && Persist([Signal(c0, at)], c1, at + 1) == [Signal(c0, at), Signal(c1, at + 1)]
  {
    var c1 := Candidate(symbol, direction, 0.0, Some(at + 1));
    ZeroEntryStoredIff([Signal(Candidate(symbol, direction, 0.0, Some(at)), at)], c1, at + 1);
  }

  /** A publication retried after being stored is a no-op, however much later it arrives. */
  lemma RetryIsANoOp(publications: seq<Publication>, i: nat, now: int)
    requires i < |After(publications)|
    ensures Persist(After(publications), After(publications)[i].body, now) == After(publications)
  {
    var s := After(publications);
    assert SameKey(s[i].body, s[i].body);
  }

  /** All publications restate the first: one idea, republished. */
  predicate OneIdea(publications: seq<Publication>) {
    && |publications| > 0 && publications[0].body.generatedAt.Some?
    && forall i :: 1 <= i < |publications| ==>
         && SameSetup(publications[0].body, publications[i].body)
         && publications[i].now <= publications[0].now + DEDUPE_WINDOW_MS
         && publications[i].body.entryPrice > 0.0
         && Gap(publications[0].body.entryPrice, publications[i].body.entryPrice)
            <= DEDUPE_PRICE_TOLERANCE * publications[i].body.entryPrice
  }

  /** However often one idea is republished within the window, it is stored once. */
  lemma {:induction false} OneIdeaStoredOnce(publications: seq<Publication>)
    requires OneIdea(publications)
    ensures After(publications) == [Signal(publications[0].body, publications[0].now)]
  {
    var n := |publications| - 1;
    if n > 0 {
      var before, last := publications[..n], publications[n];
      OneIdeaStoredOnce(before);
      RestatesIff(last.body, publications[0].body);
      RestatedIff(After(before), last.body, last.now);
      assert RestatedBy(After(before)[0], last.body, last.now);
    } else {
      assert publications[..0] == [];
    }
  }
}
