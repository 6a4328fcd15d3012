/**
 * The daily token cap: checked before a turn, charged when the turn is
 * recorded. Calls of one user interleave; a turn in flight is one that has
 * been admitted and not yet recorded or abandoned.
 */
module ChatBudget {
  import opened MarketSession
  import opened Wrappers

  datatype Turn = Turn(createdAt: int, tokens: nat)

  function SpentSince(turns: seq<Turn>, from: int): nat {
    if |turns| == 0 then 0
    else SpentSince(turns[..|turns| - 1], from)
         + if turns[|turns| - 1].createdAt >= from then turns[|turns| - 1].tokens else 0
  }

  function Remaining(cap: int, tokens: nat): int {
    if cap > tokens then cap - tokens else 0
  }

  /** `assertWithinBudget` with a readable budget. */
  predicate Admits(turns: seq<Turn>, cap: int, now: int) {
    Remaining(cap, SpentSince(turns, DayStart(now))) > 0
  }

  // ---- Whose cap ----

  const DEFAULT_DAILY_TOKEN_CAP := 400_000

  /** What the user record says: unreadable, without an override, or with one. */
  datatype Lookup = Failed | NoOverride | Override(cap: int)

  function DefaultCap(configured: Option<int>): int {
    if configured.Some? && configured.value > 0 then configured.value else DEFAULT_DAILY_TOKEN_CAP
  }

  function CapFor(user: Lookup, defaultCap: int): int {
    if user.Override? then user.cap else defaultCap
  }

  // ---- Calls of one user ----

  datatype Event =
    | Ask(now: int, readable: bool)        // an unreadable budget admits the turn
    | Record(now: int, tokens: nat)
    | Abandon(now: int)

  datatype State = State(turns: seq<Turn>, inFlight: nat)

  const START := State([], 0)

  function Apply(s: State, e: Event, cap: int): State {
    match e
    case Ask(now, readable) =>
      if !readable || Admits(s.turns, cap, now) then s.(inFlight := s.inFlight + 1) else s
    case Record(now, tokens) =>
      if s.inFlight > 0 then State(s.turns + [Turn(now, tokens)], s.inFlight - 1) else s
    case Abandon(now) =>
      if s.inFlight > 0 then s.(inFlight := s.inFlight - 1) else s
  }

  function After(events: seq<Event>, cap: int): State {
    if |events| == 0 then START else Apply(After(events[..|events| - 1], cap), events[|events| - 1], cap)
  }

  /** Time does not run backwards, no turn costs more than `most`, and at most `k` are ever in flight. */
  ghost predicate Lawful(events: seq<Event>, cap: int, k: nat, most: nat) {
    && (forall i, j :: 0 <= i < j < |events| ==> events[i].now <= events[j].now)
    && (forall i :: 0 <= i < |events| && events[i].Record? ==> events[i].tokens <= most)
    && (forall i :: 0 <= i <= |events| ==> After(events[..i], cap).inFlight <= k)
  }

  /** Tokens recorded on the day starting at `day`. */
  function RecordedOn(turns: seq<Turn>, day: int): nat {
    if |turns| == 0 then 0
    else RecordedOn(turns[..|turns| - 1], day)
         + if DayStart(turns[|turns| - 1].createdAt) == day then turns[|turns| - 1].tokens else 0
  }

  /** Turns admitted on that day because the budget could not be read. */
  function BlindOn(events: seq<Event>, day: int): nat {
    if |events| == 0 then 0
    else
      var e := events[|events| - 1];
      BlindOn(events[..|events| - 1], day) + if e.Ask? && !e.readable && DayStart(e.now) == day then 1 else 0
  }

  function Headroom(cap: int): nat {
    if cap > 0 then cap - 1 else 0
  }

  // ---- Sums over a day ----

  lemma {:induction false} RecordedIsSpent(turns: seq<Turn>, day: int, now: int)
    requires DayStart(now) == day
    requires forall i :: 0 <= i < |turns| ==> turns[i].createdAt <= now
    ensures RecordedOn(turns, day) == SpentSince(turns, day)
  {
    if |turns| > 0 {
      var before, last := turns[..|turns| - 1], turns[|turns| - 1];
      RecordedIsSpent(before, day, now);
      DaysPartitionTime(now, last.createdAt);
      DayStartIsTheMidnight(now, day);
    }
  }

  lemma {:induction false} NothingRecordedYet(turns: seq<Turn>, day: int, now: int)
    requires day > DayStart(now)
    requires forall i :: 0 <= i < |turns| ==> turns[i].createdAt <= now
    ensures RecordedOn(turns, day) == 0
  {
    if |turns| > 0 {
      NothingRecordedYet(turns[..|turns| - 1], day, now);
      DaysPartitionTime(turns[|turns| - 1].createdAt, now);
    }
  }

  lemma RecordedAppend(turns: seq<Turn>, turn: Turn, day: int)
    ensures RecordedOn(turns + [turn], day) == RecordedOn(turns, day) + if DayStart(turn.createdAt) == day then turn.tokens else 0
  {
    assert (turns + [turn])[..|turns|] == turns;
  }

  lemma {:induction false} TurnsAreInThePast(events: seq<Event>, cap: int, now: int)
    requires forall i :: 0 <= i < |events| ==> events[i].now <= now
    ensures forall i :: 0 <= i < |After(events, cap).turns| ==> After(events, cap).turns[i].createdAt <= now
  {
    if |events| > 0 {
      TurnsAreInThePast(events[..|events| - 1], cap, now);
    }
  }

  lemma LawfulPrefix(events: seq<Event>, cap: int, k: nat, most: nat)
    requires Lawful(events, cap, k, most) && |events| > 0
    ensures Lawful(events[..|events| - 1], cap, k, most)
  {
    var before := events[..|events| - 1];
    forall i | 0 <= i <= |before| ensures After(before[..i], cap).inFlight <= k {
      assert before[..i] == events[..i];
    }
  }

  // ---- The overshoot bound ----

  function Bound(cap: int, k: nat, most: nat, blind: nat): nat {
    Headroom(cap) + (k + blind) * most
  }

  /** What the turns still in flight may yet add to the day; nothing, once the day is over. */
  function Pending(events: seq<Event>, cap: int, most: nat, day: int): nat {
    if |events| > 0 && day < DayStart(events[|events| - 1].now) then 0 else After(events, cap).inFlight * most
  }

  lemma Multiply(a: nat, b: nat, c: nat)
    ensures (a + b) * c == a * c + b * c
    ensures a <= b ==> a * c <= b * c
  {
    if a <= b {
      assert b * c - a * c == (b - a) * c;
    }
  }

  lemma {:induction false} RecordedPlusPending(events: seq<Event>, cap: int, k: nat, most: nat, day: int)
    requires Lawful(events, cap, k, most)
    ensures RecordedOn(After(events, cap).turns, day) + Pending(events, cap, most, day)
            <= Bound(cap, k, most, BlindOn(events, day))
  {
    if |events| > 0 {
      var before, e := events[..|events| - 1], events[|events| - 1];
      LawfulPrefix(events, cap, k, most);
      RecordedPlusPending(before, cap, k, most, day);
      assert before + [e] == events && events[..|events|] == events;
      StepKeepsBound(before, e, cap, k, most, day);
    } else {
      assert Pending(events, cap, most, day) == 0;
    }
  }

  predicate InThePast(turns: seq<Turn>, now: int) {
    forall i :: 0 <= i < |turns| ==> turns[i].createdAt <= now
  }

  function BlindStep(e: Event): nat {
    if e.Ask? && !e.readable then 1 else 0
  }

  lemma AdmissionLeavesHeadroom(s: State, now: int, cap: int)
    requires InThePast(s.turns, now) && Admits(s.turns, cap, now)
    ensures RecordedOn(s.turns, DayStart(now)) <= Headroom(cap)
  {
    RecordedIsSpent(s.turns, DayStart(now), now);
  }

  lemma OnTheDay(s: State, e: Event, cap: int, k: nat, most: nat, blind: nat)
    requires InThePast(s.turns, e.now) && (e.Record? ==> e.tokens <= most) && Apply(s, e, cap).inFlight <= k
    requires RecordedOn(s.turns, DayStart(e.now)) + s.inFlight * most <= Bound(cap, k, most, blind)
    ensures RecordedOn(Apply(s, e, cap).turns, DayStart(e.now)) + Apply(s, e, cap).inFlight * most
            <= Bound(cap, k, most, blind + BlindStep(e))
  {
    var s' := Apply(s, e, cap);
    Multiply(k + blind, 1, most);
    if s'.inFlight == s.inFlight {
    } else if e.Ask? && e.readable {
      AdmissionLeavesHeadroom(s, e.now, cap);
      Multiply(s'.inFlight, k, most);
      Multiply(k, blind, most);
    } else if e.Ask? {
      Multiply(s.inFlight, 1, most);
    } else {
      Multiply(s'.inFlight, 1, most);
      if e.Record? {
        RecordedAppend(s.turns, Turn(e.now, e.tokens), DayStart(e.now));
      }
    }
  }

  lemma AfterTheDay(s: State, e: Event, cap: int, day: int)
    requires day < DayStart(e.now)
    ensures RecordedOn(Apply(s, e, cap).turns, day) == RecordedOn(s.turns, day)
  {
    if e.Record? {
      RecordedAppend(s.turns, Turn(e.now, e.tokens), day);
    }
  }

  lemma BeforeTheDay(s: State, e: Event, cap: int, k: nat, most: nat, day: int, blind: nat)
    requires InThePast(s.turns, e.now) && DayStart(e.now) < day && Apply(s, e, cap).inFlight <= k
    ensures RecordedOn(Apply(s, e, cap).turns, day) + Apply(s, e, cap).inFlight * most <= Bound(cap, k, most, blind)
  {
    NothingRecordedYet(Apply(s, e, cap).turns, day, e.now);
    Multiply(Apply(s, e, cap).inFlight, k, most);
    Multiply(k, blind, most);
  }

  lemma StepKeepsBound(before: seq<Event>, e: Event, cap: int, k: nat, most: nat, day: int)
    requires forall i :: 0 <= i < |before| ==> before[i].now <= e.now
    requires (e.Record? ==> e.tokens <= most) && Apply(After(before, cap), e, cap).inFlight <= k
    requires RecordedOn(After(before, cap).turns, day) + Pending(before, cap, most, day)
             <= Bound(cap, k, most, BlindOn(before, day))
    ensures RecordedOn(After(before + [e], cap).turns, day) + Pending(before + [e], cap, most, day)
            <= Bound(cap, k, most, BlindOn(before + [e], day))
  {
    var s, blind := After(before, cap), BlindOn(before, day);
    assert (before + [e])[..|before|] == before;
    TurnsAreInThePast(before, cap, e.now);
    if day < DayStart(e.now) {
      AfterTheDay(s, e, cap, day);
    } else if day == DayStart(e.now) {
      if |before| > 0 {
        DaysPartitionTime(before[|before| - 1].now, e.now);
      }
      OnTheDay(s, e, cap, k, most, blind);
    } else {
      BeforeTheDay(s, e, cap, k, most, day, blind);
    }
  }

  /**
   * If no turn costs more than `most` and at most `k` are in flight at once,
   * the tokens recorded in one IST day stay within the cap less one plus
   * `k * most`, plus `most` for every turn of that day admitted without a
   * readable budget. Turns that straddle midnight are included.
   */
  lemma OvershootBound(events: seq<Event>, cap: int, k: nat, most: nat, day: int)
    requires Lawful(events, cap, k, most)
    ensures RecordedOn(After(events, cap).turns, day) <= (if cap > 0 then cap - 1 else 0) + (k + BlindOn(events, day)) * most
  {
    RecordedPlusPending(events, cap, k, most, day);
  }

  /** A cap of zero or less cuts the user off: with a readable budget nothing is ever admitted. */
  lemma {:induction false} ZeroCapAdmitsNothing(events: seq<Event>, cap: int)
    requires cap <= 0 && forall i :: 0 <= i < |events| && events[i].Ask? ==> events[i].readable
    ensures After(events, cap) == START
  {
    if |events| > 0 {
      ZeroCapAdmitsNothing(events[..|events| - 1], cap);
    }
  }

  /** A turn is admitted exactly while the day's recorded tokens are below the cap. */
  lemma AdmittedIff(events: seq<Event>, cap: int, now: int)
    requires forall i :: 0 <= i < |events| ==> events[i].now <= now
    ensures Admits(After(events, cap).turns, cap, now) <==> RecordedOn(After(events, cap).turns, DayStart(now)) < cap
  {
    TurnsAreInThePast(events, cap, now);
    RecordedIsSpent(After(events, cap).turns, DayStart(now), now);
  }

  /**
   * Only an override of zero or less can refuse a user the first turn of a day,
   * and it refuses every one; no configuration and no failed lookup does.
   */
  lemma FreshDayRefusedIff(turns: seq<Turn>, configured: Option<int>, user: Lookup, now: int)
    requires InThePast(turns, now) && RecordedOn(turns, DayStart(now)) == 0
    ensures Admits(turns, CapFor(user, DefaultCap(configured)), now) <==> !(user.Override? && user.cap <= 0)
  {
    RecordedIsSpent(turns, DayStart(now), now);
  }

  /**
   * Whose cap: a user with an override of any number is admitted exactly while
   * the day's tokens are below it; everybody else, and a user whose record could
   * not be read, while they are below the configured cap if that is positive, and
   * below 400,000 otherwise.
   */
  lemma AdmittedUnderIff(turns: seq<Turn>, configured: Option<int>, user: Lookup, now: int)
    requires InThePast(turns, now)
    ensures var spent := RecordedOn(turns, DayStart(now));
            Admits(turns, CapFor(user, DefaultCap(configured)), now) <==>
              || (user.Override? && spent < user.cap)
              || (!user.Override? && configured.Some? && configured.value > 0 && spent < configured.value)
              || (!user.Override? && (configured.None? || configured.value <= 0) && spent < 400_000)
  {
    RecordedIsSpent(turns, DayStart(now), now);
  }

  /** What is reported as left makes up the cap together with what was spent, and is nothing once the cap is passed. */
  lemma RemainingIsTheRest(cap: int, tokens: nat)
    ensures Remaining(cap, tokens) >= 0
    ensures tokens <= cap ==> tokens + Remaining(cap, tokens) == cap
    ensures tokens > cap ==> Remaining(cap, tokens) == 0
  {
  }

  // ---- Every admitted turn is in flight, recorded or abandoned ----

  /** Turns let through so far: asked when the day's tokens were below the cap, or could not be read. */
  function Admissions(events: seq<Event>, cap: int): nat {
    if |events| == 0 then 0
    else
      var before, e := events[..|events| - 1], events[|events| - 1];
      Admissions(before, cap)
      + if e.Ask? && (!e.readable || SpentSince(After(before, cap).turns, DayStart(e.now)) < cap) then 1 else 0
  }

  /** Turns given up while one was in flight. */
  function Abandoned(events: seq<Event>, cap: int): nat {
    if |events| == 0 then 0
    else
      var before, e := events[..|events| - 1], events[|events| - 1];
      Abandoned(before, cap) + if e.Abandon? && After(before, cap).inFlight > 0 then 1 else 0
  }

  /** Each admitted turn is accounted for exactly once: still in flight, recorded, or abandoned. */
  lemma {:induction false} TurnsAreConserved(events: seq<Event>, cap: int)
    ensures After(events, cap).inFlight + |After(events, cap).turns| + Abandoned(events, cap) == Admissions(events, cap)
  {
    if |events| > 0 {
      TurnsAreConserved(events[..|events| - 1], cap);
    }
  }

  // ---- The bound is reached ----

  /** A lawful run at time zero with readable budgets that has recorded `recorded` tokens and left `inFlight` turns open. */
  ghost predicate Stage(events: seq<Event>, cap: int, k: nat, most: nat, recorded: nat, inFlight: nat) {
    && Lawful(events, cap, k, most)
    && (forall i :: 0 <= i < |events| ==> events[i].now == 0 && (events[i].Ask? ==> events[i].readable))
    && RecordedOn(After(events, cap).turns, DayStart(0)) == recorded
    && After(events, cap).inFlight == inFlight
  }

  lemma LawfulExtends(events: seq<Event>, e: Event, cap: int, k: nat, most: nat)
    requires Lawful(events, cap, k, most) && Apply(After(events, cap), e, cap).inFlight <= k
    requires (e.Record? ==> e.tokens <= most) && forall i :: 0 <= i < |events| ==> events[i].now <= e.now
    ensures Lawful(events + [e], cap, k, most) && After(events + [e], cap) == Apply(After(events, cap), e, cap)
  {
    var longer := events + [e];
    assert longer[..|events|] == events;
    forall i | 0 <= i <= |longer| ensures After(longer[..i], cap).inFlight <= k {
      if i <= |events| {
        assert longer[..i] == events[..i];
      } else {
        assert longer[..i] == longer;
      }
    }
  }

  lemma AskOne(events: seq<Event>, cap: int, k: nat, most: nat, recorded: nat, inFlight: nat) returns (events': seq<Event>)
    requires Stage(events, cap, k, most, recorded, inFlight) && recorded < cap && inFlight < k
    ensures Stage(events', cap, k, most, recorded, inFlight + 1)
  {
    AdmittedIff(events, cap, 0);
    LawfulExtends(events, Ask(0, true), cap, k, most);
    events' := events + [Ask(0, true)];
  }

  lemma RecordOne(events: seq<Event>, cap: int, k: nat, most: nat, recorded: nat, inFlight: nat, tokens: nat) returns (events': seq<Event>)
    requires Stage(events, cap, k, most, recorded, inFlight) && tokens <= most && inFlight > 0
    ensures Stage(events', cap, k, most, recorded + tokens, inFlight - 1)
  {
    assert After(events[..|events|], cap).inFlight <= k && events[..|events|] == events;
    LawfulExtends(events, Record(0, tokens), cap, k, most);
    RecordedAppend(After(events, cap).turns, Turn(0, tokens), DayStart(0));
    events' := events + [Record(0, tokens)];
  }

  lemma {:induction false} Fill(cap: int, k: nat, most: nat, n: nat) returns (events: seq<Event>)
    requires k > 0 && most > 0 && n < cap
    ensures Stage(events, cap, k, most, n, 0)
  {
    if n == 0 {
      events := [];
    } else {
      events := Fill(cap, k, most, n - 1);
      events := AskOne(events, cap, k, most, n - 1, 0);
      events := RecordOne(events, cap, k, most, n - 1, 1, 1);
    }
  }

  lemma {:induction false} Open(cap: int, k: nat, most: nat, j: nat) returns (events: seq<Event>)
    requires 0 < k && most > 0 && cap > 0 && j <= k
    ensures Stage(events, cap, k, most, cap - 1, j)
  {
    if j == 0 {
      events := Fill(cap, k, most, cap - 1);
    } else {
      events := Open(cap, k, most, j - 1);
      events := AskOne(events, cap, k, most, cap - 1, j - 1);
    }
  }

  function Landed(j: nat, most: nat): nat {
    if j == 0 then 0 else Landed(j - 1, most) + most
  }

  lemma {:induction false} LandedIsProduct(j: nat, most: nat)
    ensures Landed(j, most) == j * most
  {
    if j > 0 {
      LandedIsProduct(j - 1, most);
      Multiply(j - 1, 1, most);
    }
  }

  lemma {:induction false} Land(cap: int, k: nat, most: nat, j: nat) returns (events: seq<Event>)
    requires 0 < k && most > 0 && cap > 0 && j <= k
    ensures Stage(events, cap, k, most, cap - 1 + Landed(j, most), k - j)
  {
    if j == 0 {
      events := Open(cap, k, most, k);
    } else {
      events := Land(cap, k, most, j - 1);
      events := RecordOne(events, cap, k, most, cap - 1 + Landed(j - 1, most), k - j + 1, most);
    }
  }

  lemma {:induction false} NoneBlind(events: seq<Event>, day: int)
    requires forall i :: 0 <= i < |events| && events[i].Ask? ==> events[i].readable
    ensures BlindOn(events, day) == 0
  {
    if |events| > 0 {
      NoneBlind(events[..|events| - 1], day);
    }
  }

  /** No smaller bound holds: whatever the cap, `k` and `most`, some lawful run reaches it exactly. */
  lemma BoundIsReached(cap: int, k: nat, most: nat) returns (events: seq<Event>)
    requires cap > 0 && k > 0 && most > 0
    ensures Lawful(events, cap, k, most) && BlindOn(events, DayStart(0)) == 0
    ensures RecordedOn(After(events, cap).turns, DayStart(0)) == cap - 1 + k * most
  {
    events := Land(cap, k, most, k);
    LandedIsProduct(k, most);
    NoneBlind(events, DayStart(0));
  }
}
