/**
 * Recorded chat turns, chained into sessions. A session is not stored by
 * itself: it is the id that consecutive turns of one user and symbol share.
 */
module ChatSessions {
  import opened Wrappers

  const SESSION_GAP_MS := 2 * 60 * 60 * 1000

  /** Session ids come from a supply that never repeats; a number stands for the random id. */
  type SessionId = nat

  datatype Turn = Turn(turnId: string, sessionId: SessionId, user: string, symbol: string, answer: string, createdAt: int)

  /** A report of a completed turn; an empty id is one the upstream did not mint. */
  datatype Report = Report(turnId: string, user: string, symbol: string, answer: string, forceNew: bool, now: int)

  /** `forced[i]` remembers, for the theorems only, whether turn `i` asked for a new session. */
  datatype History = History(turns: seq<Turn>, forced: seq<bool>, supply: SessionId)

  const NO_HISTORY := History([], [], 0)

  // ---- Reading ----

  predicate Matches(t: Turn, user: string, symbol: string) {
    t.user == user && t.symbol == symbol
  }

  /** The newest turn of a user and symbol: what sorting by descending creation time returns first. */
  function Latest(turns: seq<Turn>, user: string, symbol: string): (r: Option<nat>)
    ensures r.Some? ==> r.value < |turns| && Matches(turns[r.value], user, symbol)
    ensures forall k :: 0 <= k < |turns| && Matches(turns[k], user, symbol) ==>
                          r.Some? && turns[k].createdAt <= turns[r.value].createdAt
  {
    if |turns| == 0 then None
    else
      var n := |turns| - 1;
      var r := Latest(turns[..n], user, symbol);
      if Matches(turns[n], user, symbol) && (r.Some? ==> turns[r.value].createdAt <= turns[n].createdAt) then Some(n) else r
  }

  function IndexOf(turns: seq<Turn>, turnId: string): (r: Option<nat>)
    ensures r.Some? ==> r.value < |turns| && turns[r.value].turnId == turnId
    ensures r.None? ==> forall k :: 0 <= k < |turns| ==> turns[k].turnId != turnId
  {
    if |turns| == 0 then None
    else
      var n := |turns| - 1;
      var r := IndexOf(turns[..n], turnId);
      if r.Some? then r else if turns[n].turnId == turnId then Some(n) else None
  }

  lemma IndexOfAppended(turns: seq<Turn>, turn: Turn)
    requires IndexOf(turns, turn.turnId).None?
    ensures IndexOf(turns + [turn], turn.turnId) == Some(|turns|)
  {
    assert (turns + [turn])[..|turns|] == turns;
  }

  // ---- Writing ----

  /** The session the report continues, if any. */
  function Continued(turns: seq<Turn>, r: Report): Option<SessionId> {
    var previous := Latest(turns, r.user, r.symbol);
    if !r.forceNew && previous.Some? && r.now - turns[previous.value].createdAt < SESSION_GAP_MS
    then Some(turns[previous.value].sessionId) else None
  }

  function Record(h: History, r: Report): History {
    if r.turnId == "" then h
    else
      var continued := Continued(h.turns, r);
      var supply := if continued.Some? then h.supply else h.supply + 1;
      if IndexOf(h.turns, r.turnId).Some? then h.(supply := supply)
      else
        var turn := Turn(r.turnId, continued.GetOr(h.supply), r.user, r.symbol, r.answer, r.now);
        History(h.turns + [turn], h.forced + [r.forceNew], supply)
  }

  function After(reports: seq<Report>): History {
    if |reports| == 0 then NO_HISTORY else Record(After(reports[..|reports| - 1]), reports[|reports| - 1])
  }

  // ---- The service ----

  class ChatSessionsService {
    var turns: seq<Turn>
    var supply: SessionId
    ghost var forced: seq<bool>

    ghost function Contents(): History
      reads this
    {
      History(turns, forced, supply)
    }

    constructor ()
      ensures Contents() == NO_HISTORY
    {
      turns, supply, forced := [], 0, [];
    }

    /** `randomUUID`. */
    method FreshSession() returns (id: SessionId)
      modifies this`supply
      ensures id == old(supply) && supply == old(supply) + 1
    {
      id := supply;
      supply := supply + 1;
    }

    method ResolveSessionId(r: Report) returns (id: SessionId)
      modifies this`supply
      ensures id == Continued(turns, r).GetOr(old(supply))
      ensures supply == if Continued(turns, r).Some? then old(supply) else old(supply) + 1
    {
      if r.forceNew {
        id := FreshSession();
        return;
      }
      var previous := Latest(turns, r.user, r.symbol);
      if previous.Some? {
        var age := r.now - turns[previous.value].createdAt;
        if age < SESSION_GAP_MS {
          return turns[previous.value].sessionId;
        }
      }
      id := FreshSession();
    }

    /** A turn without an id is dropped; one reported before comes back as it was first stored. */
    method RecordTurn(r: Report) returns (stored: Option<Turn>)
      modifies this
      ensures Contents() == Record(old(Contents()), r)
      ensures stored == if r.turnId == "" then None else Some(turns[IndexOf(turns, r.turnId).value])
      ensures r.turnId != "" && IndexOf(old(turns), r.turnId).Some? ==> turns == old(turns) && stored.value in old(turns)
    {
      if r.turnId == "" {
        return None;
      }
      var sessionId := ResolveSessionId(r);
      var found := IndexOf(turns, r.turnId);
      if found.Some? {
        stored := Some(turns[found.value]);
      } else {
        var turn := Turn(r.turnId, sessionId, r.user, r.symbol, r.answer, r.now);
        IndexOfAppended(turns, turn);
        turns, forced := turns + [turn], forced + [r.forceNew];
        stored := Some(turn);
      }
    }
  }

  // ---- What every run keeps ----

  /** The turn before turn `i` in its user's and symbol's history, as the service looked it up. */
  function Previous(turns: seq<Turn>, i: nat): Option<nat>
    requires i < |turns|
  {
    Latest(turns[..i], turns[i].user, turns[i].symbol)
  }

  predicate SameHistory(a: Turn, b: Turn) {
    Matches(a, b.user, b.symbol)
  }

  predicate Ordered(turns: seq<Turn>) {
    forall i, j :: 0 <= i < j < |turns| ==> turns[i].createdAt < turns[j].createdAt
  }

  /** Turn `i` goes on with the conversation of the turn before it. */
  predicate GoesOn(h: History, i: nat)
    requires i < |h.turns| == |h.forced|
  {
    var p := Previous(h.turns, i);
    p.Some? && !h.forced[i] && h.turns[i].createdAt - h.turns[p.value].createdAt < SESSION_GAP_MS
  }

  predicate Linked(h: History, i: nat)
    requires i < |h.turns| == |h.forced|
  {
    if GoesOn(h, i) then h.turns[i].sessionId == h.turns[Previous(h.turns, i).value].sessionId
    else forall j :: 0 <= j < i ==> h.turns[j].sessionId != h.turns[i].sessionId
  }

  /** Turns in time order, each with its own id and a session already drawn. */
  predicate Stored(h: History) {
    && |h.turns| == |h.forced|
    && Ordered(h.turns)
    && (forall i :: 0 <= i < |h.turns| ==> h.turns[i].sessionId < h.supply)
    && forall i, j :: 0 <= i < j < |h.turns| ==> h.turns[i].turnId != h.turns[j].turnId
  }

  predicate Inv(h: History) {
    && Stored(h)
    && forall i :: 0 <= i < |h.turns| ==> Linked(h, i)
  }

  /** Reports made one after another, at strictly increasing times. */
  predicate Increasing(reports: seq<Report>) {
    forall i, j :: 0 <= i < j < |reports| ==> reports[i].now < reports[j].now
  }

  lemma OldLinksStay(h: History, h': History)
    requires Inv(h) && |h'.turns| == |h'.forced| && h.turns <= h'.turns && h.forced <= h'.forced
    ensures forall i :: 0 <= i < |h.turns| ==> Linked(h', i)
  {
    forall i | 0 <= i < |h.turns| ensures Linked(h', i) {
      assert h'.turns[..i] == h.turns[..i];
      assert Linked(h, i);
    }
  }

  lemma NewTurnIsLinked(h: History, r: Report)
    requires Inv(h) && r.turnId != "" && IndexOf(h.turns, r.turnId).None?
    ensures Linked(Record(h, r), |h.turns|)
  {
    assert Record(h, r).turns[..|h.turns|] == h.turns;
  }

  lemma RecordKeepsStored(h: History, r: Report)
    requires Stored(h) && forall i :: 0 <= i < |h.turns| ==> h.turns[i].createdAt < r.now
    ensures Stored(Record(h, r))
  {
  }

  lemma RecordKeepsInv(h: History, r: Report)
    requires Inv(h) && forall i :: 0 <= i < |h.turns| ==> h.turns[i].createdAt < r.now
    ensures Inv(Record(h, r))
  {
    RecordKeepsStored(h, r);
    OldLinksStay(h, Record(h, r));
    if r.turnId != "" && IndexOf(h.turns, r.turnId).None? {
      NewTurnIsLinked(h, r);
    }
  }

  lemma {:induction false} AfterKeepsInv(reports: seq<Report>)
    requires Increasing(reports)
    ensures Inv(After(reports))
    ensures forall i :: 0 <= i < |After(reports).turns| ==> |reports| > 0 && After(reports).turns[i].createdAt <= reports[|reports| - 1].now
  {
    if |reports| > 0 {
      AfterKeepsInv(reports[..|reports| - 1]);
      RecordKeepsInv(After(reports[..|reports| - 1]), reports[|reports| - 1]);
    }
  }

  // ---- Sessions are blocks ----

  lemma LatestIsLast(turns: seq<Turn>, user: string, symbol: string)
    requires Ordered(turns)
    ensures var r := Latest(turns, user, symbol);
            forall k :: 0 <= k < |turns| && Matches(turns[k], user, symbol) ==> r.Some? && k <= r.value
  {
  }

  /**
   * Two turns of one session belong to one history, and so does everything of
   * that history between them: each such turn goes on from the one before it.
   */
  lemma {:induction false} BlockStep(h: History, i: nat, j: nat)
    requires Inv(h) && i < j < |h.turns| && h.turns[i].sessionId == h.turns[j].sessionId
    ensures SameHistory(h.turns[i], h.turns[j])
    ensures forall k :: i < k <= j && SameHistory(h.turns[k], h.turns[j]) ==>
                          GoesOn(h, k) && h.turns[k].sessionId == h.turns[j].sessionId
    decreases j, i
  {
    assert Linked(h, j);
    assert GoesOn(h, j);
    var p := Previous(h.turns, j).value;
    LatestIsLast(h.turns[..j], h.turns[j].user, h.turns[j].symbol);
    assert h.turns[..j][i] == h.turns[i];
    if p < i {
      BlockStep(h, p, i);
      assert false;
    } else {
      if i < p {
        BlockStep(h, i, p);
      }
      forall k | i < k <= j && SameHistory(h.turns[k], h.turns[j])
        ensures GoesOn(h, k) && h.turns[k].sessionId == h.turns[j].sessionId
      {
        if k < j {
          assert Matches(h.turns[..j][k], h.turns[j].user, h.turns[j].symbol);
        }
      }
    }
  }

  /**
   * Over every run of reports, each session is one contiguous block of a single
   * user's and symbol's history, without a forced start or a gap of two hours
   * inside it.
   */
  lemma SessionsAreBlocks(reports: seq<Report>, i: nat, j: nat)
    requires Increasing(reports)
    requires var h := After(reports); i < j < |h.turns| && h.turns[i].sessionId == h.turns[j].sessionId
    ensures var h := After(reports); |h.forced| == |h.turns| && SameHistory(h.turns[i], h.turns[j])
    ensures var h := After(reports);
            forall k :: i < k <= j && SameHistory(h.turns[k], h.turns[j]) ==>
                          GoesOn(h, k) && h.turns[k].sessionId == h.turns[j].sessionId
  {
    AfterKeepsInv(reports);
    BlockStep(After(reports), i, j);
  }

  /**
   * Neighbours in a history are separated exactly by a forced start or a gap of
   * two hours: `p` is the turn right before `i` of the same user and symbol.
   */
  lemma BoundaryIff(reports: seq<Report>, p: nat, i: nat)
    requires Increasing(reports)
    requires var h := After(reports);
             && p < i < |h.turns| && SameHistory(h.turns[p], h.turns[i])
             && forall k :: p < k < i ==> !SameHistory(h.turns[k], h.turns[i])
    ensures var h := After(reports);
            && |h.forced| == |h.turns|
            && (h.turns[p].sessionId != h.turns[i].sessionId
                <==> h.forced[i] || h.turns[i].createdAt - h.turns[p].createdAt >= 2 * 60 * 60 * 1000)
  {
    AfterKeepsInv(reports);
    var h := After(reports);
    LatestIsLast(h.turns[..i], h.turns[i].user, h.turns[i].symbol);
    assert Matches(h.turns[..i][p], h.turns[i].user, h.turns[i].symbol);
    assert Previous(h.turns, i) == Some(p) by {
      var q := Previous(h.turns, i).value;
      assert SameHistory(h.turns[q], h.turns[i]);
    }
    assert Linked(h, i);
  }

  predicate Unmixed(h: History) {
    && (forall i :: 0 <= i < |h.turns| ==> h.turns[i].sessionId < h.supply)
    && forall i, j :: 0 <= i < j < |h.turns| && h.turns[i].sessionId == h.turns[j].sessionId ==>
                        SameHistory(h.turns[i], h.turns[j])
  }

  lemma RecordNeverMixes(h: History, r: Report)
    requires Unmixed(h)
    ensures Unmixed(Record(h, r))
  {
    var turns, n := Record(h, r).turns, |h.turns|;
    if |turns| > n && Continued(h.turns, r).Some? {
      var p := Latest(h.turns, r.user, r.symbol).value;
      forall i | 0 <= i < n && turns[i].sessionId == turns[n].sessionId ensures SameHistory(turns[i], turns[n]) {
        assert turns[i] == h.turns[i] && h.turns[i].sessionId == h.turns[p].sessionId;
      }
    }
  }

  /** One conversation never mixes users or symbols, whatever the clock does. */
  lemma {:induction false} SessionsNeverMix(reports: seq<Report>)
    ensures Unmixed(After(reports))
  {
    if |reports| > 0 {
      SessionsNeverMix(reports[..|reports| - 1]);
      RecordNeverMixes(After(reports[..|reports| - 1]), reports[|reports| - 1]);
    }
  }

  // ---- Recording is idempotent ----

  /** Turns are written once: later reports only append, whatever ids they carry. */
  lemma {:induction false} TurnsAreWrittenOnce(reports: seq<Report>, later: seq<Report>)
    ensures After(reports).turns <= After(reports + later).turns
  {
    if |later| == 0 {
      assert reports + later == reports;
    } else {
      var before := later[..|later| - 1];
      TurnsAreWrittenOnce(reports, before);
      assert (reports + later)[..|reports + later| - 1] == reports + before;
    }
  }

  lemma {:induction false} ReportIsStored(reports: seq<Report>, r: Report)
    requires r in reports && r.turnId != ""
    ensures IndexOf(After(reports).turns, r.turnId).Some?
  {
    var before, last := reports[..|reports| - 1], reports[|reports| - 1];
    if r != last {
      assert r in before;
      ReportIsStored(before, r);
      var k := IndexOf(After(before).turns, r.turnId).value;
      assert After(reports).turns[k].turnId == r.turnId;
    } else if |After(reports).turns| > |After(before).turns| {
      assert After(reports).turns[|After(before).turns|].turnId == r.turnId;
    }
  }

  /** Reporting a turn id again, however late and with whatever content, changes no stored turn. */
  lemma ReReportChangesNothing(reports: seq<Report>, first: Report, again: Report)
    requires first in reports && first.turnId == again.turnId
    ensures After(reports + [again]).turns == After(reports).turns
  {
    assert (reports + [again])[..|reports|] == reports;
    if again.turnId != "" {
      ReportIsStored(reports, first);
    }
  }
}
