/** Saved charts under optimistic concurrency: a versioned register for each user and symbol. */
module ChartLayouts {
  import opened Wrappers

  datatype Layout<C> = Layout(content: C, version: nat)

  type Slot<C> = Option<Layout<C>>

  /** No stored chart reads as version 0. */
  function VersionOf<C>(slot: Slot<C>): nat {
    if slot.Some? then slot.value.version else 0
  }

  datatype Event<C> = Save(expected: nat, content: C) | Get | Clear

  /**
   * The conditional update, with its upsert when nothing is expected. An
   * upsert that meets a stored chart of another version loses on the unique
   * index; all of it is one atomic operation.
   */
  function Apply<C>(slot: Slot<C>, event: Event<C>): Slot<C> {
    match event
    case Get => slot
    case Clear => None
    case Save(expected, content) => if Accepted(slot, event) then Some(Layout(content, expected + 1)) else slot
  }

  predicate Accepted<C>(slot: Slot<C>, event: Event<C>) {
    event.Save? && if slot.Some? then slot.value.version == event.expected else event.expected == 0
  }

  function After<C>(slot: Slot<C>, events: seq<Event<C>>): Slot<C> {
    if |events| == 0 then slot else Apply(After(slot, events[..|events| - 1]), events[|events| - 1])
  }

  // ---- The service ----

  type Key = (string, string)

  datatype SaveResult<C> = Saved(content: C, version: nat) | Conflict(currentVersion: nat)

  function SlotOf<C>(docs: map<Key, Layout<C>>, key: Key): Slot<C> {
    if key in docs then Some(docs[key]) else None
  }

  class ChartLayoutsService<C> {
    var docs: map<Key, Layout<C>>

    constructor ()
      ensures docs == map[]
    {
      docs := map[];
    }

    method GetLayout(key: Key) returns (content: Option<C>, version: nat)
      ensures version == VersionOf(SlotOf(docs, key))
      ensures content == if key in docs then Some(docs[key].content) else None
    {
      if key in docs {
        content, version := Some(docs[key].content), docs[key].version;
      } else {
        content, version := None, 0;
      }
    }

    /** Only the saved key changes, and it moves as the register does. */
    method SaveLayout(key: Key, content: C, version: Option<nat>) returns (r: SaveResult<C>)
      modifies this
      ensures var event := Save(version.GetOr(0), content);
              && SlotOf(docs, key) == Apply(SlotOf(old(docs), key), event)
              && (r.Saved? <==> Accepted(SlotOf(old(docs), key), event))
              && (r.Saved? ==> Some(Layout(r.content, r.version)) == SlotOf(docs, key))
              && (r.Conflict? ==> docs == old(docs) && r.currentVersion == VersionOf(SlotOf(docs, key)))
      ensures forall other :: other != key ==> SlotOf(docs, other) == SlotOf(old(docs), other)
    {
      var expected := version.GetOr(0);
      var matched := key in docs && docs[key].version == expected;
      var upserted := expected == 0 && key !in docs;
      if matched || upserted {
        docs := docs[key := Layout(content, expected + 1)];
        r := Saved(content, expected + 1);
      } else {
        var _, current := GetLayout(key);
        r := Conflict(current);
      }
    }

    method ClearLayout(key: Key)
      modifies this
      ensures SlotOf(docs, key) == Apply(SlotOf(old(docs), key), Clear)
      ensures forall other :: other != key ==> SlotOf(docs, other) == SlotOf(old(docs), other)
    {
      docs := docs - {key};
    }
  }

  // ---- Every interleaving on one key ----

  function AcceptedSinceClear<C>(events: seq<Event<C>>): nat {
    if |events| == 0 then 0
    else
      var before, e := events[..|events| - 1], events[|events| - 1];
      if e.Clear? then 0
      else AcceptedSinceClear(before) + if Accepted(After(None, before), e) then 1 else 0
  }

  /** The stored version counts the saves accepted since the last clear. */
  lemma {:induction false} VersionCountsSaves<C>(events: seq<Event<C>>)
    ensures VersionOf(After(None, events)) == AcceptedSinceClear(events)
    ensures After(None, events).Some? <==> AcceptedSinceClear(events) > 0
  {
    if |events| > 0 {
      VersionCountsSaves(events[..|events| - 1]);
    }
  }

  predicate NoClear<C>(events: seq<Event<C>>) {
    forall i :: 0 <= i < |events| ==> !events[i].Clear?
  }

  /** Accepted saves that named version `v`. */
  function AcceptedNaming<C>(slot: Slot<C>, events: seq<Event<C>>, v: nat): nat {
    if |events| == 0 then 0
    else
      var before, e := events[..|events| - 1], events[|events| - 1];
      AcceptedNaming(slot, before, v) + if Accepted(After(slot, before), e) && e.expected == v then 1 else 0
  }

  /**
   * Between clears, of the saves racing on one expected version exactly one is
   * accepted if the version was passed, and none otherwise.
   */
  lemma {:induction false} OneWinnerPerVersion<C>(slot: Slot<C>, events: seq<Event<C>>, v: nat)
    requires NoClear(events)
    ensures VersionOf(slot) <= VersionOf(After(slot, events))
    ensures AcceptedNaming(slot, events, v) == if VersionOf(slot) <= v < VersionOf(After(slot, events)) then 1 else 0
  {
    if |events| > 0 {
      OneWinnerPerVersion(slot, events[..|events| - 1], v);
    }
  }

  lemma {:induction false} SameVersionSameChart<C>(slot: Slot<C>, events: seq<Event<C>>)
    requires NoClear(events) && VersionOf(After(slot, events)) == VersionOf(slot)
    ensures After(slot, events) == slot
  {
    if |events| > 0 {
      var before, e := events[..|events| - 1], events[|events| - 1];
      OneWinnerPerVersion(slot, before, 0);
      SameVersionSameChart(slot, before);
    }
  }

  /** With no clear in between, an accepted save replaces exactly the chart its author read. */
  lemma SaveReplacesWhatWasRead<C>(read: Slot<C>, events: seq<Event<C>>, content: C)
    requires NoClear(events) && Accepted(After(read, events), Save(VersionOf(read), content))
    ensures After(read, events) == read
  {
    SameVersionSameChart(read, events);
  }

  /** An accepted first save meets no stored chart, cleared in between or not. */
  lemma {:induction false} FirstSaveMeetsNothing<C>(events: seq<Event<C>>, content: C)
    requires Accepted(After(None, events), Save(0, content))
    ensures After(None, events) == None
  {
    VersionCountsSaves(events);
  }

  function Rebuild<C>(content: C, version: nat): seq<Event<C>> {
    if version == 0 then [Clear] else Rebuild(content, version - 1) + [Save(version - 1, content)]
  }

  lemma {:induction false} RebuildReaches<C>(slot: Slot<C>, content: C, version: nat)
    ensures After(slot, Rebuild(content, version)) == if version == 0 then None else Some(Layout(content, version))
  {
    var events := Rebuild(content, version);
    if version == 0 {
      assert events[..0] == [];
    } else {
      RebuildReaches(slot, content, version - 1);
      assert events[..|events| - 1] == Rebuild(content, version - 1);
    }
  }

  /**
   * A clear restarts the versions: for every stored chart and every other
   * content, a clear followed by as many saves puts that content under the
   * version that was read, and a save naming it is accepted over a chart its
   * author never saw.
   */
  lemma ClearReusesVersions<C>(read: Layout<C>, unseen: C, content: C) returns (events: seq<Event<C>>)
    requires read.version > 0 && unseen != read.content
    ensures Accepted(After(Some(read), events), Save(read.version, content))
    ensures After(Some(read), events) == Some(Layout(unseen, read.version)) != Some(read)
    ensures |events| > 0 && events[0] == Clear && NoClear(events[1..])
  {
    events := Rebuild(unseen, read.version);
    RebuildReaches(Some(read), unseen, read.version);
    RebuildStarts(unseen, read.version);
  }

  lemma {:induction false} RebuildStarts<C>(content: C, version: nat)
    ensures var events := Rebuild(content, version); |events| > 0 && events[0] == Clear && NoClear(events[1..])
  {
    if version > 0 {
      RebuildStarts(content, version - 1);
    }
  }
}
