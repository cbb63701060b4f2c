/** The bounded event log: events are appended in order, and every append
    trims a prefix so that at most 800 events remain and none of them is more
    than seven days older than the new one. */
module EventLog {

  /** houses * events per house */
  const MaxItems: nat := 8 * 100
  /** seven days, in seconds */
  const MaxAge: int := 7 * 24 * 60 * 60

  datatype Event = Event(timestamp: int, houseId: int, message: string)

  /** An event older than the age limit at time `now`. */
  predicate Stale(e: Event, now: int) {
    now - e.timestamp > MaxAge
  }

  /** Where the scan starts: past the oldest entries beyond the count limit. */
  function WindowStart(len: nat): (k: nat)
    ensures k <= len
    ensures len - k <= MaxItems
    ensures len <= MaxItems ==> k == 0
  {
    if len > MaxItems then len - MaxItems else 0
  }

  /** Reference definition of the cut point in evs[lo..hi]: just past the last
      stale entry of that range, or lo when none is stale. */
  function LastStaleCut(evs: seq<Event>, now: int, lo: nat, hi: nat): (k: nat)
    requires lo <= hi <= |evs|
    ensures lo <= k <= hi
    ensures k == lo || Stale(evs[k - 1], now)
    ensures forall j :: k <= j < hi ==> !Stale(evs[j], now)
    decreases hi - lo
  {
    if hi == lo then lo
    else if Stale(evs[hi - 1], now) then hi
    else LastStaleCut(evs, now, lo, hi - 1)
  }

  /** The index the log is resliced from after an append at time `now`: in
      the count window, and past every stale entry of that window. */
  function CutPoint(evs: seq<Event>, now: int): (k: nat)
    ensures WindowStart(|evs|) <= k <= |evs|
    ensures forall j :: k <= j < |evs| ==> !Stale(evs[j], now)
  {
    LastStaleCut(evs, now, WindowStart(|evs|), |evs|)
  }

  /** The log after an append of `e` at time `now`, as a value: a suffix of
      the old log followed by `e`. */
  function Appended(log: seq<Event>, e: Event, now: int): (r: seq<Event>)
    ensures IsSuffix(r, log + [e])
  {
    var evs := log + [e];
    evs[CutPoint(evs, now)..]
  }

  /** The three properties of LastStaleCut determine it. */
  lemma CutUnique(evs: seq<Event>, now: int, lo: nat, hi: nat, k: nat)
    requires lo <= k <= hi <= |evs|
    requires k == lo || Stale(evs[k - 1], now)
    requires forall j :: k <= j < hi ==> !Stale(evs[j], now)
    ensures k == LastStaleCut(evs, now, lo, hi)
  {
  }

  /** An event stays after an append iff it lies in the window and no entry at
      or after it is stale; in particular a fresh event that precedes a stale
      one in the window is dropped with it. */
  lemma RetainedIff(evs: seq<Event>, now: int, j: nat)
    requires j < |evs|
    ensures j >= CutPoint(evs, now) <==>
              j >= WindowStart(|evs|) && forall m :: j <= m < |evs| ==> !Stale(evs[m], now)
  {
  }

  /** `a` is a suffix of `b`. */
  predicate IsSuffix(a: seq<Event>, b: seq<Event>) {
    |a| <= |b| && a == b[|b| - |a|..]
  }

  /** After an append of an event stamped `now`: the log ends with the event,
      holds at most 800 events, and none of them is older than seven days. */
  lemma AppendedBounds(log: seq<Event>, e: Event, now: int)
    requires e.timestamp == now
    ensures 1 <= |Appended(log, e, now)| <= MaxItems
    ensures Appended(log, e, now)[|Appended(log, e, now)| - 1] == e
    ensures forall x :: x in Appended(log, e, now) ==> now - x.timestamp <= MaxAge
  {
  }

  /** With no stale event and at most 800 events, nothing is removed. */
  lemma NothingStaleKeepsAll(evs: seq<Event>, now: int)
    requires |evs| <= MaxItems
    requires forall i :: 0 <= i < |evs| ==> !Stale(evs[i], now)
    ensures CutPoint(evs, now) == 0
  {
  }

  /** With no stale event, exactly the 800 most recent events are kept. */
  lemma NothingStaleKeepsNewest(evs: seq<Event>, now: int)
    requires |evs| > MaxItems
    requires forall i :: 0 <= i < |evs| ==> !Stale(evs[i], now)
    ensures CutPoint(evs, now) == |evs| - MaxItems
  {
  }

  /** The events of one house, in log order (the filter of get_logs). */
  function ForHouse(evs: seq<Event>, houseId: int): (r: seq<Event>)
    ensures |r| <= |evs|
    ensures forall i :: 0 <= i < |r| ==> r[i].houseId == houseId
  {
    if evs == [] then []
    else (if evs[0].houseId == houseId then [evs[0]] else []) + ForHouse(evs[1..], houseId)
  }

  /** Filtering distributes over concatenation, so the filter keeps log order. */
  lemma {:induction false} ForHouseAppend(a: seq<Event>, b: seq<Event>, houseId: int)
    ensures ForHouse(a + b, houseId) == ForHouse(a, houseId) + ForHouse(b, houseId)
  {
    if a == [] {
      assert a + b == b;
    } else {
      assert (a + b)[1..] == a[1..] + b;
      ForHouseAppend(a[1..], b, houseId);
    }
  }

  /** An event is in a house's log iff it is in the log and belongs to that house. */
  lemma {:induction false} ForHouseMembers(evs: seq<Event>, houseId: int, e: Event)
    ensures e in ForHouse(evs, houseId) <==> e in evs && e.houseId == houseId
  {
    if evs != [] {
      ForHouseMembers(evs[1..], houseId, e);
      assert evs == [evs[0]] + evs[1..];
    }
  }
}
