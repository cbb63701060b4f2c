/** The process-wide state object: the on/off flag and last check-in time of
    each house, the configured key and MAC tables, and the event log. Each
    operation is modelled as atomic; the lock that serialises them is not
    part of the model. The cache behind the state is a value: what was found
    under "state" at startup, and the write each change issues. */
module Store {
  import Decimal
  import opened Codec
  import opened EventLog

  /** What the cache gave for the key "state" at startup: no connection, an
      error (a missing key is one too), or a value. */
  datatype CacheLookup = NoCache | LookupFailed | Found(value: string)

  /** A cache write request. */
  datatype CacheWrite = CacheWrite(key: string, value: string)

  const StateKey: string := "state"

  /** The state vector load_existing_state chooses. */
  function InitialState(lookup: CacheLookup): (flags: seq<bool>)
    ensures |flags| == NumHouses
    ensures !lookup.Found? ==> flags == AllOff()
  {
    match lookup
    case Found(value) => Decode(value)
    case _ => AllOff()
  }

  /** What a Set writes is what a restart loads: the vector survives the cache. */
  lemma RestartRestores(flags: seq<bool>)
    requires |flags| == NumHouses
    ensures InitialState(Found(Decimal.Itoa(Encode(flags)))) == flags
  {
    DecodeEncode(flags);
  }

  class Common {
    var state: array<bool>
    var apiKey: seq<string>
    var targetMac: seq<string>
    var lastSeen: array<int>
    var events: seq<Event>

    /** The zero-valued object of a fresh process (`new(common)`): every
        slice is still empty. */
    constructor ()
      ensures state.Length == 0 && lastSeen.Length == 0
      ensures apiKey == [] && targetMac == [] && events == []
    {
      apiKey := [];
      targetMac := [];
      state := new bool[0];
      lastSeen := new int[0];
      events := [];
    }

    /** The flag of house id. It is bit id of the vector's encoding. */
    function Get(id: int): (d: bool)
      reads this, state
      requires state.Length == NumHouses
      requires 0 <= id < NumHouses
      ensures d <==> ShiftRight(Encode(state[..]), id) % 2 == 1
    {
      EncodeBit(state[..], id);
      state[id]
    }

    /** Sets the flag of house id and mirrors the whole encoded vector to the
        cache under "state". The write's failure is only logged: the flag
        stays set either way, and `saved` reports which case it was. */
    method Set(id: int, d: bool, writeFailed: bool) returns (write: CacheWrite, saved: bool)
      requires state.Length == NumHouses
      requires 0 <= id < NumHouses
      modifies state
      ensures state[..] == old(state[..])[id := d]
      ensures Get(id) == d
      ensures forall j :: 0 <= j < NumHouses && j != id ==> Get(j) == old(Get(j))
      ensures write == CacheWrite(StateKey, Decimal.Itoa(Encode(state[..])))
      ensures Decode(write.value) == state[..]
      ensures saved == !writeFailed
    {
      state[id] := d;
      var stateValue := BoolArrayToInt(state);
      write := CacheWrite(StateKey, Decimal.Itoa(stateValue));
      saved := !writeFailed;
      DecodeEncode(state[..]);
    }

    /** Appends an event stamped `now` and trims the log: the scan starts at
        the count limit's window and moves the start past every stale entry
        it meets, so the cut lands just after the last stale entry there. */
    method LogEvent(houseId: int, message: string, now: int)
      modifies this`events
      ensures events == Appended(old(events), Event(now, houseId, message), now)
      ensures IsSuffix(events, old(events) + [Event(now, houseId, message)])
      ensures 1 <= |events| <= MaxItems && events[|events| - 1] == Event(now, houseId, message)
      ensures forall x :: x in events ==> now - x.timestamp <= MaxAge
    {
      var e := Event(now, houseId, message);
      ghost var before := events;
      events := events + [e];
      var keepStart := 0;
      var curLen := |events|;
      if curLen > MaxItems {
        keepStart := curLen - MaxItems;
      }
      ghost var lo := keepStart;
      for i := keepStart to curLen
        invariant lo <= keepStart <= i
        invariant keepStart == lo || Stale(events[keepStart - 1], now)
        invariant forall j :: keepStart <= j < i ==> !Stale(events[j], now)
      {
        var eventAge := now - events[i].timestamp;
        if eventAge > MaxAge {
          keepStart := i + 1;
        }
      }
      CutUnique(events, now, lo, curLen, keepStart);
      if keepStart > 0 {
        events := events[keepStart..];
      }
      AppendedBounds(before, e, now);
    }

    /** The live log. */
    method GetLog() returns (evs: seq<Event>)
      ensures evs == events
    {
      evs := events;
    }
  }

  /** load_existing_state: the state decoded from the cached text when the
      lookup succeeded, all houses off otherwise; in every case last-seen times
      reset to zero and an empty log. The encoding computed on success only
      feeds a log line. */
  method LoadExistingState(c: Common, lookup: CacheLookup)
    modifies c
    ensures fresh(c.state) && fresh(c.lastSeen)
    ensures c.state.Length == NumHouses && c.lastSeen.Length == NumHouses
    ensures c.state[..] == InitialState(lookup)
    ensures c.lastSeen[..] == seq(NumHouses, _ => 0)
    ensures c.events == []
    ensures c.apiKey == old(c.apiKey) && c.targetMac == old(c.targetMac)
  {
    match lookup {
      case Found(value) =>
        c.state := StringToBoolArray(value);
        var stateValue := GetStateAsInt(c);
      case _ =>
        c.state := new bool[NumHouses](_ => false);
    }
    c.lastSeen := new int[NumHouses](_ => 0);
    c.events := [];
  }

  /** load_api_keys: one key per house, each the trimmed value of the
      environment variable APIKEY<i> (empty when unset), given as `keys`. */
  method LoadApiKeys(c: Common, keys: seq<string>)
    requires |keys| == NumHouses
    modifies c`apiKey
    ensures c.apiKey == keys
  {
    c.apiKey := keys;
  }

  /** load_target_macs: one MAC per house, given as the trimmed values of the
      environment variables MAC<i>. */
  method LoadTargetMacs(c: Common, macs: seq<string>)
    requires |macs| == NumHouses
    modifies c`targetMac
    ensures c.targetMac == macs
  {
    c.targetMac := macs;
  }

  /** The start-up order of main: the zero object, its state loaded from the
      cache, then the key and MAC tables. */
  method Startup(lookup: CacheLookup, keys: seq<string>, macs: seq<string>) returns (c: Common)
    requires |keys| == NumHouses && |macs| == NumHouses
    ensures fresh(c) && fresh(c.state) && fresh(c.lastSeen)
    ensures c.state.Length == NumHouses && c.state[..] == InitialState(lookup)
    ensures c.lastSeen[..] == seq(NumHouses, _ => 0) && c.events == []
    ensures c.apiKey == keys && c.targetMac == macs
  {
    c := new Common();
    LoadExistingState(c, lookup);
    LoadApiKeys(c, keys);
    LoadTargetMacs(c, macs);
  }

  /** record_last_seen: stamps the check-in time of house id. */
  method RecordLastSeen(c: Common, id: int, now: int)
    requires c.lastSeen.Length == NumHouses
    requires 0 <= id < NumHouses
    modifies c.lastSeen
    ensures c.lastSeen[..] == old(c.lastSeen[..])[id := now]
  {
    c.lastSeen[id] := now;
  }

  /** get_state_as_int: the encoding of the current vector, a byte value. */
  method GetStateAsInt(c: Common) returns (stateInt: int)
    requires c.state.Length == NumHouses
    ensures stateInt == Encode(c.state[..])
    ensures 0 <= stateInt <= 255
    ensures forall id :: 0 <= id < NumHouses ==> (ShiftRight(stateInt, id) % 2 == 1 <==> c.state[id])
  {
    stateInt := BoolArrayToInt(c.state);
    EncodeByteRange(c.state[..]);
    forall id | 0 <= id < NumHouses
      ensures ShiftRight(stateInt, id) % 2 == 1 <==> c.state[id]
    {
      EncodeBit(c.state[..], id);
    }
  }

  /** The filter of get_logs: the events of one house, in log order
      (formatting each one as text is not modelled). */
  method GetLogs(c: Common, houseId: int) returns (entries: seq<Event>)
    ensures entries == ForHouse(c.events, houseId)
  {
    var evs := c.GetLog();
    entries := [];
    for i := 0 to |evs|
      invariant entries == ForHouse(evs[..i], houseId)
    {
      var e := evs[i];
      ForHouseAppend(evs[..i], [e], houseId);
      assert evs[..i + 1] == evs[..i] + [e];
      if e.houseId == houseId {
        entries := entries + [e];
      }
    }
    assert evs[..|evs|] == evs;
  }
}
