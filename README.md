# ether_housed core, modelled in Dafny

ether_housed is a small HTTP controller for eight home-automation "houses".
Each house has an on/off flag. Clients check in with a per-house API key.
The server keeps the eight flags, each house's last check-in time and a
bounded log of actions. It mirrors the flags to a memcache server under
the key `"state"`, as the decimal text of a bit-packed integer.

The model covers the core of `main.go`:

- `Decimal` (decimal.dfy): the parts of Go's `strconv.Itoa` and `strconv.Atoi` that the codec relies on. Atoi takes an optional sign and discards the error. Text that is empty, or whose digit scan reaches a non-digit before the value passes 2^64-1, reads as 0. The overflow is detected during the left-to-right digit scan: once the digits pass 2^64-1, the text reads as the nearest int64 bound, even if a non-digit follows.
- `Codec` (codec.dfy): `boolarraytoint`, `stringtoboolarray`, `bitRead` and `inttobool`. Bit *i* is house *i*. The two loops are methods over arrays, each proved against a specification function (`Encode`, `Decode`).
- `EventLog` (event_log.dfy): the event record, the trim rule of `LogEvent` as a reference function, and the per-house filter of `get_logs`.
- `Gate` (gate.dfy): the key comparison of `validate_key`.
- `Store` (store.dfy): the `common` struct as the class `Common`. The state and last-seen slices are arrays written in place. The event log is a sequence field that is appended to and resliced. `Get`, `Set`, `LogEvent` and `GetLog` are its members. The free functions that work on the global object (`load_existing_state`, `load_api_keys`, `load_target_macs`, `record_last_seen`, `get_state_as_int`, `get_logs`) take it as a parameter. The object starts zero-valued, as `new(common)` does, and `Startup` loads it in the order `main` uses.

The cache is modelled as values:

- what a startup lookup of `"state"` returned (`NoCache`, `LookupFailed` or `Found(text)`);
- the write that each `Set` issues (`CacheWrite(key, value)`);
- whether that write failed, which is an input.

Clock readings are parameters (`now`).

Three behaviours of `main.go` that a reader might not expect:

- Trim rule. The age trim (main.go:82-87) moves the cut just past the *last* stale entry in the window. It does not stop at the first fresh entry. A fresh entry that comes before a stale one is therefore dropped as well. `EventLog.RetainedIff` states this exactly.
- Range check. `validate_key` indexes `api_key[house_id]` without a range check (main.go:403), so an out-of-range id makes the handler panic and does not get a 403. In the model the id is a precondition.
- Live slice. `GetLog` (main.go:93-97) returns the live `events` slice, not a copy.

## Model

| member | source | states |
|---|---|---|
| Decimal.Atoi | main.go:250 | The value Atoi yields is always an int64. Text that is empty, or whose digit scan reaches a non-digit before the value passes 2^64-1, reads as 0. Once the digits pass 2^64-1, the text reads as 2^63-1 (or -2^63 after '-'), even if a non-digit follows. A numeral that fits 64 unsigned bits reads as its value with the sign applied, clamped to [-2^63, 2^63-1]. |
| Decimal.ScanDigitsValue | main.go:250 | The digit scan from accumulator acc gives acc * 10^len + the numeral's value. It is a range error exactly when that exceeds 2^64-1. |
| Decimal.AtoiNumeral | main.go:250 | For a well-formed numeral after the optional sign, Atoi gives the numeral's value (most significant digit first) with the sign applied, clamped to the int64 range. |
| Decimal.AtoiOverflowFirst | main.go:250 | Digits that pass 2^64-1 decide the result before anything after them is read: followed by any text, they read as 2^63-1, or -2^63 after '-'. |
| Decimal.Itoa | main.go:57 | The decimal text of n: at least one character, a leading '-' exactly when n is negative, and only digits after it. |
| Decimal.AtoiItoa | main.go:57 | The decimal text Itoa writes is read back by Atoi as the same number, for every int64. |
| Codec.Encode | main.go:238-245 | The encoding of n flags (2^i summed over the indices that are on) is below 2^n. |
| Codec.BoolArrayToInt | main.go:238-245 | The loop returns exactly Encode of the array, and a value in [0, 2^length). |
| Codec.EncodeByteRange | main.go:238-245 | Any eight flags encode to a value in [0, 255]. |
| Codec.EncodeNone | main.go:238-245 | All flags off encodes to 0. |
| Codec.EncodeSingle | main.go:238-245 | Exactly flag i on encodes to 2^i, so house 0 alone is 1 and house 7 alone is 128. |
| Codec.EncodeCons | main.go:238-245 | The encoding is a binary numeral: the first flag is the low bit, and the rest is the encoding shifted left by one. |
| Codec.EncodeBit | main.go:238-245 | Bit i of the encoding (shifted right i places, then taken mod 2) is flag i. |
| Codec.EncodeOfBits | main.go:252-261 | Encoding the first k bits of any n below 2^k gives n back. |
| Codec.Decode | main.go:248-257 | Decoding always gives eight flags. Encoding them gives the low byte (uint8) of the integer Atoi parsed. |
| Codec.LowByte | main.go:253 | `uint8(theint)`: the byte in [0, 255] congruent to the int mod 256, i.e. its low eight bits in two's complement. |
| Codec.IntToBool | main.go:263-269 | Only 1 maps to true. Stated through BitRead and DecodeAt, which use it on a value that is 0 or 1. |
| Codec.BitRead | main.go:259-261 | `(value >> bit) & 1` read through inttobool is true exactly when value / 2^bit is odd. |
| Codec.ShiftRightDiv | main.go:259-261 | Shifting a non-negative value right by `bit` places is division by 2^bit. |
| Codec.DecodeAt | main.go:248-269 | Flag i of a decoding is true exactly when the parsed integer's low byte divided by 2^i is odd. |
| Codec.StringToBoolArray | main.go:248-257 | The loop returns a fresh eight-element array whose contents are Decode of the text. |
| Codec.DecodeEncode | main.go:238-257 | Round trip: for any eight flags v, decoding Itoa(Encode(v)) gives v. |
| Codec.DecodeAllOff | main.go:248-257 | A decoding is all-off if and only if the parsed integer is a multiple of 256. |
| Codec.DecodeUnparsable | main.go:250 | Text Atoi rejects with a syntax error decodes to all houses off. |
| Codec.DecodeOverflow | main.go:250-253 | Text that Atoi clamps to 2^63-1 decodes to every house on, because the low byte is 255. |
| Codec.DecodeExamples | main.go:248-257 | "256", "" and "on" decode to all off. "5" decodes to houses 0 and 2 on. |
| EventLog.Stale | main.go:83-84 | An entry is stale at time `now` when `now - timestamp` exceeds 604800 s (strictly greater, so an entry exactly seven days old is kept). |
| EventLog.WindowStart | main.go:75-80 | The scan starts so that at most 800 entries lie at or after it. It starts at 0 when there are at most 800. |
| EventLog.LastStaleCut | main.go:81-87 | The cut lies in the window. It is the start of the window or just after a stale entry, and no entry after it is stale. |
| EventLog.CutPoint | main.go:75-87 | The cut after an append lies between the start of the 800-entry window and the end of the log. No entry at or after it is stale. |
| EventLog.Appended | main.go:74-90 | The log after an append is a suffix of old log ++ [e]. |
| EventLog.CutUnique | main.go:82-87 | Those three properties determine the cut point uniquely. |
| EventLog.RetainedIff | main.go:75-90 | An entry survives an append if and only if it is in the 800-entry window and no entry at or after it is stale. A fresh entry before a stale one is dropped. |
| EventLog.AppendedBounds | main.go:69-90 | After an append stamped `now`, the log ends with e. It has between 1 and 800 entries, and each one is at most 604800 s older than `now`. |
| EventLog.NothingStaleKeepsAll | main.go:75-90 | With no stale entry and at most 800 entries, nothing is removed. |
| EventLog.NothingStaleKeepsNewest | main.go:75-90 | With no stale entry and more than 800 entries, exactly the 800 newest are kept. |
| EventLog.ForHouse | main.go:371-384 | The filtered log is no longer than the log, and every entry in it belongs to the requested house. |
| EventLog.ForHouseAppend | main.go:374-377 | The filter distributes over concatenation, so it keeps log order. |
| EventLog.ForHouseMembers | main.go:374-377 | An event is in a house's log if and only if it is in the log and its house id matches. |
| Gate.ValidateKey | main.go:400-408 | The result is the id or -1. It is non-negative if and only if the stored key equals the supplied key exactly. |
| Gate.EmptyKeyPasses | main.go:400-403 | A house whose stored key is empty admits a request with an empty or missing key. |
| Store.InitialState | main.go:100-117 | The initial vector has eight flags. It is all off when there is no cache or the lookup failed, and Decode of the value otherwise. |
| Store.RestartRestores | main.go:100-106 | Loading the text a Set wrote restores exactly the vector that was written. |
| Store.Common.constructor | main.go:30-40 | The zero-valued object: empty key and MAC tables, empty state and last-seen slices, and an empty log. |
| Store.Common.Get | main.go:44-49 | The flag of house id, which equals bit id of the vector's encoding. |
| Store.Common.Set | main.go:52-67 | Only state[id] changes, and a following Get(id) returns d. The write is key "state" with the decimal text of the new encoding, and that text decodes to the new vector. A write failure leaves the state as set. |
| Store.Common.LogEvent | main.go:69-91 | The new log is the reference trim of old ++ [e], using the forward loop over keep_start. It is a suffix ending in e, with at most 800 entries, none stale. |
| Store.Common.GetLog | main.go:93-97 | Returns the log as it stands. |
| Store.LoadExistingState | main.go:100-121 | Callable on the zero-valued object. The state becomes a fresh eight-flag slice holding InitialState of the lookup. Last-seen becomes a fresh slice of eight zeros and the log becomes empty. The key and MAC tables are untouched. |
| Store.LoadApiKeys | main.go:137-146 | The key table becomes the eight given keys. Nothing else changes. |
| Store.LoadTargetMacs | main.go:125-134 | The MAC table becomes the eight given MACs. Nothing else changes. |
| Store.Startup | main.go:194-198 | In main's order (state, then keys, then MACs), from a zero object: eight flags equal to InitialState of the lookup, eight zero last-seen times, an empty log, and the given tables. |
| Store.RecordLastSeen | main.go:221-223 | Only the last-seen entry of house id changes, to `now`. |
| Store.GetStateAsInt | main.go:279-283 | Needs only the eight-flag state, so it is callable inside load_existing_state before the tables are loaded. Returns Encode of the state, a byte value whose bit i is house i's flag. |
| Store.GetLogs | main.go:371-384 | Returns the events of the house in log order, i.e. ForHouse of the log. |

## Left out

- HTTP plumbing (`main`, the `handle_*` handlers, `handle_usage`, the static file server, `ListenAndServe`, response bodies and headers): I/O glue around the modelled calls.
- The memcache client (`initialize_memcached`, `Dial`, `Auth`, `Set`, `Get`): a foreign network client. Lookups and writes are values. What a write does when no connection exists is the client library's behaviour and is not modelled.
- `sync.RWMutex` locking: every operation is modelled as atomic and sequential. The unlocked write in `record_last_seen` (main.go:221-223), and its race with readers, are therefore not represented.
- `time.Now()`: timestamps are parameters. The time formatting of `get_logs` and `last_seen_output` (`time.Unix(...).String()`, `humanize.Time`) is a library concern. Only the filtering of `get_logs` is modelled, and `last_seen_output` not at all.
- `math.Exp2` in `boolarraytoint`: modelled as the integer power of two. It is exact for the indices used.
- Codec.BoolArrayToInt: requires at most 63 flags. Beyond index 62, the float-to-int64 conversion and the int sum overflow, and the model does not represent that. The source only ever passes the eight-element state.
- `mactobinary` / `net.ParseMAC`: a library wrapper.
- The `strconv.ParseInt(s, 0, 64)` base-prefix rules in `validate_key`: the id arrives parsed. Text that is not a number yields 0 (main.go:402), so such a request is checked against house 0. A number too large for an int64 yields the nearest int64 bound, and the lookup at main.go:403 then panics.
- Gate.ValidateKey: requires 0 <= id < 8. The source indexes the key table without a range check (main.go:403), and an out-of-range id panics the handler instead of returning 403.
- The environment reads and `strings.TrimSpace` of `load_api_keys` and `load_target_macs`: the trimmed values are parameters of `LoadApiKeys` and `LoadTargetMacs`. `setup_logging` and every `log.Printf` are left out, so log output is not modelled.
- 64-bit timestamp arithmetic: timestamps and `ts - timestamp` are unbounded integers. Since every timestamp comes from the clock, int64 wrap-around does not arise.
- Store.Common.GetLog: the source returns the live slice, so the caller shares its backing array. The model returns the value of the log, which does not capture that aliasing.
- Word size: the model takes Go's `int` to be 64 bits wide (a 64-bit build). On a 32-bit build Atoi clamps to the int32 bounds instead, so for example `uint8` of "2147483648" would be 255 rather than 0.
- Text is a sequence of characters, while Go works on bytes. Any non-ASCII character is a non-digit either way, so Atoi's result is the same.
