# RFID_TMReader in Dafny

RFID_TMReader is a thin policy layer over the ThingMagic MercuryAPI SDK that
drives a UHF RFID reader. It has three layers:

- the C library `rfid_api`, with `rfid_init`, `rfid_deinit`,
  `rfid_set_write_power`, `rfid_read` and the to-string helpers;
- a second, smaller C wrapper, `mercuryapi_wrapper`, with create, connect,
  region, read plan, single-EPC and batch-EPC reads;
- the C++ facade `mercuryapi::Reader`, with `ParseConfigJson`, over `rfid_api`.

This project models those three layers and the headers they share.

## Modules

- `BoundedInts`, `Wrappers`: machine integer types and `Option`.
- `RfidTypes`: the shared C types from `rfid_types.h`: `RFID_RESULT`, `RFID_REGION`, `rfid_init_params_t` and `rfid_tag_t`. C enums are 32-bit integers, so values outside the named ones can reach every `switch` and `default` branch.
- `TmrErrorCodes`: the `TMR_ErrorCode` table of 96 enumerators (`ECODE_TMR_SUCCESS` and 95 `ECODE_TMR_ERROR_*` codes) and `TMR_ErrorCodeToString`.
- `Hex`: the upper-case hex encoding that EPC bytes go through, with its decoder as partner.
- `TagPipeline`: the pure parts of `rfid_read`:
  - 64-bit timestamp reconstruction;
  - the tag comparator and an in-place insertion sort in the role of `qsort`;
  - record normalisation, with the EPC cut to 63 bytes;
  - the drain policy (keep up to the capacity, discard the rest, stop on a fetch error), as the function `Drain` with a closed form.
- `TmrSdk`: the vendor SDK as an abstract reader. It is the environment, not code of this repository. It has:
  - a handle with `created` and `connected` flags;
  - a parameter store and the list of supported regions;
  - the queue of observations a timed read leaves behind;
  - a table of calls that fail. Each failure is scripted by a `Device` value.
- `RfidApi`: `c_lib/api/rfid_api.c`. The context `rfid_ctx_t` is a class, and the caller's `rfid_ctx_t**` and `int*` are cells. Each step helper is a method on the SDK handle. It is proved against pure outcome functions (`InitResult`, `PlanResult`, `RegionResult`, `ReadResult`), and lemmas characterise those functions.
- `MercuryWrapper`: `src/mercuryapi_wrapper.c`. It covers the single-EPC and batch-EPC reads. For the batch read, `DrainEpcs` specifies which slots are filled and where the run stops.
- `MercuryCpp`: the C++ facade.
  - `mercuryapi::Result` and `Region` are 32-bit newtypes, because `ParseConfigJson` casts an arbitrary JSON integer into `Region`.
  - `Reader` is a class over its `Impl`: the context pointer, the antenna list, the record buffer and the last error with its text.
  - `src/mercuryapi.cpp` and `cpp_lib/api/mercuryapi.cpp` hold the same logic at different lines. The table cites the first. The second includes `<nlohmann/json.hpp>` but never defines `MERCURYAPI_HAS_NLOHMANN_JSON`, so unless the build defines that switch it takes the `#else` branch of `ParseConfigJson`; the model covers that case with `hasJson == false`.

I/O, the clock and the SDK's radio are parameters: a `Device` value and the detail string `errstr` that the C layer returns.

Two behaviours of the code are easy to miss:

- **A fetch error mid-drain in `rfid_read`.** `rfid_read` leaves the records gathered before the failed fetch in the caller's buffer and their number in `*out_count`, and returns `RFID_RESULT_READ_FAIL` (`c_lib/api/rfid_api.c:995-998`). `RfidApi.Read` states this. The C++ `Reader::Read` returns an empty list on every failure, and `MercuryCpp.Reader.Read` states that.
- **The write-power ceiling.** Only `rfid_set_write_power` caps the power at 3000 cdBm (`c_lib/api/rfid_api.c:906`). `rfid_init` passes any positive power to the SDK (`c_lib/api/rfid_api.c:814-820`, `RfidApi.InitHasNoPowerCeiling`).

## Model

| member | source | states |
|---|---|---|
| `TmrErrorCodes.Lookup` | c_lib/api/rfid_api.c:48-293 | a code not in the table gives the unknown name; a code in the table gives the name stored beside it |
| `TmrErrorCodes.ErrorCodeToString` | c_lib/api/rfid_api.c:48-293 | every `ECODE_TMR_*` enumerator maps to one of the table's names; any other status maps to the unknown-code text |
| `TmrErrorCodes.TableIsIncreasing` | install-release/include/rfid_types.h:46-192 | the table has 96 codes, starts at `ECODE_TMR_SUCCESS` = 0 and is strictly increasing |
| `TmrErrorCodes.NamesMatchCodes` | c_lib/api/rfid_api.c:48-293 | there is one name per code |
| `TmrErrorCodes.CheckedIsIncreasing` | install-release/include/rfid_types.h:46-192 | the executable pairwise check implies strict increase |
| `TmrErrorCodes.IncreasingIsDistinct` | install-release/include/rfid_types.h:46-192 | a strictly increasing code list has no duplicate, so no `case` label repeats |
| `TmrErrorCodes.LookupFindsEntry` | c_lib/api/rfid_api.c:48-293 | with distinct codes, looking up the k-th code yields the k-th name |
| `TmrErrorCodes.ErrorCodeToStringNamesEveryCode` | c_lib/api/rfid_api.c:48-293 | `TMR_ErrorCodeToString` returns, for every listed code, exactly the name of its own `case` |
| `Hex.Digit` | src/mercuryapi_wrapper.c:203 | every nibble maps to an upper-case hex digit |
| `Hex.DigitIsTableEntry` | src/mercuryapi_wrapper.c:203 | the digit of nibble v is entry v of "0123456789ABCDEF" |
| `Hex.HexEncode` | src/mercuryapi_wrapper.c:204-207 | two characters per byte: high nibble first, then low nibble |
| `Hex.HexEncodeIsUpperHex` | src/mercuryapi_wrapper.c:204-207 | the encoding contains only upper-case hex digits |
| `Hex.DigitValue` | src/mercuryapi_wrapper.c:203 | a character has a value exactly when it is a digit of the table, and the value maps back to it |
| `Hex.HexDecode` | src/mercuryapi_wrapper.c:204-207 | a decoded text has twice as many characters as bytes |
| `Hex.DigitValueOfDigit` | src/mercuryapi_wrapper.c:203 | digit then value is the identity on nibbles |
| `Hex.DecodeEncode` | src/mercuryapi_wrapper.c:204-207 | decoding the EPC text gives back the EPC bytes |
| `Hex.EncodeDecode` | src/mercuryapi_wrapper.c:204-207 | every decodable text is the encoding of its decoding |
| `Hex.WriteHex` | src/mercuryapi_wrapper.c:204-208 | the buffer holds the encoding followed by a NUL; the rest of the buffer is untouched |
| `TagPipeline.CombineTimestampMs` | c_lib/api/rfid_api.c:327-329 | the low 32 bits of the 64-bit timestamp are `timestampLow`, the high 32 bits `timestampHigh` |
| `TagPipeline.CombineSplit` | c_lib/api/rfid_api.c:327-329 | splitting then combining is the identity on 64-bit timestamps |
| `TagPipeline.SplitCombine` | c_lib/api/rfid_api.c:327-329 | combining then splitting gives back both words |
| `TagPipeline.CombineExample` | c_lib/api/rfid_api.c:327-329 | low 1, high 2 combine to 2^33 + 1 |
| `TagPipeline.CompareTag` | c_lib/api/rfid_api.c:338-354 | the sign says whether x precedes y: higher RSSI first, then higher read count; zero exactly on equal keys |
| `TagPipeline.CompareTagAntisymmetric` | c_lib/api/rfid_api.c:338-354 | swapping the arguments negates the result |
| `TagPipeline.CompareTagTransitive` | c_lib/api/rfid_api.c:338-354 | the order is transitive, as `qsort` requires |
| `TagPipeline.CompareTagTotal` | c_lib/api/rfid_api.c:338-354 | any two records are comparable |
| `TagPipeline.WrapI32` | c_lib/api/rfid_api.c:344 | the 32-bit wrap-around of an `int` subtraction is congruent to the exact value modulo 2^32 |
| `TagPipeline.CompareTagAsWritten` | c_lib/api/rfid_api.c:338-354 | the comparator as written (wrapping subtraction of RSSIs) agrees with `CompareTag` when the RSSIs are equal |
| `TagPipeline.CompareTagAsWrittenMisorders` | c_lib/api/rfid_api.c:338-354 | RSSI 1 against RSSI -2^31 orders the weaker tag first |
| `TagPipeline.CompareTagAsWrittenAgreesInRange` | c_lib/api/rfid_api.c:338-354 | for RSSIs within ±2^30 the written comparator has the same sign as `CompareTag` |
| `TagPipeline.KeptEpc` | c_lib/api/rfid_api.c:1004-1005 | a record keeps at most (128 - 1) / 2 = 63 EPC bytes, so that their hex text and NUL fit `rfid_tag_t.epc` |
| `TagPipeline.Normalize` | c_lib/api/rfid_api.c:1000-1013 | the record's EPC text fits the buffer and decodes to the kept EPC bytes (to all of them when they fit); RSSI, read count and antenna are copied; the timestamp splits back into the raw words |
| `TagPipeline.RecordsSnoc` | c_lib/api/rfid_api.c:1000-1015 | storing one more observation appends its record |
| `TagPipeline.RecordsFit` | install-release/include/rfid_types.h:220-226 | every record's EPC text fits `rfid_tag_t.epc` |
| `TagPipeline.Drain` | c_lib/api/rfid_api.c:984-1016 | the drain keeps no more than the capacity, extends what it already had, and leaves nothing queued unless a fetch failed |
| `TagPipeline.FirstFault` | c_lib/api/rfid_api.c:995-998 | the position of the first failing fetch lies within the queue |
| `TagPipeline.FirstFaultIsFirst` | c_lib/api/rfid_api.c:995-998 | every entry before it is an observation, and it is a fault when inside the queue |
| `TagPipeline.Observed` | c_lib/api/rfid_api.c:984-1016 | the observations of a queue are no more than its entries |
| `TagPipeline.ObservedOfObservations` | c_lib/api/rfid_api.c:984-1016 | on a fault-free queue they are its tags, in order |
| `TagPipeline.DrainPastCapacity` | c_lib/api/rfid_api.c:985-990 | once the buffer is full, every remaining entry is discarded unchecked |
| `TagPipeline.Cons` | c_lib/api/rfid_api.c:984-1016 | an observation at the head shifts the first fault by one and adds its tag |
| `TagPipeline.DrainSpecStepToFault` | c_lib/api/rfid_api.c:984-1016 | one loop step preserves the closed form when a fault lies ahead within the capacity |
| `TagPipeline.DrainSpecStepClean` | c_lib/api/rfid_api.c:984-1016 | one loop step preserves the closed form when no fault lies ahead within the capacity |
| `TagPipeline.DrainClosedForm` | c_lib/api/rfid_api.c:984-1016 | the drain loop equals its closed form: the observations before the first fault within the capacity |
| `TagPipeline.DrainKeepsPrefix` | c_lib/api/rfid_api.c:984-1016 | the kept tags are the queue's leading observations; without a fault there are min(queue, capacity) of them and nothing is left; with one, the fault comes right after them within the capacity |
| `TagPipeline.DrainKeptClosed` | c_lib/api/rfid_api.c:984-1016 | the kept tags, as a closed formula over the queue |
| `TagPipeline.DrainFailedClosed` | c_lib/api/rfid_api.c:995-998 | the drain fails exactly when a fault lies within the capacity |
| `TagPipeline.PrefixBeforeFault` | c_lib/api/rfid_api.c:984-1016 | the closed formula yields the leading observations, followed by the fault |
| `TagPipeline.SortTags` | c_lib/api/rfid_api.c:1019-1020 | the first n records become sorted by the comparator and are a permutation of what they were; the rest of the buffer is untouched |
| `TagPipeline.InsertingSwap` | c_lib/api/rfid_api.c:1020 | a swap of an out-of-order neighbour keeps the insertion invariant |
| `TagPipeline.InsertingDone` | c_lib/api/rfid_api.c:1020 | when the inserted record is in place, the prefix is sorted |
| `TagPipeline.InsertLast` | c_lib/api/rfid_api.c:1020 | inserting record i into a sorted prefix gives a sorted, permuted prefix one longer |
| `RfidApi.MapRegion` | c_lib/api/rfid_api.c:361-377 | KR2, US and EU map to the SDK's KR2, NA and EU, each exactly; every other value maps to `TMR_REGION_NONE` |
| `RfidApi.ResultToString` | c_lib/api/rfid_api.c:440-470 | an unknown result prints as `RFID_RESULT_INTERNAL_ERROR` |
| `RfidApi.ResultFromString` | c_lib/api/rfid_api.c:440-470 | only the nine names parse |
| `RfidApi.ResultNamesRoundTrip` | c_lib/api/rfid_api.c:440-470 | each known result's name parses back to it; an unknown one reads back as INTERNAL_ERROR |
| `RfidApi.RegionToString` | c_lib/api/rfid_api.c:477-494 | exactly the unknown regions print as `RFID_REGION_UNKNOWN` |
| `RfidApi.RegionFromString` | c_lib/api/rfid_api.c:477-494 | only the four region names parse |
| `RfidApi.RegionNamesRoundTrip` | c_lib/api/rfid_api.c:477-494 | each known region's name parses back to it; an unknown region's does not parse |
| `RfidApi.ValidateInitParams` | c_lib/api/rfid_api.c:502-512 | DISABLED exactly for a present but disabled configuration; OK exactly when the slot and parameters are present, the reader is enabled, the URI is non-empty, the antenna array is present and the count is in (0, 16]; otherwise INVALID_ARG |
| `RfidApi.PlanReadTime` | c_lib/api/rfid_api.c:660-701 | a positive timeout is the plan's read time; zero or less selects the default |
| `RfidApi.PlanResult` | c_lib/api/rfid_api.c:660-701 | INVALID_ARG exactly for a bad antenna list; OK exactly when the list is good and both SDK plan calls succeed; otherwise PLAN_FAIL |
| `RfidApi.PlanAntennasRejects` | c_lib/api/rfid_api.c:660-701 | a count outside (0, 16] or any antenna outside [1, 255] rejects the plan |
| `RfidApi.PlanAntennasAccepts` | c_lib/api/rfid_api.c:660-701 | otherwise the plan lists exactly the first `count` antennas |
| `RfidApi.UsableRegions` | c_lib/api/rfid_api.c:393-433 | the supported-region list as fetched into the fixed local array: a prefix of the SDK's list, bounded by the array |
| `RfidApi.AutoRegion` | c_lib/api/rfid_api.c:393-433 | AUTO finds no region exactly when the query fails or lists none; KR2 is chosen whenever it is listed, otherwise the first listed region |
| `RfidApi.AutoRegionPrefersKr2` | c_lib/api/rfid_api.c:393-433 | with NA listed before KR2, AUTO picks KR2 |
| `RfidApi.RegionToSet` | c_lib/api/rfid_api.c:615-642 | only AUTO can ask the SDK for `TMR_REGION_NONE` |
| `RfidApi.RegionResult` | c_lib/api/rfid_api.c:615-642 | OK exactly when a region is found and setting it succeeds, REGION_FAIL otherwise |
| `RfidApi.InitResultCases` | c_lib/api/rfid_api.c:744-828 | `rfid_init` returns only the documented codes; DISABLED only for a disabled reader; OK exactly when validation, create, connect, region, plan and (for a positive power) read power all succeed |
| `RfidApi.InitHasNoPowerCeiling` | c_lib/api/rfid_api.c:814-820 | every positive write power gives the same `rfid_init` outcome |
| `RfidApi.CreateReader` | c_lib/api/rfid_api.c:552-572 | a null or empty URI is INVALID_ARG and changes nothing; otherwise the handle is created exactly on OK with that URI and a fresh parameter store |
| `RfidApi.ConnectReader` | c_lib/api/rfid_api.c:587-598 | without a created handle INVALID_ARG; otherwise the SDK connect's status decides OK or CONNECT_FAIL |
| `RfidApi.DestroyReader` | c_lib/api/rfid_api.c:523-536 | the handle is released in every case; a handle never created is OK and untouched |
| `RfidApi.SelectAutoRegion` | c_lib/api/rfid_api.c:393-433 | OK exactly when `AutoRegion` finds a region, and then returns it |
| `RfidApi.ConfigureRegion` | c_lib/api/rfid_api.c:615-642 | the result is `RegionResult`, and the store's region is set exactly on OK |
| `RfidApi.ConfigureReadPlan` | c_lib/api/rfid_api.c:660-701 | the result is `PlanResult`, and the store's plan is set exactly on OK |
| `RfidApi.ConfigureWritePower` | c_lib/api/rfid_api.c:716-730 | zero or less is OK and touches nothing; otherwise the SDK read power is set, INTERNAL_ERROR when it fails |
| `RfidApi.Init` | c_lib/api/rfid_api.c:744-828 | the result is `InitResult`; the caller's pointer is set exactly on OK, to a fresh, connected and initialized context holding the configured store, region and power; any handle allocated by a failed call is destroyed |
| `RfidApi.Deinit` | c_lib/api/rfid_api.c:842-865 | a null slot is INVALID_ARG; otherwise OK with the pointer cleared, and an initialized context's handle is destroyed |
| `RfidApi.SetWritePower` | c_lib/api/rfid_api.c:881-917 | null is INVALID_ARG, an uninitialized context NOT_INITIALIZED; zero or less is OK with power 0; above 3000 INVALID_ARG; a failing SDK call INTERNAL_ERROR; otherwise OK with the power stored in the context and the SDK; the handle's flags, URI, device and queue and the context's region stay as they were |
| `RfidApi.ValidateReadArgs` | c_lib/api/rfid_api.c:950-963 | NOT_INITIALIZED exactly for present arguments on an uninitialized context; OK exactly when all are present, initialized, the capacity positive and the timeout non-negative |
| `RfidApi.ReadSucceedsIff` | c_lib/api/rfid_api.c:968-1022 | a read is OK exactly when the plan installs, the timed read succeeds and none of the first `capacity` fetches fails; otherwise READ_FAIL |
| `RfidApi.Read` | c_lib/api/rfid_api.c:939-1023 | argument errors change nothing; otherwise the plan is reinstalled, and on OK `*out_count` is min(round, capacity), the records are sorted and a permutation of the kept observations' records; after a fetch error the partial records stay in order |
| `RfidApi.DrainTags` | c_lib/api/rfid_api.c:984-1016 | the loop leaves exactly `Drain`'s kept records, count, queue and failure flag |
| `MercuryWrapper.MapStatus` | src/mercuryapi_wrapper.c:33-36 | `MERCURYAPI_OK` exactly for `TMR_SUCCESS`, `MERCURYAPI_ERR` otherwise |
| `MercuryWrapper.MapStatusEx` | src/mercuryapi_wrapper.c:38-41 | `MERCURYAPI_OK` exactly for `TMR_SUCCESS`, `MERCURYAPI_ERR_IO` otherwise |
| `MercuryWrapper.MapRegionEnum` | src/mercuryapi_wrapper.c:88-110 | NA, EU and KR2 map to the SDK's NA, EU and KR2, each exactly; every other value has no region |
| `MercuryWrapper.ToU32` | src/mercuryapi_wrapper.c:222 | the `(uint32_t)` cast: identity in range, congruent modulo 2^32 |
| `MercuryWrapper.Create` | src/mercuryapi_wrapper.c:43-52 | a null out-pointer is INVALID_ARG; otherwise OK with a fresh, unconnected wrapper stored |
| `MercuryWrapper.Destroy` | src/mercuryapi_wrapper.c:54-60 | a connected handle is destroyed; an unconnected one is untouched |
| `MercuryWrapper.ConnectAsWritten` | src/mercuryapi_wrapper.c:62-77 | OK exactly when create and connect succeed; a failure returns ERR with the handle gone but the `connected` flag as it was |
| `MercuryWrapper.StaleConnectedFlag` | src/mercuryapi_wrapper.c:62-77 | a connect that succeeds followed by one whose `TMR_connect` fails leaves the wrapper flagged connected with a destroyed handle |
| `MercuryWrapper.Connect` | src/mercuryapi_wrapper.c:62-77 | INVALID_ARG for null arguments; otherwise OK exactly when create and connect succeed, and `connected` holds exactly on OK, so the flag always stands for a live handle |
| `MercuryWrapper.Disconnect` | src/mercuryapi_wrapper.c:79-86 | INVALID_ARG for null, NOT_CONNECTED when not connected; otherwise the handle is destroyed and the flag cleared |
| `MercuryWrapper.SetRegionEnum` | src/mercuryapi_wrapper.c:112-134 | an unmapped region is INVALID_ARG and changes nothing; otherwise the SDK region is set, and the result is `MapStatusEx` of its status; the handle's flags, URI, device and tag queue never change |
| `MercuryWrapper.SetReadPlanGen2` | src/mercuryapi_wrapper.c:136-177 | INVALID_ARG for missing antennas or count ≤ 0, NOT_CONNECTED when not connected; otherwise a count above 16 or an antenna outside (0, 255] is INVALID_ARG, and for a valid list the result is `MapStatusEx` of `TMR_paramSet`'s status (ERR_IO when it fails), with the plan of those antennas installed exactly on OK; the two early exits change nothing, and no exit touches the handle's flags, URI, device or tag queue |
| `MercuryWrapper.NeededLen` | src/mercuryapi_wrapper.c:197 | the buffer length an EPC needs is its hex text plus the NUL |
| `MercuryWrapper.FetchOneEpc` | src/mercuryapi_wrapper.c:179-211 | INVALID_ARG for null arguments or a length ≤ 0, then NOT_CONNECTED; an empty queue or a failing fetch is ERR_IO; a short buffer gets `*inout_len` set to the length needed and INVALID_ARG; otherwise the buffer holds the EPC's hex and a NUL, and the text length is reported; the tag is consumed in every fetched case |
| `MercuryWrapper.ReadOneEpc` | src/mercuryapi_wrapper.c:213-233 | the argument checks of `FetchOneEpc`, then a timed read: a failing read is ERR_IO and changes nothing, an empty round is NO_TAG, otherwise the first tag of the round is fetched as `FetchOneEpc` does |
| `MercuryWrapper.GetReadPowerDbm` | src/mercuryapi_wrapper.c:310-328 | INVALID_ARG for null, NOT_CONNECTED when not connected; otherwise the SDK status decides, and on success the SDK's read power is stored unchanged (in cdBm, despite the function's name) |
| `MercuryWrapper.SetAntennaCheckPort` | src/mercuryapi_wrapper.c:330-347 | INVALID_ARG for null, NOT_CONNECTED when not connected; otherwise the check-port flag is set to `enable != 0` |
| `MercuryWrapper.HaltStop` | src/mercuryapi_wrapper.c:270-293 | an entry that cannot be stored stops the run: a fetch fault, a null slot or a slot too small |
| `MercuryWrapper.DrainEpcs` | src/mercuryapi_wrapper.c:264-307 | the run stores at most one EPC per slot |
| `MercuryWrapper.DrainEpcsStores` | src/mercuryapi_wrapper.c:264-307 | every stored EPC is the tag of its queue entry and fits its slot, and the run stops only at the end of the slots, of the queue, or on an entry it cannot store |
| `MercuryWrapper.DrainEpcsStopsAt` | src/mercuryapi_wrapper.c:264-307 | conversely, any such prefix ending at a stop is the run |
| `MercuryWrapper.ReadEpcs` | src/mercuryapi_wrapper.c:235-308 | argument errors come first; otherwise the slots and lengths hold `DrainEpcs`'s stored EPCs as hex, the stop reason decides the result, the slot that stopped the run reports the length it needed; `*out_count` is the number stored on OK, on NO_TAG and on a slot too small, and 0 after a failing fetch or a NULL or empty slot |
| `MercuryWrapper.StoreEpcs` | src/mercuryapi_wrapper.c:264-307 | the loop leaves exactly the run's stored EPCs and its stop |
| `MercuryWrapper.TakeEpc` | src/mercuryapi_wrapper.c:265-306 | one iteration pops one entry and either stores it or stops the run as `HaltStop` says |
| `MercuryWrapper.ReportNeed` | src/mercuryapi_wrapper.c:280-291 | a slot too small gets the needed length written back, and no other slot changes |
| `MercuryWrapper.StoreSlot` | src/mercuryapi_wrapper.c:293-299 | the slot receives the EPC's hex and a NUL, its length the text length, and no other slot changes |
| `MercuryCpp.ResultToString` | src/mercuryapi.cpp:45-70 | a non-empty name for every result; "UnknownResult" exactly for values outside the enumeration |
| `MercuryCpp.ResultFromName` | src/mercuryapi.cpp:45-70 | only the nine enumerator names parse |
| `MercuryCpp.ResultNamesRoundTrip` | src/mercuryapi.cpp:45-70 | each enumerator's name parses back to it; "UnknownResult" does not parse |
| `MercuryCpp.ResultNamesHaveNoColon` | src/mercuryapi.cpp:45-70 | no name contains ':', so the name can be split off an error text |
| `MercuryCpp.ToCppResult` | src/mercuryapi.cpp:72-95 | every C result maps to an enumerator with the same number; an unknown C value maps to InternalError |
| `MercuryCpp.ToCResult` | src/mercuryapi.cpp:97-120 | every enumerator maps to the C result with the same number; any other value maps to `RFID_RESULT_INTERNAL_ERROR` |
| `MercuryCpp.ResultCodesRoundTrip` | src/mercuryapi.cpp:72-120 | C to C++ to C is the identity on known C results, and C++ to C to C++ on enumerators |
| `MercuryCpp.ToCRegion` | src/mercuryapi.cpp:122-135 | a named region maps to the C region with the same number; any other value maps to AUTO |
| `MercuryCpp.SizeToInt` | src/mercuryapi.cpp:175 | `static_cast<int>` of a size: exact below 2^31, never positive beyond the size |
| `MercuryCpp.ToTag` | install/include/rfid/mercuryapi_cpp/mercuryapi.hpp:28-34 | the copy of a C record into a `Tag` loses nothing |
| `MercuryCpp.ToTags` | src/mercuryapi.cpp:373-382 | one `Tag` per record, in order, each converting back to its record |
| `MercuryCpp.CInitParams` | src/mercuryapi.cpp:276-283 | the C parameters point at the whole antenna list with its length as count |
| `MercuryCpp.WithDetail` | src/mercuryapi.cpp:147-159 | the text only grows; it is unchanged exactly when the detail is null or empty, and otherwise ends with the detail |
| `MercuryCpp.NameOf` | src/mercuryapi.cpp:137-145 | the leading part of an error text before any ':' |
| `MercuryCpp.NameOfSplit` | src/mercuryapi.cpp:137-145 | a colon-free name followed by ":" yields that name |
| `MercuryCpp.ErrorTextRoundTrip` | src/mercuryapi.cpp:137-145 | the last-error text of an enumerator gives back the result and the prefix |
| `MercuryCpp.InitCheck` | src/mercuryapi.cpp:257-268 | Disabled exactly when disabled; Ok exactly when enabled with a URI and at least one antenna; InvalidArg otherwise |
| `MercuryCpp.DefaultConfigNeedsUri` | install/include/rfid/mercuryapi_cpp/mercuryapi.hpp:39-56 | the default configuration is refused for its empty URI and accepted once a URI is given |
| `MercuryCpp.InitRejectsLongAntennaList` | src/mercuryapi.cpp:276-288 | more than 16 antennas pass the C++ check but `rfid_init` refuses them |
| `MercuryCpp.UnnamedRegionIsAuto` | src/mercuryapi.cpp:122-135 | a region outside the enumeration behaves as AUTO |
| `MercuryCpp.WritePowerOutcome` | src/mercuryapi.cpp:387-407 | on an initialized reader the result is Ok, InvalidArg (exactly above 3000) or InternalError (exactly when a positive power fails in the SDK) |
| `MercuryCpp.Resized` | src/mercuryapi.cpp:173 | `std::vector::resize`: the old records that fit, then zeroed ones |
| `MercuryCpp.BufferSize` | src/mercuryapi.cpp:169-176 | a capacity of 0 becomes 1; any other capacity is kept |
| `MercuryCpp.Reader.constructor` | src/mercuryapi.cpp:240 | no context, antennas {1, 2}, an empty buffer, Ok with an empty text |
| `MercuryCpp.Reader.SetLastError` | src/mercuryapi.cpp:137-145 | stores the result and "Name: prefix" and returns the result |
| `MercuryCpp.Reader.AppendLastErrorDetail` | src/mercuryapi.cpp:147-159 | the text becomes `WithDetail` of itself |
| `MercuryCpp.Reader.EnsureBuf` | src/mercuryapi.cpp:169-176 | the buffer gets `BufferSize` records, keeps those that fit, and is replaced only when its size changes; the size is returned as an `int` |
| `MercuryCpp.Reader.Destroy` | src/mercuryapi.cpp:303-323 | always Ok; any context is released and its handle destroyed; the error is Ok |
| `MercuryCpp.Reader.Init` | src/mercuryapi.cpp:249-301 | the old context is released first; a failed C++ check returns its result with the matching message; otherwise the result is `rfid_init`'s, translated, the context is kept exactly on Ok, and a failure carries the C detail |
| `MercuryCpp.Reader.SetWritePowerCdbm` | src/mercuryapi.cpp:387-407 | NotInitialized without a context; otherwise `WritePowerOutcome`, with the power stored exactly on Ok and the context's region and flags and the handle's connection, URI, device and queue unchanged |
| `MercuryCpp.Reader.Read` | src/mercuryapi.cpp:329-385 | an empty list on every failure; NotInitialized, then InvalidArg for a negative timeout; otherwise the outcome of `rfid_read` over the buffer, and on Ok the list is the sorted records of the round's first min(round, size) observations; `ReadLeaves` gives the handle's new state (plan installed, round consumed, the undrained rest queued), so successive reads chain |
| `MercuryCpp.CallInit` | src/mercuryapi.cpp:286-292 | the call to `rfid_init` yields `InitOutcome` and a context exactly on Ok |
| `MercuryCpp.CallRead` | src/mercuryapi.cpp:347-360 | the call to `rfid_read` yields `ReadOutcome`, and on Ok the buffer holds the delivered records; the handle is left as `ReadLeaves` says |
| `MercuryCpp.CopyTags` | src/mercuryapi.cpp:373-382 | the copy loop yields `ToTags` of the first n records |
| `MercuryCpp.ToUpper` | src/mercuryapi.cpp:201 | `toupper` in the C locale: a-z shift to A-Z, everything else is kept |
| `MercuryCpp.Upper` | src/mercuryapi.cpp:201 | upper-casing keeps the length |
| `MercuryCpp.UpperIdempotent` | src/mercuryapi.cpp:201 | upper-casing twice is upper-casing once |
| `MercuryCpp.UpperInPlace` | src/mercuryapi.cpp:201 | the in-place loop computes `Upper` |
| `MercuryCpp.RegionFromKey` | src/mercuryapi.cpp:202-206 | a key yields the unique region whose name it is, and no other |
| `MercuryCpp.RegionStringIff` | src/mercuryapi.cpp:198-206 | a region string parses to r exactly when its upper-case form is r's name; case does not matter |
| `MercuryCpp.RegionExamples` | src/mercuryapi.cpp:193-210 | "kr2" and "Eu" parse, "korea" does not, and the number 7 becomes an unnamed region |
| `MercuryCpp.EmptyObjectGivesDefaults` | src/mercuryapi.cpp:185-224 | an empty JSON object yields the default configuration |
| `MercuryCpp.ParseConfigJson` | src/mercuryapi.cpp:179-238 | true exactly with the JSON library, a parsed document and a valid region; then the configuration is built from the keys present; on false the configuration is untouched and the error names the reason |

## Left out

- Logging, `out_status` and `out_errstr`. The SDK status and its text are diagnostic only. The C++ layer's use of the text is the `errstr` parameter.
- The SDK's radio, transport and protocol. `TmrSdk` is a scripted oracle, and its members are the environment, not modelled code.
- `TMR_bytesToHex` is SDK code. Its output is taken to be the same upper-case encoding the wrapper writes.
- Stability of `qsort` is unspecified in C. The model promises a sorted permutation only, and the sort is an insertion sort.
- Allocation failure is left out: `calloc` in `rfid_init`, `calloc` in `mercuryapi_reader_create`, `std::make_unique`, and `std::vector::resize` throwing. `RFID_RESULT_INTERNAL_ERROR` from a failed `calloc` in `rfid_init` is not modelled, and neither is `MERCURYAPI_ERR` from a failed `calloc` in `mercuryapi_reader_create` (`src/mercuryapi_wrapper.c:46-47`), which `MercuryWrapper.Create` does not return.
- The C++ facade is also left out in these parts:
  - a null `impl_` after a move (the InternalError branches);
  - move construction and assignment, and the destructor (RAII release);
  - `RfidException`;
  - `GetLastError` and `GetLastErrorString`, because the model reads the fields.
- `ParseConfigJson`: nlohmann's parser itself is a parameter (`doc`, `libraryError`). Which message wins when several keys are malformed is not modelled.
- `MercuryWrapper.SetRegionEnum` requires a connected wrapper, because the source hands the handle to the SDK unchecked.
- `MercuryWrapper.ReadEpcs`:
  - it requires distinct slot buffers, because aliased slots are not modelled;
  - the `char **epcs` array is modelled as the sequence of slot pointers it holds, which the function only reads.
- `MercuryWrapper.SetReadPlanGen2`: the commented-out read-power block (lines 164-174) is not modelled, since it is dead code.
- `RfidApi.Read`: the records are sorted by the corrected comparator `TagPipeline.CompareTag`, not by `CompareTag_` as written (`c_lib/api/rfid_api.c:344`). The written comparator is no consistent order once two RSSIs differ by 2^31 or more, and `qsort` then promises nothing. For RSSIs within ±2^30 both comparators agree in sign (`TagPipeline.CompareTagAsWrittenAgreesInRange`), so there the order is the source's.
- `TagPipeline.SortTags`: sorts by the same corrected comparator, for the same reason.
- `TmrSdk.Reader.HasMoreTags` succeeds exactly while observations are queued. An SDK error from `TMR_hasMoreTags` with tags still pending is therefore represented only as a shorter round. In the source that error ends `rfid_read`'s drain with OK (`c_lib/api/rfid_api.c:984`) and ends `mercuryapi_read_epcs`'s loop (`src/mercuryapi_wrapper.c:269`), which is what a shorter round gives.
- `MercuryWrapper.ConnectAsWritten` and `MercuryWrapper.Connect`: the wrapper holds one SDK handle object, so the handle that `TMR_create` overwrites on a second connect (`src/mercuryapi_wrapper.c:66`) is not modelled as a separate, leaked handle. The corrected `Connect` fixes only the `connected` flag; the overwrite remains.

## Findings

| source | as written | input that shows it | evidently intended | confidence | as-written member | corrected member |
|---|---|---|---|---|---|---|
| c_lib/api/rfid_api.c:338-354 | `CompareTag_` compares RSSIs by subtracting two `int`s, which overflows; signed overflow is undefined in C, and common compilers wrap it modulo 2^32 | x.rssi = 1, y.rssi = -2147483648: `y->rssi - x->rssi` is -2^31 - 1, which wraps to 2147483647, a positive result, so the weaker tag y sorts before x | compare by sign (`a < b`, `a > b`) | low, not executed | `TagPipeline.CompareTagAsWritten`, `TagPipeline.CompareTagAsWrittenMisorders` | `TagPipeline.CompareTag` |
| src/mercuryapi_wrapper.c:62-77 | `mercuryapi_reader_connect` on a connected wrapper creates a new handle over the connected one without destroying it, and leaves `connected` set when the new create or connect fails | a connect that succeeds, then a second connect whose `TMR_connect` fails: the new handle is destroyed but `connected` is still 1, so disconnect or destroy calls `TMR_destroy` on it again | clear `connected` before reconnecting, and set it only on success; the corrected member fixes only the flag, the overwritten handle is still not destroyed | low, not executed | `MercuryWrapper.ConnectAsWritten`, `MercuryWrapper.StaleConnectedFlag` | `MercuryWrapper.Connect` |
