/**
 * The older C wrapper over the SDK (src/mercuryapi_wrapper.c, declared in
 * include/mercuryapi.h): a heap object holding one SDK handle and a
 * `connected` flag, region and GEN2 plan setters, and EPC reads that
 * encode each EPC as upper-case hex text into caller buffers, telling the
 * caller the size it needs when a buffer is too small.
 *
 * The diagnostic log line written to stderr on SDK failures is not
 * modelled; it has no effect on any result.
 */
module MercuryWrapper {
  import opened BoundedInts
  import opened Wrappers
  import opened Hex
  import opened TmrSdk
  import RfidApi

  /** mercuryapi_result_t: a C enum, so any 32-bit value can occur. */
  newtype WrapperResult = x: int | -0x8000_0000 <= x < 0x8000_0000

  const MercuryOk: WrapperResult := 0
  const MercuryErr: WrapperResult := -1
  const MercuryErrInvalidArg: WrapperResult := -2
  const MercuryErrNotConnected: WrapperResult := -3
  const MercuryErrIo: WrapperResult := -4
  const MercuryErrNoTag: WrapperResult := -5

  /** mercuryapi_region_t */
  newtype WrapperRegion = x: int | -0x8000_0000 <= x < 0x8000_0000

  const MercuryRegionNa: WrapperRegion := 0
  const MercuryRegionEu: WrapperRegion := 1
  const MercuryRegionKr2: WrapperRegion := 2

  /** The read time (ms) of every plan the wrapper builds. */
  const WrapperPlanReadTime: u32 := 1000

  /** map_status: success is OK, every SDK error is ERR. */
  function MapStatus(st: Status): (r: WrapperResult)
    ensures r in {MercuryOk, MercuryErr}
    ensures r == MercuryOk <==> st == Success
  {
    if st == Success then MercuryOk else MercuryErr
  }

  /** map_status_ex: success is OK, every SDK error is ERR_IO. */
  function MapStatusEx(st: Status): (r: WrapperResult)
    ensures r in {MercuryOk, MercuryErrIo}
    ensures r == MercuryOk <==> st == Success
  {
    if st == Success then MercuryOk else MercuryErrIo
  }

  /** mercuryapi__map_region_enum: NA, EU and KR2 have SDK regions; nothing else does. */
  function MapRegionEnum(region: WrapperRegion): (r: Option<TmrRegion>)
    ensures r.Some? <==> region in {MercuryRegionNa, MercuryRegionEu, MercuryRegionKr2}
    ensures r == Some(RegionNA) <==> region == MercuryRegionNa
    ensures r == Some(RegionEU) <==> region == MercuryRegionEu
    ensures r == Some(RegionKR2) <==> region == MercuryRegionKr2
  {
    if region == MercuryRegionNa then Some(RegionNA)
    else if region == MercuryRegionEu then Some(RegionEU)
    else if region == MercuryRegionKr2 then Some(RegionKR2)
    else None
  }

  /** The C cast `(uint32_t) timeout_ms`: negative values wrap around. */
  function ToU32(v: int): (w: u32)
    ensures 0 <= v < TWO_TO_THE_32 ==> w == v
    ensures (w - v) % TWO_TO_THE_32 == 0
  {
    v % TWO_TO_THE_32
  }

  /** struct mercuryapi_reader: the embedded SDK handle and the `connected` flag. */
  class WrapperReader {
    const reader: Reader
    var connected: bool

    /** A set flag stands for a live, connected handle. */
    ghost predicate Valid()
      reads this, reader
    {
      connected ==> reader.created && reader.connected
    }

    /** The zero-filled object calloc returns, in front of device `d`. */
    constructor (d: Device)
      ensures fresh(reader) && !connected && Valid()
      ensures !reader.created && !reader.connected && reader.device == d
    {
      reader := new Reader(d);
      connected := false;
    }
  }

  /** The caller's `mercuryapi_reader_t *` variable, whose address create takes. */
  class ReaderSlot {
    var reader: WrapperReader?

    constructor ()
      ensures reader == null
    {
      reader := null;
    }
  }

  /** mercuryapi_reader_create: a fresh, unconnected wrapper object. */
  method Create(out: ReaderSlot?, d: Device) returns (r: WrapperResult)
    modifies out
    ensures out == null ==> r == MercuryErrInvalidArg
    ensures out != null ==>
              r == MercuryOk && out.reader != null && fresh(out.reader) && fresh(out.reader.reader) &&
              out.reader.Valid() && !out.reader.connected && out.reader.reader.device == d
  {
    if out == null {
      return MercuryErrInvalidArg;
    }
    var w := new WrapperReader(d);
    out.reader := w;
    r := MercuryOk;
  }

  /**
   * mercuryapi_reader_destroy: NULL-safe; the handle is destroyed only if
   * the flag says it is connected. Releasing the object itself is not modelled.
   */
  method Destroy(w: WrapperReader?)
    requires w != null ==> w.Valid()
    modifies if w != null then {w.reader} else {}
    ensures w != null && w.connected ==> !w.reader.created && !w.reader.connected
    ensures w != null && !w.connected ==> unchanged(w.reader)
  {
    if w == null {
      return;
    }
    if w.connected {
      var _ := w.reader.TmrDestroy();
    }
  }

  /**
   * mercuryapi_reader_connect, as written: TMR_create then TMR_connect,
   * destroying the handle when the connect fails. A failure leaves the
   * flag as it was, so on a reader that was already connected the flag
   * outlives its handle.
   */
  method ConnectAsWritten(w: WrapperReader?, uri: Option<string>) returns (r: WrapperResult)
    modifies if w != null then {w, w.reader} else {}
    ensures w == null || uri.None? ==>
              r == MercuryErrInvalidArg && (w != null ==> unchanged(w, w.reader))
    ensures w != null && uri.Some? ==>
              var d := old(w.reader.device);
              (r == MercuryOk <==> !Fails(d, Call.Create) && !Fails(d, Call.Connect)) &&
              (r != MercuryOk ==> r == MercuryErr && w.connected == old(w.connected) && !w.reader.created) &&
              (r == MercuryOk ==> w.connected && w.reader.connected && w.reader.uri == uri.value)
  {
    if w == null || uri.None? {
      return MercuryErrInvalidArg;
    }
    var st := w.reader.TmrCreate(uri.value);
    if st != Success {
      return MapStatus(st);
    }
    st := w.reader.TmrConnect();
    if st != Success {
      var _ := w.reader.TmrDestroy();
      return MapStatus(st);
    }
    w.connected := true;
    r := MercuryOk;
  }

  /**
   * A wrapper connected to a reader whose link then drops, and which the
   * caller connects again, reports itself connected with no live handle:
   * destroy and disconnect would then destroy that handle a second time.
   */
  method StaleConnectedFlag() returns (connected: bool, handleLive: bool)
    ensures connected && !handleLive
  {
    var w := new WrapperReader(Device([], map[], [], 0));
    var first := ConnectAsWritten(w, Some("tmr:///dev/ttyUSB0"));
    w.reader.device := Device([], map[Call.Connect := 1], [], 0);
    var second := ConnectAsWritten(w, Some("tmr:///dev/ttyUSB0"));
    connected, handleLive := w.connected, w.reader.created;
  }

  /**
   * mercuryapi_reader_connect with the flag cleared whenever the handle
   * is not left connected, so that the flag always stands for a live handle.
   */
  method Connect(w: WrapperReader?, uri: Option<string>) returns (r: WrapperResult)
    requires w != null ==> w.Valid()
    modifies if w != null then {w, w.reader} else {}
    ensures w != null ==> w.Valid()
    ensures w == null || uri.None? ==>
              r == MercuryErrInvalidArg && (w != null ==> unchanged(w, w.reader))
    ensures w != null && uri.Some? ==>
              var d := old(w.reader.device);
              (r == MercuryOk <==> !Fails(d, Call.Create) && !Fails(d, Call.Connect)) &&
              (r != MercuryOk ==> r == MercuryErr && !w.connected && !w.reader.created) &&
              (r == MercuryOk ==> w.connected && w.reader.uri == uri.value && w.reader.params == NoParams)
  {
    if w == null || uri.None? {
      return MercuryErrInvalidArg;
    }
    var st := w.reader.TmrCreate(uri.value);
    if st != Success {
      w.connected := false;
      return MapStatus(st);
    }
    st := w.reader.TmrConnect();
    if st != Success {
      var _ := w.reader.TmrDestroy();
      w.connected := false;
      return MapStatus(st);
    }
    w.connected := true;
    r := MercuryOk;
  }

  /** mercuryapi_reader_disconnect: NOT_CONNECTED unless the flag is set; else destroy and clear it. */
  method Disconnect(w: WrapperReader?) returns (r: WrapperResult)
    requires w != null ==> w.Valid()
    modifies if w != null then {w, w.reader} else {}
    ensures w == null ==> r == MercuryErrInvalidArg
    ensures w != null && !old(w.connected) ==> r == MercuryErrNotConnected && unchanged(w, w.reader)
    ensures w != null && old(w.connected) ==>
              r == MercuryOk && !w.connected && !w.reader.created && w.Valid()
  {
    if w == null {
      return MercuryErrInvalidArg;
    }
    if !w.connected {
      return MercuryErrNotConnected;
    }
    var _ := w.reader.TmrDestroy();
    w.connected := false;
    r := MercuryOk;
  }

  /**
   * mercuryapi_reader_set_region_enum: unmapped regions are refused before
   * any SDK call. The header makes a connected reader the caller's duty.
   */
  method SetRegionEnum(w: WrapperReader?, region: WrapperRegion) returns (r: WrapperResult)
    requires w != null ==> w.Valid() && w.connected
    modifies if w != null then {w.reader} else {}
    ensures w == null ==> r == MercuryErrInvalidArg
    ensures w != null && MapRegionEnum(region).None? ==>
              r == MercuryErrInvalidArg && unchanged(w.reader)
    ensures w != null && MapRegionEnum(region).Some? ==>
              r == MapStatusEx(w.reader.Outcome(Call.SetRegion)) &&
              w.reader.params ==
                if r == MercuryOk then old(w.reader.params).(region := MapRegionEnum(region))
                else old(w.reader.params)
    ensures w != null ==>
              unchanged(w.reader`created, w.reader`connected, w.reader`uri, w.reader`device, w.reader`queue) &&
              w.Valid()
  {
    if w == null {
      return MercuryErrInvalidArg;
    }
    var mapped := MapRegionEnum(region);
    if mapped.None? {
      return MercuryErrInvalidArg;
    }
    var st := w.reader.SetRegion(mapped.value);
    r := MapStatusEx(st);
  }

  /**
   * mercuryapi_set_read_plan_gen2: a missing list or a count of zero or
   * less, then an unconnected reader, then a count above 16 or an antenna
   * outside (0, 255], are refused before the plan is built; the plan's own
   * build status is ignored; `read_power_dbm` is unused.
   */
  method SetReadPlanGen2(w: WrapperReader?, antennas: Option<seq<i32>>, count: i32, readPowerDbm: i32)
    returns (r: WrapperResult)
    requires w != null ==> w.Valid()
    requires RfidApi.AntennaArrayCovers(antennas, count)
    modifies if w != null then {w.reader} else {}
    ensures w == null || antennas.None? || count <= 0 ==> r == MercuryErrInvalidArg
    ensures w != null && antennas.Some? && count > 0 && !w.connected ==> r == MercuryErrNotConnected
    ensures w != null && antennas.Some? && count > 0 && w.connected ==>
              var list := RfidApi.PlanAntennas(antennas, count);
              (list.None? ==> r == MercuryErrInvalidArg) &&
              (list.Some? ==> r == MapStatusEx(w.reader.Outcome(Call.SetPlan))) &&
              w.reader.params ==
                if list.Some? && r == MercuryOk
                then old(w.reader.params).(plan := Some(SimpleGen2Plan(list.value, WrapperPlanReadTime)))
                else old(w.reader.params)
    ensures w != null && (antennas.None? || count <= 0 || !w.connected) ==> unchanged(w.reader)
    ensures w != null ==>
              unchanged(w.reader`created, w.reader`connected, w.reader`uri, w.reader`device, w.reader`queue) &&
              w.Valid()
  {
    if w == null || antennas.None? || count <= 0 {
      return MercuryErrInvalidArg;
    }
    if !w.connected {
      return MercuryErrNotConnected;
    }
    if count > 16 {
      return MercuryErrInvalidArg;
    }
    var list: seq<u8> := [];
    var i := 0;
    while i < count
      invariant 0 <= i <= count
      invariant |list| == i
      invariant forall k :: 0 <= k < i ==> RfidApi.ValidAntenna(antennas.value[k]) && list[k] == antennas.value[k]
    {
      var ant := antennas.value[i];
      if !RfidApi.ValidAntenna(ant) {
        return MercuryErrInvalidArg;
      }
      list := list + [ant as u8];
      i := i + 1;
    }
    assert !exists k :: 0 <= k < count && !RfidApi.ValidAntenna(antennas.value[k]);
    assert list == seq(count, k requires 0 <= k < count => antennas.value[k] as u8);
    var _, plan := w.reader.InitSimplePlan(list, WrapperPlanReadTime);
    var st := w.reader.SetPlan(plan);
    r := MapStatusEx(st);
  }

  /** The buffer size fetch_one_epc and read_epcs demand for an EPC: its hex text and the terminator. */
  function NeededLen(epc: seq<u8>): (need: int)
    ensures need == |HexEncode(epc)| + 1
  {
    2 * |epc| + 1
  }

  /**
   * What taking the next entry of queue `q` into a caller buffer of `len`
   * chars does: nothing queued or a failing fetch is ERR_IO; a buffer
   * shorter than the hex text and its terminator is INVALID_ARG with the
   * needed size reported; otherwise the text, then the terminator, and
   * its length reported. The buffer holds `before` and then `after`.
   */
  predicate FetchedOne(q: seq<Pending>, len: int, before: seq<char>,
                       r: WrapperResult, lenAfter: int, after: seq<char>)
  {
    if q == [] || q[0].FetchFault? then
      r == MercuryErrIo && lenAfter == len && after == before
    else
      var epc := q[0].tag.epc;
      var n := 2 * |epc|;
      if len < NeededLen(epc) then
        r == MercuryErrInvalidArg && lenAfter == NeededLen(epc) && after == before
      else
        r == MercuryOk && lenAfter == n && |after| == |before| && n < |after| &&
        after[..n] == HexEncode(epc) && after[n] == Nul && after[n + 1..] == before[n + 1..]
  }

  /**
   * mercuryapi_fetch_one_epc: pops the next queued tag and writes its EPC
   * as hex into the caller's buffer of `*inout_len` chars. A buffer too
   * small gets INVALID_ARG with the needed size in `*inout_len`; the tag is
   * consumed either way.
   */
  method FetchOneEpc(w: WrapperReader?, outEpc: array?<char>, inoutLen: RfidApi.IntCell?)
    returns (r: WrapperResult)
    requires w != null ==> w.Valid()
    requires outEpc != null && inoutLen != null && inoutLen.value > 0 ==> inoutLen.value <= outEpc.Length
    modifies outEpc, inoutLen, if w != null then {w.reader} else {}
    ensures w != null ==>
              unchanged(w.reader`created, w.reader`connected, w.reader`uri, w.reader`params, w.reader`device)
    ensures w == null || outEpc == null || inoutLen == null || old(inoutLen.value) <= 0 ==>
              r == MercuryErrInvalidArg && (outEpc != null ==> unchanged(outEpc)) &&
              (inoutLen != null ==> unchanged(inoutLen)) && (w != null ==> unchanged(w.reader))
    ensures w != null && outEpc != null && inoutLen != null && old(inoutLen.value) > 0 ==>
              var q := old(w.reader.queue);
              if !w.connected then
                r == MercuryErrNotConnected && unchanged(outEpc, inoutLen) && w.reader.queue == q
              else
                w.reader.queue == (if q == [] then q else q[1..]) &&
                FetchedOne(q, old(inoutLen.value), old(outEpc[..]), r, inoutLen.value, outEpc[..])
  {
    if w == null || outEpc == null || inoutLen == null || inoutLen.value <= 0 {
      return MercuryErrInvalidArg;
    }
    if !w.connected {
      return MercuryErrNotConnected;
    }
    var st := w.reader.HasMoreTags();
    if st != Success {
      return MapStatusEx(st);
    }
    var trd;
    st, trd := w.reader.GetNextTag();
    if st != Success {
      return MapStatusEx(st);
    }
    var need := 2 * |trd.epc| + 1;
    if inoutLen.value < need {
      inoutLen.value := need;
      return MercuryErrInvalidArg;
    }
    WriteHex(outEpc, trd.epc);
    inoutLen.value := 2 * |trd.epc|;
    r := MercuryOk;
  }

  /**
   * mercuryapi_read_one_epc: one timed read (the timeout cast to 32 bits
   * unsigned), NO_TAG when it reports nothing, else the first EPC fetched
   * as mercuryapi_fetch_one_epc does.
   */
  method ReadOneEpc(w: WrapperReader?, outEpc: array?<char>, inoutLen: RfidApi.IntCell?, timeoutMs: i32)
    returns (r: WrapperResult)
    requires w != null ==> w.Valid()
    requires outEpc != null && inoutLen != null && inoutLen.value > 0 ==> inoutLen.value <= outEpc.Length
    modifies outEpc, inoutLen, if w != null then {w.reader} else {}
    ensures w != null ==> unchanged(w.reader`created, w.reader`connected, w.reader`uri, w.reader`params)
    ensures w == null || outEpc == null || inoutLen == null || old(inoutLen.value) <= 0 ==>
              r == MercuryErrInvalidArg && (outEpc != null ==> unchanged(outEpc)) &&
              (inoutLen != null ==> unchanged(inoutLen)) && (w != null ==> unchanged(w.reader))
    ensures w != null && outEpc != null && inoutLen != null && old(inoutLen.value) > 0 ==>
              var d := old(w.reader.device);
              var round := NextRound(d);
              if !w.connected then
                r == MercuryErrNotConnected && unchanged(outEpc, inoutLen) && unchanged(w.reader)
              else if Fails(d, Call.TimedRead) then
                r == MercuryErrIo && unchanged(outEpc, inoutLen) && unchanged(w.reader)
              else
                w.reader.device == AfterRound(d) &&
                if round == [] then
                  r == MercuryErrNoTag && unchanged(outEpc, inoutLen) && w.reader.queue == []
                else
                  w.reader.queue == round[1..] &&
                  FetchedOne(round, old(inoutLen.value), old(outEpc[..]), r, inoutLen.value, outEpc[..])
  {
    if w == null || outEpc == null || inoutLen == null || inoutLen.value <= 0 {
      return MercuryErrInvalidArg;
    }
    if !w.connected {
      return MercuryErrNotConnected;
    }
    var st, tagCount := w.reader.TimedRead(ToU32(timeoutMs as int));
    if st != Success {
      return MapStatusEx(st);
    }
    if tagCount <= 0 {
      return MercuryErrNoTag;
    }
    r := FetchOneEpc(w, outEpc, inoutLen);
  }

  /** mercuryapi_get_read_power_dbm: the SDK's read power (in cdBm, whatever the name says). */
  method GetReadPowerDbm(w: WrapperReader?, out: RfidApi.IntCell?) returns (r: WrapperResult)
    requires w != null ==> w.Valid()
    modifies out
    ensures w == null || out == null ==> r == MercuryErrInvalidArg && (out != null ==> unchanged(out))
    ensures w != null && out != null && !w.connected ==> r == MercuryErrNotConnected && unchanged(out)
    ensures w != null && out != null && w.connected ==>
              r == MapStatusEx(w.reader.Outcome(Call.GetReadPower)) &&
              if r == MercuryOk then out.value == w.reader.params.readPower.GetOr(w.reader.device.defaultReadPower) as int
              else unchanged(out)
  {
    if w == null || out == null {
      return MercuryErrInvalidArg;
    }
    if !w.connected {
      return MercuryErrNotConnected;
    }
    var st, cdbm := w.reader.GetReadPower();
    if st != Success {
      return MapStatusEx(st);
    }
    out.value := cdbm as int;
    r := MercuryOk;
  }

  /** mercuryapi_set_antenna_check_port: any non-zero `enable` turns the check on. */
  method SetAntennaCheckPort(w: WrapperReader?, enable: i32) returns (r: WrapperResult)
    requires w != null ==> w.Valid()
    modifies if w != null then {w.reader} else {}
    ensures w != null ==>
              unchanged(w.reader`created, w.reader`connected, w.reader`uri, w.reader`device, w.reader`queue)
    ensures w == null ==> r == MercuryErrInvalidArg
    ensures w != null && !w.connected ==> r == MercuryErrNotConnected && unchanged(w.reader)
    ensures w != null && w.connected ==>
              r == MapStatusEx(w.reader.Outcome(Call.SetCheckPort)) &&
              w.reader.params ==
                if r == MercuryOk then old(w.reader.params).(checkPort := Some(enable != 0))
                else old(w.reader.params)
  {
    if w == null {
      return MercuryErrInvalidArg;
    }
    if !w.connected {
      return MercuryErrNotConnected;
    }
    var st := w.reader.SetCheckPort(enable != 0);
    r := MapStatusEx(st);
  }

  // ---------------------------------------------------------------------
  // mercuryapi_read_epcs
  // ---------------------------------------------------------------------

  /** Why the read_epcs loop stopped. */
  datatype EpcsStop =
    | SlotsFull                   // every one of the `max_tags` slots holds an EPC
    | QueueEmpty                  // TMR_hasMoreTags reported nothing more
    | FetchFailed                 // TMR_getNextTag failed
    | BadSlot                     // a NULL slot or one of size zero or less
    | SlotTooSmall(need: int)     // the slot cannot hold the EPC's text and terminator

  /** The EPCs stored in slot order, why the loop stopped, and what is left queued. */
  datatype EpcsRun = EpcsRun(stored: seq<seq<u8>>, stop: EpcsStop, rest: seq<Pending>)

  /** Entry `p` goes into a slot of size `size`: a tag whose hex text and terminator fit a positive size. */
  predicate Storable(p: Pending, size: int) {
    p.Observation? && 0 < size && NeededLen(p.tag.epc) <= size
  }

  /** Why the loop stops at an entry it cannot store. */
  function HaltStop(p: Pending, size: int): (stop: EpcsStop)
    requires !Storable(p, size)
    ensures stop.FetchFailed? || stop.BadSlot? || stop.SlotTooSmall?
  {
    if p.FetchFault? then FetchFailed
    else if size <= 0 then BadSlot
    else SlotTooSmall(NeededLen(p.tag.epc))
  }

  /**
   * The read_epcs loop as a function of the queue and the sizes of the
   * slots it has yet to fill (a NULL slot counting as size 0).
   */
  function DrainEpcs(q: seq<Pending>, sizes: seq<int>): (run: EpcsRun)
    ensures |run.stored| <= |sizes|
    decreases |sizes|
  {
    if sizes == [] then EpcsRun([], SlotsFull, q)
    else if q == [] then EpcsRun([], QueueEmpty, q)
    else if Storable(q[0], sizes[0]) then
      var run := DrainEpcs(q[1..], sizes[1..]);
      run.(stored := [q[0].tag.epc] + run.stored)
    else EpcsRun([], HaltStop(q[0], sizes[0]), q[1..])
  }

  /**
   * The loop stores the EPCs of the first entries, one per slot, each an
   * observation whose text fits its slot, and goes on until every slot is
   * full, the queue is empty, or the next entry cannot be stored. With
   * DrainEpcsStopsAt this characterises the run completely.
   */
  lemma {:induction false} DrainEpcsStores(q: seq<Pending>, sizes: seq<int>)
    ensures var run := DrainEpcs(q, sizes);
      var n := |run.stored|;
      n <= |q| && n <= |sizes| &&
      (forall k :: 0 <= k < n ==> Storable(q[k], sizes[k]) && run.stored[k] == q[k].tag.epc) &&
      (n == |sizes| || n == |q| || !Storable(q[n], sizes[n]))
  {
    if sizes != [] && q != [] && Storable(q[0], sizes[0]) {
      var q1, sizes1 := q[1..], sizes[1..];
      var run1 := DrainEpcs(q1, sizes1);
      DrainEpcsStores(q1, sizes1);
      var run := DrainEpcs(q, sizes);
      assert run.stored == [q[0].tag.epc] + run1.stored;
      forall k | 1 <= k < |run.stored|
        ensures Storable(q[k], sizes[k]) && run.stored[k] == q[k].tag.epc
      {
        assert q[k] == q1[k - 1] && sizes[k] == sizes1[k - 1] && run.stored[k] == run1.stored[k - 1];
      }
    }
  }

  /**
   * The run of a loop that has stored `stored`, one EPC per entry, and then
   * stops: with every slot full, with the queue empty, or at an entry it
   * cannot store.
   */
  lemma {:induction false} DrainEpcsStopsAt(q: seq<Pending>, sizes: seq<int>, stored: seq<seq<u8>>)
    requires |stored| <= |q| && |stored| <= |sizes|
    requires forall k :: 0 <= k < |stored| ==> Storable(q[k], sizes[k]) && stored[k] == q[k].tag.epc
    requires |stored| == |sizes| || |stored| == |q| || !Storable(q[|stored|], sizes[|stored|])
    ensures DrainEpcs(q, sizes).stored == stored
    ensures var n := |stored|;
            DrainEpcs(q, sizes).stop ==
              if n == |sizes| then SlotsFull else if n == |q| then QueueEmpty else HaltStop(q[n], sizes[n])
    ensures var n := |stored|;
            DrainEpcs(q, sizes).rest ==
              if n == |sizes| then q[n..] else if n == |q| then [] else q[n + 1..]
  {
    if stored != [] {
      var n := |stored|;
      var q1, sizes1, stored1 := q[1..], sizes[1..], stored[1..];
      forall k | 0 <= k < |stored1|
        ensures Storable(q1[k], sizes1[k]) && stored1[k] == q1[k].tag.epc
      {
        assert q1[k] == q[k + 1] && sizes1[k] == sizes[k + 1] && stored1[k] == stored[k + 1];
      }
      if n < |sizes| && n < |q| {
        assert q1[n - 1] == q[n] && sizes1[n - 1] == sizes[n];
      }
      DrainEpcsStopsAt(q1, sizes1, stored1);
      assert q1[n - 1..] == q[n..];
      if n < |q| {
        assert q1[n..] == q[n + 1..];
      }
      assert stored == [q[0].tag.epc] + stored1;
    }
  }

  /**
   * `sizes` are the sizes the loop sees for `slots` when the caller's
   * sizes are `lens` (a NULL slot counting as 0), and each size fits its slot.
   */
  predicate SizesFit(slots: seq<array?<char>>, lens: seq<int>, sizes: seq<int>) {
    |lens| == |sizes| == |slots| &&
    (forall k {:trigger sizes[k]} :: 0 <= k < |slots| ==> sizes[k] == if slots[k] == null then 0 else lens[k]) &&
    (forall k {:trigger lens[k]} :: 0 <= k < |slots| && slots[k] != null ==> lens[k] <= slots[k].Length)
  }

  /** No two slots share a buffer. */
  predicate Distinct(slots: seq<array?<char>>) {
    forall i, j :: 0 <= i < j < |slots| && slots[i] != null ==> slots[i] != slots[j]
  }

  /** The non-NULL slot buffers among `slots`. */
  function Buffers(slots: seq<array?<char>>): set<array?<char>>
  {
    set k | 0 <= k < |slots| && slots[k] != null :: slots[k]
  }

  /** The slot buffers of the first `n` entries of the caller's `epcs` array. */
  function Slots(epcs: array?<array?<char>>, n: int): set<array?<char>>
    reads epcs
  {
    if epcs == null then {} else Buffers(epcs[..if n < 0 then 0 else if n > epcs.Length then epcs.Length else n])
  }

  /** The sizes the read_epcs loop sees for `slots`, a NULL slot counting as 0. */
  function SlotSizes(slots: seq<array?<char>>, epcLens: array<int>): seq<int>
    requires |slots| <= epcLens.Length
    reads epcLens
  {
    seq(|slots|, k requires 0 <= k < |slots| reads epcLens => if slots[k] == null then 0 else epcLens[k])
  }

  /** The contents of the slot buffers, a NULL slot as the empty text. */
  function SlotContents(slots: seq<array?<char>>): seq<seq<char>>
    reads Buffers(slots)
  {
    seq(|slots|, k requires 0 <= k < |slots| reads Buffers(slots) => if slots[k] == null then [] else slots[k][..])
  }

  /** Slot buffer `buf` holds the hex text of `epc`, its terminator, and `before`'s other chars; `len` is the text's length. */
  ghost predicate SlotHolds(buf: array<char>, len: int, epc: seq<u8>, before: seq<char>)
    reads buf
  {
    var n := 2 * |epc|;
    n < buf.Length == |before| && len == n &&
    buf[..n] == HexEncode(epc) && buf[n] == Nul && buf[n + 1..] == before[n + 1..]
  }

  /**
   * The first slots hold the EPCs `stored`; the later slot buffers still
   * hold `bufs`, and the sizes after the next slot are still `lens`.
   */
  ghost predicate SlotsStored(slots: seq<array?<char>>, epcLens: array<int>,
                              stored: seq<seq<u8>>, bufs: seq<seq<char>>, lens: seq<int>)
    reads epcLens, Buffers(slots)
  {
    |stored| <= |slots| <= epcLens.Length && |bufs| == |slots| && |lens| == |slots| &&
    (forall k {:trigger stored[k]} :: 0 <= k < |stored| ==>
       slots[k] != null && SlotHolds(slots[k], epcLens[k], stored[k], bufs[k])) &&
    (forall k {:trigger bufs[k]} :: |stored| <= k < |slots| && slots[k] != null ==> slots[k][..] == bufs[k]) &&
    (forall k {:trigger lens[k]} :: |stored| < k < |slots| ==> epcLens[k] == lens[k])
  }

  /** The result and count read_epcs reports for a run of its loop. */
  predicate EpcsReported(run: EpcsRun, r: WrapperResult, count: int) {
    var n := |run.stored|;
    match run.stop
    case SlotsFull => r == MercuryOk && count == n
    case QueueEmpty => count == n && r == (if n > 0 then MercuryOk else MercuryErrNoTag)
    case FetchFailed => r == MercuryErrIo && count == 0
    case BadSlot => r == MercuryErrInvalidArg && count == 0
    case SlotTooSmall(_) => r == MercuryErrInvalidArg && count == n
  }

  /**
   * mercuryapi_read_epcs: one timed read, then up to `max_tags` EPCs, one
   * per caller slot, as hex text with its length in `epc_lens`. It stops
   * early when the queue empties, and fails on a failing fetch, a NULL or
   * empty slot, or a slot too small, which gets the size it needs; of the
   * failures only the last counts the EPCs already stored in `*out_count`.
   * Entries past `max_tags` stay queued.
   */
  method ReadEpcs(w: WrapperReader?, epcs: array?<array?<char>>, epcLens: array?<int>, maxTags: i32,
                  outCount: RfidApi.IntCell?, timeoutMs: i32)
    returns (r: WrapperResult)
    requires w != null ==> w.Valid()
    requires epcs != null && epcLens != null && maxTags > 0 ==>
               maxTags as int <= epcs.Length && maxTags as int <= epcLens.Length &&
               (forall k :: 0 <= k < maxTags && epcs[k] != null ==> epcLens[k] <= epcs[k].Length) &&
               (forall i, j :: 0 <= i < j < maxTags && epcs[i] != null ==> epcs[i] != epcs[j])
    modifies outCount, epcLens, Slots(epcs, maxTags as int), if w != null then {w.reader} else {}
    ensures outCount == null ==> r == MercuryErrInvalidArg
    ensures outCount != null && (w == null || epcs == null || epcLens == null || maxTags <= 0) ==>
              r == MercuryErrInvalidArg && outCount.value == 0 &&
              (epcLens != null ==> unchanged(epcLens)) && (w != null ==> unchanged(w.reader))
    ensures w != null ==> unchanged(w.reader`created, w.reader`connected, w.reader`uri, w.reader`params)
    ensures outCount != null && w != null && epcs != null && epcLens != null && maxTags > 0 ==>
              var slots := epcs[..maxTags];
              var d := old(w.reader.device);
              var round := NextRound(d);
              var run := DrainEpcs(round, old(SlotSizes(slots, epcLens)));
              var n := |run.stored|;
              if !w.connected then
                r == MercuryErrNotConnected && outCount.value == 0 && unchanged(w.reader) && unchanged(epcLens)
              else if Fails(d, Call.TimedRead) then
                r == MercuryErrIo && outCount.value == 0 && unchanged(w.reader) && unchanged(epcLens)
              else if round == [] then
                r == MercuryErrNoTag && outCount.value == 0 && w.reader.queue == [] &&
                w.reader.device == AfterRound(d) && unchanged(epcLens)
              else
                w.reader.device == AfterRound(d) && w.reader.queue == run.rest &&
                SlotsStored(slots, epcLens, run.stored, old(SlotContents(slots)), old(epcLens[..maxTags])) &&
                (n < maxTags as int ==>
                   epcLens[n] == if run.stop.SlotTooSmall? then run.stop.need else old(epcLens[n])) &&
                EpcsReported(run, r, outCount.value)
  {
    if outCount == null {
      return MercuryErrInvalidArg;
    }
    outCount.value := 0;
    if w == null || epcs == null || epcLens == null || maxTags <= 0 {
      return MercuryErrInvalidArg;
    }
    if !w.connected {
      return MercuryErrNotConnected;
    }
    ghost var slots := epcs[..maxTags];
    ghost var sizes := SlotSizes(slots, epcLens);
    ghost var bufs := SlotContents(slots);
    ghost var lens := epcLens[..maxTags];
    var st, tagCount := w.reader.TimedRead(ToU32(timeoutMs as int));
    if st != Success {
      return MapStatusEx(st);
    }
    if tagCount <= 0 {
      return MercuryErrNoTag;
    }
    var n;
    n, r := StoreEpcs(w.reader, epcs[..maxTags], epcLens, outCount, sizes, bufs, lens);
  }

  /**
   * The loop of mercuryapi_read_epcs over a non-empty round already in the
   * queue, with `*out_count` still 0; `slots` are the first `max_tags`
   * entries of `epcs`, which the loop only reads.
   */
  method StoreEpcs(reader: Reader, slots: seq<array?<char>>, epcLens: array<int>, outCount: RfidApi.IntCell,
                   ghost sizes: seq<int>, ghost bufs: seq<seq<char>>, ghost lens: seq<int>)
    returns (n: nat, r: WrapperResult)
    requires 0 < |slots| <= epcLens.Length && outCount.value == 0
    requires lens == epcLens[..|slots|] && SizesFit(slots, lens, sizes)
    requires SlotsStored(slots, epcLens, [], bufs, lens) && Distinct(slots)
    modifies outCount, epcLens, Buffers(slots), reader`queue
    ensures var run := DrainEpcs(old(reader.queue), sizes);
            n == |run.stored| && reader.queue == run.rest &&
            SlotsStored(slots, epcLens, run.stored, bufs, lens) &&
            (n < |slots| ==> epcLens[n] == if run.stop.SlotTooSmall? then run.stop.need else lens[n]) &&
            EpcsReported(run, r, outCount.value)
  {
    ghost var q0 := reader.queue;
    ghost var stored: seq<seq<u8>> := [];
    n := 0;
    while n < |slots|
      invariant 0 <= n <= |slots| && |stored| == n
      invariant outCount.value == 0
      invariant n <= |q0| && reader.queue == q0[n..]
      invariant forall k :: 0 <= k < n ==> Storable(q0[k], sizes[k]) && stored[k] == q0[k].tag.epc
      invariant SlotsStored(slots, epcLens, stored, bufs, lens)
      invariant n < |slots| ==> epcLens[n] == lens[n]
      decreases |slots| - n
    {
      var st := reader.HasMoreTags();
      if st != Success {
        break;
      }
      var halt;
      ghost var epc;
      halt, r, epc := TakeEpc(reader, slots, epcLens, outCount, n, stored, sizes, bufs, lens);
      if halt {
        DrainEpcsStopsAt(q0, sizes, stored);
        assert reader.queue == q0[n + 1..];
        assert DrainEpcs(q0, sizes) == EpcsRun(stored, HaltStop(q0[n], sizes[n]), reader.queue);
        return n, r;
      }
      assert reader.queue == q0[n + 1..];
      stored := stored + [epc];
      n := n + 1;
    }
    DrainEpcsStopsAt(q0, sizes, stored);
    outCount.value := n;
    r := if n > 0 then MercuryOk else MercuryErrNoTag;
  }

  /**
   * The body of the read_epcs loop once TMR_hasMoreTags has succeeded:
   * fetch the next entry into slot `n`, or stop with the result read_epcs
   * returns. `epc` is the EPC stored when the loop goes on.
   */
  method TakeEpc(reader: Reader, slots: seq<array?<char>>, epcLens: array<int>, outCount: RfidApi.IntCell, n: nat,
                 ghost stored: seq<seq<u8>>, ghost sizes: seq<int>, ghost bufs: seq<seq<char>>, ghost lens: seq<int>)
    returns (halt: bool, r: WrapperResult, ghost epc: seq<u8>)
    requires reader.queue != [] && outCount.value == 0
    requires n == |stored| < |slots| == |sizes| == |lens|
    requires SlotsStored(slots, epcLens, stored, bufs, lens) && epcLens[n] == lens[n]
    requires sizes[n] == (if slots[n] == null then 0 else lens[n])
    requires slots[n] != null ==> lens[n] <= slots[n].Length
    requires Distinct(slots)
    modifies outCount, epcLens, Buffers(slots), reader`queue
    ensures reader.queue == old(reader.queue)[1..]
    ensures var p := old(reader.queue)[0];
            if Storable(p, sizes[n]) then
              !halt && epc == p.tag.epc && outCount.value == 0 &&
              SlotsStored(slots, epcLens, stored + [epc], bufs, lens) &&
              (n + 1 < |slots| ==> epcLens[n + 1] == lens[n + 1])
            else
              var stop := HaltStop(p, sizes[n]);
              halt && SlotsStored(slots, epcLens, stored, bufs, lens) &&
              epcLens[n] == (if stop.SlotTooSmall? then stop.need else lens[n]) &&
              EpcsReported(EpcsRun(stored, stop, reader.queue), r, outCount.value)
  {
    var st, trd := reader.GetNextTag();
    epc := trd.epc;
    if st != Success {
      return true, MapStatusEx(st), epc;
    }
    var slot := slots[n];
    if slot == null || epcLens[n] <= 0 {
      return true, MercuryErrInvalidArg, epc;
    }
    var need := 2 * |trd.epc| + 1;
    if epcLens[n] < need {
      ReportNeed(slots, epcLens, n, need, stored, bufs, lens);
      outCount.value := n;
      return true, MercuryErrInvalidArg, epc;
    }
    r := MercuryOk;
    StoreSlot(slots, epcLens, n, trd.epc, stored, bufs, lens);
    halt := false;
  }

  /** The early exit of the read_epcs loop on a slot too small: the slot's size becomes `need`. */
  method ReportNeed(slots: seq<array?<char>>, epcLens: array<int>, n: nat, need: int,
                    ghost stored: seq<seq<u8>>, ghost bufs: seq<seq<char>>, ghost lens: seq<int>)
    requires SlotsStored(slots, epcLens, stored, bufs, lens) && n == |stored| < |slots|
    modifies epcLens
    ensures SlotsStored(slots, epcLens, stored, bufs, lens)
    ensures epcLens[n] == need
  {
    epcLens[n] := need;
    forall k | 0 <= k < |stored|
      ensures slots[k] != null && SlotHolds(slots[k], epcLens[k], stored[k], bufs[k])
    {
      var e := stored[k];
      assert slots[k] != null;
      assert old(SlotHolds(slots[k], epcLens[k], e, bufs[k]));
    }
  }

  /** One step of the read_epcs loop: the next slot gets the EPC's hex text, terminator and length. */
  method StoreSlot(slots: seq<array?<char>>, epcLens: array<int>, n: nat, epc: seq<u8>,
                   ghost stored: seq<seq<u8>>, ghost bufs: seq<seq<char>>, ghost lens: seq<int>)
    requires SlotsStored(slots, epcLens, stored, bufs, lens) && n == |stored| < |slots|
    requires slots[n] != null && NeededLen(epc) <= epcLens[n] <= slots[n].Length
    requires Distinct(slots)
    modifies slots[n], epcLens
    ensures SlotsStored(slots, epcLens, stored + [epc], bufs, lens)
    ensures epcLens[n + 1..] == old(epcLens[n + 1..])
  {
    var slot := slots[n];
    WriteHex(slot, epc);
    epcLens[n] := 2 * |epc|;
    var now := stored + [epc];
    forall k | 0 <= k < |now|
      ensures slots[k] != null && SlotHolds(slots[k], epcLens[k], now[k], bufs[k])
    {
      if k < n {
        assert now[k] == stored[k] && slots[k] != null && slots[k] != slot;
        assert old(SlotHolds(slots[k], epcLens[k], stored[k], bufs[k]));
      }
    }
    forall k | |now| <= k < |slots| && slots[k] != null
      ensures slots[k][..] == bufs[k]
    {
      assert slots[k] != slot;
    }
  }
}
