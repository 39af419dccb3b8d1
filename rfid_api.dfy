/**
 * The C façade of the library (c_lib/api/rfid_api.c): a session context
 * around one SDK reader handle, created, connected and configured by
 * rfid_init, released by rfid_deinit, re-powered by rfid_set_write_power
 * and drained by rfid_read.
 *
 * Pointers the caller passes become references or `Option`s, NULL being
 * `null` or `None`; the diagnostic out-parameters `out_status` and
 * `out_errstr` are not modelled.
 */
module RfidApi {
  import opened BoundedInts
  import opened Wrappers
  import opened RfidTypes
  import opened TmrSdk
  import opened TagPipeline

  /** RFID_DEFAULT_PLAN_READTIME: the plan read time (ms) when none is given. */
  const DefaultPlanReadTime: u32 := 1000
  /** RFID_MAX_ANTENNAS */
  const MaxAntennas: int := 16
  /** RFID_REGIONLIST_MAX: the slots offered to the SDK for the supported-region list. */
  const RegionListMax: nat := 32
  /** The ceiling rfid_set_write_power puts on the read power (cdBm). */
  const MaxWritePowerCdbm: int := 3000

  // ---------------------------------------------------------------------
  // Names and mappings
  // ---------------------------------------------------------------------

  /** MapRegion_: the SDK region of a requested region; AUTO and unknown values have none. */
  function MapRegion(region: RfidRegion): (r: TmrRegion)
    ensures r == RegionNone <==> region !in {RfidRegionKr2, RfidRegionUs, RfidRegionEu}
    ensures region == RfidRegionKr2 <==> r == RegionKR2
    ensures region == RfidRegionUs <==> r == RegionNA
    ensures region == RfidRegionEu <==> r == RegionEU
  {
    if region == RfidRegionKr2 then RegionKR2
    else if region == RfidRegionUs then RegionNA
    else if region == RfidRegionEu then RegionEU
    else RegionNone
  }

  /** rfid_result_to_string: a name for every value, INTERNAL_ERROR's for unknown ones. */
  function ResultToString(r: RfidResult): (s: string)
    ensures !IsKnownResult(r) ==> s == "RFID_RESULT_INTERNAL_ERROR"
  {
    if r == RfidResultOk then "RFID_RESULT_OK"
    else if r == RfidResultDisabled then "RFID_RESULT_DISABLED"
    else if r == RfidResultInvalidArg then "RFID_RESULT_INVALID_ARG"
    else if r == RfidResultNotInitialized then "RFID_RESULT_NOT_INITIALIZED"
    else if r == RfidResultConnectFail then "RFID_RESULT_CONNECT_FAIL"
    else if r == RfidResultRegionFail then "RFID_RESULT_REGION_FAIL"
    else if r == RfidResultPlanFail then "RFID_RESULT_PLAN_FAIL"
    else if r == RfidResultReadFail then "RFID_RESULT_READ_FAIL"
    else "RFID_RESULT_INTERNAL_ERROR"
  }

  /** The code a result name stands for; the inverse of ResultToString on the nine codes. */
  function ResultFromString(s: string): (r: Option<RfidResult>)
    ensures r.Some? ==> IsKnownResult(r.value)
  {
    if s == "RFID_RESULT_OK" then Some(RfidResultOk)
    else if s == "RFID_RESULT_DISABLED" then Some(RfidResultDisabled)
    else if s == "RFID_RESULT_INVALID_ARG" then Some(RfidResultInvalidArg)
    else if s == "RFID_RESULT_NOT_INITIALIZED" then Some(RfidResultNotInitialized)
    else if s == "RFID_RESULT_CONNECT_FAIL" then Some(RfidResultConnectFail)
    else if s == "RFID_RESULT_REGION_FAIL" then Some(RfidResultRegionFail)
    else if s == "RFID_RESULT_PLAN_FAIL" then Some(RfidResultPlanFail)
    else if s == "RFID_RESULT_READ_FAIL" then Some(RfidResultReadFail)
    else if s == "RFID_RESULT_INTERNAL_ERROR" then Some(RfidResultInternalError)
    else None
  }

  /** Each of the nine codes has its own name, which names it back. */
  lemma ResultNamesRoundTrip(r: RfidResult)
    ensures IsKnownResult(r) ==> ResultFromString(ResultToString(r)) == Some(r)
    ensures !IsKnownResult(r) ==> ResultFromString(ResultToString(r)) == Some(RfidResultInternalError)
  {
  }

  /** rfid_region_to_string: a name for every value, RFID_REGION_UNKNOWN for unknown ones. */
  function RegionToString(region: RfidRegion): (s: string)
    ensures !IsKnownRegion(region) <==> s == "RFID_REGION_UNKNOWN"
  {
    if region == RfidRegionAuto then "RFID_REGION_AUTO"
    else if region == RfidRegionKr2 then "RFID_REGION_KR2"
    else if region == RfidRegionUs then "RFID_REGION_US"
    else if region == RfidRegionEu then "RFID_REGION_EU"
    else "RFID_REGION_UNKNOWN"
  }

  /** The region a region name stands for; the inverse of RegionToString on the four regions. */
  function RegionFromString(s: string): (r: Option<RfidRegion>)
    ensures r.Some? ==> IsKnownRegion(r.value)
  {
    if s == "RFID_REGION_AUTO" then Some(RfidRegionAuto)
    else if s == "RFID_REGION_KR2" then Some(RfidRegionKr2)
    else if s == "RFID_REGION_US" then Some(RfidRegionUs)
    else if s == "RFID_REGION_EU" then Some(RfidRegionEu)
    else None
  }

  lemma RegionNamesRoundTrip(region: RfidRegion)
    ensures IsKnownRegion(region) ==> RegionFromString(RegionToString(region)) == Some(region)
    ensures !IsKnownRegion(region) ==> RegionFromString(RegionToString(region)) == None
  {
  }

  // ---------------------------------------------------------------------
  // Parameter checks
  // ---------------------------------------------------------------------

  /** IsNullOrEmpty_ */
  predicate IsNullOrEmpty(s: Option<string>) {
    s.None? || s.value == []
  }

  /** An antenna count within (0, RFID_MAX_ANTENNAS]. */
  predicate AntennaCountInRange(count: i32) {
    0 < count <= MaxAntennas
  }

  /** An antenna number that fits the SDK's 8-bit antenna list and is not 0. */
  predicate ValidAntenna(a: i32) {
    0 < a <= 255
  }

  /**
   * The C array behind `antennas` holds at least `count` entries whenever
   * the code reads that many: the caller's side of the array argument.
   */
  predicate AntennaArrayCovers(antennas: Option<seq<i32>>, count: i32) {
    antennas.Some? && AntennaCountInRange(count) ==> count <= |antennas.value|
  }

  /**
   * ValidateInitParams_: a missing out-pointer or parameter block, then a
   * disabled reader, then a missing or empty URI, then a missing antenna
   * array or a count outside (0, 16], in that order.
   */
  function ValidateInitParams(slotPresent: bool, params: Option<InitParams>): (r: RfidResult)
    ensures r in {RfidResultOk, RfidResultDisabled, RfidResultInvalidArg}
    ensures r == RfidResultDisabled <==> slotPresent && params.Some? && params.value.rfidEnable == 0
    ensures r == RfidResultOk <==>
              slotPresent && params.Some? && params.value.rfidEnable != 0 &&
              !IsNullOrEmpty(params.value.uri) && params.value.antennas.Some? &&
              AntennaCountInRange(params.value.antennaCount)
  {
    if !slotPresent || params.None? then RfidResultInvalidArg
    else if params.value.rfidEnable == 0 then RfidResultDisabled
    else if IsNullOrEmpty(params.value.uri) then RfidResultInvalidArg
    else if params.value.antennas.None? || !AntennaCountInRange(params.value.antennaCount) then RfidResultInvalidArg
    else RfidResultOk
  }

  /** The antenna list of a read plan: the first `count` entries, if all are valid. */
  function PlanAntennas(antennas: Option<seq<i32>>, count: i32): Option<seq<u8>>
    requires AntennaArrayCovers(antennas, count)
  {
    if antennas.None? || !AntennaCountInRange(count) then None
    else if exists i :: 0 <= i < count && !ValidAntenna(antennas.value[i]) then None
    else Some(seq(count, i requires 0 <= i < count => antennas.value[i] as u8))
  }

  /** The plan read time: the timeout if positive, else RFID_DEFAULT_PLAN_READTIME. */
  function PlanReadTime(timeoutMs: i32): (t: u32)
    ensures timeoutMs > 0 ==> t == timeoutMs
    ensures timeoutMs <= 0 ==> t == DefaultPlanReadTime
  {
    if timeoutMs > 0 then timeoutMs else DefaultPlanReadTime
  }

  /** The plan ConfigureReadPlan_ installs, if the antennas are acceptable. */
  function PlanFor(antennas: Option<seq<i32>>, count: i32, timeoutMs: i32): Option<ReadPlan>
    requires AntennaArrayCovers(antennas, count)
  {
    match PlanAntennas(antennas, count)
    case None => None
    case Some(list) => Some(SimpleGen2Plan(list, PlanReadTime(timeoutMs)))
  }

  /**
   * The result of ConfigureReadPlan_ against device `d`: bad antennas
   * before any SDK call, then the plan build, then the parameter write.
   */
  function PlanResult(antennas: Option<seq<i32>>, count: i32, d: Device): (r: RfidResult)
    requires AntennaArrayCovers(antennas, count)
    ensures r in {RfidResultOk, RfidResultInvalidArg, RfidResultPlanFail}
    ensures r == RfidResultInvalidArg <==> PlanAntennas(antennas, count).None?
    ensures r == RfidResultOk <==>
              PlanAntennas(antennas, count).Some? && !Fails(d, Call.InitPlan) && !Fails(d, Call.SetPlan)
  {
    if PlanAntennas(antennas, count).None? then RfidResultInvalidArg
    else if Fails(d, Call.InitPlan) || Fails(d, Call.SetPlan) then RfidResultPlanFail
    else RfidResultOk
  }

  /** The plan check rejects a count outside (0, 16] and any antenna outside (0, 255]. */
  lemma PlanAntennasRejects(antennas: seq<i32>, count: i32, i: int)
    requires AntennaArrayCovers(Some(antennas), count)
    requires !AntennaCountInRange(count) || (0 <= i < count && !ValidAntenna(antennas[i]))
    ensures PlanAntennas(Some(antennas), count).None?
  {
  }

  /** An accepted plan lists the requested antennas, in order, as bytes. */
  lemma PlanAntennasAccepts(antennas: seq<i32>, count: i32)
    requires AntennaCountInRange(count) && count <= |antennas|
    requires forall i :: 0 <= i < count ==> ValidAntenna(antennas[i])
    ensures PlanAntennas(Some(antennas), count).Some?
    ensures |PlanAntennas(Some(antennas), count).value| == count as int
    ensures forall i :: 0 <= i < count ==> PlanAntennas(Some(antennas), count).value[i] == antennas[i]
  {
  }

  // ---------------------------------------------------------------------
  // Region selection
  // ---------------------------------------------------------------------

  /** The part of the supported-region list the SDK fits into RFID_REGIONLIST_MAX slots. */
  function UsableRegions(d: Device): (usable: seq<TmrRegion>)
    ensures |usable| <= RegionListMax
    ensures usable <= d.supportedRegions
  {
    d.supportedRegions[..Min(|d.supportedRegions|, RegionListMax)]
  }

  /**
   * SelectAutoRegion_ on device `d`: none if the query fails or the usable
   * list is empty; otherwise KR2 when listed, else the first entry.
   */
  function AutoRegion(d: Device): (r: Option<TmrRegion>)
    ensures r.None? <==> Fails(d, Call.GetSupportedRegions) || UsableRegions(d) == []
    ensures r.Some? ==> r.value in UsableRegions(d)
    ensures r.Some? ==> (r.value == RegionKR2 <==> RegionKR2 in UsableRegions(d))
    ensures r.Some? && RegionKR2 !in UsableRegions(d) ==> r.value == UsableRegions(d)[0]
  {
    if Fails(d, Call.GetSupportedRegions) || UsableRegions(d) == [] then None
    else if RegionKR2 in UsableRegions(d) then Some(RegionKR2)
    else Some(UsableRegions(d)[0])
  }

  /** A reader that lists US (North America) before KR2 is put on KR2. */
  lemma AutoRegionPrefersKr2(d: Device)
    requires d.supportedRegions == [RegionNA, RegionKR2] && !Fails(d, Call.GetSupportedRegions)
    ensures AutoRegion(d) == Some(RegionKR2)
  {
    assert UsableRegions(d)[1] == RegionKR2;
  }

  /** The SDK region ConfigureRegion_ writes: the automatic choice for AUTO, else the mapping. */
  function RegionToSet(region: RfidRegion, d: Device): (r: Option<TmrRegion>)
    ensures r.Some? ==> r.value != RegionNone || region == RfidRegionAuto
  {
    if region == RfidRegionAuto then AutoRegion(d)
    else if MapRegion(region) == RegionNone then None
    else Some(MapRegion(region))
  }

  /** The result of ConfigureRegion_ on device `d`. */
  function RegionResult(region: RfidRegion, d: Device): (r: RfidResult)
    ensures r in {RfidResultOk, RfidResultRegionFail}
    ensures r == RfidResultOk <==> RegionToSet(region, d).Some? && !Fails(d, Call.SetRegion)
  {
    if RegionToSet(region, d).None? || Fails(d, Call.SetRegion) then RfidResultRegionFail
    else RfidResultOk
  }

  // ---------------------------------------------------------------------
  // The whole of rfid_init, as a function of its inputs and the device
  // ---------------------------------------------------------------------

  /** The outcome rfid_init reaches against device `d`. */
  function InitResult(slotPresent: bool, params: Option<InitParams>, d: Device): RfidResult
    requires params.Some? ==> AntennaArrayCovers(params.value.antennas, params.value.antennaCount)
  {
    var v := ValidateInitParams(slotPresent, params);
    if v != RfidResultOk then v
    else
      var p := params.value;
      if Fails(d, Call.Create) || Fails(d, Call.Connect) then RfidResultConnectFail
      else if RegionResult(p.region, d) != RfidResultOk then RfidResultRegionFail
      else if PlanResult(p.antennas, p.antennaCount, d) != RfidResultOk then PlanResult(p.antennas, p.antennaCount, d)
      else if p.writePowerCdbm > 0 && Fails(d, Call.SetReadPower) then RfidResultInternalError
      else RfidResultOk
  }

  /** The SDK parameters of a handle rfid_init hands out. */
  function InitParamsStore(p: InitParams, d: Device): Params
    requires AntennaArrayCovers(p.antennas, p.antennaCount)
  {
    Params(RegionToSet(p.region, d),
           PlanFor(p.antennas, p.antennaCount, p.planTimeoutMs),
           if p.writePowerCdbm > 0 then Some(p.writePowerCdbm) else None,
           None)
  }

  /**
   * rfid_init returns only the documented codes, succeeds exactly when
   * every step does, and reports DISABLED only for a disabled reader.
   */
  lemma InitResultCases(slotPresent: bool, params: Option<InitParams>, d: Device)
    requires params.Some? ==> AntennaArrayCovers(params.value.antennas, params.value.antennaCount)
    ensures var r := InitResult(slotPresent, params, d);
      r in {RfidResultOk, RfidResultDisabled, RfidResultInvalidArg, RfidResultConnectFail,
            RfidResultRegionFail, RfidResultPlanFail, RfidResultInternalError} &&
      (r == RfidResultDisabled <==> slotPresent && params.Some? && params.value.rfidEnable == 0) &&
      (r == RfidResultOk <==>
         ValidateInitParams(slotPresent, params) == RfidResultOk &&
         !Fails(d, Call.Create) && !Fails(d, Call.Connect) &&
         RegionToSet(params.value.region, d).Some? && !Fails(d, Call.SetRegion) &&
         PlanFor(params.value.antennas, params.value.antennaCount, params.value.planTimeoutMs).Some? &&
         !Fails(d, Call.InitPlan) && !Fails(d, Call.SetPlan) &&
         (params.value.writePowerCdbm > 0 ==> !Fails(d, Call.SetReadPower)))
  {
  }

  /**
   * rfid_init puts no ceiling on the read power: every positive value
   * leads to the same outcome, 1 cdBm as much as 5000.
   */
  lemma InitHasNoPowerCeiling(p: InitParams, d: Device, w: i32)
    requires AntennaArrayCovers(p.antennas, p.antennaCount) && p.writePowerCdbm > 0 && w > 0
    ensures InitResult(true, Some(p), d) == InitResult(true, Some(p.(writePowerCdbm := w)), d)
  {
  }

  // ---------------------------------------------------------------------
  // The session context
  // ---------------------------------------------------------------------

  /** rfid_ctx_t: the SDK handle it embeds and the library's flags. */
  class RfidContext {
    const reader: Reader
    var readerCreated: bool
    var initialized: bool
    var region: RfidRegion
    var readPowerDbm: i32

    /** `reader_created` tracks the handle, and only a context with a handle is initialized. */
    ghost predicate Valid()
      reads this, reader
    {
      readerCreated == reader.created && (initialized ==> readerCreated)
    }

    /** The zeroed context rfid_init allocates, with the requested region and power. */
    constructor (d: Device, region: RfidRegion, power: i32)
      ensures fresh(reader) && Valid()
      ensures !readerCreated && !initialized && this.region == region && readPowerDbm == power
      ensures !reader.created && !reader.connected && reader.device == d
      ensures reader.params == NoParams && reader.queue == []
    {
      reader := new Reader(d);
      readerCreated, initialized := false, false;
      this.region, readPowerDbm := region, power;
    }
  }

  /** The caller's `rfid_ctx_t *` variable, whose address rfid_init and rfid_deinit take. */
  class CtxSlot {
    var ctx: RfidContext?

    constructor (c: RfidContext?)
      ensures ctx == c
    {
      ctx := c;
    }
  }

  /** The caller's `int` that rfid_read's `out_count` points to. */
  class IntCell {
    var value: int

    constructor (v: int)
      ensures value == v
    {
      value := v;
    }
  }

  // ---------------------------------------------------------------------
  // Steps of rfid_init
  // ---------------------------------------------------------------------

  /** CreateReader_: TMR_create on the URI; CONNECT_FAIL if it fails. */
  method CreateReader(ctx: RfidContext, uri: Option<string>) returns (r: RfidResult)
    requires !ctx.reader.created && !ctx.reader.connected
    modifies ctx, ctx.reader
    ensures IsNullOrEmpty(uri) ==> r == RfidResultInvalidArg && unchanged(ctx, ctx.reader)
    ensures !IsNullOrEmpty(uri) ==>
              (r == RfidResultOk <==> !Fails(old(ctx.reader.device), Call.Create)) &&
              (r != RfidResultOk ==> r == RfidResultConnectFail)
    ensures !IsNullOrEmpty(uri) ==> ctx.readerCreated == (r == RfidResultOk) && Valid'(ctx)
    ensures r == RfidResultOk ==> ctx.reader.uri == uri.value && ctx.reader.params == NoParams && ctx.reader.queue == []
    ensures !ctx.reader.connected && ctx.reader.device == old(ctx.reader.device)
    ensures ctx.initialized == old(ctx.initialized) && ctx.region == old(ctx.region)
    ensures ctx.readPowerDbm == old(ctx.readPowerDbm)
  {
    if IsNullOrEmpty(uri) {
      return RfidResultInvalidArg;
    }
    var st := ctx.reader.TmrCreate(uri.value);
    if st != Success {
      ctx.readerCreated := false;
      return RfidResultConnectFail;
    }
    ctx.readerCreated := true;
    r := RfidResultOk;
  }

  /** The consistency of `reader_created` with the handle alone. */
  ghost predicate Valid'(ctx: RfidContext)
    reads ctx, ctx.reader
  {
    ctx.readerCreated == ctx.reader.created
  }

  /** ConnectReader_: TMR_connect on a created handle; CONNECT_FAIL if it fails. */
  method ConnectReader(ctx: RfidContext) returns (r: RfidResult)
    requires Valid'(ctx)
    modifies ctx.reader`connected
    ensures !ctx.readerCreated ==> r == RfidResultInvalidArg && ctx.reader.connected == old(ctx.reader.connected)
    ensures ctx.readerCreated ==>
              (r == RfidResultOk <==> !Fails(ctx.reader.device, Call.Connect)) &&
              (r != RfidResultOk ==> r == RfidResultConnectFail) &&
              ctx.reader.connected == (r == RfidResultOk)
  {
    if !ctx.readerCreated {
      return RfidResultInvalidArg;
    }
    var st := ctx.reader.TmrConnect();
    r := if st == Success then RfidResultOk else RfidResultConnectFail;
  }

  /**
   * DestroyReader_: TMR_destroy if a handle was created, which releases it
   * whatever the status; INTERNAL_ERROR reports a failed destroy.
   */
  method DestroyReader(ctx: RfidContext) returns (r: RfidResult)
    requires Valid'(ctx)
    modifies ctx`readerCreated, ctx.reader`created, ctx.reader`connected
    ensures !ctx.readerCreated && !ctx.reader.created
    ensures !old(ctx.readerCreated) ==> r == RfidResultOk && unchanged(ctx.reader)
    ensures old(ctx.readerCreated) ==>
              (r == RfidResultOk <==> !Fails(ctx.reader.device, Call.Destroy)) &&
              (r != RfidResultOk ==> r == RfidResultInternalError)
  {
    if !ctx.readerCreated {
      return RfidResultOk;
    }
    var st := ctx.reader.TmrDestroy();
    ctx.readerCreated := false;
    r := if st == Success then RfidResultOk else RfidResultInternalError;
  }

  /**
   * SelectAutoRegion_: asks the SDK for the supported regions and scans
   * the usable part of the list for KR2, falling back to its first entry.
   */
  method SelectAutoRegion(reader: Reader) returns (r: RfidResult, region: TmrRegion)
    requires reader.created
    ensures r in {RfidResultOk, RfidResultRegionFail}
    ensures r == RfidResultOk <==> AutoRegion(reader.device).Some?
    ensures r == RfidResultOk ==> region == AutoRegion(reader.device).value
  {
    region := RegionNone;
    var st, list, len := reader.GetSupportedRegions(RegionListMax);
    if st != Success {
      return RfidResultRegionFail, region;
    }
    var usableLen := if len > RegionListMax then RegionListMax else len;
    assert list == UsableRegions(reader.device);
    if usableLen == 0 {
      return RfidResultRegionFail, region;
    }
    var i := 0;
    while i < usableLen
      invariant 0 <= i <= usableLen
      invariant forall k :: 0 <= k < i ==> list[k] != RegionKR2
    {
      if list[i] == RegionKR2 {
        return RfidResultOk, RegionKR2;
      }
      i := i + 1;
    }
    r, region := RfidResultOk, list[0];
  }

  /** ConfigureRegion_: resolves the requested region and writes it to the SDK. */
  method ConfigureRegion(reader: Reader, region: RfidRegion) returns (r: RfidResult)
    requires reader.created
    modifies reader`params
    ensures r == RegionResult(region, reader.device)
    ensures reader.params ==
              if r == RfidResultOk then old(reader.params).(region := RegionToSet(region, reader.device))
              else old(reader.params)
  {
    var toSet := RegionNone;
    if region == RfidRegionAuto {
      var sel;
      sel, toSet := SelectAutoRegion(reader);
      if sel != RfidResultOk {
        return sel;
      }
    } else {
      toSet := MapRegion(region);
      if toSet == RegionNone {
        return RfidResultRegionFail;
      }
    }
    var st := reader.SetRegion(toSet);
    r := if st == Success then RfidResultOk else RfidResultRegionFail;
  }

  /**
   * ConfigureReadPlan_: checks the antenna count and every antenna before
   * any SDK call, copies them into the byte list, and installs a GEN2 plan
   * with the given or the default read time.
   */
  method ConfigureReadPlan(reader: Reader, antennas: Option<seq<i32>>, count: i32, timeoutMs: i32)
    returns (r: RfidResult)
    requires reader.created
    requires AntennaArrayCovers(antennas, count)
    modifies reader`params
    ensures r == PlanResult(antennas, count, reader.device)
    ensures reader.params ==
              if r == RfidResultOk then old(reader.params).(plan := PlanFor(antennas, count, timeoutMs))
              else old(reader.params)
  {
    if antennas.None? || !AntennaCountInRange(count) {
      return RfidResultInvalidArg;
    }
    var list: seq<u8> := [];
    var i := 0;
    while i < count
      invariant 0 <= i <= count
      invariant |list| == i
      invariant forall k :: 0 <= k < i ==> ValidAntenna(antennas.value[k]) && list[k] == antennas.value[k]
    {
      var ant := antennas.value[i];
      if !ValidAntenna(ant) {
        return RfidResultInvalidArg;
      }
      list := list + [ant as u8];
      i := i + 1;
    }
    assert !exists k :: 0 <= k < count && !ValidAntenna(antennas.value[k]);
    assert list == seq(count, k requires 0 <= k < count => antennas.value[k] as u8);
    var readTime := if timeoutMs > 0 then timeoutMs as u32 else DefaultPlanReadTime;
    var st1, plan := reader.InitSimplePlan(list, readTime);
    if st1 != Success {
      return RfidResultPlanFail;
    }
    var st2 := reader.SetPlan(plan);
    r := if st2 == Success then RfidResultOk else RfidResultPlanFail;
  }

  /** ConfigureWritePower_: a positive power is written to the SDK; zero or less leaves it alone. */
  method ConfigureWritePower(reader: Reader, cdbm: i32) returns (r: RfidResult)
    requires reader.created
    modifies reader`params
    ensures cdbm <= 0 ==> r == RfidResultOk && reader.params == old(reader.params)
    ensures cdbm > 0 ==>
              (r == RfidResultOk <==> !Fails(reader.device, Call.SetReadPower)) &&
              (r != RfidResultOk ==> r == RfidResultInternalError)
    ensures reader.params ==
              if cdbm > 0 && r == RfidResultOk then old(reader.params).(readPower := Some(cdbm))
              else old(reader.params)
  {
    if cdbm <= 0 {
      return RfidResultOk;
    }
    var st := reader.SetReadPower(cdbm);
    r := if st == Success then RfidResultOk else RfidResultInternalError;
  }

  // ---------------------------------------------------------------------
  // Public API
  // ---------------------------------------------------------------------

  /**
   * rfid_init: validates, then creates, connects and configures a reader
   * for the device behind the URI. A failure after creation destroys the
   * handle; only full success hands out the context, which is then
   * initialized and holds the configured parameters. `handle` names the
   * SDK handle the call allocated, if it got that far.
   */
  method Init(outCtx: CtxSlot?, params: Option<InitParams>, device: Device)
    returns (r: RfidResult, ghost handle: Reader?)
    requires params.Some? ==> AntennaArrayCovers(params.value.antennas, params.value.antennaCount)
    modifies outCtx
    ensures r == InitResult(outCtx != null, params, device)
    ensures ValidateInitParams(outCtx != null, params) != RfidResultOk ==>
              handle == null && (outCtx != null ==> outCtx.ctx == old(outCtx.ctx))
    ensures r != RfidResultOk ==> handle == null || (fresh(handle) && !handle.created)
    ensures outCtx != null && ValidateInitParams(true, params) == RfidResultOk ==>
              (outCtx.ctx != null <==> r == RfidResultOk)
    ensures r == RfidResultOk ==>
              var c := outCtx.ctx;
              var p := params.value;
              c != null && fresh(c) && fresh(c.reader) && handle == c.reader && c.Valid() &&
              c.initialized && c.reader.connected && c.reader.uri == p.uri.value &&
              c.reader.params == InitParamsStore(p, device) &&
              c.reader.device == device && c.reader.queue == [] &&
              c.region == p.region && c.readPowerDbm == p.writePowerCdbm
  {
    handle := null;
    r := ValidateInitParams(outCtx != null, params);
    if r != RfidResultOk {
      return;
    }
    var p := params.value;
    outCtx.ctx := null;
    var ctx := new RfidContext(device, p.region, p.writePowerCdbm);
    handle := ctx.reader;

    r := CreateReader(ctx, p.uri);
    if r != RfidResultOk {
      return;
    }
    r := ConnectReader(ctx);
    if r != RfidResultOk {
      var _ := DestroyReader(ctx);
      return;
    }
    r := ConfigureRegion(ctx.reader, p.region);
    if r != RfidResultOk {
      var _ := DestroyReader(ctx);
      return;
    }
    r := ConfigureReadPlan(ctx.reader, p.antennas, p.antennaCount, p.planTimeoutMs);
    if r != RfidResultOk {
      var _ := DestroyReader(ctx);
      return;
    }
    r := ConfigureWritePower(ctx.reader, p.writePowerCdbm);
    if r != RfidResultOk {
      var _ := DestroyReader(ctx);
      return;
    }
    ctx.initialized := true;
    outCtx.ctx := ctx;
  }

  /**
   * rfid_deinit: NULL-safe and idempotent. An initialized context's handle
   * is destroyed (its status ignored), the context released and the
   * caller's pointer cleared, so a second call finds NULL and does nothing.
   */
  method Deinit(inout: CtxSlot?) returns (r: RfidResult)
    requires inout != null && inout.ctx != null ==> inout.ctx.Valid()
    modifies inout, if inout != null && inout.ctx != null then {inout.ctx.reader} else {}
    ensures inout == null ==> r == RfidResultInvalidArg
    ensures inout != null ==> r == RfidResultOk && inout.ctx == null
    ensures inout != null && old(inout.ctx) != null && old(inout.ctx.initialized) ==>
              !old(inout.ctx).reader.created
    ensures inout != null && old(inout.ctx) != null && !old(inout.ctx.initialized) ==>
              unchanged(old(inout.ctx).reader)
  {
    if inout == null {
      return RfidResultInvalidArg;
    }
    if inout.ctx == null {
      return RfidResultOk;
    }
    var ctx := inout.ctx;
    if ctx.initialized {
      var _ := ctx.reader.TmrDestroy();
    }
    inout.ctx := null;
    r := RfidResultOk;
  }

  /**
   * rfid_set_write_power: zero or less selects the default and touches no
   * SDK parameter; above 3000 cdBm is refused; otherwise the SDK power is
   * set, and the context remembers it only if that succeeded.
   */
  method SetWritePower(ctx: RfidContext?, cdbm: i32) returns (r: RfidResult)
    requires ctx != null ==> ctx.Valid()
    modifies if ctx != null then {ctx, ctx.reader} else {}
    ensures ctx == null ==> r == RfidResultInvalidArg
    ensures ctx != null && !ctx.initialized ==>
              r == RfidResultNotInitialized && unchanged(ctx, ctx.reader)
    ensures ctx != null && ctx.initialized ==>
              if cdbm <= 0 then
                r == RfidResultOk && ctx.readPowerDbm == 0 && ctx.reader.params == old(ctx.reader.params)
              else if cdbm > MaxWritePowerCdbm then
                r == RfidResultInvalidArg && ctx.readPowerDbm == old(ctx.readPowerDbm) &&
                ctx.reader.params == old(ctx.reader.params)
              else if Fails(ctx.reader.device, Call.SetReadPower) then
                r == RfidResultInternalError && ctx.readPowerDbm == old(ctx.readPowerDbm) &&
                ctx.reader.params == old(ctx.reader.params)
              else
                r == RfidResultOk && ctx.readPowerDbm == cdbm &&
                ctx.reader.params == old(ctx.reader.params).(readPower := Some(cdbm))
    ensures ctx != null ==>
              ctx.Valid() && ctx.initialized == old(ctx.initialized) &&
              ctx.readerCreated == old(ctx.readerCreated) && ctx.region == old(ctx.region) &&
              ctx.reader.created == old(ctx.reader.created) &&
              ctx.reader.connected == old(ctx.reader.connected) && ctx.reader.uri == old(ctx.reader.uri) &&
              ctx.reader.device == old(ctx.reader.device) && ctx.reader.queue == old(ctx.reader.queue)
  {
    if ctx == null {
      return RfidResultInvalidArg;
    }
    if !ctx.initialized {
      return RfidResultNotInitialized;
    }
    if cdbm <= 0 {
      ctx.readPowerDbm := 0;
      return RfidResultOk;
    }
    if cdbm > MaxWritePowerCdbm {
      return RfidResultInvalidArg;
    }
    r := ConfigureWritePower(ctx.reader, cdbm);
    if r == RfidResultOk {
      ctx.readPowerDbm := cdbm;
    }
  }

  // ---------------------------------------------------------------------
  // rfid_read
  // ---------------------------------------------------------------------

  /**
   * The argument checks of rfid_read, in order: missing context or output
   * pointers, then an uninitialized context, then a capacity of zero or
   * less or a negative timeout.
   */
  function ValidateReadArgs(ctxPresent: bool, buffersPresent: bool, initialized: bool,
                            timeoutMs: i32, capacity: i32): (r: RfidResult)
    ensures r in {RfidResultOk, RfidResultInvalidArg, RfidResultNotInitialized}
    ensures r == RfidResultNotInitialized <==> ctxPresent && buffersPresent && !initialized
    ensures r == RfidResultOk <==>
              ctxPresent && buffersPresent && initialized && capacity > 0 && timeoutMs >= 0
  {
    if !ctxPresent || !buffersPresent then RfidResultInvalidArg
    else if !initialized then RfidResultNotInitialized
    else if capacity <= 0 || timeoutMs < 0 then RfidResultInvalidArg
    else RfidResultOk
  }

  /**
   * The outcome of rfid_read once its arguments are accepted, against
   * device `d`: any plan failure and a failed timed read are READ_FAIL, and
   * so is a fetch that fails while the buffer still has room.
   */
  function ReadResult(antennas: Option<seq<i32>>, count: i32, capacity: nat, d: Device): RfidResult
    requires AntennaArrayCovers(antennas, count)
  {
    if PlanResult(antennas, count, d) != RfidResultOk || Fails(d, Call.TimedRead) then RfidResultReadFail
    else if Drain(NextRound(d), capacity, []).failed then RfidResultReadFail
    else RfidResultOk
  }

  /**
   * A read succeeds exactly when the plan is installed, the timed read
   * succeeds, and none of the first `capacity` fetches fails: fetches past
   * the capacity are discarded unchecked.
   */
  lemma ReadSucceedsIff(antennas: Option<seq<i32>>, count: i32, capacity: nat, d: Device)
    requires AntennaArrayCovers(antennas, count)
    ensures ReadResult(antennas, count, capacity, d) in {RfidResultOk, RfidResultReadFail}
    ensures ReadResult(antennas, count, capacity, d) == RfidResultOk <==>
              PlanAntennas(antennas, count).Some? &&
              !Fails(d, Call.InitPlan) && !Fails(d, Call.SetPlan) && !Fails(d, Call.TimedRead) &&
              forall i :: 0 <= i < Min(|NextRound(d)|, capacity) ==> NextRound(d)[i].Observation?
  {
    var q := NextRound(d);
    var dr := Drain(q, capacity, []);
    DrainKeepsPrefix(q, capacity, dr);
    if dr.failed {
      assert !q[|dr.kept|].Observation?;
    }
  }

  /**
   * rfid_read: reinstalls the read plan, runs one timed read and drains
   * its observations into the caller's buffer, keeping at most `capacity`
   * and discarding the rest; on success the records are sorted by RSSI,
   * then read count, both descending. A fetch that fails while there is
   * room ends the call with READ_FAIL, leaving the records and the count
   * gathered so far.
   */
  method Read(ctx: RfidContext?, antennas: Option<seq<i32>>, count: i32, timeoutMs: i32,
              outTags: array?<RfidTag>, capacity: i32, outCount: IntCell?)
    returns (r: RfidResult)
    requires ctx != null ==> ctx.Valid()
    requires AntennaArrayCovers(antennas, count)
    requires outTags != null && capacity > 0 ==> capacity <= outTags.Length
    modifies outTags, outCount, if ctx != null then {ctx.reader} else {}
    ensures ctx != null ==> ctx.Valid()
    ensures var v := ValidateReadArgs(ctx != null, outTags != null && outCount != null,
                                      ctx != null && ctx.initialized, timeoutMs, capacity);
            v != RfidResultOk ==>
              r == v && (outTags != null ==> unchanged(outTags)) && (outCount != null ==> unchanged(outCount)) &&
              (ctx != null ==> unchanged(ctx.reader))
    ensures ValidateReadArgs(ctx != null, outTags != null && outCount != null,
                             ctx != null && ctx.initialized, timeoutMs, capacity) == RfidResultOk ==>
              var d := old(ctx.reader.device);
              var round := NextRound(d);
              var drained := Drain(round, capacity as nat, []);
              var n := |drained.kept|;
              r == ReadResult(antennas, count, capacity as nat, d) &&
              ctx.reader.created == old(ctx.reader.created) &&
              ctx.reader.connected == old(ctx.reader.connected) &&
              ctx.reader.uri == old(ctx.reader.uri) &&
              ctx.reader.params ==
                (if PlanResult(antennas, count, d) == RfidResultOk
                 then old(ctx.reader.params).(plan := PlanFor(antennas, count, timeoutMs))
                 else old(ctx.reader.params)) &&
              if PlanResult(antennas, count, d) != RfidResultOk || Fails(d, Call.TimedRead) then
                outCount.value == 0 && unchanged(outTags) &&
                ctx.reader.queue == old(ctx.reader.queue) && ctx.reader.device == d
              else
                ctx.reader.device == AfterRound(d) && ctx.reader.queue == drained.rest &&
                outCount.value == n && n <= capacity as int &&
                outTags[n..] == old(outTags[n..]) &&
                n <= |round| && (forall i :: 0 <= i < n ==> round[i] == Observation(drained.kept[i])) &&
                (drained.failed ==> outTags[..n] == Records(drained.kept)) &&
                (!drained.failed ==>
                   n == Min(|round|, capacity as int) &&
                   Sorted(outTags[..n]) && multiset(outTags[..n]) == multiset(Records(drained.kept)))
  {
    if ctx == null || outTags == null || outCount == null {
      return RfidResultInvalidArg;
    }
    if !ctx.initialized {
      return RfidResultNotInitialized;
    }
    if capacity <= 0 || timeoutMs < 0 {
      return RfidResultInvalidArg;
    }
    outCount.value := 0;
    var reader: Reader := ctx.reader;
    var planned := ConfigureReadPlan(reader, antennas, count, timeoutMs);
    if planned != RfidResultOk {
      return RfidResultReadFail;
    }
    var st, _ := reader.TimedRead(timeoutMs as u32);
    if st != Success {
      return RfidResultReadFail;
    }
    ghost var round := reader.queue;
    var failed := DrainTags(reader, outTags, capacity as nat, outCount);
    ghost var drained := Drain(round, capacity as nat, []);
    DrainKeepsPrefix(round, capacity as nat, drained);
    if failed {
      return RfidResultReadFail;
    }
    if outCount.value > 1 {
      SortTags(outTags, outCount.value);
    }
    r := RfidResultOk;
  }

  /**
   * The drain loop of rfid_read: pops the queue until it is empty, storing
   * a record for each observation while the buffer has room and discarding
   * the entries after that; a fetch that fails with room left stops it.
   */
  method DrainTags(reader: Reader, outTags: array<RfidTag>, capacity: nat, outCount: IntCell)
    returns (failed: bool)
    requires capacity <= outTags.Length && outCount.value == 0
    modifies reader`queue, outTags, outCount
    ensures var d := Drain(old(reader.queue), capacity, []);
            failed == d.failed && reader.queue == d.rest && outCount.value == |d.kept| &&
            outTags[..|d.kept|] == Records(d.kept) && outTags[|d.kept|..] == old(outTags[|d.kept|..])
  {
    ghost var kept: seq<RawTag> := [];
    var more := reader.HasMoreTags();
    while more == Success
      invariant (more == Success) == (reader.queue != [])
      invariant outCount.value == |kept| <= capacity
      invariant Drain(reader.queue, capacity, kept) == Drain(old(reader.queue), capacity, [])
      invariant outTags[..|kept|] == Records(kept)
      invariant forall k :: |kept| <= k < outTags.Length ==> outTags[k] == old(outTags[k])
      decreases |reader.queue|
    {
      if outCount.value >= capacity {
        var _, _ := reader.GetNextTag();
        more := reader.HasMoreTags();
        continue;
      }
      var next, trd := reader.GetNextTag();
      if next != Success {
        return true;
      }
      RecordsSnoc(kept, trd);
      outTags[outCount.value] := Normalize(trd);
      assert outTags[..|kept| + 1] == outTags[..|kept|] + [Normalize(trd)];
      outCount.value := outCount.value + 1;
      kept := kept + [trd];
      more := reader.HasMoreTags();
    }
    failed := false;
  }
}
