/**
 * The C++ wrapper (namespace mercuryapi) over the C façade of RfidApi: a
 * Reader whose private part (Reader::Impl) holds the C session context,
 * the antenna list of the last Init, the record buffer rfid_read fills,
 * and the last result with its text. src/mercuryapi.cpp and
 * cpp_lib/api/mercuryapi.cpp carry the same code and are both modelled
 * here; they differ only in whether ParseConfigJson has its JSON library.
 */
module MercuryCpp {
  import opened BoundedInts
  import opened Wrappers
  import opened RfidTypes
  import opened TagPipeline
  import TmrSdk
  import RfidApi

  // ---------------------------------------------------------------------
  // Result and Region
  // ---------------------------------------------------------------------

  /** Result: the same nine codes as RFID_RESULT, in the same order; as a C++ enum it holds any `int`. */
  newtype Result = x: int | -0x8000_0000 <= x < 0x8000_0000

  const Ok: Result := 0
  const Disabled: Result := 1
  const InvalidArg: Result := 2
  const NotInitialized: Result := 3
  const ConnectFail: Result := 4
  const RegionFail: Result := 5
  const PlanFail: Result := 6
  const ReadFail: Result := 7
  const InternalError: Result := 8

  /** One of the nine enumerators. */
  predicate IsNamedResult(r: Result) {
    Ok <= r <= InternalError
  }

  /** Region: Auto = 0, KR2, US, EU; a cast from JSON can give it any other `int`. */
  newtype Region = x: int | -0x8000_0000 <= x < 0x8000_0000

  const Auto: Region := 0
  const Kr2: Region := 1
  const Us: Region := 2
  const Eu: Region := 3

  predicate IsNamedRegion(r: Region) {
    Auto <= r <= Eu
  }

  /** ResultToString_: the enumerator's name, "UnknownResult" for any other value. */
  function ResultToString(r: Result): (s: string)
    ensures s != []
    ensures !IsNamedResult(r) <==> s == "UnknownResult"
  {
    if r == Ok then "Ok"
    else if r == Disabled then "Disabled"
    else if r == InvalidArg then "InvalidArg"
    else if r == NotInitialized then "NotInitialized"
    else if r == ConnectFail then "ConnectFail"
    else if r == RegionFail then "RegionFail"
    else if r == PlanFail then "PlanFail"
    else if r == ReadFail then "ReadFail"
    else if r == InternalError then "InternalError"
    else "UnknownResult"
  }

  /** The result a name stands for: the inverse of ResultToString on the nine codes. */
  function ResultFromName(s: string): (r: Option<Result>)
    ensures r.Some? ==> IsNamedResult(r.value)
  {
    if s == "Ok" then Some(Ok)
    else if s == "Disabled" then Some(Disabled)
    else if s == "InvalidArg" then Some(InvalidArg)
    else if s == "NotInitialized" then Some(NotInitialized)
    else if s == "ConnectFail" then Some(ConnectFail)
    else if s == "RegionFail" then Some(RegionFail)
    else if s == "PlanFail" then Some(PlanFail)
    else if s == "ReadFail" then Some(ReadFail)
    else if s == "InternalError" then Some(InternalError)
    else None
  }

  /** Every code has a name of its own that names it back; unknown values have none. */
  lemma ResultNamesRoundTrip(r: Result)
    ensures IsNamedResult(r) ==> ResultFromName(ResultToString(r)) == Some(r)
    ensures !IsNamedResult(r) ==> ResultFromName(ResultToString(r)) == None
  {
  }

  /** No result name contains the ':' that separates it from a prefix. */
  lemma ResultNamesHaveNoColon(r: Result)
    ensures ':' !in ResultToString(r)
  {
  }

  /** ToCppResult_: each C code to the C++ code of the same number; unknown values to InternalError. */
  function ToCppResult(c: RfidResult): (r: Result)
    ensures IsNamedResult(r)
    ensures IsKnownResult(c) ==> r as int == c as int
    ensures !IsKnownResult(c) ==> r == InternalError
  {
    if c == RfidResultOk then Ok
    else if c == RfidResultDisabled then Disabled
    else if c == RfidResultInvalidArg then InvalidArg
    else if c == RfidResultNotInitialized then NotInitialized
    else if c == RfidResultConnectFail then ConnectFail
    else if c == RfidResultRegionFail then RegionFail
    else if c == RfidResultPlanFail then PlanFail
    else if c == RfidResultReadFail then ReadFail
    else InternalError
  }

  /** ToCResult_: each C++ code to the C code of the same number; unknown values to INTERNAL_ERROR. */
  function ToCResult(r: Result): (c: RfidResult)
    ensures IsKnownResult(c)
    ensures IsNamedResult(r) ==> c as int == r as int
    ensures !IsNamedResult(r) ==> c == RfidResultInternalError
  {
    if r == Ok then RfidResultOk
    else if r == Disabled then RfidResultDisabled
    else if r == InvalidArg then RfidResultInvalidArg
    else if r == NotInitialized then RfidResultNotInitialized
    else if r == ConnectFail then RfidResultConnectFail
    else if r == RegionFail then RfidResultRegionFail
    else if r == PlanFail then RfidResultPlanFail
    else if r == ReadFail then RfidResultReadFail
    else RfidResultInternalError
  }

  /** The two translations are inverse bijections between the nine C and the nine C++ codes. */
  lemma ResultCodesRoundTrip(c: RfidResult, r: Result)
    ensures IsKnownResult(c) ==> ToCResult(ToCppResult(c)) == c
    ensures IsNamedResult(r) ==> ToCppResult(ToCResult(r)) == r
    ensures !IsKnownResult(c) ==> ToCResult(ToCppResult(c)) == RfidResultInternalError
  {
  }

  /** ToCRegion_: each C++ region to the C region of the same number; other values to AUTO. */
  function ToCRegion(r: Region): (c: RfidRegion)
    ensures IsKnownRegion(c)
    ensures IsNamedRegion(r) ==> c as int == r as int
    ensures !IsNamedRegion(r) ==> c == RfidRegionAuto
  {
    if r == Kr2 then RfidRegionKr2
    else if r == Us then RfidRegionUs
    else if r == Eu then RfidRegionEu
    else RfidRegionAuto
  }

  /** static_cast<int> of a size: the value modulo 2^32, read as a signed 32-bit integer. */
  function SizeToInt(n: nat): (v: i32)
    ensures n < 0x8000_0000 ==> v as int == n
    ensures v > 0 ==> v as int <= n
  {
    WrapI32(n)
  }

  // ---------------------------------------------------------------------
  // Tags and configuration (mercuryapi.hpp)
  // ---------------------------------------------------------------------

  /** Tag: the C++ copy of a record, its EPC a std::string. */
  datatype Tag = Tag(epc: string, rssi: i32, readcnt: u32, antenna: i32, ts: u64)

  /** The Tag Read builds from one buffer record, field by field. */
  function ToTag(t: RfidTag): (tag: Tag)
    ensures FromTag(tag) == t
  {
    Tag(t.epc, t.rssi, t.readcnt, t.antenna, t.ts)
  }

  /** The record a Tag was copied from. */
  function FromTag(tag: Tag): RfidTag {
    RfidTag(tag.epc, tag.rssi, tag.readcnt, tag.antenna, tag.ts)
  }

  /** The Tags of a run of records, in order. */
  function ToTags(recs: seq<RfidTag>): (tags: seq<Tag>)
    ensures |tags| == |recs|
    ensures forall i :: 0 <= i < |recs| ==> FromTag(tags[i]) == recs[i]
  {
    seq(|recs|, i requires 0 <= i < |recs| => ToTag(recs[i]))
  }

  /** Config; the antenna list is a std::vector<int>, the capacity a std::size_t. */
  datatype Config = Config(
    enable: bool,
    uri: string,
    region: Region,
    antennas: seq<i32>,
    planTimeoutMs: i32,
    writePowerCdbm: i32,
    capacity: u64)

  /** The member initialisers of Config. */
  const DefaultConfig := Config(true, [], Auto, [1, 2], 0, 0, 64)

  /** The rfid_init_params_t Init hands to rfid_init for `cfg`. */
  function CInitParams(cfg: Config): (p: InitParams)
    ensures RfidApi.AntennaArrayCovers(p.antennas, p.antennaCount)
  {
    InitParams(1, Some(cfg.uri), ToCRegion(cfg.region), Some(cfg.antennas),
               SizeToInt(|cfg.antennas|), cfg.planTimeoutMs, cfg.writePowerCdbm)
  }

  // ---------------------------------------------------------------------
  // The last-error text
  // ---------------------------------------------------------------------

  const InitFailed := "Init failed"
  const UriEmpty := "Init failed: invalid argument (uri is empty)"
  const AntennasEmpty := "Init failed: invalid argument (antennas is empty)"
  const ReadFailed := "Read failed"
  const NegativeTimeout := "Read failed: invalid argument (read_timeout_ms < 0)"
  const SetWritePowerFailed := "SetWritePower failed"

  /** The text SetLastError_ records: the result's name, then ": " and the prefix if it is non-empty. */
  function ErrorText(r: Result, prefix: Option<string>): string {
    ResultToString(r) + if RfidApi.IsNullOrEmpty(prefix) then [] else ": " + prefix.value
  }

  /**
   * The text AppendLastErrorDetail_ leaves: unchanged for a missing or
   * empty detail, otherwise the detail after " | ", or alone when the
   * text was empty.
   */
  function WithDetail(text: string, detail: Option<string>): (t: string)
    ensures text <= t
    ensures t == text <==> RfidApi.IsNullOrEmpty(detail)
    ensures !RfidApi.IsNullOrEmpty(detail) ==>
              |t| == |text| + (if text == [] then 0 else 3) + |detail.value| &&
              t[|t| - |detail.value|..] == detail.value
  {
    if RfidApi.IsNullOrEmpty(detail) then text
    else if text == [] then detail.value
    else text + " | " + detail.value
  }

  /** The part of a text before its first ':'. */
  function NameOf(text: string): (name: string)
    ensures name <= text && ':' !in name
    ensures |name| < |text| ==> text[|name|] == ':'
  {
    if text == [] || text[0] == ':' then [] else [text[0]] + NameOf(text[1..])
  }

  /** A colon-free text followed by nothing or by ':' is the name of the whole. */
  lemma {:induction false} NameOfSplit(a: string, b: string)
    requires ':' !in a && (b == [] || b[0] == ':')
    ensures NameOf(a + b) == a
  {
    if a == [] {
      assert a + b == b;
    } else {
      assert (a + b)[0] == a[0] && (a + b)[1..] == a[1..] + b;
      NameOfSplit(a[1..], b);
    }
  }

  /** The result a last-error text names. */
  function NamedResult(text: string): Option<Result> {
    ResultFromName(NameOf(text))
  }

  /** What follows "name: " in a last-error text. */
  function PrefixOf(text: string): string {
    var n := |NameOf(text)|;
    if n + 2 <= |text| then text[n + 2..] else []
  }

  /** A recorded text gives back the result and the prefix it was made from. */
  lemma ErrorTextRoundTrip(r: Result, prefix: Option<string>)
    requires IsNamedResult(r)
    ensures NamedResult(ErrorText(r, prefix)) == Some(r)
    ensures PrefixOf(ErrorText(r, prefix)) == if RfidApi.IsNullOrEmpty(prefix) then [] else prefix.value
  {
    ResultNamesRoundTrip(r);
    ResultNamesHaveNoColon(r);
    var tail := if RfidApi.IsNullOrEmpty(prefix) then [] else ": " + prefix.value;
    NameOfSplit(ResultToString(r), tail);
  }

  // ---------------------------------------------------------------------
  // Init's argument checks and the outcomes of the C calls
  // ---------------------------------------------------------------------

  /** The checks Init makes before calling rfid_init, in order: disabled, empty URI, no antennas. */
  function InitCheck(cfg: Config): (r: Result)
    ensures r in {Ok, Disabled, InvalidArg}
    ensures r == Disabled <==> !cfg.enable
    ensures r == Ok <==> cfg.enable && cfg.uri != [] && cfg.antennas != []
  {
    if !cfg.enable then Disabled
    else if cfg.uri == [] || cfg.antennas == [] then InvalidArg
    else Ok
  }

  /** The prefix Init records with a failed check. */
  function InitCheckPrefix(cfg: Config): string {
    if !cfg.enable then InitFailed
    else if cfg.uri == [] then UriEmpty
    else AntennasEmpty
  }

  /** The C outcome of rfid_init for a configuration that passed InitCheck, against device `d`. */
  function InitOutcome(cfg: Config, d: TmrSdk.Device): Result {
    ToCppResult(RfidApi.InitResult(true, Some(CInitParams(cfg)), d))
  }

  /** The configuration as its member initialisers leave it fails Init's URI check. */
  lemma DefaultConfigNeedsUri()
    ensures InitCheck(DefaultConfig) == InvalidArg
    ensures InitCheckPrefix(DefaultConfig) == UriEmpty
    ensures InitCheck(DefaultConfig.(uri := "tmr:///dev/ttyUSB0")) == Ok
  {
  }

  /**
   * The C++ checks let a list of more than 16 antennas through; rfid_init
   * then refuses it with INVALID_ARG before any SDK call.
   */
  lemma InitRejectsLongAntennaList(cfg: Config, d: TmrSdk.Device)
    requires InitCheck(cfg) == Ok && 16 < |cfg.antennas| < 0x8000_0000
    ensures InitOutcome(cfg, d) == InvalidArg
  {
    assert RfidApi.ValidateInitParams(true, Some(CInitParams(cfg))) == RfidResultInvalidArg;
  }

  /** A region outside the enumerators reaches rfid_init as AUTO. */
  lemma UnnamedRegionIsAuto(cfg: Config, d: TmrSdk.Device)
    requires !IsNamedRegion(cfg.region)
    ensures InitOutcome(cfg, d) == InitOutcome(cfg.(region := Auto), d)
    ensures CInitParams(cfg) == CInitParams(cfg.(region := Auto))
  {
  }

  /**
   * The outcome of rfid_set_write_power on an initialized context:
   * zero or less selects the default, above 3000 cdBm is refused, and
   * otherwise the SDK parameter write decides.
   */
  function WritePowerOutcome(cdbm: i32, d: TmrSdk.Device): (r: Result)
    ensures r in {Ok, InvalidArg, InternalError}
    ensures r == InvalidArg <==> cdbm > RfidApi.MaxWritePowerCdbm
    ensures r == InternalError <==> 0 < cdbm <= RfidApi.MaxWritePowerCdbm && TmrSdk.Fails(d, TmrSdk.Call.SetReadPower)
  {
    if cdbm <= 0 then Ok
    else if cdbm > RfidApi.MaxWritePowerCdbm then InvalidArg
    else if TmrSdk.Fails(d, TmrSdk.Call.SetReadPower) then InternalError
    else Ok
  }

  /**
   * The outcome of rfid_read on an initialized context with antennas
   * `antennas` and a buffer of `size` records, against device `d`; the
   * size reaches rfid_read as an `int`.
   */
  function ReadOutcome(antennas: seq<i32>, size: nat, d: TmrSdk.Device): Result {
    var cap := SizeToInt(size);
    if cap <= 0 then InvalidArg
    else ToCppResult(RfidApi.ReadResult(Some(antennas), SizeToInt(|antennas|), cap as nat, d))
  }

  /**
   * What a successful rfid_read leaves in a buffer of `size` records
   * against device `d`: `n` records at the front of `recs`, as many as the
   * round had observations up to the capacity, sorted, and a permutation
   * of the records of the observations kept.
   */
  ghost predicate Delivered(d: TmrSdk.Device, size: nat, recs: seq<RfidTag>, n: int) {
    var cap := SizeToInt(size);
    var round := TmrSdk.NextRound(d);
    var kept := Drain(round, if cap > 0 then cap as nat else 0, []).kept;
    0 < cap && n == |kept| == Min(|round|, cap as int) && n <= |recs| &&
    Sorted(recs[..n]) && multiset(recs[..n]) == multiset(Records(kept))
  }

  /**
   * The SDK handle `rd` after Read with `antennas`, a buffer of `size`
   * records and `timeoutMs`, from device `d`, queue `q` and parameters `p`:
   * the plan is installed exactly when rfid_read gets as far as setting it,
   * and a timed read that succeeds consumes the device's next round and
   * leaves behind what the drain did not fetch.
   */
  ghost predicate ReadLeaves(rd: TmrSdk.Reader, antennas: seq<i32>, size: nat, timeoutMs: i32,
                             d: TmrSdk.Device, q: seq<TmrSdk.Pending>, p: TmrSdk.Params)
    reads rd
  {
    var cap := SizeToInt(size);
    var count := SizeToInt(|antennas|);
    RfidApi.AntennaArrayCovers(Some(antennas), count) &&
    var planned := cap > 0 && RfidApi.PlanResult(Some(antennas), count, d) == RfidResultOk;
    rd.params == (if planned then p.(plan := RfidApi.PlanFor(Some(antennas), count, timeoutMs)) else p) &&
    if !planned || TmrSdk.Fails(d, TmrSdk.Call.TimedRead) then rd.queue == q && rd.device == d
    else rd.device == TmrSdk.AfterRound(d) && rd.queue == Drain(TmrSdk.NextRound(d), cap as nat, []).rest
  }

  /** The record buffer after std::vector::resize(n): the records that fit, then zeroed ones. */
  function Resized(buf: seq<RfidTag>, n: nat): (r: seq<RfidTag>)
    ensures |r| == n
    ensures forall i :: 0 <= i < Min(|buf|, n) ==> r[i] == buf[i]
    ensures forall i :: |buf| <= i < n ==> r[i] == ZeroTag
  {
    if n <= |buf| then buf[..n] else buf + seq(n - |buf|, _ => ZeroTag)
  }

  /** The buffer size EnsureBuf_ settles on: the requested capacity, one at least. */
  function BufferSize(cap: u64): (n: nat)
    ensures n >= 1 && (cap > 0 ==> n == cap)
  {
    if cap == 0 then 1 else cap
  }

  // ---------------------------------------------------------------------
  // The Reader
  // ---------------------------------------------------------------------

  /** mercuryapi::Reader with its Impl. */
  class Reader {
    /** Impl::ctx, as the variable whose address rfid_init and rfid_deinit take. */
    const slot: RfidApi.CtxSlot
    var antennas: seq<i32>
    var cbuf: array<RfidTag>
    var lastError: Result
    var lastErrorString: string

    /** The context the Reader holds, if any, came from a successful rfid_init. */
    ghost predicate Valid()
      reads this, slot, if slot.ctx != null then {slot.ctx, slot.ctx.reader} else {}
    {
      slot.ctx != null ==> slot.ctx.Valid() && slot.ctx.initialized
    }

    /** Reader(): no context, antennas {1, 2}, an empty buffer, last result Ok with no text. */
    constructor ()
      ensures Valid() && fresh(slot) && slot.ctx == null
      ensures antennas == [1, 2] && cbuf.Length == 0
      ensures lastError == Ok && lastErrorString == []
    {
      slot := new RfidApi.CtxSlot(null);
      antennas := [1, 2];
      cbuf := new RfidTag[0];
      lastError, lastErrorString := Ok, [];
    }

    /** IsInitialized */
    predicate IsInitialized()
      reads this, slot
    {
      slot.ctx != null
    }

    /** SetLastError_: records the result and its text, and returns the result. */
    method SetLastError(r: Result, prefix: Option<string>) returns (res: Result)
      modifies this`lastError, this`lastErrorString
      ensures res == r && lastError == r && lastErrorString == ErrorText(r, prefix)
    {
      lastError := r;
      lastErrorString := ResultToString(r);
      if !RfidApi.IsNullOrEmpty(prefix) {
        lastErrorString := lastErrorString + ": " + prefix.value;
      }
      res := r;
    }

    /** AppendLastErrorDetail_ */
    method AppendLastErrorDetail(detail: Option<string>)
      modifies this`lastErrorString
      ensures lastErrorString == WithDetail(old(lastErrorString), detail)
    {
      if detail.None? || detail.value == [] {
        return;
      }
      if lastErrorString != [] {
        lastErrorString := lastErrorString + " | ";
      }
      lastErrorString := lastErrorString + detail.value;
    }

    /**
     * EnsureBuf_: the buffer is resized to the capacity, one at least,
     * keeping the records that fit; the result is its size as an `int`.
     * std::vector::resize reallocates, so a new size is a new array.
     */
    method EnsureBuf(cap: u64) returns (size: i32)
      modifies this`cbuf
      ensures cbuf.Length == BufferSize(cap) && cbuf[..] == Resized(old(cbuf[..]), BufferSize(cap))
      ensures old(cbuf.Length) == BufferSize(cap) ==> cbuf == old(cbuf)
      ensures cbuf == old(cbuf) || fresh(cbuf)
      ensures size == SizeToInt(cbuf.Length)
    {
      var want := BufferSize(cap);
      if cbuf.Length != want {
        var keep := Resized(cbuf[..], want);
        cbuf := new RfidTag[want](i requires 0 <= i < want => keep[i]);
        assert cbuf[..] == keep;
      } else {
        assert cbuf[..] == Resized(cbuf[..], want);
      }
      size := SizeToInt(cbuf.Length);
    }

    /**
     * Reader::Destroy: with no context, records Ok and does nothing else;
     * otherwise rfid_deinit destroys the context's handle and clears the
     * pointer. rfid_deinit reports OK whenever it is given the address of
     * a context variable, so Destroy never fails and may be repeated.
     */
    method Destroy() returns (r: Result)
      requires Valid()
      modifies this`lastError, this`lastErrorString, slot
      modifies if slot.ctx != null then {slot.ctx.reader} else {}
      ensures r == Ok && !IsInitialized() && Valid()
      ensures lastError == Ok && lastErrorString == "Ok"
      ensures old(slot.ctx) != null ==> !old(slot.ctx).reader.created
      ensures antennas == old(antennas) && cbuf == old(cbuf)
    {
      if slot.ctx == null {
        r := SetLastError(Ok, None);
        return;
      }
      var rc := RfidApi.Deinit(slot);
      r := ToCppResult(rc);
      if r != Ok {
        assert false;
      }
      slot.ctx := null;
      r := SetLastError(Ok, None);
    }

    /**
     * Reader::Init: releases any context first, then checks the
     * configuration (disabled, empty URI, no antennas), sizes the buffer,
     * keeps the antenna list and calls rfid_init. The new context is kept
     * only on Ok; a failure records the C detail text `errstr` after the
     * result's text.
     */
    method Init(cfg: Config, device: TmrSdk.Device, errstr: Option<string>) returns (r: Result)
      requires Valid()
      modifies this, slot, if slot.ctx != null then {slot.ctx.reader} else {}
      ensures Valid() && lastError == r
      ensures old(slot.ctx) != null ==> !old(slot.ctx).reader.created
      ensures InitCheck(cfg) != Ok ==>
                r == InitCheck(cfg) && !IsInitialized() &&
                lastErrorString == ErrorText(r, Some(InitCheckPrefix(cfg))) &&
                antennas == old(antennas) && cbuf == old(cbuf)
      ensures InitCheck(cfg) == Ok ==>
                r == InitOutcome(cfg, device) && (IsInitialized() <==> r == Ok) &&
                antennas == cfg.antennas && cbuf.Length == BufferSize(cfg.capacity) &&
                lastErrorString == (if r == Ok then "Ok" else WithDetail(ErrorText(r, Some(InitFailed)), errstr))
      ensures r == Ok ==> fresh(slot.ctx) && fresh(slot.ctx.reader) && Started(slot.ctx, cfg, device)
    {
      r := Destroy();
      if !cfg.enable {
        r := SetLastError(Disabled, Some(InitFailed));
        return;
      }
      if cfg.uri == [] {
        r := SetLastError(InvalidArg, Some(UriEmpty));
        return;
      }
      if cfg.antennas == [] {
        r := SetLastError(InvalidArg, Some(AntennasEmpty));
        return;
      }
      var _ := EnsureBuf(cfg.capacity);
      antennas := cfg.antennas;
      var ctx;
      r, ctx := CallInit(cfg, device);
      if r != Ok {
        r := SetLastError(r, Some(InitFailed));
        AppendLastErrorDetail(errstr);
        return;
      }
      slot.ctx := ctx;
      r := SetLastError(Ok, None);
    }

    /**
     * Reader::SetWritePowerCdbm: NotInitialized without a context,
     * otherwise the translated result of rfid_set_write_power.
     */
    method SetWritePowerCdbm(cdbm: i32, errstr: Option<string>) returns (r: Result)
      requires Valid()
      modifies this`lastError, this`lastErrorString
      modifies if slot.ctx != null then {slot.ctx, slot.ctx.reader} else {}
      ensures Valid() && lastError == r && slot.ctx == old(slot.ctx)
      ensures !IsInitialized() ==>
                r == NotInitialized && lastErrorString == ErrorText(NotInitialized, Some(SetWritePowerFailed))
      ensures IsInitialized() ==>
                var c := slot.ctx;
                r == WritePowerOutcome(cdbm, c.reader.device) &&
                lastErrorString == (if r == Ok then "Ok" else WithDetail(ErrorText(r, Some(SetWritePowerFailed)), errstr)) &&
                c.readPowerDbm == (if r != Ok then old(c.readPowerDbm) else if cdbm <= 0 then 0 else cdbm) &&
                c.reader.params == (if r == Ok && cdbm > 0 then old(c.reader.params).(readPower := Some(cdbm))
                                    else old(c.reader.params))
      ensures IsInitialized() ==>
                slot.ctx.initialized == old(slot.ctx.initialized) && slot.ctx.region == old(slot.ctx.region) &&
                slot.ctx.readerCreated == old(slot.ctx.readerCreated) &&
                unchanged(slot.ctx.reader`created, slot.ctx.reader`connected, slot.ctx.reader`uri,
                          slot.ctx.reader`device, slot.ctx.reader`queue)
    {
      if slot.ctx == null {
        r := SetLastError(NotInitialized, Some(SetWritePowerFailed));
        return;
      }
      var rc := RfidApi.SetWritePower(slot.ctx, cdbm);
      r := ToCppResult(rc);
      if r != Ok {
        r := SetLastError(r, Some(SetWritePowerFailed));
        AppendLastErrorDetail(errstr);
        return;
      }
      r := SetLastError(Ok, None);
    }

    /**
     * Reader::Read: the output list is cleared first and stays empty on
     * every result but Ok. Without a context the result is
     * NotInitialized, with a negative timeout InvalidArg; otherwise an
     * empty buffer is sized to 64 records, rfid_read drains the reader
     * into it with the buffer's size as capacity, and on OK its first
     * `out_count` records are copied, in order.
     */
    method Read(timeoutMs: i32, errstr: Option<string>) returns (r: Result, tags: seq<Tag>)
      requires Valid()
      modifies this`cbuf, this`lastError, this`lastErrorString, cbuf
      modifies if slot.ctx != null then {slot.ctx.reader} else {}
      ensures Valid() && lastError == r && slot.ctx == old(slot.ctx) && antennas == old(antennas)
      ensures r != Ok ==> tags == []
      ensures !IsInitialized() ==>
                r == NotInitialized && lastErrorString == ErrorText(NotInitialized, Some(ReadFailed))
      ensures IsInitialized() && timeoutMs < 0 ==>
                r == InvalidArg && lastErrorString == ErrorText(InvalidArg, Some(NegativeTimeout)) &&
                cbuf == old(cbuf) && unchanged(slot.ctx.reader)
      ensures IsInitialized() && timeoutMs >= 0 ==>
                var d := old(slot.ctx.reader.device);
                var size := if old(cbuf.Length) == 0 then 64 else old(cbuf.Length);
                cbuf.Length == size && r == ReadOutcome(antennas, size, d) &&
                lastErrorString == (if r == Ok then "Ok" else WithDetail(ErrorText(r, Some(ReadFailed)), errstr)) &&
                (r == Ok ==> Delivered(d, size, cbuf[..], |tags|) && tags == ToTags(cbuf[..|tags|]))
      ensures IsInitialized() && timeoutMs >= 0 ==>
                var size := if old(cbuf.Length) == 0 then 64 else old(cbuf.Length);
                unchanged(slot.ctx.reader`created, slot.ctx.reader`connected, slot.ctx.reader`uri) &&
                ReadLeaves(slot.ctx.reader, antennas, size, timeoutMs,
                           old(slot.ctx.reader.device), old(slot.ctx.reader.queue), old(slot.ctx.reader.params))
    {
      tags := [];
      if slot.ctx == null {
        r := SetLastError(NotInitialized, Some(ReadFailed));
        return;
      }
      if timeoutMs < 0 {
        r := SetLastError(InvalidArg, Some(NegativeTimeout));
        return;
      }
      if cbuf.Length == 0 {
        var _ := EnsureBuf(64);
      }
      var count;
      r, count := CallRead(slot.ctx, antennas, timeoutMs, cbuf);
      if r != Ok {
        r := SetLastError(r, Some(ReadFailed));
        AppendLastErrorDetail(errstr);
        return;
      }
      if count <= 0 {
        r := SetLastError(Ok, None);
        return;
      }
      tags := CopyTags(cbuf, count);
      r := SetLastError(Ok, None);
    }
  }

  /**
   * The rfid_init call of Init, into a local context pointer that is kept
   * only on OK. rfid_init hands out no context when it fails, so the
   * clean-up the source does on that path has nothing to release.
   */
  method CallInit(cfg: Config, device: TmrSdk.Device) returns (r: Result, ctx: RfidApi.RfidContext?)
    ensures r == InitOutcome(cfg, device) && (ctx != null <==> r == Ok)
    ensures r == Ok ==> fresh(ctx) && fresh(ctx.reader) && Started(ctx, cfg, device)
  {
    var tmp := new RfidApi.CtxSlot(null);
    var rc, _ := RfidApi.Init(tmp, Some(CInitParams(cfg)), device);
    r := ToCppResult(rc);
    if r != Ok {
      if tmp.ctx != null {
        assert false;
      }
      return r, null;
    }
    ctx := tmp.ctx;
  }

  /**
   * A context as a successful rfid_init leaves it for `cfg` on device `d`:
   * initialized, connected to the URI, with the configured region, plan
   * and power.
   */
  ghost predicate Started(c: RfidApi.RfidContext, cfg: Config, d: TmrSdk.Device)
    reads c, c.reader
  {
    c.Valid() && c.initialized && c.reader.connected && c.reader.device == d &&
    c.reader.uri == cfg.uri && c.reader.params == RfidApi.InitParamsStore(CInitParams(cfg), d) &&
    c.region == ToCRegion(cfg.region) && c.readPowerDbm == cfg.writePowerCdbm
  }

  /** The rfid_read call of Read: the context's antennas, and the buffer's size as its capacity. */
  method CallRead(ctx: RfidApi.RfidContext, antennas: seq<i32>, timeoutMs: i32, buf: array<RfidTag>)
    returns (r: Result, count: int)
    requires ctx.Valid() && ctx.initialized && timeoutMs >= 0
    modifies buf, ctx.reader
    ensures ctx.Valid()
    ensures r == ReadOutcome(antennas, buf.Length, old(ctx.reader.device))
    ensures r == Ok ==> count <= buf.Length && Delivered(old(ctx.reader.device), buf.Length, buf[..], count)
    ensures unchanged(ctx.reader`created, ctx.reader`connected, ctx.reader`uri)
    ensures ReadLeaves(ctx.reader, antennas, buf.Length, timeoutMs,
                       old(ctx.reader.device), old(ctx.reader.queue), old(ctx.reader.params))
  {
    var outCount := new RfidApi.IntCell(0);
    var rc := RfidApi.Read(ctx, Some(antennas), SizeToInt(|antennas|), timeoutMs,
                           buf, SizeToInt(buf.Length), outCount);
    r := ToCppResult(rc);
    count := outCount.value;
  }

  /** The copy loop of Read: a Tag for each of the first `n` records, in buffer order. */
  method CopyTags(buf: array<RfidTag>, n: nat) returns (tags: seq<Tag>)
    requires n <= buf.Length
    ensures tags == ToTags(buf[..n])
  {
    tags := [];
    for i := 0 to n
      invariant tags == ToTags(buf[..i])
    {
      assert buf[..i + 1] == buf[..i] + [buf[i]];
      tags := tags + [ToTag(buf[i])];
    }
  }

  // ---------------------------------------------------------------------
  // ParseConfigJson
  // ---------------------------------------------------------------------

  /** The value under "region": an integer as get<int> reads it, a string, or another JSON type. */
  datatype RegionValue = RegionNumber(n: i32) | RegionString(s: string) | RegionOtherType

  /**
   * The keys ParseConfigJson reads from a JSON object, each absent or
   * holding a value of the type it is read as.
   */
  datatype JsonConfig = JsonConfig(
    enable: Option<bool>,
    uri: Option<string>,
    region: Option<RegionValue>,
    antennas: Option<seq<i32>>,
    planTimeoutMs: Option<i32>,
    writePowerCdbm: Option<i32>,
    capacity: Option<u64>)

  /** std::toupper in the "C" locale: the 26 lower-case ASCII letters, nothing else. */
  function ToUpper(c: char): (u: char)
    ensures 'a' <= c <= 'z' ==> 'A' <= u <= 'Z' && u as int == c as int - 32
    ensures !('a' <= c <= 'z') ==> u == c
  {
    if 'a' <= c <= 'z' then (c as int - 32) as char else c
  }

  /** A string with every character passed through ToUpper. */
  function Upper(s: string): (u: string)
    ensures |u| == |s|
  {
    seq(|s|, i requires 0 <= i < |s| => ToUpper(s[i]))
  }

  /** Upper-casing twice is upper-casing once. */
  lemma UpperIdempotent(s: string)
    ensures Upper(Upper(s)) == Upper(s)
  {
    forall i | 0 <= i < |s| ensures Upper(Upper(s))[i] == Upper(s)[i] {
      var c := s[i];
      assert Upper(s)[i] == ToUpper(c);
    }
  }

  /** The `toupper` loop over the region string, in place on a copy. */
  method UpperInPlace(s: string) returns (u: string)
    ensures u == Upper(s)
  {
    u := s;
    var i := 0;
    while i < |u|
      invariant |u| == |s| && 0 <= i <= |u|
      invariant forall k :: 0 <= k < i ==> u[k] == ToUpper(s[k])
      invariant forall k :: i <= k < |u| ==> u[k] == s[k]
    {
      u := u[i := ToUpper(u[i])];
      i := i + 1;
    }
  }

  /** The upper-case spelling of a named region in a configuration. */
  function RegionKey(r: Region): string
    requires IsNamedRegion(r)
  {
    if r == Auto then "AUTO" else if r == Kr2 then "KR2" else if r == Us then "US" else "EU"
  }

  /** The region an upper-cased string names, if any. */
  function RegionFromKey(u: string): (r: Option<Region>)
    ensures r.Some? ==> IsNamedRegion(r.value) && RegionKey(r.value) == u
    ensures forall x :: IsNamedRegion(x) && RegionKey(x) == u ==> r == Some(x)
  {
    if u == "AUTO" then Some(Auto)
    else if u == "KR2" then Some(Kr2)
    else if u == "US" then Some(Us)
    else if u == "EU" then Some(Eu)
    else None
  }

  /** The region a "region" value gives: a number as is, unchecked; a string by its upper case. */
  function ParsedRegion(v: RegionValue): Option<Region> {
    match v
    case RegionNumber(n) => Some(n as Region)
    case RegionString(s) => RegionFromKey(Upper(s))
    case RegionOtherType => None
  }

  /**
   * A region string is accepted exactly when its upper case is one of the
   * four names, whatever the case of its letters, and then gives that region.
   */
  lemma RegionStringIff(s: string, r: Region)
    ensures ParsedRegion(RegionString(s)) == Some(r) <==> IsNamedRegion(r) && Upper(s) == RegionKey(r)
    ensures ParsedRegion(RegionString(s)) == ParsedRegion(RegionString(Upper(s)))
  {
    UpperIdempotent(s);
  }

  /** "kr2" and "Eu" are accepted, "korea" is not, and the number 7 is kept as region 7, which is unnamed. */
  lemma RegionExamples()
    ensures ParsedRegion(RegionString("kr2")) == Some(Kr2)
    ensures ParsedRegion(RegionString("Eu")) == Some(Eu)
    ensures ParsedRegion(RegionString("korea")) == None
    ensures ParsedRegion(RegionNumber(7)) == Some(7 as Region) && !IsNamedRegion(7 as Region)
  {
    assert Upper("kr2") == "KR2";
    assert Upper("Eu") == "EU";
    assert Upper("korea") == "KOREA";
  }

  /** The configuration a well-formed object gives: its keys over the member initialisers. */
  function ConfigFrom(j: JsonConfig): Config
    requires j.region.Some? ==> ParsedRegion(j.region.value).Some?
  {
    Config(j.enable.GetOr(DefaultConfig.enable),
           j.uri.GetOr(DefaultConfig.uri),
           if j.region.Some? then ParsedRegion(j.region.value).value else DefaultConfig.region,
           j.antennas.GetOr(DefaultConfig.antennas),
           j.planTimeoutMs.GetOr(DefaultConfig.planTimeoutMs),
           j.writePowerCdbm.GetOr(DefaultConfig.writePowerCdbm),
           j.capacity.GetOr(DefaultConfig.capacity))
  }

  /** An object without any of the keys gives the member initialisers. */
  lemma EmptyObjectGivesDefaults()
    ensures ConfigFrom(JsonConfig(None, None, None, None, None, None, None)) == DefaultConfig
  {
  }

  const ParseFailed := "ParseConfigJson failed: "
  const JsonMissing := "ParseConfigJson failed: nlohmann/json.hpp not available"

  /**
   * ParseConfigJson. `hasJson` is the MERCURYAPI_HAS_NLOHMANN_JSON build
   * switch: src/mercuryapi.cpp sets it when the JSON header is found,
   * cpp_lib/api/mercuryapi.cpp never defines it. `doc` is the parsed
   * object, None for a text the JSON library rejects (not JSON, or a key
   * of another type), with `libraryError` its message. `cfg` is the
   * caller's configuration and `err` its error string, None for a null
   * pointer. On failure the configuration is left as it was and the
   * error string, if any, receives the reason.
   */
  method ParseConfigJson(hasJson: bool, doc: Option<JsonConfig>, libraryError: string,
                         cfg: Config, err: Option<string>)
    returns (ok: bool, cfgOut: Config, errOut: Option<string>)
    ensures ok <==> hasJson && doc.Some? &&
                    (doc.value.region.Some? ==> ParsedRegion(doc.value.region.value).Some?)
    ensures ok ==> cfgOut == ConfigFrom(doc.value) && errOut == err
    ensures !ok ==> cfgOut == cfg && errOut.Some? == err.Some?
    ensures !ok && err.Some? && !hasJson ==> errOut == Some(JsonMissing)
    ensures !ok && err.Some? && hasJson && doc.None? ==> errOut == Some(ParseFailed + libraryError)
    ensures !ok && err.Some? && hasJson && doc.Some? ==>
              errOut == Some(ParseFailed + if doc.value.region.value.RegionString? then "invalid region string"
                                           else "invalid region type")
  {
    cfgOut, errOut := cfg, err;
    if !hasJson {
      ok := false;
      if err.Some? {
        errOut := Some(JsonMissing);
      }
      return;
    }
    if doc.None? {
      ok := false;
      if err.Some? {
        errOut := Some(ParseFailed + libraryError);
      }
      return;
    }
    var j := doc.value;
    var region := DefaultConfig.region;
    if j.region.Some? {
      match j.region.value {
        case RegionNumber(n) =>
          region := n as Region;
        case RegionString(s) =>
          var u := UpperInPlace(s);
          if u == "AUTO" {
            region := Auto;
          } else if u == "KR2" {
            region := Kr2;
          } else if u == "US" {
            region := Us;
          } else if u == "EU" {
            region := Eu;
          } else {
            ok := false;
            if err.Some? {
              errOut := Some(ParseFailed + "invalid region string");
            }
            return;
          }
        case RegionOtherType =>
          ok := false;
          if err.Some? {
            errOut := Some(ParseFailed + "invalid region type");
          }
          return;
      }
    }
    cfgOut := Config(j.enable.GetOr(DefaultConfig.enable),
                     j.uri.GetOr(DefaultConfig.uri),
                     region,
                     j.antennas.GetOr(DefaultConfig.antennas),
                     j.planTimeoutMs.GetOr(DefaultConfig.planTimeoutMs),
                     j.writePowerCdbm.GetOr(DefaultConfig.writePowerCdbm),
                     j.capacity.GetOr(DefaultConfig.capacity));
    ok := true;
  }
}
