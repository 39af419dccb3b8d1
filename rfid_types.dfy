/**
 * The shared C types of the library (rfid_types.h): result and region codes,
 * the init parameters and the tag record.
 *
 * C enums are `int`s: a caller can pass any value, which is why the switches
 * over them have default branches. The codes are therefore modelled as
 * 32-bit integers with named constants rather than as closed datatypes.
 */
module RfidTypes {
  import opened BoundedInts
  import opened Wrappers

  /** RFID_RESULT */
  newtype RfidResult = x: int | -0x8000_0000 <= x < 0x8000_0000

  const RfidResultOk: RfidResult := 0
  const RfidResultDisabled: RfidResult := 1
  const RfidResultInvalidArg: RfidResult := 2
  const RfidResultNotInitialized: RfidResult := 3
  const RfidResultConnectFail: RfidResult := 4
  const RfidResultRegionFail: RfidResult := 5
  const RfidResultPlanFail: RfidResult := 6
  const RfidResultReadFail: RfidResult := 7
  const RfidResultInternalError: RfidResult := 8

  /** The nine enumerators, OK = 0 through INTERNAL_ERROR = 8, consecutive. */
  predicate IsKnownResult(r: RfidResult) {
    RfidResultOk <= r <= RfidResultInternalError
  }

  /** RFID_REGION */
  newtype RfidRegion = x: int | -0x8000_0000 <= x < 0x8000_0000

  /** Resolved from the reader's supported list: KR2 if listed, else the first entry. */
  const RfidRegionAuto: RfidRegion := 0
  const RfidRegionKr2: RfidRegion := 1
  const RfidRegionUs: RfidRegion := 2
  const RfidRegionEu: RfidRegion := 3

  predicate IsKnownRegion(r: RfidRegion) {
    RfidRegionAuto <= r <= RfidRegionEu
  }

  /** RFID_EPC_MAX_LEN: the size of the tag record's EPC text buffer, terminator included. */
  const EpcMaxLen: nat := 128

  /**
   * rfid_init_params_t. NULL pointers are None. `antennaCount` is separate
   * from the array, as in C; plan timeout and write power may be 0.
   */
  datatype InitParams = InitParams(
    rfidEnable: i32,
    uri: Option<string>,
    region: RfidRegion,
    antennas: Option<seq<i32>>,
    antennaCount: i32,
    planTimeoutMs: i32,
    writePowerCdbm: i32)

  /**
   * rfid_tag_t. `epc` is the text before the terminator of the
   * EPC buffer of EpcMaxLen chars.
   */
  datatype RfidTag = RfidTag(
    epc: string,
    rssi: i32,
    readcnt: u32,
    antenna: i32,
    ts: u64)

  /** A record as memset/calloc leave it. */
  const ZeroTag := RfidTag([], 0, 0, 0, 0)

  /** The EPC text and its terminator fit the record's buffer. */
  predicate EpcFits(t: RfidTag) {
    |t.epc| < EpcMaxLen
  }
}
