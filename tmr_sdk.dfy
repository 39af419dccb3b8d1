/**
 * The vendor SDK (ThingMagic MercuryAPI) as an abstract reader. Its radio,
 * protocol and transport code is not part of this model; what the library
 * relies on is kept: a handle that is created, connected and destroyed, a
 * parameter store (region, read plan, read power, antenna check port), the
 * list of supported regions, the queue of observations a timed read leaves
 * behind, and a table that makes any call of a given kind fail.
 */
module TmrSdk {
  import opened BoundedInts
  import opened Wrappers

  /** TMR_Status: zero is TMR_SUCCESS, every other value is an error. */
  type Status = u32
  const Success: Status := 0
  type ErrorStatus = s: u32 | s != 0 witness 1

  /** TMR_ERROR_NO_TAGS, the status of TMR_hasMoreTags once the queue is empty. */
  const NoTags: ErrorStatus := 50331656

  /** TMR_Region: the values the library names, and the SDK's other regions by number. */
  datatype TmrRegion = RegionNone | RegionNA | RegionEU | RegionKR2 | RegionOther(id: nat)

  /** The kinds of SDK call whose failure the environment can inject. */
  datatype Call =
    | Create | Connect | Destroy | GetSupportedRegions | SetRegion
    | InitPlan | SetPlan | SetReadPower | GetReadPower | SetCheckPort | TimedRead

  /** The read plan TMR_RP_init_simple builds: these antennas, protocol GEN2, this read time (ms). */
  datatype ReadPlan = SimpleGen2Plan(antennas: seq<u8>, readTime: u32)

  /**
   * The fields of TMR_TagReadData the library uses; the EPC's byte count
   * (epcByteCount) is |epc|.
   */
  datatype RawTag = RawTag(
    epc: seq<u8>,
    rssi: i32,
    readCount: u32,
    antenna: u8,
    timestampLow: u32,
    timestampHigh: u32)

  /** One entry of the queue TMR_getNextTag pops: an observation, or a fetch that fails. */
  datatype Pending = Observation(tag: RawTag) | FetchFault(status: ErrorStatus)

  /** The parameter store of a handle; None is a parameter never set on it. */
  datatype Params = Params(
    region: Option<TmrRegion>,
    plan: Option<ReadPlan>,
    readPower: Option<i32>,
    checkPort: Option<bool>)

  const NoParams := Params(None, None, None, None)

  /**
   * The physical reader behind a URI, as the environment scripts it: the
   * regions it supports, the calls that fail (and with which status), the
   * observations each successive timed read reports, and its read power
   * before any is set.
   */
  datatype Device = Device(
    supportedRegions: seq<TmrRegion>,
    failures: map<Call, ErrorStatus>,
    rounds: seq<seq<Pending>>,
    defaultReadPower: i32)

  /** The observations the next timed read on `d` reports (none once the script is used up). */
  function NextRound(d: Device): seq<Pending> {
    if d.rounds == [] then [] else d.rounds[0]
  }

  /** Every call of kind `c` to device `d` fails. */
  predicate Fails(d: Device, c: Call) {
    c in d.failures
  }

  /** The script after one timed read. */
  function AfterRound(d: Device): Device {
    if d.rounds == [] then d else d.(rounds := d.rounds[1..])
  }

  /** A TMR_Reader handle. */
  class Reader {
    var created: bool
    var connected: bool
    var uri: string
    var params: Params
    var device: Device
    var queue: seq<Pending>

    /** A zeroed TMR_Reader struct in front of device `d`. */
    constructor (d: Device)
      ensures !created && !connected && uri == [] && params == NoParams
      ensures device == d && queue == []
    {
      created, connected, uri, params := false, false, [], NoParams;
      device, queue := d, [];
    }

    /** The status every call of kind `c` returns at present. */
    function Outcome(c: Call): (st: Status)
      reads this
      ensures st == Success <==> !Fails(device, c)
    {
      if c in device.failures then device.failures[c] else Success
    }

    /** TMR_create */
    method TmrCreate(u: string) returns (st: Status)
      modifies this
      ensures st == old(Outcome(Call.Create))
      ensures created == (st == Success) && !connected
      ensures uri == (if st == Success then u else old(uri))
      ensures params == (if st == Success then NoParams else old(params))
      ensures queue == (if st == Success then [] else old(queue))
      ensures device == old(device)
    {
      st := Outcome(Call.Create);
      created, connected := st == Success, false;
      if st == Success {
        uri, params, queue := u, NoParams, [];
      }
    }

    /** TMR_connect */
    method TmrConnect() returns (st: Status)
      requires created
      modifies this`connected
      ensures st == Outcome(Call.Connect)
      ensures connected == (st == Success)
    {
      st := Outcome(Call.Connect);
      connected := st == Success;
    }

    /** TMR_destroy: the handle is released whatever status comes back. */
    method TmrDestroy() returns (st: Status)
      requires created
      modifies this`created, this`connected
      ensures st == Outcome(Call.Destroy)
      ensures !created && !connected
    {
      st := Outcome(Call.Destroy);
      created, connected := false, false;
    }

    /**
     * TMR_paramGet(TMR_PARAM_REGION_SUPPORTEDREGIONS) into a caller list of
     * `max` slots: the SDK reports the full length and fills at most `max`.
     */
    method GetSupportedRegions(max: nat) returns (st: Status, list: seq<TmrRegion>, len: nat)
      requires created
      ensures st == Outcome(Call.GetSupportedRegions)
      ensures st == Success ==> len == |device.supportedRegions|
      ensures st == Success ==>
                list == device.supportedRegions[..if len > max then max else len]
    {
      st := Outcome(Call.GetSupportedRegions);
      len := |device.supportedRegions|;
      list := device.supportedRegions[..if len > max then max else len];
    }

    /** TMR_paramSet(TMR_PARAM_REGION_ID) */
    method SetRegion(r: TmrRegion) returns (st: Status)
      requires created
      modifies this`params
      ensures st == Outcome(Call.SetRegion)
      ensures params == if st == Success then old(params).(region := Some(r)) else old(params)
    {
      st := Outcome(Call.SetRegion);
      if st == Success {
        params := params.(region := Some(r));
      }
    }

    /** TMR_RP_init_simple: builds a plan; it touches no handle, only its failure is scripted. */
    method InitSimplePlan(antennas: seq<u8>, readTime: u32) returns (st: Status, plan: ReadPlan)
      ensures st == Outcome(Call.InitPlan)
      ensures plan == SimpleGen2Plan(antennas, readTime)
    {
      st := Outcome(Call.InitPlan);
      plan := SimpleGen2Plan(antennas, readTime);
    }

    /** TMR_paramSet(TMR_PARAM_READ_PLAN) */
    method SetPlan(plan: ReadPlan) returns (st: Status)
      requires created
      modifies this`params
      ensures st == Outcome(Call.SetPlan)
      ensures params == if st == Success then old(params).(plan := Some(plan)) else old(params)
    {
      st := Outcome(Call.SetPlan);
      if st == Success {
        params := params.(plan := Some(plan));
      }
    }

    /** TMR_paramSet(TMR_PARAM_RADIO_READPOWER) */
    method SetReadPower(cdbm: i32) returns (st: Status)
      requires created
      modifies this`params
      ensures st == Outcome(Call.SetReadPower)
      ensures params == if st == Success then old(params).(readPower := Some(cdbm)) else old(params)
    {
      st := Outcome(Call.SetReadPower);
      if st == Success {
        params := params.(readPower := Some(cdbm));
      }
    }

    /** TMR_paramGet(TMR_PARAM_RADIO_READPOWER) */
    method GetReadPower() returns (st: Status, cdbm: i32)
      requires created
      ensures st == Outcome(Call.GetReadPower)
      ensures st == Success ==> cdbm == params.readPower.GetOr(device.defaultReadPower)
    {
      st := Outcome(Call.GetReadPower);
      cdbm := params.readPower.GetOr(device.defaultReadPower);
    }

    /** TMR_paramSet(TMR_PARAM_ANTENNA_CHECKPORT) */
    method SetCheckPort(enable: bool) returns (st: Status)
      requires created
      modifies this`params
      ensures st == Outcome(Call.SetCheckPort)
      ensures params == if st == Success then old(params).(checkPort := Some(enable)) else old(params)
    {
      st := Outcome(Call.SetCheckPort);
      if st == Success {
        params := params.(checkPort := Some(enable));
      }
    }

    /**
     * TMR_read: on success the queue holds the next scripted round and the
     * reported count is its length; on failure nothing changes.
     */
    method TimedRead(timeoutMs: u32) returns (st: Status, tagCount: nat)
      requires created
      modifies this`queue, this`device
      ensures st == old(Outcome(Call.TimedRead))
      ensures st == Success ==> queue == NextRound(old(device)) && device == AfterRound(old(device))
      ensures st == Success ==> tagCount == |queue|
      ensures st != Success ==> queue == old(queue) && device == old(device)
    {
      st := Outcome(Call.TimedRead);
      tagCount := 0;
      if st == Success {
        queue, device := NextRound(device), AfterRound(device);
        tagCount := |queue|;
      }
    }

    /** TMR_hasMoreTags: success exactly while observations are pending. */
    method HasMoreTags() returns (st: Status)
      ensures (st == Success) == (queue != [])
    {
      st := if queue != [] then Success else NoTags;
    }

    /** TMR_getNextTag: pops one entry, which either yields a tag or fails. */
    method GetNextTag() returns (st: Status, tag: RawTag)
      requires queue != []
      modifies this`queue
      ensures queue == old(queue)[1..]
      ensures old(queue)[0].Observation? ==> st == Success && tag == old(queue)[0].tag
      ensures old(queue)[0].FetchFault? ==> st == old(queue)[0].status
    {
      match queue[0] {
        case Observation(t) =>
          st, tag := Success, t;
        case FetchFault(s) =>
          st, tag := s, RawTag([], 0, 0, 0, 0, 0);
      }
      queue := queue[1..];
    }
  }
}
