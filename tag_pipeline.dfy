/**
 * The record side of rfid_read (c_lib/api/rfid_api.c): how one SDK
 * observation becomes an rfid_tag_t (EPC text, 64-bit timestamp), the order
 * the output buffer is sorted into (CompareTag_), what the drain of the
 * SDK's queue keeps, and the in-place sort of the buffer prefix.
 */
module TagPipeline {
  import opened BoundedInts
  import opened Wrappers
  import opened Hex
  import opened RfidTypes
  import opened TmrSdk

  function Min(a: int, b: int): int {
    if a < b then a else b
  }

  // ---------------------------------------------------------------------
  // Timestamps: CombineTimestampMs_
  // ---------------------------------------------------------------------

  /**
   * `high` as the upper and `low` as the lower 32 bits of a 64-bit value:
   * the shift-and-or of CombineTimestampMs_, written as arithmetic (the two
   * halves do not overlap, so `|` adds).
   */
  function CombineTimestampMs(low: u32, high: u32): (ts: u64)
    ensures ts % TWO_TO_THE_32 == low
    ensures ts / TWO_TO_THE_32 == high
  {
    high * TWO_TO_THE_32 + low
  }

  /** The two 32-bit words of a 64-bit timestamp. */
  function TimestampLow(ts: u64): u32 {
    ts % TWO_TO_THE_32
  }

  function TimestampHigh(ts: u64): u32 {
    ts / TWO_TO_THE_32
  }

  /** Splitting a timestamp into its words and combining them gives it back. */
  lemma CombineSplit(ts: u64)
    ensures CombineTimestampMs(TimestampLow(ts), TimestampHigh(ts)) == ts
  {
  }

  /** Combining two words and splitting the result gives the words back. */
  lemma SplitCombine(low: u32, high: u32)
    ensures TimestampLow(CombineTimestampMs(low, high)) == low
    ensures TimestampHigh(CombineTimestampMs(low, high)) == high
  {
  }

  /** Low word 1 and high word 2 give 2 * 2^32 + 1. */
  lemma CombineExample()
    ensures CombineTimestampMs(1, 2) == 8589934593
  {
  }

  // ---------------------------------------------------------------------
  // Ordering: CompareTag_
  // ---------------------------------------------------------------------

  /** `x` may stand before `y`: higher RSSI first, and for equal RSSI higher read count first. */
  predicate Precedes(x: RfidTag, y: RfidTag) {
    x.rssi > y.rssi || (x.rssi == y.rssi && x.readcnt >= y.readcnt)
  }

  /** Both sort keys agree. */
  predicate SameKey(x: RfidTag, y: RfidTag) {
    x.rssi == y.rssi && x.readcnt == y.readcnt
  }

  /**
   * The qsort comparator, with the RSSI difference replaced by its sign:
   * positive when `y` ranks first, negative when `x` does, zero on equal keys.
   */
  function CompareTag(x: RfidTag, y: RfidTag): (c: int)
    ensures -1 <= c <= 1
    ensures c == 0 <==> SameKey(x, y)
    ensures c <= 0 <==> Precedes(x, y)
    ensures c >= 0 <==> Precedes(y, x)
  {
    if x.rssi != y.rssi then (if y.rssi > x.rssi then 1 else -1)
    else if x.readcnt < y.readcnt then 1
    else if x.readcnt > y.readcnt then -1
    else 0
  }

  /** The comparator is antisymmetric, as qsort needs. */
  lemma CompareTagAntisymmetric(x: RfidTag, y: RfidTag)
    ensures CompareTag(x, y) == -CompareTag(y, x)
  {
  }

  /** The comparator is transitive, as qsort needs. */
  lemma CompareTagTransitive(x: RfidTag, y: RfidTag, z: RfidTag)
    requires CompareTag(x, y) <= 0 && CompareTag(y, z) <= 0
    ensures CompareTag(x, z) <= 0
  {
  }

  /** Every two records are comparable. */
  lemma CompareTagTotal(x: RfidTag, y: RfidTag)
    ensures Precedes(x, y) || Precedes(y, x)
  {
  }

  /** 32-bit two's complement wrap-around of an `int` result. */
  function WrapI32(v: int): (w: i32)
    ensures (w - v) % TWO_TO_THE_32 == 0
  {
    (v + 0x8000_0000) % TWO_TO_THE_32 - 0x8000_0000
  }

  /** CompareTag_ as written: the RSSI branch returns `y->rssi - x->rssi` in a 32-bit `int`. */
  function CompareTagAsWritten(x: RfidTag, y: RfidTag): (c: int)
    ensures x.rssi == y.rssi ==> c == CompareTag(x, y)
  {
    if x.rssi != y.rssi then WrapI32(y.rssi - x.rssi)
    else if x.readcnt < y.readcnt then 1
    else if x.readcnt > y.readcnt then -1
    else 0
  }

  /**
   * The subtraction overflows for extreme RSSI values: RSSI 1 against
   * INT_MIN yields INT_MAX, which ranks the INT_MIN record first.
   */
  lemma CompareTagAsWrittenMisorders()
    ensures var x, y := RfidTag([], 1, 0, 0, 0), RfidTag([], -0x8000_0000, 0, 0, 0);
      x.rssi > y.rssi && CompareTagAsWritten(x, y) == 0x7FFF_FFFF && CompareTag(x, y) == -1
  {
  }

  /** For RSSI values of magnitude below 2^30 (real readings lie near -100..0) the two agree in sign. */
  lemma CompareTagAsWrittenAgreesInRange(x: RfidTag, y: RfidTag)
    requires -0x4000_0000 < x.rssi < 0x4000_0000 && -0x4000_0000 < y.rssi < 0x4000_0000
    ensures CompareTagAsWritten(x, y) < 0 <==> CompareTag(x, y) < 0
    ensures CompareTagAsWritten(x, y) == 0 <==> CompareTag(x, y) == 0
    ensures CompareTagAsWritten(x, y) > 0 <==> CompareTag(x, y) > 0
  {
    if x.rssi != y.rssi {
      assert WrapI32(y.rssi - x.rssi) == y.rssi - x.rssi;
    }
  }

  /** Sorted in the comparator's order: every record may stand before every later one. */
  predicate Sorted(s: seq<RfidTag>) {
    forall i, j :: 0 <= i < j < |s| ==> Precedes(s[i], s[j])
  }

  // ---------------------------------------------------------------------
  // One observation as a record
  // ---------------------------------------------------------------------

  /** The EPC bytes that fit the record: (RFID_EPC_MAX_LEN - 1) / 2 = 63. */
  const EpcMaxBytes: nat := (EpcMaxLen - 1) / 2

  /** The EPC bytes a record keeps: the first min(epcByteCount, 63). */
  function KeptEpc(epc: seq<u8>): (kept: seq<u8>)
    ensures |kept| <= EpcMaxBytes
  {
    epc[..Min(|epc|, EpcMaxBytes)]
  }

  /**
   * The record rfid_read fills from one SDK observation: the kept EPC bytes
   * as hexadecimal text, RSSI, read count and antenna copied, and the two
   * timestamp words combined.
   */
  function Normalize(t: RawTag): (r: RfidTag)
    ensures EpcFits(r)
    ensures HexDecode(r.epc) == Some(KeptEpc(t.epc))
    ensures |t.epc| <= EpcMaxBytes ==> HexDecode(r.epc) == Some(t.epc)
    ensures r.rssi == t.rssi && r.readcnt == t.readCount && r.antenna == t.antenna
    ensures TimestampLow(r.ts) == t.timestampLow && TimestampHigh(r.ts) == t.timestampHigh
  {
    DecodeEncode(KeptEpc(t.epc));
    assert |t.epc| <= EpcMaxBytes ==> KeptEpc(t.epc) == t.epc;
    RfidTag(HexEncode(KeptEpc(t.epc)), t.rssi, t.readCount, t.antenna,
            CombineTimestampMs(t.timestampLow, t.timestampHigh))
  }

  // ---------------------------------------------------------------------
  // The drain of the SDK queue
  // ---------------------------------------------------------------------

  /** The records of a run of observations, in order. */
  function Records(raws: seq<RawTag>): seq<RfidTag> {
    seq(|raws|, i requires 0 <= i < |raws| => Normalize(raws[i]))
  }

  /** One more observation adds its record at the end. */
  lemma RecordsSnoc(raws: seq<RawTag>, t: RawTag)
    ensures Records(raws + [t]) == Records(raws) + [Normalize(t)]
  {
  }

  /** Every record the drain stores has its EPC text and terminator within the buffer. */
  lemma RecordsFit(raws: seq<RawTag>)
    ensures forall i :: 0 <= i < |raws| ==> EpcFits(Records(raws)[i])
    ensures forall i :: 0 <= i < |raws| ==> |Records(raws)[i].epc| <= 2 * EpcMaxBytes
  {
    forall i | 0 <= i < |raws| ensures |Records(raws)[i].epc| <= 2 * EpcMaxBytes {
      assert |HexEncode(KeptEpc(raws[i].epc))| == 2 * |KeptEpc(raws[i].epc)|;
    }
  }

  /**
   * What the drain leaves: the observations stored in the buffer, in the
   * order they were fetched, whether a fetch into the buffer failed, and
   * the queue left behind.
   */
  datatype Drained = Drained(kept: seq<RawTag>, failed: bool, rest: seq<Pending>)

  /**
   * The drain loop of rfid_read with the observations `acc` already in the
   * buffer: while entries are pending, one past capacity is popped and
   * dropped whatever it is; otherwise a failed fetch ends the drain and an
   * observation is stored.
   */
  function Drain(q: seq<Pending>, cap: nat, acc: seq<RawTag>): (d: Drained)
    ensures |acc| <= cap ==> |d.kept| <= cap
    ensures acc <= d.kept
    ensures !d.failed ==> d.rest == []
    decreases |q|
  {
    if q == [] then Drained(acc, false, [])
    else if |acc| >= cap then Drain(q[1..], cap, acc)
    else
      match q[0]
      case FetchFault(_) => Drained(acc, true, q[1..])
      case Observation(t) => Drain(q[1..], cap, acc + [t])
  }

  /** The index of the first failed fetch in `s`, or |s| when there is none. */
  function FirstFault(s: seq<Pending>): (f: nat)
    ensures f <= |s|
  {
    if s == [] || s[0].FetchFault? then 0 else 1 + FirstFault(s[1..])
  }

  /** FirstFault finds the first failed fetch: everything before it is an observation. */
  lemma {:induction false} FirstFaultIsFirst(s: seq<Pending>)
    ensures forall i :: 0 <= i < FirstFault(s) ==> s[i].Observation?
    ensures FirstFault(s) < |s| ==> s[FirstFault(s)].FetchFault?
  {
    if s != [] && s[0].Observation? {
      FirstFaultIsFirst(s[1..]);
      assert forall i :: 1 <= i < |s| ==> s[i] == s[1..][i - 1];
    }
  }

  /** The tags of the observations in `s`, in order. */
  function Observed(s: seq<Pending>): (ts: seq<RawTag>)
    ensures |ts| <= |s|
  {
    if s == [] then []
    else (if s[0].Observation? then [s[0].tag] else []) + Observed(s[1..])
  }

  /** A run without failed fetches yields one tag per entry. */
  lemma {:induction false} ObservedOfObservations(s: seq<Pending>)
    requires forall i :: 0 <= i < |s| ==> s[i].Observation?
    ensures |Observed(s)| == |s|
    ensures forall i :: 0 <= i < |s| ==> Observed(s)[i] == s[i].tag
  {
    if s != [] {
      assert forall i :: 1 <= i < |s| ==> s[i] == s[1..][i - 1];
      ObservedOfObservations(s[1..]);
    }
  }

  /**
   * The drain in closed form. Of the queue only its first
   * min(|q|, cap - |acc|) entries can reach the buffer; if one of them is a
   * failed fetch, the observations before it are stored, the drain fails
   * and the queue behind it is left; otherwise all of them are stored,
   * every later entry is dropped, and the queue ends empty.
   */
  function DrainSpec(q: seq<Pending>, cap: nat, acc: seq<RawTag>): Drained
    requires |acc| <= cap
  {
    var reach := q[..Min(|q|, cap - |acc|)];
    var f := FirstFault(reach);
    if f < |reach| then Drained(acc + Observed(reach[..f]), true, q[f + 1..])
    else Drained(acc + Observed(reach), false, [])
  }

  /** Once the buffer is full, the rest of the queue is popped and dropped. */
  lemma {:induction false} DrainPastCapacity(q: seq<Pending>, cap: nat, acc: seq<RawTag>)
    requires |acc| >= cap
    ensures Drain(q, cap, acc) == Drained(acc, false, [])
    decreases |q|
  {
    if q != [] {
      DrainPastCapacity(q[1..], cap, acc);
    }
  }

  lemma Cons(p: Pending, s: seq<Pending>)
    requires p.Observation?
    ensures FirstFault([p] + s) == 1 + FirstFault(s)
    ensures Observed([p] + s) == [p.tag] + Observed(s)
  {
    assert ([p] + s)[1..] == s;
  }

  /** The closed form takes one observation at a time: a failed fetch is still within reach. */
  lemma DrainSpecStepToFault(q: seq<Pending>, cap: nat, acc: seq<RawTag>)
    requires q != [] && |acc| < cap && q[0].Observation?
    requires FirstFault(q[..Min(|q|, cap - |acc|)]) < Min(|q|, cap - |acc|)
    ensures DrainSpec(q, cap, acc) == DrainSpec(q[1..], cap, acc + [q[0].tag])
  {
    var reach := q[..Min(|q|, cap - |acc|)];
    var reach' := q[1..][..Min(|q[1..]|, cap - |acc| - 1)];
    assert reach == [q[0]] + reach';
    Cons(q[0], reach');
    var f := FirstFault(reach);
    assert reach[..f] == [q[0]] + reach'[..f - 1];
    Cons(q[0], reach'[..f - 1]);
    assert acc + Observed(reach[..f]) == (acc + [q[0].tag]) + Observed(reach'[..f - 1]);
    assert q[1..][f - 1 + 1..] == q[f + 1..];
  }

  /** The closed form takes one observation at a time: no failed fetch within reach. */
  lemma DrainSpecStepClean(q: seq<Pending>, cap: nat, acc: seq<RawTag>)
    requires q != [] && |acc| < cap && q[0].Observation?
    requires FirstFault(q[..Min(|q|, cap - |acc|)]) == Min(|q|, cap - |acc|)
    ensures DrainSpec(q, cap, acc) == DrainSpec(q[1..], cap, acc + [q[0].tag])
  {
    var reach := q[..Min(|q|, cap - |acc|)];
    var reach' := q[1..][..Min(|q[1..]|, cap - |acc| - 1)];
    assert reach == [q[0]] + reach';
    Cons(q[0], reach');
    assert acc + Observed(reach) == (acc + [q[0].tag]) + Observed(reach');
  }

  lemma {:induction false} DrainClosedForm(q: seq<Pending>, cap: nat, acc: seq<RawTag>)
    requires |acc| <= cap
    ensures Drain(q, cap, acc) == DrainSpec(q, cap, acc)
    decreases |q|
  {
    if q == [] {
    } else if |acc| == cap {
      DrainPastCapacity(q, cap, acc);
      assert q[..Min(|q|, cap - |acc|)] == [];
    } else if q[0].FetchFault? {
      assert FirstFault(q[..Min(|q|, cap - |acc|)]) == 0;
    } else {
      DrainClosedForm(q[1..], cap, acc + [q[0].tag]);
      if FirstFault(q[..Min(|q|, cap - |acc|)]) < Min(|q|, cap - |acc|) {
        DrainSpecStepToFault(q, cap, acc);
      } else {
        DrainSpecStepClean(q, cap, acc);
      }
    }
  }

  /**
   * What a drain into an empty buffer of `cap` records stores: the tags of
   * the first entries of the queue, in queue order. Without a failed fetch
   * that is min(|q|, cap) of them and the queue ends empty; with one, it is
   * those before the first failed fetch among the first `cap` entries, and
   * the queue behind that entry is left.
   */
  lemma DrainKeepsPrefix(q: seq<Pending>, cap: nat, d: Drained)
    requires d == Drain(q, cap, [])
    ensures |d.kept| <= Min(|q|, cap)
    ensures forall i :: 0 <= i < |d.kept| ==> q[i] == Observation(d.kept[i])
    ensures !d.failed ==> |d.kept| == Min(|q|, cap) && d.rest == []
    ensures d.failed ==> |d.kept| < Min(|q|, cap) && q[|d.kept|].FetchFault? && d.rest == q[|d.kept| + 1..]
  {
    DrainKeptClosed(q, cap, d);
    DrainFailedClosed(q, cap, d);
    PrefixBeforeFault(q, Min(|q|, cap), d.kept);
  }

  lemma DrainKeptClosed(q: seq<Pending>, cap: nat, d: Drained)
    requires d == Drain(q, cap, [])
    ensures d.kept == Observed(q[..Min(|q|, cap)][..FirstFault(q[..Min(|q|, cap)])])
  {
    var reach := q[..Min(|q|, cap)];
    var f := FirstFault(reach);
    DrainClosedForm(q, cap, []);
    assert [] + Observed(reach[..f]) == Observed(reach[..f]);
    if f == |reach| {
      assert reach[..f] == reach;
    }
  }

  lemma DrainFailedClosed(q: seq<Pending>, cap: nat, d: Drained)
    requires d == Drain(q, cap, [])
    ensures var f := FirstFault(q[..Min(|q|, cap)]);
            d.failed == (f < Min(|q|, cap)) && (d.failed ==> d.rest == q[f + 1..])
  {
    DrainClosedForm(q, cap, []);
  }

  /** The tags before the first failed fetch within the first `m` entries are those entries. */
  lemma PrefixBeforeFault(q: seq<Pending>, m: nat, kept: seq<RawTag>)
    requires m <= |q| && kept == Observed(q[..m][..FirstFault(q[..m])])
    ensures |kept| == FirstFault(q[..m])
    ensures forall i :: 0 <= i < |kept| ==> q[i] == Observation(kept[i])
    ensures |kept| < m ==> q[|kept|].FetchFault?
  {
    var reach := q[..m];
    FirstFaultIsFirst(reach);
    ObservedOfObservations(reach[..FirstFault(reach)]);
  }

  // ---------------------------------------------------------------------
  // qsort over the filled prefix of the buffer
  // ---------------------------------------------------------------------

  /**
   * Sorts `a[..n]` by the comparator in place and leaves the rest of the
   * array alone. The C code calls qsort, which is not stable: only the
   * order and the permutation are promised, not the order of equal keys.
   */
  method SortTags(a: array<RfidTag>, n: nat)
    requires n <= a.Length
    modifies a
    ensures Sorted(a[..n])
    ensures multiset(a[..n]) == multiset(old(a[..n]))
    ensures a[n..] == old(a[n..])
  {
    var i := 0;
    while i < n
      invariant 0 <= i <= n
      invariant Sorted(a[..i])
      invariant multiset(a[..n]) == multiset(old(a[..n]))
      invariant a[n..] == old(a[n..])
    {
      InsertLast(a, i, n);
      i := i + 1;
    }
  }

  /**
   * The state of one insertion step: `s[j]` is the record being moved, the
   * other records of `s[..i + 1]` are in order, and `s[j]` may stand
   * before every record it has passed.
   */
  predicate Inserting(s: seq<RfidTag>, j: nat, i: nat)
    requires j <= i < |s|
  {
    (forall k, m :: 0 <= k < m <= i && k != j && m != j ==> Precedes(s[k], s[m])) &&
    (forall m :: j < m <= i ==> Precedes(s[j], s[m]))
  }

  /** Swapping the moved record with a predecessor it ranks before keeps the step's state. */
  lemma InsertingSwap(s: seq<RfidTag>, j: nat, i: nat)
    requires 0 < j <= i < |s| && Inserting(s, j, i) && !Precedes(s[j - 1], s[j])
    ensures Inserting(s[j - 1 := s[j]][j := s[j - 1]], j - 1, i)
  {
  }

  /** Once the moved record follows one it may stand after, the prefix is sorted. */
  lemma InsertingDone(s: seq<RfidTag>, j: nat, i: nat)
    requires j <= i < |s| && Inserting(s, j, i) && (j == 0 || Precedes(s[j - 1], s[j]))
    ensures Sorted(s[..i + 1])
  {
    forall k, m | 0 <= k < m <= i ensures Precedes(s[k], s[m]) {
      if m == j && k < j - 1 {
        assert Precedes(s[k], s[j - 1]);
      }
    }
  }

  /** Moves `a[i]` left past every record it ranks before, into the sorted `a[..i]`. */
  method InsertLast(a: array<RfidTag>, i: nat, n: nat)
    requires i < n <= a.Length
    requires Sorted(a[..i])
    modifies a
    ensures Sorted(a[..i + 1])
    ensures multiset(a[..n]) == multiset(old(a[..n]))
    ensures a[i + 1..] == old(a[i + 1..])
  {
    var j := i;
    while j > 0 && !Precedes(a[j - 1], a[j])
      invariant 0 <= j <= i
      invariant Inserting(a[..], j, i)
      invariant multiset(a[..n]) == multiset(old(a[..n]))
      invariant a[i + 1..] == old(a[i + 1..])
    {
      InsertingSwap(a[..], j, i);
      a[j - 1], a[j] := a[j], a[j - 1];
      j := j - 1;
    }
    InsertingDone(a[..], j, i);
    assert a[..i + 1] == a[..][..i + 1];
  }
}
