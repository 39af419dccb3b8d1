/**
 * TMR_ErrorCode (install-release/include/rfid_types.h) and its names
 * (TMR_ErrorCodeToString in c_lib/api/rfid_api.c): the library reports SDK
 * statuses to callers as these names, for diagnostics only.
 */
module TmrErrorCodes {

  // The values of the enumerators in declaration order, in blocks of eight
  // so that each block can be checked by evaluation.
  const Codes0: seq<int> := [0, 16777217, 16777218, 16777219, 16777220, 16777221, 16777222, 16777223]
  const Codes1: seq<int> := [33554688, 33554689, 33554690, 33554691, 33554692, 33554693, 33554694, 33554697]
  const Codes2: seq<int> := [33554698, 33554699, 33554700, 33554944, 33554945, 33555200, 33555201, 33555202]
  const Codes3: seq<int> := [33555203, 33555204, 33555205, 33555206, 33555456, 33555457, 33555458, 33555459]
  const Codes4: seq<int> := [33555460, 33555461, 33555462, 33555463, 33555464, 33555465, 33555466, 33555467]
  const Codes5: seq<int> := [33555468, 33555470, 33555471, 33555472, 33555473, 33555488, 33555491, 33555492]
  const Codes6: seq<int> := [33555493, 33555494, 33555499, 33555503, 33555504, 33555712, 33555713, 33555714]
  const Codes7: seq<int> := [33555715, 33555716, 33555717, 33555719, 33555968, 33555969, 33555970, 33555971]
  const Codes8: seq<int> := [33555972, 33586944, 33586945, 50331649, 50331650, 50331651, 50331652, 50331653]
  const Codes9: seq<int> := [50331654, 50331655, 50331656, 50331657, 50331658, 50331659, 50331660, 50331661]
  const Codes10: seq<int> := [50331662, 50331663, 50331664, 50331665, 67108865, 67108866, 67108867, 67108868]
  const Codes11: seq<int> := [67108869, 67108870, 67108871, 67108872, 67108873, 67108874, 67108875, 67108876]

  const ErrorCodes: seq<int> := Codes0 + Codes1 + Codes2 + Codes3 + Codes4 + Codes5 + Codes6 + Codes7 + Codes8 + Codes9 + Codes10 + Codes11

  /**
   * The enumerators' names, in the same order: the switch of
   * TMR_ErrorCodeToString returns each enumerator's own name.
   */
  const ErrorCodeNames: seq<string> := [
    "ECODE_TMR_SUCCESS",
    "ECODE_TMR_ERROR_TIMEOUT",
    "ECODE_TMR_ERROR_NO_HOST",
    "ECODE_TMR_ERROR_LLRP",
    "ECODE_TMR_ERROR_PARSE",
    "ECODE_TMR_ERROR_DEVICE_RESET",
    "ECODE_TMR_ERROR_CRC_ERROR",
    "ECODE_TMR_ERROR_BOOT_RESPONSE",
    "ECODE_TMR_ERROR_MSG_WRONG_NUMBER_OF_DATA",
    "ECODE_TMR_ERROR_INVALID_OPCODE",
    "ECODE_TMR_ERROR_UNIMPLEMENTED_OPCODE",
    "ECODE_TMR_ERROR_MSG_POWER_TOO_HIGH",
    "ECODE_TMR_ERROR_MSG_INVALID_FREQ_RECEIVED",
    "ECODE_TMR_ERROR_MSG_INVALID_PARAMETER_VALUE",
    "ECODE_TMR_ERROR_MSG_POWER_TOO_LOW",
    "ECODE_TMR_ERROR_UNIMPLEMENTED_FEATURE",
    "ECODE_TMR_ERROR_INVALID_BAUD_RATE",
    "ECODE_TMR_ERROR_INVALID_REGION",
    "ECODE_TMR_ERROR_INVALID_LICENSE_KEY",
    "ECODE_TMR_ERROR_BL_INVALID_IMAGE_CRC",
    "ECODE_TMR_ERROR_BL_INVALID_APP_END_ADDR",
    "ECODE_TMR_ERROR_FLASH_BAD_ERASE_PASSWORD",
    "ECODE_TMR_ERROR_FLASH_BAD_WRITE_PASSWORD",
    "ECODE_TMR_ERROR_FLASH_UNDEFINED_SECTOR",
    "ECODE_TMR_ERROR_FLASH_ILLEGAL_SECTOR",
    "ECODE_TMR_ERROR_FLASH_WRITE_TO_NON_ERASED_AREA",
    "ECODE_TMR_ERROR_FLASH_WRITE_TO_ILLEGAL_SECTOR",
    "ECODE_TMR_ERROR_FLASH_VERIFY_FAILED",
    "ECODE_TMR_ERROR_NO_TAGS_FOUND",
    "ECODE_TMR_ERROR_NO_PROTOCOL_DEFINED",
    "ECODE_TMR_ERROR_INVALID_PROTOCOL_SPECIFIED",
    "ECODE_TMR_ERROR_WRITE_PASSED_LOCK_FAILED",
    "ECODE_TMR_ERROR_PROTOCOL_NO_DATA_READ",
    "ECODE_TMR_ERROR_AFE_NOT_ON",
    "ECODE_TMR_ERROR_PROTOCOL_WRITE_FAILED",
    "ECODE_TMR_ERROR_NOT_IMPLEMENTED_FOR_THIS_PROTOCOL",
    "ECODE_TMR_ERROR_PROTOCOL_INVALID_WRITE_DATA",
    "ECODE_TMR_ERROR_PROTOCOL_INVALID_ADDRESS",
    "ECODE_TMR_ERROR_GENERAL_TAG_ERROR",
    "ECODE_TMR_ERROR_DATA_TOO_LARGE",
    "ECODE_TMR_ERROR_PROTOCOL_INVALID_KILL_PASSWORD",
    "ECODE_TMR_ERROR_PROTOCOL_KILL_FAILED",
    "ECODE_TMR_ERROR_PROTOCOL_BIT_DECODING_FAILED",
    "ECODE_TMR_ERROR_PROTOCOL_INVALID_EPC",
    "ECODE_TMR_ERROR_PROTOCOL_INVALID_NUM_DATA",
    "ECODE_TMR_ERROR_GEN2_PROTOCOL_OTHER_ERROR",
    "ECODE_TMR_ERROR_GEN2_PROTOCOL_MEMORY_OVERRUN_BAD_PC",
    "ECODE_TMR_ERROR_GEN2_PROTOCOL_MEMORY_LOCKED",
    "ECODE_TMR_ERROR_GEN2_PROTOCOL_V2_AUTHEN_FAILED",
    "ECODE_TMR_ERROR_GEN2_PROTOCOL_V2_UNTRACE_FAILED",
    "ECODE_TMR_ERROR_GEN2_PROTOCOL_INSUFFICIENT_POWER",
    "ECODE_TMR_ERROR_GEN2_PROTOCOL_NON_SPECIFIC_ERROR",
    "ECODE_TMR_ERROR_GEN2_PROTOCOL_UNKNOWN_ERROR",
    "ECODE_TMR_ERROR_AHAL_INVALID_FREQ",
    "ECODE_TMR_ERROR_AHAL_CHANNEL_OCCUPIED",
    "ECODE_TMR_ERROR_AHAL_TRANSMITTER_ON",
    "ECODE_TMR_ERROR_ANTENNA_NOT_CONNECTED",
    "ECODE_TMR_ERROR_TEMPERATURE_EXCEED_LIMITS",
    "ECODE_TMR_ERROR_HIGH_RETURN_LOSS",
    "ECODE_TMR_ERROR_INVALID_ANTENNA_CONFIG",
    "ECODE_TMR_ERROR_TAG_ID_BUFFER_NOT_ENOUGH_TAGS_AVAILABLE",
    "ECODE_TMR_ERROR_TAG_ID_BUFFER_FULL",
    "ECODE_TMR_ERROR_TAG_ID_BUFFER_REPEATED_TAG_ID",
    "ECODE_TMR_ERROR_TAG_ID_BUFFER_NUM_TAG_TOO_LARGE",
    "ECODE_TMR_ERROR_TAG_ID_BUFFER_AUTH_REQUEST",
    "ECODE_TMR_ERROR_SYSTEM_UNKNOWN_ERROR",
    "ECODE_TMR_ERROR_TM_ASSERT_FAILED",
    "ECODE_TMR_ERROR_INVALID",
    "ECODE_TMR_ERROR_UNIMPLEMENTED",
    "ECODE_TMR_ERROR_UNSUPPORTED",
    "ECODE_TMR_ERROR_NO_ANTENNA",
    "ECODE_TMR_ERROR_READONLY",
    "ECODE_TMR_ERROR_TOO_BIG",
    "ECODE_TMR_ERROR_NO_THREADS",
    "ECODE_TMR_ERROR_NO_TAGS",
    "ECODE_TMR_ERROR_BUFFER_OVERFLOW",
    "ECODE_TMR_ERROR_TRYAGAIN",
    "ECODE_TMR_ERROR_OUT_OF_MEMORY",
    "ECODE_TMR_ERROR_READER_TYPE",
    "ECODE_TMR_ERROR_INVALID_TAG_TYPE",
    "ECODE_TMR_ERROR_MULTIPLE_STATUS",
    "ECODE_TMR_ERROR_UNEXPECTED_TAG_ID",
    "ECODE_TMR_ERROR_REGULATORY",
    "ECODE_TMR_ERROR_SYSTEM_RESOURCE",
    "ECODE_TMR_ERROR_LLRP_READER_CONNECTION_ALREADY_OPEN",
    "ECODE_TMR_ERROR_LLRP_READER_CONNECTION_LOST_INTERNAL",
    "ECODE_TMR_ERROR_LLRP_SENDIO_ERROR",
    "ECODE_TMR_ERROR_LLRP_RECEIVEIO_ERROR",
    "ECODE_TMR_ERROR_LLRP_RECEIVE_TIMEOUT",
    "ECODE_TMR_ERROR_LLRP_MSG_PARSE_ERROR",
    "ECODE_TMR_ERROR_LLRP_ALREADY_CONNECTED",
    "ECODE_TMR_ERROR_LLRP_INVALID_RFMODE",
    "ECODE_TMR_ERROR_LLRP_UNDEFINED_VALUE",
    "ECODE_TMR_ERROR_LLRP_READER_ERROR",
    "ECODE_TMR_ERROR_LLRP_READER_CONNECTION_LOST",
    "ECODE_TMR_ERROR_LLRP_CLIENT_CONNECTION_EXISTS"
  ]

  const UnknownCodeName: string := "UNKNOWN_TMR_ERROR_CODE"

  /** The header declares the values in strictly increasing order. */
  predicate StrictlyIncreasing(codes: seq<int>) {
    forall i :: 0 <= i < |codes| - 1 ==> codes[i] < codes[i + 1]
  }

  /** No value is declared twice, so a switch over them has one case per value. */
  predicate Distinct(codes: seq<int>) {
    forall i, j :: 0 <= i < j < |codes| ==> codes[i] != codes[j]
  }

  /** The name paired with the first occurrence of `code`, or the fallback name. */
  function Lookup(codes: seq<int>, names: seq<string>, code: int): (name: string)
    requires |codes| == |names|
    ensures code !in codes ==> name == UnknownCodeName
    ensures code in codes ==> exists i :: 0 <= i < |codes| && codes[i] == code && names[i] == name
  {
    if codes == [] then UnknownCodeName
    else if codes[0] == code then names[0]
    else Lookup(codes[1..], names[1..], code)
  }

  /** TMR_ErrorCodeToString: total, with UNKNOWN_TMR_ERROR_CODE for values outside the enum. */
  function ErrorCodeToString(code: int): (name: string)
    ensures code !in ErrorCodes ==> name == UnknownCodeName
    ensures code in ErrorCodes ==> name in ErrorCodeNames
  {
    Lookup(ErrorCodes, ErrorCodeNames, code)
  }

  /** StrictlyIncreasing, checked entry by entry so that it can be evaluated on a literal. */
  function CheckIncreasing(codes: seq<int>): bool {
    |codes| < 2 || (codes[0] < codes[1] && CheckIncreasing(codes[1..]))
  }

  lemma {:induction false} CheckedIsIncreasing(codes: seq<int>)
    requires CheckIncreasing(codes)
    ensures StrictlyIncreasing(codes)
  {
    if |codes| >= 2 {
      CheckedIsIncreasing(codes[1..]);
      assert forall i :: 1 <= i < |codes| ==> codes[i] == codes[1..][i - 1];
    }
  }

  /** Two increasing runs whose boundary also increases form one increasing run. */
  lemma JoinIncreasing(a: seq<int>, b: seq<int>)
    requires a != [] && b != []
    requires StrictlyIncreasing(a) && StrictlyIncreasing(b) && a[|a| - 1] < b[0]
    ensures StrictlyIncreasing(a + b)
    ensures (a + b)[0] == a[0] && (a + b)[|a + b| - 1] == b[|b| - 1]
  {
  }

  lemma Chunk0Increasing() ensures CheckIncreasing(Codes0) {}
  lemma Chunk1Increasing() ensures CheckIncreasing(Codes1) {}
  lemma Chunk2Increasing() ensures CheckIncreasing(Codes2) {}
  lemma Chunk3Increasing() ensures CheckIncreasing(Codes3) {}
  lemma Chunk4Increasing() ensures CheckIncreasing(Codes4) {}
  lemma Chunk5Increasing() ensures CheckIncreasing(Codes5) {}
  lemma Chunk6Increasing() ensures CheckIncreasing(Codes6) {}
  lemma Chunk7Increasing() ensures CheckIncreasing(Codes7) {}
  lemma Chunk8Increasing() ensures CheckIncreasing(Codes8) {}
  lemma Chunk9Increasing() ensures CheckIncreasing(Codes9) {}
  lemma Chunk10Increasing() ensures CheckIncreasing(Codes10) {}
  lemma Chunk11Increasing() ensures CheckIncreasing(Codes11) {}

  /** The first 32 codes increase. */
  lemma IncreasingUpTo3()
    ensures var s := Codes0 + Codes1 + Codes2 + Codes3;
      StrictlyIncreasing(s) && |s| == 32 && s[0] == 0 && s[31] == Codes3[7]
  {
    Chunk0Increasing(); CheckedIsIncreasing(Codes0);
    Chunk1Increasing(); CheckedIsIncreasing(Codes1);
    Chunk2Increasing(); CheckedIsIncreasing(Codes2);
    Chunk3Increasing(); CheckedIsIncreasing(Codes3);
    JoinIncreasing(Codes0, Codes1);
    JoinIncreasing(Codes0 + Codes1, Codes2);
    JoinIncreasing(Codes0 + Codes1 + Codes2, Codes3);
  }

  /** The first 64 codes increase. */
  lemma IncreasingUpTo7()
    ensures var s := Codes0 + Codes1 + Codes2 + Codes3 + Codes4 + Codes5 + Codes6 + Codes7;
      StrictlyIncreasing(s) && |s| == 64 && s[0] == 0 && s[63] == Codes7[7]
  {
    IncreasingUpTo3();
    Chunk4Increasing(); CheckedIsIncreasing(Codes4);
    Chunk5Increasing(); CheckedIsIncreasing(Codes5);
    Chunk6Increasing(); CheckedIsIncreasing(Codes6);
    Chunk7Increasing(); CheckedIsIncreasing(Codes7);
    JoinIncreasing(Codes0 + Codes1 + Codes2 + Codes3, Codes4);
    JoinIncreasing(Codes0 + Codes1 + Codes2 + Codes3 + Codes4, Codes5);
    JoinIncreasing(Codes0 + Codes1 + Codes2 + Codes3 + Codes4 + Codes5, Codes6);
    JoinIncreasing(Codes0 + Codes1 + Codes2 + Codes3 + Codes4 + Codes5 + Codes6, Codes7);
  }

  /** The declared values: 96 of them, SUCCESS = 0 first, strictly increasing. */
  lemma TableIsIncreasing()
    ensures |ErrorCodes| == 96
    ensures ErrorCodes[0] == 0
    ensures StrictlyIncreasing(ErrorCodes)
  {
    IncreasingUpTo7();
    Chunk8Increasing(); CheckedIsIncreasing(Codes8);
    Chunk9Increasing(); CheckedIsIncreasing(Codes9);
    Chunk10Increasing(); CheckedIsIncreasing(Codes10);
    Chunk11Increasing(); CheckedIsIncreasing(Codes11);
    JoinIncreasing(Codes0 + Codes1 + Codes2 + Codes3 + Codes4 + Codes5 + Codes6 + Codes7, Codes8);
    JoinIncreasing(Codes0 + Codes1 + Codes2 + Codes3 + Codes4 + Codes5 + Codes6 + Codes7 + Codes8, Codes9);
    JoinIncreasing(Codes0 + Codes1 + Codes2 + Codes3 + Codes4 + Codes5 + Codes6 + Codes7 + Codes8 + Codes9, Codes10);
    JoinIncreasing(Codes0 + Codes1 + Codes2 + Codes3 + Codes4 + Codes5 + Codes6 + Codes7 + Codes8 + Codes9 + Codes10, Codes11);
  }

  /** Every value has a name. */
  lemma NamesMatchCodes()
    ensures |ErrorCodeNames| == |ErrorCodes|
  {
  }

  lemma {:induction false} IncreasingIsDistinct(codes: seq<int>)
    requires StrictlyIncreasing(codes)
    ensures Distinct(codes)
    ensures forall i :: 0 <= i < |codes| ==> codes[0] <= codes[i]
  {
    if |codes| > 1 {
      IncreasingIsDistinct(codes[1..]);
      assert forall i :: 1 <= i < |codes| ==> codes[i] == codes[1..][i - 1];
    }
  }

  /** With distinct values, looking up an entry's value gives that entry's name. */
  lemma {:induction false} LookupFindsEntry(codes: seq<int>, names: seq<string>, k: nat)
    requires |codes| == |names| && Distinct(codes) && k < |codes|
    ensures Lookup(codes, names, codes[k]) == names[k]
  {
    if k > 0 {
      assert Distinct(codes[1..]) by {
        forall i, j | 0 <= i < j < |codes[1..]| ensures codes[1..][i] != codes[1..][j] {
          assert codes[1..][i] == codes[i + 1] && codes[1..][j] == codes[j + 1];
        }
      }
      assert codes[0] != codes[k];
      LookupFindsEntry(codes[1..], names[1..], k - 1);
    }
  }

  /** The declared values are pairwise distinct, so every one maps to its own name. */
  lemma ErrorCodeToStringNamesEveryCode(k: nat)
    requires k < |ErrorCodes|
    ensures Distinct(ErrorCodes)
    ensures ErrorCodeToString(ErrorCodes[k]) == ErrorCodeNames[k]
  {
    TableIsIncreasing();
    NamesMatchCodes();
    IncreasingIsDistinct(ErrorCodes);
    LookupFindsEntry(ErrorCodes, ErrorCodeNames, k);
  }
}
