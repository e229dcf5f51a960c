/**
 * GRUB's EFI TPM adapter: find a TPM protocol (TCG 1.2 "V1" first, then
 * TCG2 "V2"), check that the device is present, then forward a command or
 * build a measurement event record and hand it to the firmware.
 *
 * The firmware is an oracle: `Hw` says what each EFI call would return, and
 * the operations return the one command or log call they issue, with its
 * arguments, as a `Call` value.
 */
module Tpm {
  import opened Wrappers
  import opened Bytes
  import opened GrubError

  // ---- UEFI status codes (Appendix D of the UEFI Specification) ----

  type EfiStatus = u64

  /** Set in every EFI error code; warnings have it clear. */
  const EFI_ERROR_BIT: int := 0x8000_0000_0000_0000

  const EFI_SUCCESS: EfiStatus := 0
  const EFI_INVALID_PARAMETER: EfiStatus := 0x8000_0000_0000_0002
  const EFI_BUFFER_TOO_SMALL: EfiStatus := 0x8000_0000_0000_0005
  const EFI_DEVICE_ERROR: EfiStatus := 0x8000_0000_0000_0007
  const EFI_NOT_FOUND: EfiStatus := 0x8000_0000_0000_000E

  /** The `switch (status)` that ends every command and log path. */
  function Translate(status: EfiStatus): (e: Err)
    ensures e == ErrNone <==> status == EFI_SUCCESS
    ensures e == ErrIo <==> status == EFI_DEVICE_ERROR
    ensures e == ErrBadArgument <==> status == EFI_INVALID_PARAMETER || status == EFI_BUFFER_TOO_SMALL
    ensures e == ErrUnknownDevice <==>
              status != EFI_SUCCESS && status != EFI_DEVICE_ERROR &&
              status != EFI_INVALID_PARAMETER && status != EFI_BUFFER_TOO_SMALL
  {
    if status == EFI_SUCCESS then ErrNone
    else if status == EFI_DEVICE_ERROR then ErrIo
    else if status == EFI_INVALID_PARAMETER || status == EFI_BUFFER_TOO_SMALL then ErrBadArgument
    else ErrUnknownDevice  // EFI_NOT_FOUND ("TPM unavailable") and every other status
  }

  /** A UEFI warning (a non-zero code without the error bit) is reported as
      a failure, not as success. */
  lemma WarningIsFailure(status: EfiStatus)
    requires status != EFI_SUCCESS && status < EFI_ERROR_BIT
    ensures Translate(status) == ErrUnknownDevice
  {
  }

  // ---- the firmware oracle ----

  type Handle = nat

  /** What `status_check` of the TCG 1.2 protocol reports. */
  datatype TcgCaps = TcgCaps(status: EfiStatus, presentFlag: bool, deactivatedFlag: bool)

  /** What `get_capability` of the TCG2 protocol reports. */
  datatype Tcg2Caps = Tcg2Caps(status: EfiStatus, presentFlag: bool)

  datatype Hw = Hw(
    v1Handles: Option<seq<Handle>>,  // grub_efi_locate_handle for the TCG 1.2 GUID; None is NULL
    v2Handles: Option<seq<Handle>>,  // the same for the TCG2 GUID
    v1Caps: TcgCaps,                 // capabilities of the protocol on the first V1 handle
    v2Caps: Tcg2Caps,                // capabilities of the protocol on the first V2 handle
    callStatus: EfiStatus            // what the command or log-extend call returns
  )

  /** A call into the firmware, with the arguments GRUB hands over. */
  datatype Call =
    | PassThroughToTpm(handle: Handle, inputSize: u32, input: seq<u8>, outputSize: u32)
    | SubmitCommand(handle: Handle, inputSize: u32, input: seq<u8>, outputSize: u32)
    | LogExtendEvent(handle: Handle, data: seq<u8>, dataLen: u64, algorithmId: u32, event: seq<u8>)
    | HashLogExtendEvent(handle: Handle, flags: u64, data: seq<u8>, dataLen: u64, event: seq<u8>)

  // ---- presence and protocol selection ----

  /** grub_tpm_present */
  predicate TpmPresent(caps: TcgCaps)
    ensures TpmPresent(caps) <==>
              caps.status == EFI_SUCCESS && caps.presentFlag && !caps.deactivatedFlag
  {
    !(caps.status != EFI_SUCCESS || caps.deactivatedFlag || !caps.presentFlag)
  }

  /** grub_tpm2_present: TCG2 has no deactivated flag to test. */
  predicate Tpm2Present(caps: Tcg2Caps)
    ensures Tpm2Present(caps) <==> caps.status == EFI_SUCCESS && caps.presentFlag
  {
    !(caps.status != EFI_SUCCESS || !caps.presentFlag)
  }

  /** `handles && num_handles > 0` */
  predicate Found(handles: Option<seq<Handle>>)
  {
    handles.Some? && |handles.value| > 0
  }

  /** grub_tpm_handle_find: the first V1 handle if there is one, otherwise
      the first V2 handle. */
  method HandleFind(hw: Hw) returns (found: bool, handle: Handle, version: u8)
    ensures found <==> Found(hw.v1Handles) || Found(hw.v2Handles)
    ensures Found(hw.v1Handles) ==> handle == hw.v1Handles.value[0] && version == 1
    ensures !Found(hw.v1Handles) && Found(hw.v2Handles) ==>
              handle == hw.v2Handles.value[0] && version == 2
  {
    if hw.v1Handles.Some? && |hw.v1Handles.value| > 0 {
      return true, hw.v1Handles.value[0], 1;
    }
    if hw.v2Handles.Some? && |hw.v2Handles.value| > 0 {
      return true, hw.v2Handles.value[0], 2;
    }
    return false, 0, 0;
  }

  // ---- command pass-through ----

  /** Header bytes of the caller's parameter blocks in front of the operand:
      `sizeof(*inbuf) - sizeof(inbuf->TPMOperandIn)` and the same for outbuf. */
  const IN_HDR_SIZE: u32 := 8
  const OUT_HDR_SIZE: u32 := 4

  datatype InputParamBlock = InputParamBlock(ipbLength: u32, operandIn: seq<u8>)
  datatype OutputParamBlock = OutputParamBlock(opbLength: u32)

  /** `length - hdrsize` computed in grub_uint32_t: no underflow check. */
  function OperandSize(length: u32, hdrSize: u32): (r: u32)
    ensures length >= hdrSize ==> r == length - hdrSize
    ensures length < hdrSize ==> r == length - hdrSize + U32_MODULUS && r >= U32_MODULUS - hdrSize
  {
    Wrap32(length - hdrSize)
  }

  /** grub_tpm_execute */
  method Execute(hw: Hw, inbuf: InputParamBlock, outbuf: OutputParamBlock)
    returns (err: Err, call: Option<Call>)
    ensures !Found(hw.v1Handles) && !Found(hw.v2Handles) ==> err == ErrNone && call == None
    ensures Found(hw.v1Handles) ==>
              if !TpmPresent(hw.v1Caps) then err == ErrNone && call == None
              else
                && call == Some(PassThroughToTpm(hw.v1Handles.value[0],
                                                 OperandSize(inbuf.ipbLength, IN_HDR_SIZE), inbuf.operandIn,
                                                 OperandSize(outbuf.opbLength, OUT_HDR_SIZE)))
                && err == Translate(hw.callStatus)
    ensures !Found(hw.v1Handles) && Found(hw.v2Handles) ==>
              if !Tpm2Present(hw.v2Caps) then err == ErrNone && call == None
              else
                && call == Some(SubmitCommand(hw.v2Handles.value[0],
                                              OperandSize(inbuf.ipbLength, IN_HDR_SIZE), inbuf.operandIn,
                                              OperandSize(outbuf.opbLength, OUT_HDR_SIZE)))
                && err == Translate(hw.callStatus)
  {
    var found, handle, version := HandleFind(hw);
    // No TPM: report success and send no command.
    if !found {
      return ErrNone, None;
    }
    if version == 1 {
      if !TpmPresent(hw.v1Caps) {
        return ErrNone, None;
      }
      call := Some(PassThroughToTpm(handle,
                                    OperandSize(inbuf.ipbLength, IN_HDR_SIZE), inbuf.operandIn,
                                    OperandSize(outbuf.opbLength, OUT_HDR_SIZE)));
      err := Translate(hw.callStatus);
    } else {
      if !Tpm2Present(hw.v2Caps) {
        return ErrNone, None;
      }
      call := Some(SubmitCommand(handle,
                                 OperandSize(inbuf.ipbLength, IN_HDR_SIZE), inbuf.operandIn,
                                 OperandSize(outbuf.opbLength, OUT_HDR_SIZE)));
      err := Translate(hw.callStatus);
    }
  }

  // ---- event records ----

  /** sizeof(Event): pcrindex, eventtype, digest[20], eventsize, event[1],
      padded to 4-byte alignment. */
  const EVENT_STRUCT_SIZE: nat := 36
  /** Offset of `event` in Event. */
  const EVENT_DATA_OFFSET: nat := 32
  /** sizeof(EFI_TCG2_EVENT_HEADER), a packed structure. */
  const TCG2_HEADER_SIZE: u32 := 14
  /** sizeof(EFI_TCG2_EVENT) - sizeof(event2->Event): Size and the header. */
  const TCG2_EVENT_FIXED_SIZE: nat := 18
  /** EV_IPL in the TCG PC Client event types. */
  const EV_IPL: u32 := 0x0d
  /** The algorithm identifier passed with a TCG 1.2 event: SHA-1. */
  const TPM_ALG_SHA: u32 := 4

  /** A TCG_PCR_EVENT as the TCG EFI Protocol Specification for TPM 1.2 lays it out. */
  datatype TcgPcrEvent = TcgPcrEvent(pcrIndex: u32, eventType: u32, digest: seq<u8>, eventSize: u32, event: seq<u8>)

  /** Reads a TCG_PCR_EVENT from little-endian bytes. */
  function ParseTcgPcrEvent(b: seq<u8>): (r: Option<TcgPcrEvent>)
    ensures r.Some? <==> |b| >= EVENT_DATA_OFFSET && EVENT_DATA_OFFSET + FromLE32(b[28..32]) <= |b|
    ensures r.Some? ==> |r.value.digest| == 20 && |r.value.event| == r.value.eventSize
    ensures r.Some? ==> LE32(r.value.pcrIndex) == b[0..4] && LE32(r.value.eventType) == b[4..8]
  {
    if |b| < EVENT_DATA_OFFSET then None
    else
      FromLE32RoundTrip(b[0..4]);
      FromLE32RoundTrip(b[4..8]);
      var size := FromLE32(b[28..32]);
      if EVENT_DATA_OFFSET + size > |b| then None
      else Some(TcgPcrEvent(FromLE32(b[0..4]), FromLE32(b[4..8]), b[8..28], size,
                            b[EVENT_DATA_OFFSET..EVENT_DATA_OFFSET + size]))
  }

  datatype Tcg2EventHeader = Tcg2EventHeader(headerSize: u32, headerVersion: u16, pcrIndex: u32, eventType: u32)

  /** An EFI_TCG2_EVENT of the TCG EFI Protocol Specification for TPM 2.0:
      `size` counts the whole record, the event data included. */
  datatype Tcg2Event = Tcg2Event(size: u32, header: Tcg2EventHeader, event: seq<u8>)

  /** Reads the packed EFI_TCG2_EVENT_HEADER that follows the Size field. */
  function ParseTcg2Header(b: seq<u8>): (h: Tcg2EventHeader)
    requires |b| >= TCG2_EVENT_FIXED_SIZE
  {
    Tcg2EventHeader(FromLE32(b[4..8]), FromLE16(b[8..10]), FromLE32(b[10..14]), FromLE32(b[14..18]))
  }

  function ParseTcg2Event(b: seq<u8>): (r: Option<Tcg2Event>)
    ensures r.Some? <==> |b| >= TCG2_EVENT_FIXED_SIZE && TCG2_EVENT_FIXED_SIZE <= FromLE32(b[0..4]) <= |b|
    ensures r.Some? ==> |r.value.event| + TCG2_EVENT_FIXED_SIZE == r.value.size
  {
    if |b| < TCG2_EVENT_FIXED_SIZE then None
    else
      var size := FromLE32(b[0..4]);
      if size < TCG2_EVENT_FIXED_SIZE || size > |b| then None
      else Some(Tcg2Event(size, ParseTcg2Header(b), b[TCG2_EVENT_FIXED_SIZE..size]))
  }

  /** `eventsize = strlen(description) + 1` as stored in a grub_uint32_t. */
  function V1EventSize(description: seq<u8>): (es: u32)
  {
    Wrap32(StrLen(description) + 1)
  }

  /** What the V1 branch hands to log_extend_event: a zero-filled buffer of
      sizeof(Event) + strlen + 1 bytes holding the record; the description is
      copied `eventsize` bytes long. */
  ghost predicate IsV1Record(record: seq<u8>, pcr: u8, description: seq<u8>)
  {
    var es := V1EventSize(description);
    && |record| == EVENT_STRUCT_SIZE + StrLen(description) + 1
    && ParseTcgPcrEvent(record)
       == Some(TcgPcrEvent(pcr, EV_IPL, Zeros(20), es, Terminated(description)[..es]))
    && (forall i :: EVENT_DATA_OFFSET + es <= i < |record| ==> record[i] == 0)
  }

  /** What the V2 branch hands to hash_log_extend_event. The buffer is sized
      by the V1 structure, sizeof(Event) + strlen + 1, and is longer than the
      record; `Size` is stored in a grub_uint32_t. */
  ghost predicate IsV2Record(record: seq<u8>, pcr: u8, description: seq<u8>)
  {
    var n := StrLen(description);
    && |record| == EVENT_STRUCT_SIZE + n + 1
    && FromLE32(record[0..4]) == Wrap32(TCG2_EVENT_FIXED_SIZE + n + 1)
    && ParseTcg2Header(record) == Tcg2EventHeader(TCG2_HEADER_SIZE, 1, pcr, EV_IPL)
    && record[TCG2_EVENT_FIXED_SIZE..TCG2_EVENT_FIXED_SIZE + n + 1] == Terminated(description)
    && (forall i :: TCG2_EVENT_FIXED_SIZE + n + 1 <= i < |record| ==> record[i] == 0)
  }

  /** The V1 buffer after the stores of tpm.c:188-191 into zeroed memory. */
  function V1Image(pcr: u8, description: seq<u8>): (r: seq<u8>)
    ensures |r| == EVENT_STRUCT_SIZE + StrLen(description) + 1
  {
    var es := V1EventSize(description);
    var zeroed := Zeros(EVENT_STRUCT_SIZE + StrLen(description) + 1);
    Splice(Splice(Splice(Splice(zeroed, 0, LE32(pcr)), 4, LE32(EV_IPL)), 28, LE32(es)),
           EVENT_DATA_OFFSET, Terminated(description)[..es])
  }

  /** The V2 buffer after the stores of tpm.c:226-231. */
  function V2Image(pcr: u8, description: seq<u8>): (r: seq<u8>)
    ensures |r| == EVENT_STRUCT_SIZE + StrLen(description) + 1
  {
    var n := StrLen(description);
    var zeroed := Zeros(EVENT_STRUCT_SIZE + n + 1);
    var header := Splice(Splice(Splice(Splice(zeroed, 4, LE32(TCG2_HEADER_SIZE)), 8, LE16(1)), 10, LE32(pcr)),
                         14, LE32(EV_IPL));
    Splice(Splice(header, 0, LE32(Wrap32(TCG2_EVENT_FIXED_SIZE + n + 1))),
           TCG2_EVENT_FIXED_SIZE, Terminated(description))
  }

  /** The bytes the V1 branch stores form a V1 record. */
  lemma {:induction false} V1ImageIsRecord(pcr: u8, description: seq<u8>)
    ensures IsV1Record(V1Image(pcr, description), pcr, description)
  {
    var r := V1Image(pcr, description);
    var es := V1EventSize(description);
    var text := Terminated(description);
    assert r[0..4] == LE32(pcr);
    assert r[4..8] == LE32(EV_IPL);
    assert r[8..28] == Zeros(20);
    assert r[28..32] == LE32(es);
    assert r[EVENT_DATA_OFFSET..EVENT_DATA_OFFSET + es] == text[..es];
    LE32RoundTrip(pcr);
    LE32RoundTrip(EV_IPL);
    LE32RoundTrip(es);
  }

  /** The bytes the V2 branch stores form a V2 record. */
  lemma {:induction false} V2ImageIsRecord(pcr: u8, description: seq<u8>)
    ensures IsV2Record(V2Image(pcr, description), pcr, description)
  {
    var r := V2Image(pcr, description);
    var n := StrLen(description);
    var size := Wrap32(TCG2_EVENT_FIXED_SIZE + n + 1);
    assert r[0..4] == LE32(size);
    assert r[4..8] == LE32(TCG2_HEADER_SIZE);
    assert r[8..10] == LE16(1);
    assert r[10..14] == LE32(pcr);
    assert r[14..18] == LE32(EV_IPL);
    assert r[TCG2_EVENT_FIXED_SIZE..TCG2_EVENT_FIXED_SIZE + n + 1] == Terminated(description);
    LE32RoundTrip(size);
    LE32RoundTrip(TCG2_HEADER_SIZE);
    LE16RoundTrip(1);
    LE32RoundTrip(pcr);
    LE32RoundTrip(EV_IPL);
  }

  /** `event->field = v` for a 32-bit field at byte `off`. */
  method StoreLE32(a: array<u8>, off: nat, v: u32)
    requires off + 4 <= a.Length
    modifies a
    ensures a[..] == Splice(old(a[..]), off, LE32(v))
  {
    var b := LE32(v);
    a[off], a[off + 1], a[off + 2], a[off + 3] := b[0], b[1], b[2], b[3];
  }

  /** `event->field = v` for a 16-bit field at byte `off`. */
  method StoreLE16(a: array<u8>, off: nat, v: u16)
    requires off + 2 <= a.Length
    modifies a
    ensures a[..] == Splice(old(a[..]), off, LE16(v))
  {
    var b := LE16(v);
    a[off], a[off + 1] := b[0], b[1];
  }

  /** grub_memcpy(a + off, src, count) */
  method MemCpy(a: array<u8>, off: nat, src: seq<u8>, count: nat)
    requires count <= |src| && off + count <= a.Length
    modifies a
    ensures a[..] == Splice(old(a[..]), off, src[..count])
  {
    forall i | 0 <= i < count {
      a[off + i] := src[i];
    }
  }

  /** tpm.c:188-191 after a successful grub_zalloc: store the V1 fields in
      the zero-filled buffer and copy `eventsize` bytes of the description. */
  method BuildTcgPcrEvent(pcr: u8, description: seq<u8>) returns (record: seq<u8>)
    ensures IsV1Record(record, pcr, description)
  {
    var n := StrLen(description);
    var event := new u8[EVENT_STRUCT_SIZE + n + 1](_ => 0);
    assert event[..] == Zeros(EVENT_STRUCT_SIZE + n + 1);
    StoreLE32(event, 0, pcr);
    StoreLE32(event, 4, EV_IPL);
    var eventSize := Wrap32(n + 1);
    StoreLE32(event, 28, eventSize);
    MemCpy(event, EVENT_DATA_OFFSET, Terminated(description), eventSize);
    record := event[..];
    V1ImageIsRecord(pcr, description);
  }

  /** tpm.c:226-231 after a successful grub_zalloc: store the V2 header and
      Size in the zero-filled buffer and copy strlen + 1 description bytes. */
  method BuildTcg2Event(pcr: u8, description: seq<u8>) returns (record: seq<u8>)
    ensures IsV2Record(record, pcr, description)
  {
    var n := StrLen(description);
    var event2 := new u8[EVENT_STRUCT_SIZE + n + 1](_ => 0);
    ghost var zeroed := event2[..];
    assert zeroed == Zeros(EVENT_STRUCT_SIZE + n + 1);
    StoreLE32(event2, 4, TCG2_HEADER_SIZE);
    StoreLE16(event2, 8, 1);
    StoreLE32(event2, 10, pcr);
    StoreLE32(event2, 14, EV_IPL);
    ghost var header := event2[..];
    assert header == Splice(Splice(Splice(Splice(zeroed, 4, LE32(TCG2_HEADER_SIZE)), 8, LE16(1)), 10, LE32(pcr)),
                            14, LE32(EV_IPL));
    StoreLE32(event2, 0, Wrap32(TCG2_EVENT_FIXED_SIZE + n + 1));
    ghost var sized := event2[..];
    MemCpy(event2, TCG2_EVENT_FIXED_SIZE, Terminated(description), n + 1);
    record := event2[..];
    assert record == Splice(sized, TCG2_EVENT_FIXED_SIZE, Terminated(description));
    V2ImageIsRecord(pcr, description);
  }

  /** grub_tpm_log_event: measure `buf` (of `size` bytes) into PCR `pcr` with
      an EV_IPL event carrying `description`. `allocOk` says whether
      grub_zalloc of the event buffer succeeds. */
  method LogEvent(hw: Hw, allocOk: bool, buf: seq<u8>, size: u64, pcr: u8, description: seq<u8>)
    returns (err: Err, call: Option<Call>)
    ensures !Found(hw.v1Handles) && !Found(hw.v2Handles) ==> err == ErrNone && call == None
    ensures Found(hw.v1Handles) ==>
              if !TpmPresent(hw.v1Caps) then err == ErrNone && call == None
              else if !allocOk then err == ErrOutOfMemory && call == None
              else
                && call.Some? && call.value.LogExtendEvent?
                && call.value.handle == hw.v1Handles.value[0]
                && call.value.data == buf && call.value.dataLen == size
                && call.value.algorithmId == TPM_ALG_SHA
                && IsV1Record(call.value.event, pcr, description)
                && err == Translate(hw.callStatus)
    ensures !Found(hw.v1Handles) && Found(hw.v2Handles) ==>
              if !Tpm2Present(hw.v2Caps) then err == ErrNone && call == None
              else if !allocOk then err == ErrOutOfMemory && call == None
              else
                && call.Some? && call.value.HashLogExtendEvent?
                && call.value.handle == hw.v2Handles.value[0]
                && call.value.flags == 0
                && call.value.data == buf && call.value.dataLen == size
                && IsV2Record(call.value.event, pcr, description)
                && err == Translate(hw.callStatus)
  {
    var found, handle, version := HandleFind(hw);
    if !found {
      return ErrNone, None;
    }
    if version == 1 {
      if !TpmPresent(hw.v1Caps) {
        return ErrNone, None;
      }
      if !allocOk {
        return ErrOutOfMemory, None;
      }
      var event := BuildTcgPcrEvent(pcr, description);
      call := Some(LogExtendEvent(handle, buf, size, TPM_ALG_SHA, event));
      err := Translate(hw.callStatus);
    } else {
      if !Tpm2Present(hw.v2Caps) {
        return ErrNone, None;
      }
      if !allocOk {
        return ErrOutOfMemory, None;
      }
      var event2 := BuildTcg2Event(pcr, description);
      call := Some(HashLogExtendEvent(handle, 0, buf, size, event2));
      err := Translate(hw.callStatus);
    }
  }

  // ---- what the records say ----

  /** A V1 record reads back as PCR `pcr`, EV_IPL, an all-zero digest and
      the description with its terminator, whenever strlen + 1 fits in 32 bits. */
  lemma {:induction false} V1RecordReadsBack(record: seq<u8>, pcr: u8, description: seq<u8>)
    requires IsV1Record(record, pcr, description)
    requires StrLen(description) + 1 < U32_MODULUS
    ensures ParseTcgPcrEvent(record)
            == Some(TcgPcrEvent(pcr, EV_IPL, Zeros(20), StrLen(description) + 1, CStr(description) + [0]))
  {
    assert Terminated(description)[..V1EventSize(description)] == Terminated(description);
  }

  /** A V2 record reads back as a whole EFI_TCG2_EVENT: Size covers the
      fixed part and the terminated description, header version 1, PCR
      `pcr`, EV_IPL. */
  lemma {:induction false} V2RecordReadsBack(record: seq<u8>, pcr: u8, description: seq<u8>)
    requires IsV2Record(record, pcr, description)
    requires TCG2_EVENT_FIXED_SIZE + StrLen(description) + 1 < U32_MODULUS
    ensures ParseTcg2Event(record)
            == Some(Tcg2Event(TCG2_EVENT_FIXED_SIZE + StrLen(description) + 1,
                              Tcg2EventHeader(TCG2_HEADER_SIZE, 1, pcr, EV_IPL),
                              CStr(description) + [0]))
  {
  }
}
