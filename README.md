# GRUB EFI TPM adapter and QEMU fw_cfg reader

This project models two small pieces of GRUB's boot-time code and proves properties about them.

**The EFI TPM adapter** (`grub-core/kern/efi/tpm.c`, module `Tpm`):
- **Protocol selection.** It uses the first TCG 1.2 ("V1") protocol handle. If there is none, it uses the first TCG2 ("V2") handle.
- **Presence check.** It checks that the chosen TPM is present and, for V1, not deactivated.
- **Command forwarding.** `grub_tpm_execute` strips the header from the caller's parameter blocks and passes the raw command to the firmware.
- **Event logging.** `grub_tpm_log_event` builds a measurement event record (EV_IPL) in zeroed memory and passes it to the firmware's log/extend entry point.
  - V1 uses the `TCG_PCR_EVENT` layout of the TCG EFI Protocol Specification for TPM 1.2.
  - V2 uses the `EFI_TCG2_EVENT` layout of the TCG EFI Protocol Specification for TPM 2.0.
- **Status translation.** Every status returned by the command or log-extend call is mapped onto a `grub_err_t` code by the same switch; a failing capability query only makes the TPM count as absent.

The firmware is an oracle value, `Tpm.Hw`. It holds:
- the handle lists that `grub_efi_locate_handle` returns;
- the capability reports;
- the status the command or log call returns.

`Execute` and `LogEvent` return the GRUB error code and the firmware call they issue, if any, with the input arguments GRUB hands over.

The event records are built in a zero-filled `array<u8>`:
- each field is written by a little-endian store;
- the description is copied with a memcpy;
- the resulting bytes are specified through parsers of the two TCG record layouts.

**The `fwconfig PATH [-v VAR]` command** (`grub-core/commands/fwconfig.c`, module `FwConfig`):
1. It checks QEMU's fw_cfg device for the `QEMU` signature.
2. It reads the entry count of the file directory (key 0x19). The count is used as `grub_inl` returns it, in host byte order with no `grub_be_to_cpu32`, although the entries' size and selector are byte-swapped; the model keeps that, so a big-endian count of 1 (bytes `00 00 00 01`) reads as 0x01000000 entries.
3. It reads the 64-byte entries one byte at a time (big-endian size and selector, 56-byte name) until the first entry whose name equals PATH.
4. It then selects that item, reads exactly `size` bytes from it and, with `-v`, stores them in the environment.

The device is modelled as a class, `FwCfgPort`:
- its contents are a fixed map from key to bytes;
- a selector register and a read offset change with each port access;
- a ghost log records every key written to the selector.

The environment is a class, `Environment`, holding a map of variables.

Shared modules:
- `Bytes`: fixed-width integers, explicit 32-bit wrap-around, C strings, and the little- and big-endian codecs with their round-trip lemmas.
- `GrubError`: the `grub_err_t` codes used.
- `Wrappers`: `Option`.

## Model

| member | source | states |
|---|---|---|
| Tpm.Translate | grub-core/kern/efi/tpm.c:102-115 | SUCCESS gives 0, and only SUCCESS does. DEVICE_ERROR gives GRUB_ERR_IO, and only it does. INVALID_PARAMETER and BUFFER_TOO_SMALL give GRUB_ERR_BAD_ARGUMENT, and only they do. Every other status (NOT_FOUND included) gives GRUB_ERR_UNKNOWN_DEVICE. The same switch is at lines 129-142, 197-210 and 236-249. |
| Tpm.WarningIsFailure | grub-core/kern/efi/tpm.c:113-114 | A UEFI warning (non-zero, error bit clear) falls to the default case and is reported as GRUB_ERR_UNKNOWN_DEVICE, not as success. |
| Tpm.TpmPresent | grub-core/kern/efi/tpm.c:13-30 | V1 is present iff status_check returns SUCCESS, TPMPresentFlag is set and TPMDeactivatedFlag is clear. |
| Tpm.Tpm2Present | grub-core/kern/efi/tpm.c:32-45 | V2 is present iff get_capability returns SUCCESS and TPMPresentFlag is set. There is no deactivated test. |
| Tpm.HandleFind | grub-core/kern/efi/tpm.c:47-70 | The result is found iff either GUID yields a non-NULL, non-empty handle list. A V1 handle list wins: its first handle, version 1, whatever V2 reports. Otherwise the first V2 handle, version 2. |
| Tpm.OperandSize | grub-core/kern/efi/tpm.c:81-82 | `length - hdrsize` in grub_uint32_t. It is the difference when length >= hdrsize. Below that it wraps to the difference + 2^32, a value of at least 2^32 - hdrsize. |
| Tpm.Execute | grub-core/kern/efi/tpm.c:72-144 | With no handle, or when the chosen TPM is not present, it returns 0 and issues no call. Otherwise it issues exactly one call on the first handle: pass_through_to_tpm (V1) or submit_command (V2). The call carries the wrapped operand length, the operand bytes and the wrapped output capacity. The result is the translated status of that call. |
| Tpm.ParseTcgPcrEvent | grub-core/kern/efi/tpm.c:146-152 | The `Event` struct as memory: pcrindex at byte 0, eventtype at 4 (both little-endian), a 20-byte digest at 8, eventsize at 28 and the event bytes from 32 on. It parses iff the buffer holds the 32-byte fixed part and the `eventsize` event bytes it declares. |
| Tpm.ParseTcg2Event | grub-core/kern/efi/tpm.c:226-230 | The packed EFI_TCG2_EVENT: Size at byte 0, the header fields HeaderSize, HeaderVersion, PCRIndex, EventType at 4, 8, 10, 14, the event from 18 on. It parses iff Size is at least the 18-byte fixed part and at most the buffer, and the event is then Size - 18 bytes. |
| Tpm.V1ImageIsRecord | grub-core/kern/efi/tpm.c:181-191 | The zeroed buffer after the four V1 stores is a V1 record. It parses as a TCG_PCR_EVENT with pcrindex = pcr, eventtype 0x0d, an all-zero digest and eventsize = strlen + 1 (in 32 bits). Its event is the first eventsize bytes of the terminated description, and the rest of the buffer is zero. |
| Tpm.V2ImageIsRecord | grub-core/kern/efi/tpm.c:219-231 | The zeroed buffer after the V2 stores is a V2 record. Size = 18 + strlen + 1 (in 32 bits). The header is HeaderSize 14, HeaderVersion 1, PCRIndex = pcr, EventType 0x0d. The description and its NUL follow the fixed part, and the rest of the buffer is zero. |
| Tpm.StoreLE32 | grub-core/kern/efi/tpm.c:188-190 | A 32-bit field store overwrites exactly the four bytes at the field's offset with the little-endian value. |
| Tpm.StoreLE16 | grub-core/kern/efi/tpm.c:227 | A 16-bit field store overwrites exactly the two bytes at the field's offset with the little-endian value. |
| Tpm.MemCpy | grub-core/kern/efi/tpm.c:191 | grub_memcpy overwrites exactly `count` bytes at the destination offset with the first `count` bytes of the source. |
| Tpm.BuildTcgPcrEvent | grub-core/kern/efi/tpm.c:181-191 | Allocating sizeof(Event) + strlen + 1 zeroed bytes and performing the V1 stores and memcpy yields a V1 record. |
| Tpm.BuildTcg2Event | grub-core/kern/efi/tpm.c:219-231 | Allocating sizeof(Event) + strlen + 1 zeroed bytes and performing the V2 header stores, the Size store and the memcpy yields a V2 record. |
| Tpm.LogEvent | grub-core/kern/efi/tpm.c:154-251 | With no handle, or when the chosen TPM is not present, it returns 0 and issues no call. A failed allocation gives GRUB_ERR_OUT_OF_MEMORY and issues no call. V1 otherwise issues log_extend_event on the first V1 handle with buf, size, algorithm 4 (SHA-1) and a V1 record. V2 otherwise issues hash_log_extend_event on the first V2 handle with flags 0, buf, size and a V2 record. The result is the translated status. |
| Tpm.V1RecordReadsBack | grub-core/kern/efi/tpm.c:188-191 | When strlen + 1 fits in 32 bits, a V1 record reads back as pcr, EV_IPL, 20 zero digest bytes, eventsize strlen + 1 and the event bytes `description ++ [0]`. |
| Tpm.V2RecordReadsBack | grub-core/kern/efi/tpm.c:226-231 | When 18 + strlen + 1 fits in 32 bits, a V2 record reads back as a whole EFI_TCG2_EVENT. Its Size covers the fixed part and the terminated description. Its header is (14, 1, pcr, EV_IPL). Its event is `description ++ [0]`. |
| Bytes.StrLen | grub-core/kern/efi/tpm.c:181 | grub_strlen is the index of the first NUL: every earlier byte is non-zero, and the byte there is NUL. |
| Bytes.Wrap32 | grub-core/kern/efi/tpm.c:190 | The value stored into a grub_uint32_t: the u32 congruent to x modulo 2^32 for every x; unchanged below 2^32, and one modulus off just above 2^32 or just below 0. |
| Bytes.LE32RoundTrip | grub-core/kern/efi/tpm.c:188-190 | Reading back a little-endian 32-bit field gives the stored value. |
| Bytes.LE16RoundTrip | grub-core/kern/efi/tpm.c:227 | Reading back a little-endian 16-bit field gives the stored value. |
| Bytes.FromLE32RoundTrip | grub-core/commands/fwconfig.c:61-62 | The four bytes behind a 32-bit word read by grub_inl are the little-endian encoding of that word. |
| Bytes.LE32Injective | grub-core/commands/fwconfig.c:62 | Two words have the same memory iff they are equal, so memcmp of the word is a word comparison. |
| Bytes.BE32RoundTrip | grub-core/commands/fwconfig.c:79 | grub_be_to_cpu32 of a big-endian encoded size gives the size. |
| Bytes.FromBE32RoundTrip | grub-core/commands/fwconfig.c:79 | Every four bytes are the big-endian encoding of their decoded value. |
| Bytes.BE16RoundTrip | grub-core/commands/fwconfig.c:80 | grub_be_to_cpu16 of a big-endian encoded selector gives the selector. |
| Bytes.FromBE16RoundTrip | grub-core/commands/fwconfig.c:80 | Every two bytes are the big-endian encoding of their decoded value. |
| Bytes.BE32IsReversedLE32 | grub-core/commands/fwconfig.c:79 | The big-endian bytes of a word are its little-endian bytes reversed. |
| FwConfig.DecodeFile | grub-core/commands/fwconfig.c:72-80 | The `file` struct filled from 64 bytes in order: size is the big-endian word of bytes 0-3, select and reserved the big-endian halves of bytes 4-5 and 6-7, name the remaining 56 bytes. |
| FwConfig.DecodeEncodeFile | grub-core/commands/fwconfig.c:35-40 | Decoding the 64 bytes the device sends for an entry (BE32 size, BE16 select, BE16 reserved, 56-byte name) gives back the entry. |
| FwConfig.EncodeDecodeFile | grub-core/commands/fwconfig.c:35-40 | Every 64-byte record is the encoding of the entry it decodes to, so the decoding loses nothing. |
| FwConfig.FwCfgPort.constructor | grub-core/commands/fwconfig.c:30-31 | A port over the given item contents starts at offset 0 with an empty selection log. |
| FwConfig.FwCfgPort.Select | grub-core/commands/fwconfig.c:60 | grub_outw to SELECTOR selects the key, rewinds the item and appends the key to the log. |
| FwConfig.FwCfgPort.InB | grub-core/commands/fwconfig.c:74 | grub_inb from DATA returns the selected item's next byte (0 past its end) and advances by one. |
| FwConfig.FwCfgPort.InL | grub-core/commands/fwconfig.c:61 | grub_inl from DATA returns the next four bytes as a little-endian word and advances by four. |
| FwConfig.Environment.Set | grub-core/commands/fwconfig.c:94 | grub_env_set binds the name to the value and changes no other variable. |
| FwConfig.ItemBytes | grub-core/commands/fwconfig.c:87-90 | The `len` bytes of an item from an offset on, byte by byte as the device returns them. |
| FwConfig.SignatureWord | grub-core/commands/fwconfig.c:59-63 | The device's signature bytes are `QEMU` iff the word grub_inl reads from key 0 is 0x554d4551. |
| FwConfig.EntryCount | grub-core/commands/fwconfig.c:66-67 | The count is the word grub_inl reads first from key 0x19: its little-endian bytes are the item's first four bytes. |
| FwConfig.EntryBytes | grub-core/commands/fwconfig.c:72-75 | Entry k occupies 64 bytes of the directory item, starting at offset 4 + 64k. |
| FwConfig.Directory | grub-core/commands/fwconfig.c:69-75 | The first `count` entries, entry k decoded from its 64 bytes. |
| FwConfig.NamedMeansEqualStrings | grub-core/commands/fwconfig.c:77 | `Named`, that is `grub_strcmp(file.name, argv[0]) == 0`, holds iff the two strings agree up to and including their terminating NUL. |
| FwConfig.FirstMatch | grub-core/commands/fwconfig.c:70-99 | Some(k) means entry k is named PATH and no entry before it is (from `from` on). None means no entry is named PATH. |
| FwConfig.MatchIgnoresLaterEntries | grub-core/commands/fwconfig.c:77-99 | The scan stops at the first match: any directory that agrees with this one up to the matched entry gives the same match, whatever follows. |
| FwConfig.ReadEntry | grub-core/commands/fwconfig.c:72-75 | The inner loop reads exactly 64 bytes, in order. They are the bytes of entry k, the result is the entry they decode to, the port ends at offset 4 + 64(k+1) and nothing is selected. |
| FwConfig.FindEntry | grub-core/commands/fwconfig.c:70-80 | The outer loop reads the directory entry after entry, at most `count` of them. When no entry is named PATH it returns none, having read all `count` entries. Otherwise it stops at the first entry named PATH, having read entries 0..k only, and returns that entry decoded. Nothing is selected meanwhile. |
| FwConfig.ReadItem | grub-core/commands/fwconfig.c:86-90 | It selects `location` and then reads exactly as many bytes as the buffer holds. The buffer holds the item's first bytes. |
| FwConfig.ReadMatch | grub-core/commands/fwconfig.c:81-98 | A failed allocation gives GRUB_ERR_OUT_OF_MEMORY and touches neither the port nor the environment. Otherwise it reads exactly `size` bytes of the entry's item and returns 0. The variable is set to those bytes only when `-v` was given; otherwise the environment is unchanged. |
| FwConfig.ScanDirectory | grub-core/commands/fwconfig.c:65-102 | The port reads the count from key 0x19 and scans the directory. With no match it has read all `count` entries and returns GRUB_ERR_FILE_NOT_FOUND, with no variable set. On the first match k it has read entries 0..k only. Then either GRUB_ERR_OUT_OF_MEMORY with nothing more read, or 0 with the entry's item selected, `size` bytes read and the variable set when `-v` was given. |
| FwConfig.Fwconfig | grub-core/commands/fwconfig.c:49-103 | With argc != 1 it returns GRUB_ERR_BAD_ARGUMENT and touches neither the port nor the environment. A bad signature gives GRUB_ERR_BAD_DEVICE after key 0 alone was selected and four bytes read; the directory is never selected. Otherwise the outcome of the directory scan. |

## Left out

- Firmware calls are oracle inputs (`Tpm.Hw`): `grub_efi_locate_handle`, `grub_efi_open_protocol` and the `efi_call_N` entry points. Only the arguments GRUB passes are recorded. TPM semantics are not modelled: hashing, PCR extension, and the `eventnum`/`lastevent` results. The locate-handle queries themselves are not recorded as calls.
- The output side of the firmware calls is not part of `Call`: the `TPMOperandOut` buffer handed to pass_through_to_tpm and submit_command, the response the firmware writes there, and the `&eventnum`/`&lastevent` out-pointers of log_extend_event.
- UEFI status codes are modelled in the 64-bit encoding (`EfiStatus = u64`, error bit 2^63); on 32-bit UEFI targets `grub_efi_status_t` is 32 bits wide with the error bit at 2^31. `WarningIsFailure` is stated for the 64-bit encoding.
- `grub_efi_open_protocol` returning NULL is not modelled. The code does not check for it either.
- The capability structures' `Size` field and the status-check out-parameters `flags`, `eventlog` and `lastevent` are left out. The model keeps the status and the flags that the code tests.
- Struct sizes are named constants rather than computed from C layout:
  - the parameter-block headers are 8 and 4 bytes;
  - `sizeof(Event)` is 36;
  - the packed `EFI_TCG2_EVENT_HEADER` is 14 and the fixed part of `EFI_TCG2_EVENT` is 18.

  The GRUB headers defining these structures are not part of this model.
- Tpm.Execute: a too-small `IPBLength`/`OPBLength` wraps modulo 2^32 and is passed on, because the code has no underflow check. The model follows the code.
- Tpm.V1RecordReadsBack: holds only for descriptions whose strlen + 1 fits in 32 bits. For longer ones `IsV1Record` still says what is stored: a wrapped `eventsize` and that many copied bytes.
- Tpm.V2RecordReadsBack: holds only for descriptions whose 18 + strlen + 1 fits in 32 bits. For longer ones `IsV2Record` states the wrapped `Size`.
- Overflow of the `grub_size_t` allocation size is not modelled; descriptions are sequences of any length. Allocation failure is a boolean input (`allocOk`).
- Port I/O goes through the `FwCfgPort` class, in these ways:
  - `grub_inl` is read as a little-endian word, as on the x86 host. Host byte order is not otherwise modelled.
  - Reads past the end of an item, or of a key the device does not have, return 0.
  - Port numbers 0x510/0x511 are implicit in the method names.
- C-string hazards are not modelled:
  - An entry name is the bytes before its first NUL (or all 56), and `strcmp` compares those with `argv[0]`'s characters. `strcmp` running off an unterminated name is out of scope.
  - `grub_env_set` receives the `size` data bytes themselves; the code passes a buffer that is not NUL-terminated as a C string.
- Error message texts, `grub_printf("No buffer")`, `grub_free`, the unfreed handle arrays and the GUID constants are left out. Only the returned codes are kept.
- Module and command plumbing is left out: `GRUB_MOD_INIT`/`GRUB_MOD_FINI`, `grub_register_extcmd` and option parsing. The `-v VAR` option arrives as `varName`.
