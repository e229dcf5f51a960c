/**
 * GRUB's `fwconfig PATH` command: check QEMU's firmware configuration
 * device for its signature, walk its file directory for the first entry
 * named PATH, read that item's bytes and, with `-v VAR`, store them in the
 * environment variable VAR.
 *
 * The device is two I/O ports: writing a key to SELECTOR chooses an item
 * and rewinds it; each read of DATA returns the item's next bytes. Its
 * contents are an oracle (`FwCfgPort.items`).
 */
module FwConfig {
  import opened Wrappers
  import opened Bytes
  import opened GrubError

  /** Selector keys of the device. */
  const FW_CFG_SIGNATURE: u16 := 0x0000
  const FW_CFG_FILE_DIR: u16 := 0x0019

  /** The bytes 'Q', 'E', 'M', 'U'. */
  const SIGNATURE: seq<u8> := [0x51, 0x45, 0x4d, 0x55]

  /** sizeof(struct grub_qemu_fwcfgfile) and of its name field. */
  const FILE_ENTRY_SIZE: nat := 64
  const NAME_SIZE: nat := 56
  /** The directory's entries follow its 4-byte count. */
  const DIR_HEADER_SIZE: nat := 4

  // ---- directory entries ----

  /** A directory entry with its fields decoded from big-endian. */
  datatype FwCfgFile = FwCfgFile(size: u32, select: u16, reserved: u16, name: seq<u8>)

  predicate ValidFile(f: FwCfgFile)
  {
    |f.name| == NAME_SIZE
  }

  /** The 64 bytes the device sends for an entry. */
  function EncodeFile(f: FwCfgFile): (rec: seq<u8>)
    requires ValidFile(f)
    ensures |rec| == FILE_ENTRY_SIZE
  {
    BE32(f.size) + BE16(f.select) + BE16(f.reserved) + f.name
  }

  /** The `file` struct filled byte by byte, its size and select read
      through grub_be_to_cpu32 and grub_be_to_cpu16. */
  function DecodeFile(rec: seq<u8>): (f: FwCfgFile)
    requires |rec| == FILE_ENTRY_SIZE
    ensures ValidFile(f)
    ensures BE32(f.size) == rec[0..4] && BE16(f.select) == rec[4..6] && BE16(f.reserved) == rec[6..8]
    ensures f.name == rec[8..FILE_ENTRY_SIZE]
  {
    FromBE32RoundTrip(rec[0..4]);
    FromBE16RoundTrip(rec[4..6]);
    FromBE16RoundTrip(rec[6..8]);
    FwCfgFile(FromBE32(rec[0..4]), FromBE16(rec[4..6]), FromBE16(rec[6..8]), rec[8..FILE_ENTRY_SIZE])
  }

  lemma {:induction false} DecodeEncodeFile(f: FwCfgFile)
    requires ValidFile(f)
    ensures DecodeFile(EncodeFile(f)) == f
  {
    var rec := EncodeFile(f);
    assert rec[0..4] == BE32(f.size);
    assert rec[4..6] == BE16(f.select);
    assert rec[6..8] == BE16(f.reserved);
    assert rec[8..FILE_ENTRY_SIZE] == rec[8..];
    assert rec[8..FILE_ENTRY_SIZE] == f.name;
    BE32RoundTrip(f.size);
    BE16RoundTrip(f.select);
    BE16RoundTrip(f.reserved);
  }

  lemma {:induction false} EncodeDecodeFile(rec: seq<u8>)
    requires |rec| == FILE_ENTRY_SIZE
    ensures EncodeFile(DecodeFile(rec)) == rec
  {
    assert rec == rec[0..4] + rec[4..6] + rec[6..8] + rec[8..FILE_ENTRY_SIZE];
  }

  // ---- the device ----

  /** Byte `k` of item `key`. Past the end of an item (or of an item the
      device does not have) the device returns 0. */
  function ItemByte(items: map<u16, seq<u8>>, key: u16, k: nat): (b: u8)
  {
    if key in items && k < |items[key]| then items[key][k] else 0
  }

  /** `len` bytes of item `key` from offset `start` on. */
  function ItemBytes(items: map<u16, seq<u8>>, key: u16, start: nat, len: nat): (w: seq<u8>)
    ensures |w| == len
    ensures forall i :: 0 <= i < len ==> w[i] == ItemByte(items, key, start + i)
  {
    seq<u8>(len, i requires 0 <= i < len => ItemByte(items, key, start + i))
  }

  class FwCfgPort {
    /** What the device holds, item by item. */
    const items: map<u16, seq<u8>>
    /** The key last written to SELECTOR. */
    var selector: u16
    /** Bytes of the selected item read since it was selected. */
    var offset: nat
    /** Every key written to SELECTOR, in order. */
    ghost var selections: seq<u16>

    constructor (items: map<u16, seq<u8>>, selector: u16)
      ensures this.items == items && this.selector == selector
      ensures offset == 0 && selections == []
    {
      this.items := items;
      this.selector := selector;
      offset := 0;
      selections := [];
    }

    /** grub_outw(key, SELECTOR) */
    method Select(key: u16)
      modifies this
      ensures selector == key && offset == 0
      ensures selections == old(selections) + [key]
    {
      selector := key;
      offset := 0;
      selections := selections + [key];
    }

    /** grub_inb(DATA) */
    method InB() returns (b: u8)
      modifies this
      ensures b == ItemByte(items, selector, old(offset))
      ensures offset == old(offset) + 1
      ensures selector == old(selector) && selections == old(selections)
    {
      b := ItemByte(items, selector, offset);
      offset := offset + 1;
    }

    /** grub_inl(DATA): the next four bytes as a 32-bit word of the
        little-endian host. */
    method InL() returns (v: u32)
      modifies this
      ensures v == FromLE32(ItemBytes(items, selector, old(offset), 4))
      ensures offset == old(offset) + 4
      ensures selector == old(selector) && selections == old(selections)
    {
      v := FromLE32(ItemBytes(items, selector, offset, 4));
      offset := offset + 4;
    }
  }

  /** GRUB's environment, written through grub_env_set. */
  class Environment {
    var vars: map<seq<u8>, seq<u8>>

    constructor (vars: map<seq<u8>, seq<u8>>)
      ensures this.vars == vars
    {
      this.vars := vars;
    }

    /** grub_env_set(name, value) */
    method Set(name: seq<u8>, value: seq<u8>)
      modifies this
      ensures vars == old(vars)[name := value]
    {
      vars := vars[name := value];
    }
  }

  // ---- what the command reads ----

  /** The device answers the signature key with 'QEMU'. */
  predicate SignatureOk(items: map<u16, seq<u8>>)
  {
    ItemBytes(items, FW_CFG_SIGNATURE, 0, 4) == SIGNATURE
  }

  /** The memcmp of the word read from the signature key against 'QEMU' is
      one comparison of that word with 0x554d4551 on the little-endian host. */
  lemma {:induction false} SignatureWord(items: map<u16, seq<u8>>)
    ensures SignatureOk(items) <==> FromLE32(ItemBytes(items, FW_CFG_SIGNATURE, 0, 4)) == 0x554d4551
  {
    var w := ItemBytes(items, FW_CFG_SIGNATURE, 0, 4);
    FromLE32RoundTrip(w);
    assert LE32(0x554d4551) == SIGNATURE;
    LE32Injective(FromLE32(w), 0x554d4551);
  }

  /** The entry count, as the word read from the directory key. */
  function EntryCount(items: map<u16, seq<u8>>): (count: u32)
    ensures LE32(count) == ItemBytes(items, FW_CFG_FILE_DIR, 0, 4)
  {
    FromLE32RoundTrip(ItemBytes(items, FW_CFG_FILE_DIR, 0, 4));
    FromLE32(ItemBytes(items, FW_CFG_FILE_DIR, 0, 4))
  }

  /** The device's bytes for directory entry `k`. */
  function EntryBytes(items: map<u16, seq<u8>>, k: nat): (rec: seq<u8>)
    ensures |rec| == FILE_ENTRY_SIZE
  {
    ItemBytes(items, FW_CFG_FILE_DIR, DIR_HEADER_SIZE + FILE_ENTRY_SIZE * k, FILE_ENTRY_SIZE)
  }

  /** The first `count` directory entries, decoded. */
  function Directory(items: map<u16, seq<u8>>, count: nat): (dir: seq<FwCfgFile>)
    ensures |dir| == count
    ensures forall k :: 0 <= k < count ==> dir[k] == DecodeFile(EntryBytes(items, k))
  {
    seq(count, k requires 0 <= k < count => DecodeFile(EntryBytes(items, k)))
  }

  /** `grub_strcmp(file.name, path) == 0` */
  predicate Named(file: FwCfgFile, path: seq<u8>)
  {
    CStr(file.name) == CStr(path)
  }

  /** strcmp reports equality exactly when both strings agree up to and
      including their terminating NUL. */
  lemma NamedMeansEqualStrings(file: FwCfgFile, path: seq<u8>)
    ensures Named(file, path) <==> Terminated(file.name) == Terminated(path)
  {
    if Terminated(file.name) == Terminated(path) {
      assert CStr(file.name) == Terminated(file.name)[..StrLen(file.name)];
    }
  }

  /** The first entry of `dir`, from index `from` on, that is named `path`. */
  function FirstMatch(dir: seq<FwCfgFile>, path: seq<u8>, from: nat): (r: Option<nat>)
    requires from <= |dir|
    ensures r.Some? ==> from <= r.value < |dir| && Named(dir[r.value], path)
    ensures r.Some? ==> forall k :: from <= k < r.value ==> !Named(dir[k], path)
    ensures r.None? ==> forall k :: from <= k < |dir| ==> !Named(dir[k], path)
    decreases |dir| - from
  {
    if from == |dir| then None
    else if Named(dir[from], path) then Some(from)
    else FirstMatch(dir, path, from + 1)
  }

  /** Entries after the first match, and how many there are, are never
      consulted: a directory that agrees up to the match gives the same match. */
  lemma {:induction false} MatchIgnoresLaterEntries(
    dir: seq<FwCfgFile>, dir': seq<FwCfgFile>, path: seq<u8>, from: nat, k: nat)
    requires from <= |dir| && k < |dir'|
    requires FirstMatch(dir, path, from) == Some(k)
    requires dir'[..k + 1] == dir[..k + 1]
    ensures from <= |dir'| && FirstMatch(dir', path, from) == Some(k)
    decreases k - from
  {
    assert dir'[from] == dir'[..k + 1][from] == dir[..k + 1][from] == dir[from];
    if from < k {
      MatchIgnoresLaterEntries(dir, dir', path, from + 1, k);
    }
  }

  // ---- the command ----

  /** The inner loop of fwconfig.c:72-75: read the next directory entry, byte by
      byte, into the `file` struct, and view its fields as the decoded entry. */
  method ReadEntry(port: FwCfgPort, file: array<u8>, ghost k: nat) returns (entry: FwCfgFile)
    requires file.Length == FILE_ENTRY_SIZE
    requires port.selector == FW_CFG_FILE_DIR
    requires port.offset == DIR_HEADER_SIZE + FILE_ENTRY_SIZE * k
    modifies port, file
    ensures file[..] == EntryBytes(port.items, k)
    ensures entry == DecodeFile(EntryBytes(port.items, k))
    ensures port.selector == FW_CFG_FILE_DIR
    ensures port.offset == DIR_HEADER_SIZE + FILE_ENTRY_SIZE * (k + 1)
    ensures port.selections == old(port.selections)
  {
    var j := 0;
    while j < FILE_ENTRY_SIZE
      invariant j <= FILE_ENTRY_SIZE
      invariant port.selector == FW_CFG_FILE_DIR
      invariant port.offset == DIR_HEADER_SIZE + FILE_ENTRY_SIZE * k + j
      invariant port.selections == old(port.selections)
      invariant file[..j] == EntryBytes(port.items, k)[..j]
    {
      file[j] := port.InB();
      j := j + 1;
    }
    entry := DecodeFile(file[..]);
  }

  /** fwconfig.c:86-90: select the item at `location` and read `size` bytes of it
      into `data`. */
  method ReadItem(port: FwCfgPort, data: array<u8>, location: u16)
    modifies port, data
    ensures data[..] == ItemBytes(port.items, location, 0, data.Length)
    ensures port.selector == location && port.offset == data.Length
    ensures port.selections == old(port.selections) + [location]
  {
    port.Select(location);
    var j := 0;
    while j < data.Length
      invariant j <= data.Length
      invariant port.selector == location && port.offset == j
      invariant port.selections == old(port.selections) + [location]
      invariant data[..j] == ItemBytes(port.items, location, 0, j)
    {
      data[j] := port.InB();
      j := j + 1;
    }
  }


  /** What fwconfig.c:66-102 leaves behind once the signature has been checked:
      the directory key is selected, its entries are scanned up to the first
      one named `path`, and that item is read. */
  ghost predicate Scanned(port: FwCfgPort, oldSelections: seq<u16>, oldVars: map<seq<u8>, seq<u8>>,
                          vars: map<seq<u8>, seq<u8>>, path: seq<u8>, varName: Option<seq<u8>>,
                          allocOk: bool, err: Err)
    reads port
  {
    var count := EntryCount(port.items);
    var dir := Directory(port.items, count);
    match FirstMatch(dir, path, 0)
    case None =>
      && err == ErrFileNotFound
      && port.selections == oldSelections + [FW_CFG_FILE_DIR]
      && port.selector == FW_CFG_FILE_DIR
      && port.offset == DIR_HEADER_SIZE + FILE_ENTRY_SIZE * count
      && vars == oldVars
    case Some(k) =>
      if !allocOk then
        && err == ErrOutOfMemory
        && port.selections == oldSelections + [FW_CFG_FILE_DIR]
        && port.selector == FW_CFG_FILE_DIR
        && port.offset == DIR_HEADER_SIZE + FILE_ENTRY_SIZE * (k + 1)
        && vars == oldVars
      else
        && err == ErrNone
        && port.selections == oldSelections + [FW_CFG_FILE_DIR, dir[k].select]
        && port.selector == dir[k].select
        && port.offset == dir[k].size
        && vars == if varName.Some?
                   then oldVars[varName.value := ItemBytes(port.items, dir[k].select, 0, dir[k].size)]
                   else oldVars
  }

  /** fwconfig.c:83-98, once entry `file` has matched. */
  method ReadMatch(port: FwCfgPort, env: Environment, file: FwCfgFile, varName: Option<seq<u8>>, allocOk: bool)
    returns (err: Err)
    modifies port, env
    ensures !allocOk ==> err == ErrOutOfMemory && unchanged(port) && unchanged(env)
    ensures allocOk ==>
              && err == ErrNone
              && port.selections == old(port.selections) + [file.select]
              && port.selector == file.select
              && port.offset == file.size
              && env.vars == if varName.Some?
                             then old(env.vars)[varName.value := ItemBytes(port.items, file.select, 0, file.size)]
                             else old(env.vars)
  {
    var fileSize := file.size;
    var location := file.select;
    if !allocOk {
      return ErrOutOfMemory;
    }
    var data := new u8[fileSize];
    ReadItem(port, data, location);
    if varName.Some? {
      env.Set(varName.value, data[..]);
    }
    return ErrNone;
  }

  /** The outer loop of fwconfig.c:70-100 up to the match test: read entries one
      after another and stop at the first one named `path`, or after
      `count` entries. */
  method FindEntry(port: FwCfgPort, path: seq<u8>, count: u32) returns (found: Option<FwCfgFile>)
    requires port.selector == FW_CFG_FILE_DIR && port.offset == DIR_HEADER_SIZE
    modifies port
    ensures port.selector == FW_CFG_FILE_DIR && port.selections == old(port.selections)
    ensures match FirstMatch(Directory(port.items, count), path, 0)
            case None => found == None && port.offset == DIR_HEADER_SIZE + FILE_ENTRY_SIZE * count
            case Some(k) =>
              && found == Some(Directory(port.items, count)[k])
              && port.offset == DIR_HEADER_SIZE + FILE_ENTRY_SIZE * (k + 1)
  {
    ghost var dir := Directory(port.items, count);
    var file := new u8[FILE_ENTRY_SIZE];
    var i: u32 := 0;
    while i < count
      invariant i <= count
      invariant port.selector == FW_CFG_FILE_DIR
      invariant port.offset == DIR_HEADER_SIZE + FILE_ENTRY_SIZE * i
      invariant port.selections == old(port.selections)
      invariant FirstMatch(dir, path, 0) == FirstMatch(dir, path, i)
    {
      var entry := ReadEntry(port, file, i);
      assert entry == dir[i];
      if Named(entry, path) {
        assert FirstMatch(dir, path, i) == Some(i as nat);
        return Some(entry);
      }
      i := i + 1;
    }
    assert FirstMatch(dir, path, i) == None;
    return None;
  }

  /** fwconfig.c:66-102: read the entry count, find the first entry named
      `path` and read its item. */
  method ScanDirectory(port: FwCfgPort, env: Environment, path: seq<u8>, varName: Option<seq<u8>>, allocOk: bool)
    returns (err: Err)
    modifies port, env
    ensures Scanned(port, old(port.selections), old(env.vars), env.vars, path, varName, allocOk, err)
  {
    port.Select(FW_CFG_FILE_DIR);
    var count := port.InL();
    assert count == EntryCount(port.items);
    var found := FindEntry(port, path, count);
    if found.None? {
      return ErrFileNotFound;
    }
    err := ReadMatch(port, env, found.value, varName, allocOk);
  }

  /** grub_cmd_fwconfig. `argv` are the command's arguments, `varName` the
      argument of `-v` when it was given, `allocOk` whether grub_malloc of the
      data buffer succeeds. */
  method Fwconfig(port: FwCfgPort, env: Environment, argv: seq<seq<u8>>, varName: Option<seq<u8>>, allocOk: bool)
    returns (err: Err)
    modifies port, env
    ensures |argv| != 1 ==> err == ErrBadArgument && unchanged(port) && unchanged(env)
    ensures |argv| == 1 && !SignatureOk(port.items) ==>
              && err == ErrBadDevice
              && port.selections == old(port.selections) + [FW_CFG_SIGNATURE]
              && port.selector == FW_CFG_SIGNATURE && port.offset == 4
              && env.vars == old(env.vars)
    ensures |argv| == 1 && SignatureOk(port.items) ==>
              Scanned(port, old(port.selections) + [FW_CFG_SIGNATURE], old(env.vars), env.vars,
                      argv[0], varName, allocOk, err)
  {
    if |argv| != 1 {
      return ErrBadArgument;
    }

    // Without the QEMU signature there is no fw_cfg device to read.
    port.Select(FW_CFG_SIGNATURE);
    var value := port.InL();
    FromLE32RoundTrip(ItemBytes(port.items, FW_CFG_SIGNATURE, 0, 4));
    if LE32(value) != SIGNATURE {
      return ErrBadDevice;
    }

    err := ScanDirectory(port, env, argv[0], varName, allocOk);
  }
}
