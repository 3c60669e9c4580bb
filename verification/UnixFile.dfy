/** The Unix V6 file layer of assign2: inodes, address blocks, file blocks, and
    the two loops that walk a whole file. */
module UnixFile {
  import opened Wrappers

  type byte = x: int | 0 <= x < 0x100
  type word = x: int | 0 <= x < 0x1_0000

  const SECTOR_SIZE := 512
  const ADDRESSES := 256
  const INODES := 16
  const INODE_SIZE := 32
  const INODE_START_SECTOR := 2
  const ENTRY_SIZE := 16
  const MAX_FILESIZE := 7 * ADDRESSES * SECTOR_SIZE + ADDRESSES * ADDRESSES * SECTOR_SIZE
  const SHA_DIGEST_LENGTH := 20

  // ----- the disk

  /** The bytes of the disk image, the sectors that cannot be read, and the size
      of the inode area in the superblock. */
  datatype FileSystem = FileSystem(image: seq<byte>, failing: set<nat>, isize: word)

  predicate Readable(fs: FileSystem, sector: nat)
  {
    sector !in fs.failing && SECTOR_SIZE * (sector + 1) <= |fs.image|
  }

  function Sector(fs: FileSystem, sector: nat): (s: seq<byte>)
    requires Readable(fs, sector)
    ensures |s| == SECTOR_SIZE
  {
    fs.image[SECTOR_SIZE * sector..SECTOR_SIZE * (sector + 1)]
  }

  /** `lseek` and `read`: past the end of the image fewer bytes arrive, possibly
      none, and the rest of the buffer keeps what it held. */
  method ReadSector(fs: FileSystem, sector: nat, buf: array<byte>) returns (n: int)
    requires buf.Length == SECTOR_SIZE
    modifies buf
    ensures sector in fs.failing <==> n < 0
    ensures n <= SECTOR_SIZE
    ensures n >= 0 ==> buf[n..] == old(buf[..])[n..]
    ensures n > 0 ==> SECTOR_SIZE * sector + n <= |fs.image| && buf[..n] == fs.image[SECTOR_SIZE * sector..SECTOR_SIZE * sector + n]
    ensures Readable(fs, sector) ==> n == SECTOR_SIZE && buf[..] == Sector(fs, sector)
  {
    if sector in fs.failing {
      return -1;
    }
    var start := SECTOR_SIZE * sector;
    n := if |fs.image| < start then 0 else if |fs.image| - start < SECTOR_SIZE then |fs.image| - start else SECTOR_SIZE;
    for i := 0 to n
      invariant forall k :: i <= k < SECTOR_SIZE ==> buf[k] == old(buf[k])
      invariant forall k :: 0 <= k < i ==> buf[k] == fs.image[start + k]
    {
      buf[i] := fs.image[start + i];
    }
  }

  // ----- inodes

  datatype Inode = Inode(mode: word, nlink: byte, uid: byte, gid: byte, size0: byte, size1: word, addr: seq<word>, atime: seq<word>, mtime: seq<word>)

  function Word(s: seq<byte>, at: nat): word
    requires at + 2 <= |s|
  {
    s[at] as int + 0x100 * s[at + 1] as int
  }

  function Words(s: seq<byte>, at: nat, count: nat): (ws: seq<word>)
    requires at + 2 * count <= |s|
    ensures |ws| == count
  {
    seq(count, i requires 0 <= i < count => Word(s, at + 2 * i))
  }

  function InodeOf(s: seq<byte>): (node: Inode)
    requires |s| == INODE_SIZE
    ensures Valid(node)
  {
    Inode(Word(s, 0), s[2], s[3], s[4], s[5], Word(s, 6), Words(s, 8, 8), Words(s, 24, 2), Words(s, 28, 2))
  }

  function WordBytes(ws: seq<word>): (s: seq<byte>)
    ensures |s| == 2 * |ws|
  {
    seq(2 * |ws|, i requires 0 <= i < 2 * |ws| => if i % 2 == 0 then ws[i / 2] % 0x100 else ws[i / 2] / 0x100)
  }

  /** The record of an inode, field after field. */
  function RecordOf(node: Inode): seq<byte>
  {
    WordBytes([node.mode]) + [node.nlink, node.uid, node.gid, node.size0] + WordBytes([node.size1] + node.addr + node.atime + node.mtime)
  }

  lemma WordsRecovered(s: seq<byte>, at: nat, count: nat)
    requires at + 2 * count <= |s|
    ensures WordBytes(Words(s, at, count)) == s[at..at + 2 * count]
  {
    forall i | 0 <= i < 2 * count
      ensures WordBytes(Words(s, at, count))[i] == s[at + i]
    {
      var j := i / 2;
      assert Words(s, at, count)[j] == Word(s, at + 2 * j);
    }
  }

  /** The fields tile the record: every byte belongs to exactly one of them. */
  lemma FieldsTileRecord(s: seq<byte>)
    requires |s| == INODE_SIZE
    ensures RecordOf(InodeOf(s)) == s
  {
    WordsRecovered(s, 0, 1);
    WordsRecovered(s, 6, 13);
    WordFields(s);
    hide WordBytes, Words, Word;
    assert s[0..2] + s[2..6] + s[6..32] == s && s[2..6] == [s[2], s[3], s[4], s[5]];
  }

  lemma WordFields(s: seq<byte>)
    requires |s| == INODE_SIZE
    ensures var node := InodeOf(s);
            [node.mode] == Words(s, 0, 1) && [node.size1] + node.addr + node.atime + node.mtime == Words(s, 6, 13)
  {
    hide Word;
  }

  predicate Valid(node: Inode) { |node.addr| == 8 }

  function Size(node: Inode): nat { 0x1_0000 * node.size0 + node.size1 }

  predicate IsAllocated(node: Inode) { node.mode / 0x8000 % 2 == 1 }

  predicate IsDirectory(node: Inode) { node.mode / 0x2000 % 4 == 2 }

  predicate IsLarge(node: Inode) { node.mode / 0x1000 % 2 == 1 }

  /** The words of a record are stored low byte first. */
  lemma RecordWords(s: seq<byte>, i: nat)
    requires |s| == INODE_SIZE && i < 8
    ensures var node := InodeOf(s);
            && node.mode == s[0] as int + 0x100 * s[1] as int && node.size1 == s[6] as int + 0x100 * s[7] as int
            && node.addr[i] == s[8 + 2 * i] as int + 0x100 * s[9 + 2 * i] as int
  {
  }

  /** The size has its high byte before its low word, and of the high byte of the
      mode the bits are, from the top: allocated, two for the format, large. */
  lemma RecordBits(s: seq<byte>, used: bool, format: nat, large: bool, rest: nat)
    requires |s| == 32 && format < 4 && rest < 0x10
    requires s[1] == (if used then 0x80 else 0) + 0x20 * format + (if large then 0x10 else 0) + rest
    ensures var node := InodeOf(s);
            && Size(node) == 0x1_0000 * s[5] as int + 0x100 * s[7] as int + s[6] as int
            && (IsAllocated(node) <==> used) && (IsDirectory(node) <==> format == 2) && (IsLarge(node) <==> large)
  {
    RecordWords(s, 0);
    ModeBits(InodeOf(s).mode, s[0], used, format, large, rest);
    assert InodeOf(s).size0 == s[5];
    hide InodeOf;
  }

  lemma ModeBits(mode: word, low: byte, used: bool, format: nat, large: bool, rest: nat)
    requires format < 4 && rest < 0x10
    requires mode == low as int + 0x8000 * (if used then 1 else 0) + 0x2000 * format + 0x1000 * (if large then 1 else 0) + 0x100 * rest
    ensures mode / 0x8000 % 2 == if used then 1 else 0
    ensures mode / 0x2000 % 4 == format
    ensures mode / 0x1000 % 2 == if large then 1 else 0
  {
    assert mode / 0x2000 == 4 * (if used then 1 else 0) + format;
    assert mode / 0x1000 == 8 * (if used then 1 else 0) + 2 * format + if large then 1 else 0;
  }

  /** The inode area is a flat table of 32-byte records from the third sector on,
      numbered from 1. */
  predicate InodeExists(fs: FileSystem, inumber: nat) { 1 <= inumber <= fs.isize * INODES }

  function InodeSector(inumber: nat): nat
    requires inumber >= 1
  {
    INODE_START_SECTOR + (inumber - 1) / INODES
  }

  predicate InodeReadable(fs: FileSystem, inumber: nat)
  {
    InodeExists(fs, inumber) && Readable(fs, InodeSector(inumber))
  }

  function InodeAt(fs: FileSystem, inumber: nat): (node: Inode)
    requires InodeReadable(fs, inumber)
    ensures Valid(node)
  {
    var at := INODE_START_SECTOR * SECTOR_SIZE + INODE_SIZE * (inumber - 1);
    InodeOf(fs.image[at..at + INODE_SIZE])
  }

  lemma RecordInSector(fs: FileSystem, inumber: nat)
    requires InodeReadable(fs, inumber)
    ensures var at := INODE_SIZE * ((inumber - 1) % INODES);
            InodeAt(fs, inumber) == InodeOf(Sector(fs, InodeSector(inumber))[at..at + INODE_SIZE])
  {
    var at := INODE_SIZE * ((inumber - 1) % INODES);
    var start := INODE_START_SECTOR * SECTOR_SIZE + INODE_SIZE * (inumber - 1);
    assert start == SECTOR_SIZE * InodeSector(inumber) + at;
    assert Sector(fs, InodeSector(inumber))[at..at + INODE_SIZE] == fs.image[start..start + INODE_SIZE];
    hide InodeOf;
  }

  lemma SectorOfRecord(inumber: nat, sector: nat)
    requires inumber >= 1
    ensures 512 * sector <= 1024 + 32 * (inumber - 1) < 512 * (sector + 1) <==> sector == InodeSector(inumber)
  {
    var n := (inumber - 1) / 16;
    assert 16 * n <= inumber - 1 < 16 * n + 16;
  }

  lemma RecordInTable(fs: FileSystem, inumber: nat)
    requires InodeReadable(fs, inumber)
    ensures 1024 + 32 * inumber <= |fs.image|
    ensures RecordOf(InodeAt(fs, inumber)) == fs.image[1024 + 32 * (inumber - 1)..1024 + 32 * inumber]
  {
    hide InodeOf, RecordOf;
    SectorOfRecord(inumber, InodeSector(inumber));
    FieldsTileRecord(fs.image[1024 + 32 * (inumber - 1)..1024 + 32 * inumber]);
  }

  predicate RecordIsIn(fs: FileSystem, inumber: nat, sector: nat)
    requires inumber >= 1
  {
    512 * sector <= 1024 + 32 * (inumber - 1) < 512 * (sector + 1) <= |fs.image|
  }

  /** The inodes are the records of a table that starts at byte 1024 and fills
      `isize` sectors; a record is readable if its sector is. */
  lemma InodeTable(fs: FileSystem, inumber: nat)
    ensures InodeExists(fs, inumber) <==> 1 <= inumber && 32 * inumber <= 512 * fs.isize
    ensures InodeReadable(fs, inumber) <==>
              InodeExists(fs, inumber) && exists sector: nat :: RecordIsIn(fs, inumber, sector) && sector !in fs.failing
    ensures InodeReadable(fs, inumber) ==>
              && 1024 + 32 * inumber <= |fs.image|
              && RecordOf(InodeAt(fs, inumber)) == fs.image[1024 + 32 * (inumber - 1)..1024 + 32 * inumber]
  {
    hide InodeAt, RecordOf, InodeSector;
    if InodeReadable(fs, inumber) {
      RecordInTable(fs, inumber);
      SectorOfRecord(inumber, InodeSector(inumber));
      assert RecordIsIn(fs, inumber, InodeSector(inumber));
    }
    if sector: nat :| InodeExists(fs, inumber) && RecordIsIn(fs, inumber, sector) && sector !in fs.failing {
      SectorOfRecord(inumber, sector);
    }
  }

  /** An unreadable sector goes unnoticed: the inode is then whatever the buffer
      on the stack held. */
  method InodeGet(fs: FileSystem, inumber: nat) returns (r: Option<Inode>)
    ensures r.Some? <==> InodeExists(fs, inumber)
    ensures r.Some? ==> Valid(r.value)
    ensures InodeReadable(fs, inumber) ==> r == Some(InodeAt(fs, inumber))
  {
    if inumber == 0 {
      return None;
    }
    var index := inumber - 1;
    if index >= fs.isize * INODES {
      return None;
    }
    var sector, within := index / INODES + INODE_START_SECTOR, index % INODES;
    var buf := new byte[SECTOR_SIZE];
    var _ := ReadSector(fs, sector, buf);
    var at := INODE_SIZE * within;
    var record := buf[at..at + INODE_SIZE];
    if InodeReadable(fs, inumber) {
      RecordInSector(fs, inumber);
      assert record == buf[..][at..at + INODE_SIZE];
    }
    hide InodeOf, Sector;
    return Some(InodeOf(record));
  }

  // ----- addressing

  /** Where the address of a file block is kept: in the inode, in a block the
      inode names, or in a block named by a block the inode names. */
  datatype Slot = Direct(i: nat) | Single(i: nat, j: nat) | Double(j: nat, k: nat)

  predicate ValidSlot(large: bool, slot: Slot)
  {
    match slot
    case Direct(i) => !large && i < 8
    case Single(i, j) => large && i < 7 && j < ADDRESSES
    case Double(j, k) => large && j < ADDRESSES && k < ADDRESSES
  }

  /** Its position in the order of the file. */
  function IndexOf(slot: Slot): nat
  {
    match slot
    case Direct(i) => i
    case Single(i, j) => ADDRESSES * i + j
    case Double(j, k) => ADDRESSES * (7 + j) + k
  }

  function Capacity(large: bool): nat { if large then ADDRESSES * 7 + ADDRESSES * ADDRESSES else 8 }

  /** Every index within the capacity has a slot of its own, in range. */
  function SlotOf(large: bool, index: nat): (slot: Option<Slot>)
    ensures slot.Some? <==> index < Capacity(large)
    ensures slot.Some? ==> ValidSlot(large, slot.value) && IndexOf(slot.value) == index
  {
    if !large then if index < 8 then Some(Direct(index)) else None
    else if index < 7 * ADDRESSES then Some(Single(index / ADDRESSES, index % ADDRESSES))
    else if index < Capacity(true) then
      var rest := index - 7 * ADDRESSES;
      Some(Double(rest / ADDRESSES, rest % ADDRESSES))
    else None
  }

  /** Distinct block indices use distinct slots, and every slot is used. */
  lemma SlotsAreIndices(large: bool, slot: Slot, index: nat)
    requires ValidSlot(large, slot)
    ensures SlotOf(large, index) == Some(slot) <==> index == IndexOf(slot)
  {
    match slot
    case Direct(i) =>
    case Single(i, j) =>
      assert IndexOf(slot) / ADDRESSES == i && IndexOf(slot) % ADDRESSES == j;
    case Double(j, k) =>
      assert (IndexOf(slot) - 7 * ADDRESSES) / ADDRESSES == j && (IndexOf(slot) - 7 * ADDRESSES) % ADDRESSES == k;
  }

  /** A 24-bit size never reaches the "too large" branch, and with the large
      scheme every block of the file has a slot. */
  lemma LargeAlwaysFits(node: Inode, index: nat)
    ensures Size(node) < MAX_FILESIZE
    ensures IsLarge(node) && SECTOR_SIZE * index < Size(node) ==> SlotOf(true, index).Some?
  {
  }

  function AddressAt(fs: FileSystem, block: nat, index: nat): word
    requires Readable(fs, block) && index < ADDRESSES
  {
    Word(Sector(fs, block), 2 * index)
  }

  /** The sectors read on the way to a slot. */
  predicate SlotReadable(fs: FileSystem, node: Inode, slot: Slot)
    requires Valid(node) && ValidSlot(IsLarge(node), slot)
  {
    match slot
    case Direct(_) => true
    case Single(i, _) => Readable(fs, node.addr[i])
    case Double(j, _) => Readable(fs, node.addr[7]) && Readable(fs, AddressAt(fs, node.addr[7], j))
  }

  function BlockIn(fs: FileSystem, node: Inode, slot: Slot): word
    requires Valid(node) && ValidSlot(IsLarge(node), slot) && SlotReadable(fs, node, slot)
  {
    match slot
    case Direct(i) => node.addr[i]
    case Single(i, j) => AddressAt(fs, node.addr[i], j)
    case Double(j, k) => AddressAt(fs, AddressAt(fs, node.addr[7], j), k)
  }

  predicate Located(fs: FileSystem, node: Inode, index: nat)
    requires Valid(node)
  {
    index < Capacity(IsLarge(node)) && SlotReadable(fs, node, SlotOf(IsLarge(node), index).value)
  }

  /** The sector that holds the block of the file. */
  function BlockOf(fs: FileSystem, node: Inode, index: nat): word
    requires Valid(node) && Located(fs, node, index)
  {
    BlockIn(fs, node, SlotOf(IsLarge(node), index).value)
  }

  // ----- the file as one list of blocks

  ghost function Flatten<T>(parts: seq<seq<T>>): seq<T>
  {
    if parts == [] then [] else parts[0] + Flatten(parts[1..])
  }

  lemma Distributes(width: nat, n: int)
    ensures width * n == width + width * (n - 1)
  {
  }

  lemma {:induction false} FlattenLength<T>(parts: seq<seq<T>>, width: nat)
    requires forall p :: p in parts ==> |p| == width
    ensures |Flatten(parts)| == width * |parts|
  {
    if parts == [] {
    } else {
      assert parts[0] in parts;
      FlattenLength(parts[1..], width);
      Distributes(width, |parts|);
    }
  }

  lemma {:induction false} FlattenAt<T>(parts: seq<seq<T>>, width: nat, i: nat, j: nat)
    requires forall p :: p in parts ==> |p| == width
    requires i < |parts| && j < width
    ensures 0 <= width * i + j < |Flatten(parts)| && Flatten(parts)[width * i + j] == parts[i][j]
  {
    assert parts[0] in parts;
    if i == 0 {
      FlattenLength(parts, width);
    } else {
      FlattenAt(parts[1..], width, i - 1, j);
      Distributes(width, i);
    }
  }

  /** The 256 addresses in a block, low byte first; zeros stand for one that cannot be read. */
  ghost function AddressesIn(fs: FileSystem, block: word): (ws: seq<word>)
    ensures |ws| == 256
  {
    if Readable(fs, block) then
      var s := Sector(fs, block);
      seq(256, i requires 0 <= i < 256 => s[2 * i] as int + 0x100 * s[2 * i + 1] as int)
    else seq(256, _ => 0)
  }

  ghost function IndirectBlocks(fs: FileSystem, blocks: seq<word>): seq<word>
  {
    Flatten(seq(|blocks|, i requires 0 <= i < |blocks| => AddressesIn(fs, blocks[i])))
  }

  /** The sectors of the file in order: the eight direct blocks, or the blocks
      named in seven address blocks followed by those named in the blocks named in
      the eighth. */
  ghost function BlockList(fs: FileSystem, node: Inode): seq<word>
    requires Valid(node)
  {
    if IsLarge(node) then IndirectBlocks(fs, node.addr[..7]) + IndirectBlocks(fs, AddressesIn(fs, node.addr[7])) else node.addr
  }

  lemma IndirectBlockAt(fs: FileSystem, blocks: seq<word>, i: nat, j: nat)
    ensures |IndirectBlocks(fs, blocks)| == 256 * |blocks|
    ensures i < |blocks| && j < 256 ==> IndirectBlocks(fs, blocks)[256 * i + j] == AddressesIn(fs, blocks[i])[j]
  {
    hide AddressesIn;
    var parts := seq(|blocks|, i requires 0 <= i < |blocks| => AddressesIn(fs, blocks[i]));
    FlattenLength(parts, 256);
    if i < |blocks| && j < 256 {
      FlattenAt(parts, 256, i, j);
    }
  }

  lemma AddressIsListed(fs: FileSystem, block: word, j: nat)
    requires Readable(fs, block) && j < 256
    ensures AddressAt(fs, block, j) == AddressesIn(fs, block)[j]
  {
  }

  lemma ListedInLarge(fs: FileSystem, node: Inode, slot: Slot)
    requires Valid(node) && IsLarge(node) && ValidSlot(true, slot) && SlotReadable(fs, node, slot)
    requires |BlockList(fs, node)| == 67328
    ensures IndexOf(slot) < 67328 && BlockIn(fs, node, slot) == BlockList(fs, node)[IndexOf(slot)]
  {
    hide AddressesIn, AddressAt, IndirectBlocks;
    match slot
    case Single(i, j) =>
      IndirectBlockAt(fs, node.addr[..7], i, j);
      AddressIsListed(fs, node.addr[i], j);
    case Double(j, k) =>
      IndirectBlockAt(fs, node.addr[..7], 0, 0);
      IndirectBlockAt(fs, AddressesIn(fs, node.addr[7]), j, k);
      AddressIsListed(fs, node.addr[7], j);
      AddressIsListed(fs, AddressAt(fs, node.addr[7], j), k);
  }

  /** The slots reach exactly the blocks of the list, each at its place. */
  lemma BlockOfIsListed(fs: FileSystem, node: Inode, index: nat)
    requires Valid(node)
    ensures |BlockList(fs, node)| == Capacity(IsLarge(node)) == if IsLarge(node) then 67328 else 8
    ensures Located(fs, node, index) ==> BlockOf(fs, node, index) == BlockList(fs, node)[index]
  {
    hide AddressesIn, IndirectBlocks, BlockIn;
    if IsLarge(node) {
      IndirectBlockAt(fs, node.addr[..7], 0, 0);
      IndirectBlockAt(fs, AddressesIn(fs, node.addr[7]), 0, 0);
      if Located(fs, node, index) {
        ListedInLarge(fs, node, SlotOf(true, index).value);
      }
    } else if Located(fs, node, index) {
      assert BlockOf(fs, node, index) == BlockIn(fs, node, Direct(index));
      DirectBlock(fs, node, index);
    }
  }

  lemma DirectBlock(fs: FileSystem, node: Inode, i: nat)
    requires Valid(node) && !IsLarge(node) && i < 8
    ensures BlockIn(fs, node, Direct(i)) == BlockList(fs, node)[i]
  {
  }

  method LookupAddressBlock(fs: FileSystem, block: nat, index: nat) returns (address: word)
    requires index < ADDRESSES
    ensures Readable(fs, block) ==> address == AddressAt(fs, block, index)
  {
    var buf := new byte[SECTOR_SIZE];
    var _ := ReadSector(fs, block, buf);
    address := Word(buf[..], 2 * index);
  }

  method IndexLookup(fs: FileSystem, node: Inode, fileBlockIndex: nat) returns (block: int)
    requires Valid(node)
    ensures block == -1 <==> fileBlockIndex >= Capacity(IsLarge(node))
    ensures block == -1 || 0 <= block < 0x1_0000
    ensures Located(fs, node, fileBlockIndex) ==> block == BlockOf(fs, node, fileBlockIndex)
  {
    var filesize := Size(node);
    if !IsLarge(node) {
      return if fileBlockIndex >= 8 then -1 else node.addr[fileBlockIndex];
    } else if filesize <= MAX_FILESIZE {
      if fileBlockIndex < 7 * ADDRESSES {
        var index1, index2 := fileBlockIndex / ADDRESSES, fileBlockIndex % ADDRESSES;
        block := LookupAddressBlock(fs, node.addr[index1], index2);
      } else {
        if fileBlockIndex >= 7 * ADDRESSES + ADDRESSES * ADDRESSES {
          return -1;
        }
        var index := fileBlockIndex - 7 * ADDRESSES;
        var index2, index3 := index / ADDRESSES, index % ADDRESSES;
        var addressBlock2 := LookupAddressBlock(fs, node.addr[7], index2);
        block := LookupAddressBlock(fs, addressBlock2, index3);
      }
    } else {
      assert false;
      return -1;
    }
  }

  // ----- file contents

  predicate BlockReadable(fs: FileSystem, node: Inode, index: nat)
    requires Valid(node)
  {
    Located(fs, node, index) && Readable(fs, BlockOf(fs, node, index))
  }

  /** The bytes of the file, in order. */
  function FileByte(fs: FileSystem, node: Inode, k: nat): byte
    requires Valid(node) && BlockReadable(fs, node, k / SECTOR_SIZE)
  {
    Sector(fs, BlockOf(fs, node, k / SECTOR_SIZE))[k % SECTOR_SIZE]
  }

  predicate InFile(node: Inode, index: nat) { SECTOR_SIZE * index < Size(node) }

  /** Every block of the file that the addressing scheme reaches can be read. */
  ghost predicate FileReadable(fs: FileSystem, node: Inode)
    requires Valid(node)
  {
    forall index: nat :: InFile(node, index) && index < Capacity(IsLarge(node)) ==> BlockReadable(fs, node, index)
  }

  predicate Fits(node: Inode) { Size(node) <= SECTOR_SIZE * Capacity(IsLarge(node)) }

  /** The block is found, and its sector does not fail; the image may end in it. */
  predicate BlockWorks(fs: FileSystem, node: Inode, index: nat)
    requires Valid(node)
  {
    Located(fs, node, index) && BlockOf(fs, node, index) !in fs.failing
  }

  /** The scheme reaches the block, and no failing sector is known to hold it. */
  predicate BlockPassed(fs: FileSystem, node: Inode, index: nat)
    requires Valid(node)
  {
    index < Capacity(IsLarge(node)) && (Located(fs, node, index) ==> BlockWorks(fs, node, index))
  }

  /** `s` agrees with the file from byte `start` on, wherever it can be read. */
  ghost predicate Agrees(fs: FileSystem, node: Inode, start: nat, s: seq<byte>)
    requires Valid(node)
  {
    forall k :: start <= k < start + |s| && BlockReadable(fs, node, k / SECTOR_SIZE) ==> s[k - start] == FileByte(fs, node, k)
  }

  /** `s` is the part of the file from byte `start` on. */
  ghost predicate IsPart(fs: FileSystem, node: Inode, start: nat, s: seq<byte>)
    requires Valid(node)
  {
    Agrees(fs, node, start, s) && forall k :: start <= k < start + |s| ==> BlockReadable(fs, node, k / SECTOR_SIZE)
  }

  lemma BlockAgrees(fs: FileSystem, node: Inode, index: nat, block: seq<byte>)
    requires Valid(node) && |block| == SECTOR_SIZE
    requires BlockReadable(fs, node, index) ==> block == Sector(fs, BlockOf(fs, node, index))
    ensures Agrees(fs, node, SECTOR_SIZE * index, block)
  {
    forall k | SECTOR_SIZE * index <= k < SECTOR_SIZE * index + SECTOR_SIZE
      ensures k / SECTOR_SIZE == index && k % SECTOR_SIZE == k - SECTOR_SIZE * index
    {
    }
  }

  lemma PartsJoin(fs: FileSystem, node: Inode, start: nat, a: seq<byte>, b: seq<byte>)
    requires Valid(node) && Agrees(fs, node, start, a) && Agrees(fs, node, start + |a|, b)
    ensures Agrees(fs, node, start, a + b)
  {
  }

  lemma PartOfPart(fs: FileSystem, node: Inode, start: nat, s: seq<byte>, from: nat, to: nat)
    requires Valid(node) && Agrees(fs, node, start, s) && from <= to <= |s|
    ensures Agrees(fs, node, start + from, s[from..to])
  {
  }

  lemma AllOfIt(fs: FileSystem, node: Inode, s: seq<byte>)
    requires Valid(node) && FileReadable(fs, node) && Fits(node) && |s| == Size(node) && Agrees(fs, node, 0, s)
    ensures IsPart(fs, node, 0, s)
  {
    forall k | 0 <= k < |s|
      ensures BlockReadable(fs, node, k / SECTOR_SIZE)
    {
      assert InFile(node, k / SECTOR_SIZE);
    }
  }

  /** A scheme that reaches every block of the file reaches every byte. */
  lemma AllPassedFits(fs: FileSystem, node: Inode)
    requires Valid(node) && forall index: nat :: InFile(node, index) ==> BlockPassed(fs, node, index)
    ensures Fits(node)
  {
    if Size(node) > 0 {
      assert InFile(node, (Size(node) - 1) / SECTOR_SIZE);
    }
  }

  ghost function SectorBytes(fs: FileSystem, block: word): (s: seq<byte>)
    ensures |s| == 512
  {
    if Readable(fs, block) then Sector(fs, block) else seq(512, _ => 0)
  }

  ghost function Sectors(fs: FileSystem, blocks: seq<word>): seq<byte>
  {
    Flatten(seq(|blocks|, i requires 0 <= i < |blocks| => SectorBytes(fs, blocks[i])))
  }

  /** The sectors of the file one after the other, as far as the scheme reaches. */
  ghost function Contents(fs: FileSystem, node: Inode): seq<byte>
    requires Valid(node)
  {
    Sectors(fs, BlockList(fs, node))
  }

  lemma SectorAt(fs: FileSystem, blocks: seq<word>, i: nat, j: nat)
    ensures |Sectors(fs, blocks)| == 512 * |blocks|
    ensures i < |blocks| && j < 512 && Readable(fs, blocks[i]) ==> Sectors(fs, blocks)[512 * i + j] == Sector(fs, blocks[i])[j]
  {
    hide Readable, Sector;
    var parts := seq(|blocks|, i requires 0 <= i < |blocks| => SectorBytes(fs, blocks[i]));
    FlattenLength(parts, 512);
    if i < |blocks| && j < 512 {
      FlattenAt(parts, 512, i, j);
    }
  }

  lemma ContentsAt(fs: FileSystem, node: Inode, k: nat)
    requires Valid(node)
    ensures |Contents(fs, node)| == if IsLarge(node) then 34471936 else 4096
    ensures BlockReadable(fs, node, k / 512) ==> k < |Contents(fs, node)| && FileByte(fs, node, k) == Contents(fs, node)[k]
  {
    hide BlockList, Sectors, BlockOf, SlotReadable, Readable, Sector, SlotOf;
    BlockOfIsListed(fs, node, k / 512);
    SectorAt(fs, BlockList(fs, node), k / 512, k % 512);
  }

  /** A part of the file is that part of its sectors. */
  lemma PartIsSlice(fs: FileSystem, node: Inode, start: nat, s: seq<byte>)
    requires Valid(node) && IsPart(fs, node, start, s) && s != []
    ensures start + |s| <= |Contents(fs, node)| && s == Contents(fs, node)[start..start + |s|]
  {
    hide BlockReadable, FileByte, Contents;
    forall k | start <= k < start + |s|
      ensures k < |Contents(fs, node)| && s[k - start] == Contents(fs, node)[k]
    {
      ContentsAt(fs, node, k);
    }
    ContentsAt(fs, node, start + |s| - 1);
  }

  function Min(a: int, b: int): int { if a < b then a else b }

  method GetBlock(fs: FileSystem, inumber: nat, fileBlockIndex: nat, buf: array<byte>) returns (r: int)
    requires buf.Length == SECTOR_SIZE
    modifies buf
    ensures !InodeExists(fs, inumber) ==> r == -1
    ensures r == -1 || 0 < r <= SECTOR_SIZE
    ensures InodeReadable(fs, inumber) ==>
              var node := InodeAt(fs, inumber);
              && (r > 0 ==> r == Min(SECTOR_SIZE, Size(node) - SECTOR_SIZE * fileBlockIndex))
              && (r > 0 ==> InFile(node, fileBlockIndex) && BlockPassed(fs, node, fileBlockIndex))
              && (InFile(node, fileBlockIndex) && BlockWorks(fs, node, fileBlockIndex) ==> r > 0)
              && (BlockReadable(fs, node, fileBlockIndex) ==> buf[..] == Sector(fs, BlockOf(fs, node, fileBlockIndex)))
  {
    var found := InodeGet(fs, inumber);
    if found.None? {
      return -1;
    }
    var node := found.value;
    var block := IndexLookup(fs, node, fileBlockIndex);
    if block < 0 {
      return -1;
    }
    var bytesRead := ReadSector(fs, block, buf);
    if bytesRead < 0 {
      return -1;
    }
    var filesize := Size(node);
    if filesize % SECTOR_SIZE == 0 {
      var blocks := filesize / SECTOR_SIZE;
      return if fileBlockIndex >= blocks then -1 else SECTOR_SIZE;
    } else {
      var blocks := filesize / SECTOR_SIZE + 1;
      return if fileBlockIndex >= blocks then -1 else if fileBlockIndex == blocks - 1 then filesize % SECTOR_SIZE else SECTOR_SIZE;
    }
  }

  // ----- the checksum loop

  /** `GetBlock` into a fresh buffer, as both loops over a file call it. */
  method FetchBlock(fs: FileSystem, inumber: nat, bno: nat) returns (n: int, block: seq<byte>)
    ensures |block| == SECTOR_SIZE && (n == -1 || 0 < n <= SECTOR_SIZE)
    ensures InodeReadable(fs, inumber) ==>
              var node := InodeAt(fs, inumber);
              && (n > 0 ==> n == Min(SECTOR_SIZE, Size(node) - SECTOR_SIZE * bno) && InFile(node, bno) && BlockPassed(fs, node, bno))
              && (InFile(node, bno) && BlockWorks(fs, node, bno) ==> n > 0)
              && Agrees(fs, node, SECTOR_SIZE * bno, block)
  {
    var buf := new byte[SECTOR_SIZE];
    n := GetBlock(fs, inumber, bno, buf);
    block := buf[..];
    if InodeReadable(fs, inumber) {
      BlockAgrees(fs, InodeAt(fs, inumber), bno, block);
    }
  }

  /** The hash has been fed the blocks before `bno`. */
  ghost predicate FedBefore(fs: FileSystem, inumber: nat, bno: nat, fed: seq<byte>)
  {
    && InodeReadable(fs, inumber)
    && |fed| == Min(SECTOR_SIZE * bno, Size(InodeAt(fs, inumber))) && Agrees(fs, InodeAt(fs, inumber), 0, fed)
  }

  method FeedBlock(fs: FileSystem, inumber: nat, bno: nat, fed: seq<byte>) returns (moved: int, next: seq<byte>)
    ensures FedBefore(fs, inumber, bno, fed) && InFile(InodeAt(fs, inumber), bno) ==>
              && (moved >= 0 ==> FedBefore(fs, inumber, bno + 1, next) && BlockPassed(fs, InodeAt(fs, inumber), bno))
              && (BlockWorks(fs, InodeAt(fs, inumber), bno) ==> moved >= 0)
  {
    hide Agrees, BlockPassed, BlockWorks, InodeAt;
    var block;
    moved, block := FetchBlock(fs, inumber, bno);
    if moved < 0 {
      return moved, fed;
    }
    next := fed + block[..moved];
    if FedBefore(fs, inumber, bno, fed) && InFile(InodeAt(fs, inumber), bno) {
      PartOfPart(fs, InodeAt(fs, inumber), SECTOR_SIZE * bno, block, 0, moved);
      PartsJoin(fs, InodeAt(fs, inumber), 0, fed, block[..moved]);
    }
  }

  /** The hash is represented by the bytes it is fed. The method succeeds if no
      block of the allocated file has a failing sector, and only if no block is
      beyond the scheme or known to be in a failing sector; then the hash was fed
      `Size` bytes that agree with the file wherever it can be read. */
  method ChecksumByInumber(fs: FileSystem, inumber: nat) returns (r: int, fed: seq<byte>)
    ensures r == -1 || r == SHA_DIGEST_LENGTH == 20
    ensures !InodeExists(fs, inumber) ==> r == -1
    ensures InodeReadable(fs, inumber) ==>
              var node := InodeAt(fs, inumber);
              && (!IsAllocated(node) ==> r == -1)
              && (r == SHA_DIGEST_LENGTH ==> |fed| == Size(node) && Agrees(fs, node, 0, fed))
              && (r == SHA_DIGEST_LENGTH ==> forall bno: nat :: InFile(node, bno) ==> BlockPassed(fs, node, bno))
              && (IsAllocated(node) && (forall bno: nat :: InFile(node, bno) ==> BlockWorks(fs, node, bno)) ==> r == SHA_DIGEST_LENGTH)
    ensures InodeReadable(fs, inumber) && IsAllocated(InodeAt(fs, inumber)) && FileReadable(fs, InodeAt(fs, inumber)) ==>
              var node := InodeAt(fs, inumber);
              && (r == SHA_DIGEST_LENGTH <==> Fits(node))
              && (r == SHA_DIGEST_LENGTH ==> IsPart(fs, node, 0, fed) && fed <= Contents(fs, node))
  {
    fed := [];
    var found := InodeGet(fs, inumber);
    if found.None? {
      return -1, fed;
    }
    var node := found.value;
    if !IsAllocated(node) {
      return -1, fed;
    }
    r, fed := HashBlocks(fs, inumber, node);
    if InodeReadable(fs, inumber) && FileReadable(fs, node) {
      if Fits(node) {
        assert forall bno: nat :: InFile(node, bno) ==> BlockWorks(fs, node, bno);
        AllOfIt(fs, node, fed);
        if fed != [] {
          PartIsSlice(fs, node, 0, fed);
        }
      } else if r == SHA_DIGEST_LENGTH {
        AllPassedFits(fs, node);
      }
    }
  }

  /** The loop over the offsets. */
  method HashBlocks(fs: FileSystem, inumber: nat, node: Inode) returns (r: int, fed: seq<byte>)
    requires Valid(node) && (InodeReadable(fs, inumber) ==> node == InodeAt(fs, inumber))
    ensures r == -1 || r == SHA_DIGEST_LENGTH
    ensures InodeReadable(fs, inumber) ==>
              && (r == SHA_DIGEST_LENGTH ==> |fed| == Size(node) && Agrees(fs, node, 0, fed))
              && (r == SHA_DIGEST_LENGTH ==> forall bno: nat :: InFile(node, bno) ==> BlockPassed(fs, node, bno))
              && ((forall bno: nat :: InFile(node, bno) ==> BlockWorks(fs, node, bno)) ==> r == SHA_DIGEST_LENGTH)
  {
    hide BlockPassed, BlockWorks;
    fed := [];
    var size := Size(node);
    var offset := 0;
    while offset < size
      invariant offset % SECTOR_SIZE == 0
      invariant InodeReadable(fs, inumber) ==> FedBefore(fs, inumber, offset / SECTOR_SIZE, fed)
      invariant InodeReadable(fs, inumber) ==> forall bno: nat :: bno < offset / SECTOR_SIZE ==> BlockPassed(fs, node, bno)
    {
      assert InFile(node, offset / SECTOR_SIZE);
      var bytesMoved, next := FeedBlock(fs, inumber, offset / SECTOR_SIZE, fed);
      if bytesMoved < 0 {
        return -1, fed;
      }
      fed, offset := next, offset + SECTOR_SIZE;
    }
    return SHA_DIGEST_LENGTH, fed;
  }

  // ----- directory entries

  datatype DirEntry = DirEntry(inumber: word, name: seq<byte>)

  function EntryOf(s: seq<byte>): DirEntry
    requires |s| == ENTRY_SIZE
  {
    DirEntry(Word(s, 0), s[2..])
  }

  const ENTRIES := SECTOR_SIZE / ENTRY_SIZE

  /** The entry is the `k`-th 16-byte record of the file: the inode number, low
      byte first, and 14 bytes of name. */
  ghost predicate IsEntry(fs: FileSystem, node: Inode, k: nat, entry: DirEntry)
    requires Valid(node)
  {
    |entry.name| == 14 && IsPart(fs, node, 16 * k, [entry.inumber % 0x100, entry.inumber / 0x100] + entry.name)
  }

  lemma EntryBytes(s: seq<byte>)
    requires |s| == ENTRY_SIZE
    ensures var entry := EntryOf(s);
            |entry.name| == 14 && [entry.inumber % 0x100, entry.inumber / 0x100] + entry.name == s
  {
  }

  lemma InOneBlock(entry: nat, k: nat)
    requires ENTRY_SIZE * entry <= k < ENTRY_SIZE * entry + ENTRY_SIZE
    ensures k / SECTOR_SIZE == entry / ENTRIES
  {
  }

  lemma EntryInPart(fs: FileSystem, node: Inode, first: nat, s: seq<byte>, i: nat)
    requires Valid(node) && Agrees(fs, node, ENTRY_SIZE * first, s) && ENTRY_SIZE * (i + 1) <= |s|
    requires BlockReadable(fs, node, (first + i) / ENTRIES)
    ensures IsEntry(fs, node, first + i, EntryOf(s[ENTRY_SIZE * i..ENTRY_SIZE * (i + 1)]))
  {
    hide BlockReadable, FileByte, EntryOf;
    PartOfPart(fs, node, ENTRY_SIZE * first, s, ENTRY_SIZE * i, ENTRY_SIZE * (i + 1));
    var record := s[ENTRY_SIZE * i..ENTRY_SIZE * (i + 1)];
    forall k: nat | ENTRY_SIZE * (first + i) <= k < ENTRY_SIZE * (first + i) + ENTRY_SIZE
      ensures BlockReadable(fs, node, k / SECTOR_SIZE)
    {
      InOneBlock(first + i, k);
    }
    EntryBytes(record);
  }

  /** The failed assertion on the size ends the program. */
  datatype Outcome = Returns(value: int) | AssertionFails

  /** The inner loop: copies the entries of one block until the caller's array is full. */
  method CopyEntries(block: seq<byte>, n: nat, entries: array<DirEntry>, count: nat, maxNumEntries: nat) returns (next: nat)
    requires ENTRY_SIZE * n <= |block| && count < maxNumEntries <= entries.Length
    modifies entries
    ensures next == Min(count + n, maxNumEntries)
    ensures forall k :: 0 <= k < entries.Length ==>
              entries[k] == if count <= k < next then EntryOf(block[ENTRY_SIZE * (k - count)..ENTRY_SIZE * (k - count + 1)]) else old(entries[k])
  {
    next := count;
    for i := 0 to n
      invariant next == count + i < maxNumEntries
      invariant forall k :: 0 <= k < entries.Length ==>
                  entries[k] == if count <= k < next then EntryOf(block[ENTRY_SIZE * (k - count)..ENTRY_SIZE * (k - count + 1)]) else old(entries[k])
    {
      entries[next] := EntryOf(block[ENTRY_SIZE * i..ENTRY_SIZE * (i + 1)]);
      next := next + 1;
      if next >= maxNumEntries {
        return;
      }
    }
  }

  /** The first entries of the file have been copied, wherever it can be read. */
  ghost predicate Listed(fs: FileSystem, node: Inode, entries: seq<DirEntry>, count: nat)
    requires Valid(node)
  {
    && count <= |entries|
    && forall k :: 0 <= k < count && BlockReadable(fs, node, k / ENTRIES) ==> IsEntry(fs, node, k, entries[k])
  }

  lemma ListedGrows(fs: FileSystem, node: Inode, before: seq<DirEntry>, after: seq<DirEntry>, count: nat, next: nat, block: seq<byte>)
    requires Valid(node) && Listed(fs, node, before, count) && count <= next <= |after| == |before|
    requires Agrees(fs, node, ENTRY_SIZE * count, block) && ENTRY_SIZE * (next - count) <= |block|
    requires forall k :: 0 <= k < count ==> after[k] == before[k]
    requires forall k :: count <= k < next ==> after[k] == EntryOf(block[ENTRY_SIZE * (k - count)..ENTRY_SIZE * (k - count + 1)])
    ensures Listed(fs, node, after, next)
  {
    hide BlockReadable, IsEntry, EntryOf, Agrees;
    forall k | count <= k < next && BlockReadable(fs, node, k / ENTRIES)
      ensures IsEntry(fs, node, k, after[k])
    {
      EntryInPart(fs, node, count, block, k - count);
    }
  }

  ghost predicate ListedBefore(fs: FileSystem, inumber: nat, bno: nat, entries: seq<DirEntry>, count: nat)
  {
    && InodeReadable(fs, inumber) && Size(InodeAt(fs, inumber)) % ENTRY_SIZE == 0
    && count == Min(SECTOR_SIZE * bno, Size(InodeAt(fs, inumber))) / ENTRY_SIZE && Listed(fs, InodeAt(fs, inumber), entries, count)
  }

  /** One block of the directory; a negative result is a read error. */
  method ListBlock(fs: FileSystem, inumber: nat, bno: nat, entries: array<DirEntry>, count: nat, maxNumEntries: nat) returns (next: int)
    requires count < maxNumEntries <= entries.Length
    modifies entries
    ensures next == -1 || count <= next <= maxNumEntries
    ensures next >= 0 ==> forall k :: next <= k < entries.Length ==> entries[k] == old(entries[k])
    ensures old(ListedBefore(fs, inumber, bno, entries[..], count)) && InFile(InodeAt(fs, inumber), bno) ==>
              && (next >= 0 ==> next == Min(Min(SECTOR_SIZE * (bno + 1), Size(InodeAt(fs, inumber))) / ENTRY_SIZE, maxNumEntries))
              && (next >= 0 ==> Listed(fs, InodeAt(fs, inumber), entries[..], next) && BlockPassed(fs, InodeAt(fs, inumber), bno))
              && (BlockWorks(fs, InodeAt(fs, inumber), bno) ==> next >= 0)
  {
    hide BlockPassed, BlockWorks, Agrees, Listed, InodeAt;
    var bytesLeft, block := FetchBlock(fs, inumber, bno);
    if bytesLeft < 0 {
      return -1;
    }
    next := CopyEntries(block, bytesLeft / ENTRY_SIZE, entries, count, maxNumEntries);
    if old(ListedBefore(fs, inumber, bno, entries[..], count)) && InFile(InodeAt(fs, inumber), bno) {
      assert ENTRY_SIZE * count == SECTOR_SIZE * bno;
      ListedGrows(fs, InodeAt(fs, inumber), old(entries[..]), entries[..], count, next, block);
    }
  }

  /** The blocks that hold the entries asked for. */
  predicate Wanted(node: Inode, maxNumEntries: int, bno: nat)
  {
    InFile(node, bno) && ENTRIES * bno < maxNumEntries
  }

  /** Returns the first entries of the directory, in order: as many as it has or
      as the array takes. Only the blocks that hold these are read; it succeeds if
      none of their sectors fails, and only if none is beyond the scheme or known
      to fail. */
  method GetDirEntries(fs: FileSystem, inumber: nat, entries: array<DirEntry>, maxNumEntries: int) returns (r: Outcome)
    requires maxNumEntries <= entries.Length
    modifies entries
    ensures !InodeExists(fs, inumber) ==> r == Returns(-1)
    ensures r.Returns? && r.value >= 0 ==> r.value <= entries.Length && entries[r.value..] == old(entries[..])[r.value..]
    ensures InodeReadable(fs, inumber) ==>
              var node := InodeAt(fs, inumber);
              if !IsAllocated(node) || !IsDirectory(node) || maxNumEntries < 1 then r == Returns(-1)
              else if Size(node) % ENTRY_SIZE != 0 then r == AssertionFails
              else
                && (r == Returns(-1) || r == Returns(Min(maxNumEntries, Size(node) / ENTRY_SIZE)))
                && (r.value >= 0 ==> Listed(fs, node, entries[..], r.value))
                && (r.value >= 0 ==> forall bno: nat :: Wanted(node, maxNumEntries, bno) ==> BlockPassed(fs, node, bno))
                && ((forall bno: nat :: Wanted(node, maxNumEntries, bno) ==> BlockWorks(fs, node, bno)) ==> r.value >= 0)
                && (FileReadable(fs, node) ==>
                      var reached := Min(Size(node), SECTOR_SIZE * Capacity(IsLarge(node))) / ENTRY_SIZE;
                      r == Returns(if maxNumEntries <= reached then maxNumEntries else if Fits(node) then Size(node) / ENTRY_SIZE else -1))
  {
    var found := InodeGet(fs, inumber);
    if found.None? {
      return Returns(-1);
    }
    var node := found.value;
    if !IsAllocated(node) || !IsDirectory(node) {
      return Returns(-1);
    }
    if maxNumEntries < 1 {
      return Returns(-1);
    }
    var size := Size(node);
    if size % ENTRY_SIZE != 0 {
      return AssertionFails;
    }
    var count := ListBlocks(fs, inumber, node, entries, maxNumEntries);
    if InodeReadable(fs, inumber) && FileReadable(fs, node) {
      ListingOfReadable(fs, node, maxNumEntries, count);
    }
    return Returns(count);
  }

  /** The loop over the blocks. */
  method ListBlocks(fs: FileSystem, inumber: nat, node: Inode, entries: array<DirEntry>, maxNumEntries: nat) returns (r: int)
    requires Valid(node) && (InodeReadable(fs, inumber) ==> node == InodeAt(fs, inumber))
    requires 1 <= maxNumEntries <= entries.Length && Size(node) % ENTRY_SIZE == 0
    modifies entries
    ensures r == -1 || 0 <= r <= maxNumEntries
    ensures r >= 0 ==> entries[r..] == old(entries[..])[r..]
    ensures InodeReadable(fs, inumber) ==>
              && (r == -1 || r == Min(maxNumEntries, Size(node) / ENTRY_SIZE))
              && (r >= 0 ==> Listed(fs, node, entries[..], r))
              && (r >= 0 ==> forall bno: nat :: Wanted(node, maxNumEntries, bno) ==> BlockPassed(fs, node, bno))
              && ((forall bno: nat :: Wanted(node, maxNumEntries, bno) ==> BlockWorks(fs, node, bno)) ==> r >= 0)
  {
    hide BlockPassed, BlockWorks, Listed, InodeAt, Wanted;
    NothingListed(fs, node, entries[..]);
    var size := Size(node);
    r := 0;
    var numBlocks := (size + SECTOR_SIZE - 1) / SECTOR_SIZE;
    for bno := 0 to numBlocks
      invariant 0 <= r < maxNumEntries
      invariant forall k :: r <= k < entries.Length ==> entries[k] == old(entries[k])
      invariant InodeReadable(fs, inumber) ==> ListedBefore(fs, inumber, bno, entries[..], r)
      invariant InodeReadable(fs, inumber) ==> forall b: nat :: b < bno ==> BlockPassed(fs, node, b)
    {
      assert InFile(node, bno);
      WantedBlocks(node, maxNumEntries, bno);
      r := ListBlock(fs, inumber, bno, entries, r, maxNumEntries);
      if r < 0 || r >= maxNumEntries {
        return;
      }
    }
    WantedBlocks(node, maxNumEntries, numBlocks);
  }

  lemma EntriesBefore(size: nat, max: nat, bno: nat)
    requires 512 * bno < size && Min(512 * bno, size) / 16 < max
    ensures 32 * bno < max
  {
  }

  lemma EntriesThrough(size: nat, max: nat, bno: nat, b: nat)
    requires 512 * b < size && 32 * b < max && Min(512 * (bno + 1), size) / 16 >= max
    ensures b <= bno
  {
    assert Min(512 * (bno + 1), size) / 16 <= 32 * (bno + 1);
  }

  /** The wanted blocks come first: before the end of the file, and before the
      block whose entries fill the array. */
  lemma WantedBlocks(node: Inode, maxNumEntries: nat, bno: nat)
    ensures InFile(node, bno) && Min(SECTOR_SIZE * bno, Size(node)) / ENTRY_SIZE < maxNumEntries ==> Wanted(node, maxNumEntries, bno)
    ensures Min(SECTOR_SIZE * (bno + 1), Size(node)) / ENTRY_SIZE >= maxNumEntries ==>
              forall b: nat :: Wanted(node, maxNumEntries, b) ==> b <= bno
    ensures !InFile(node, bno) ==> forall b: nat :: Wanted(node, maxNumEntries, b) ==> b < bno
  {
    var size := Size(node);
    hide Size, Min;
    if InFile(node, bno) && Min(512 * bno, size) / 16 < maxNumEntries {
      EntriesBefore(size, maxNumEntries, bno);
    }
    forall b: nat | Wanted(node, maxNumEntries, b)
      ensures Min(512 * (bno + 1), size) / 16 >= maxNumEntries ==> b <= bno
      ensures !InFile(node, bno) ==> b < bno
    {
      if Min(512 * (bno + 1), size) / 16 >= maxNumEntries {
        EntriesThrough(size, maxNumEntries, bno, b);
      }
    }
  }

  lemma NothingListed(fs: FileSystem, node: Inode, entries: seq<DirEntry>)
    requires Valid(node)
    ensures Listed(fs, node, entries, 0)
  {
  }

  /** With every reachable block readable, the outcome is fixed: a directory too
      large for its scheme is an error only when the array would take more than the
      scheme reaches. */
  lemma ListingOfReadable(fs: FileSystem, node: Inode, maxNumEntries: int, r: int)
    requires Valid(node) && FileReadable(fs, node) && maxNumEntries >= 1 && Size(node) % ENTRY_SIZE == 0
    requires r == -1 || r == Min(maxNumEntries, Size(node) / ENTRY_SIZE)
    requires r >= 0 ==> forall bno: nat :: Wanted(node, maxNumEntries, bno) ==> BlockPassed(fs, node, bno)
    requires (forall bno: nat :: Wanted(node, maxNumEntries, bno) ==> BlockWorks(fs, node, bno)) ==> r >= 0
    ensures var reached := Min(Size(node), SECTOR_SIZE * Capacity(IsLarge(node))) / ENTRY_SIZE;
            r == if maxNumEntries <= reached then maxNumEntries else if Fits(node) then Size(node) / ENTRY_SIZE else -1
  {
    var capacity := Capacity(IsLarge(node));
    if Fits(node) || maxNumEntries <= ENTRIES * capacity {
      forall bno: nat | Wanted(node, maxNumEntries, bno)
        ensures BlockWorks(fs, node, bno)
      {
        assert InFile(node, bno) && bno < capacity;
        assert BlockReadable(fs, node, bno);
      }
    } else {
      assert Wanted(node, maxNumEntries, capacity);
    }
  }
}
