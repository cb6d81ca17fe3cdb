/** On-disk records: superblock, inode slots and the layout that `format` computes. */
module Layout {
  import opened Arith
  import opened Codec
  import opened Areas
  import opened Results

  const SUPER_BLOCK_PTR := 1024
  const FIRST_INODE_PTR := 2048
  const INODE_SIZE := 256
  const ROOT_INODE := 114_514
  const MAGIC_NUMBER := 0x1BAD_FACE_DEAD_C0DE

  datatype SuperBlock = SuperBlock(
    blockSize: nat, inodeCount: nat, usedInodes: nat, dbCount: nat, usedDbs: nat, inodeHead: nat, dbHead: nat)

  const SUPER_BLOCK_BYTES := 64

  function SuperBlockBytes(sb: SuperBlock): (s: seq<Byte>)
    ensures |s| == SUPER_BLOCK_BYTES
  {
    FromWords([MAGIC_NUMBER, sb.blockSize, sb.inodeCount, sb.usedInodes,
               sb.dbCount, sb.usedDbs, sb.inodeHead, sb.dbHead])
  }

  /** `SuperBlock::from_bytes` with its validation: eight words, of which the first must be the magic number. */
  function SuperBlockIn(s: seq<Byte>): DkResult<SuperBlock> {
    if |s| < SUPER_BLOCK_BYTES then Err(Io)
    else
      var ws := Words(s[..SUPER_BLOCK_BYTES]);
      if ws[0] != MAGIC_NUMBER then Err(Corrupted)
      else Ok(SuperBlock(ws[1], ws[2], ws[3], ws[4], ws[5], ws[6], ws[7]))
  }

  /** Every field is a 64-bit number. */
  predicate SuperFits(sb: SuperBlock) {
    && sb.blockSize < WORD_LIMIT && sb.inodeCount < WORD_LIMIT && sb.usedInodes < WORD_LIMIT
    && sb.dbCount < WORD_LIMIT && sb.usedDbs < WORD_LIMIT && sb.inodeHead < WORD_LIMIT && sb.dbHead < WORD_LIMIT
  }

  /** The superblock that was written is read back, whatever follows it on the device. */
  lemma SuperRoundTrip(sb: SuperBlock, tail: seq<Byte>)
    requires SuperFits(sb)
    ensures SuperBlockIn(SuperBlockBytes(sb) + tail) == Ok(sb)
  {
    hide FromWords, Words;
    var ws := [MAGIC_NUMBER, sb.blockSize, sb.inodeCount, sb.usedInodes,
               sb.dbCount, sb.usedDbs, sb.inodeHead, sb.dbHead];
    PtrBlockRoundTrip(ws);
    assert (SuperBlockBytes(sb) + tail)[..SUPER_BLOCK_BYTES] == FromWords(ws);
  }

  /** Where the fields of the source's struct are in the 64 bytes. */
  lemma SuperOffsets(sb: SuperBlock)
    requires SuperFits(sb)
    ensures var s := SuperBlockBytes(sb);
      && |s| == 64 && Decode(s[0..8]) == 0x1BAD_FACE_DEAD_C0DE
      && Decode(s[8..16]) == sb.blockSize && Decode(s[16..24]) == sb.inodeCount && Decode(s[24..32]) == sb.usedInodes
      && Decode(s[32..40]) == sb.dbCount && Decode(s[40..48]) == sb.usedDbs
      && Decode(s[48..56]) == sb.inodeHead && Decode(s[56..64]) == sb.dbHead
  {
    hide FromWords, Encode, Decode, Pow;
    var ws := [MAGIC_NUMBER, sb.blockSize, sb.inodeCount, sb.usedInodes,
               sb.dbCount, sb.usedDbs, sb.inodeHead, sb.dbHead];
    WordAt(ws, 0, 0);
    WordAt(ws, 1, 8);
    WordAt(ws, 2, 16);
    WordAt(ws, 3, 24);
    WordAt(ws, 4, 32);
    WordAt(ws, 5, 40);
    WordAt(ws, 6, 48);
    WordAt(ws, 7, 56);
  }

  /** Only the magic number opens a device, and nothing else is checked. */
  lemma OtherMagic(s: seq<Byte>)
    ensures |s| < 64 ==> SuperBlockIn(s) == Err(Io)
    ensures |s| >= 64 && Decode(s[..8]) != 0x1BAD_FACE_DEAD_C0DE ==> SuperBlockIn(s) == Err(Corrupted)
    ensures |s| >= 64 && Decode(s[..8]) == 0x1BAD_FACE_DEAD_C0DE ==> SuperBlockIn(s).Ok?
  {
    hide Decode;
    if |s| >= 64 {
      assert s[..SUPER_BLOCK_BYTES][WORD * 0..WORD * 0 + WORD] == s[..8];
    }
  }

  // ----- Inodes -----

  /** `ptrs` holds the 12 direct pointers and the roots of the four indirect trees. */
  datatype Inode = Inode(
    ino: nat, mode: nat, owner: seq<nat>, nlink: nat, times: seq<nat>,
    size: nat, blocks: nat, device: nat, xattrPtr: nat, ptrs: seq<seq<nat>>)

  /** The shape of the fixed-size arrays in the source's struct. */
  predicate PtrsShaped(ptrs: seq<seq<nat>>) {
    |ptrs| == 5 && |ptrs[0]| == 12 && |ptrs[1]| == |ptrs[2]| == |ptrs[3]| == |ptrs[4]| == 1
  }

  const INODE_BYTES := 234

  predicate InodeShaped(i: Inode) {
    |i.owner| == 2 && |i.times| == 8 && PtrsShaped(i.ptrs)
  }

  function Eights(n: nat): (w: seq<nat>)
    ensures |w| == n && Width(w) == WORD * n
  {
    if n == 0 then [] else [WORD] + Eights(n - 1)
  }

  /** Number, mode and owner, link count, four timestamps, size to xattr pointer, block pointers. */
  function InodeWidths(): (w: seq<nat>)
    ensures |w| == 33 && Width(w) == INODE_BYTES
  {
    AttrWidth();
    StampWidth();
    WidthConcat(AttrWidths(), StampWidths());
    WidthConcat(AttrWidths() + StampWidths(), Eights(20));
    AttrWidths() + StampWidths() + Eights(20)
  }

  function AttrWidths(): seq<nat> {
    [WORD, 2, 4, 4, WORD]
  }

  function StampWidths(): seq<nat> {
    [WORD, 4] + [WORD, 4] + [WORD, 4] + [WORD, 4]
  }

  lemma AttrWidth()
    ensures Width(AttrWidths()) == 26
  {
    WidthConcat([WORD, 2], [4, 4, WORD]);
    WidthConcat([4], [4, WORD]);
    assert AttrWidths() == [WORD, 2] + [4, 4, WORD] && [4, 4, WORD] == [4] + [4, WORD];
  }

  lemma StampWidth()
    ensures Width(StampWidths()) == 48
  {
    var stamp := [WORD, 4];
    WidthConcat(stamp + stamp + stamp, stamp);
    WidthConcat(stamp + stamp, stamp);
    WidthConcat(stamp, stamp);
    assert stamp[1..] == [4];
  }

  lemma {:induction false} WidthConcat(v: seq<nat>, w: seq<nat>)
    ensures Width(v + w) == Width(v) + Width(w)
  {
    if v == [] {
      assert v + w == w;
    } else {
      WidthConcat(v[1..], w);
      assert (v + w)[1..] == v[1..] + w;
    }
  }

  function Fields(i: Inode): (fs: seq<nat>)
    requires InodeShaped(i)
    ensures |fs| == 33
  {
    [i.ino, i.mode] + i.owner + [i.nlink] + i.times + [i.size, i.blocks, i.device, i.xattrPtr]
    + i.ptrs[0] + i.ptrs[1] + i.ptrs[2] + i.ptrs[3] + i.ptrs[4]
  }

  function FromFields(fs: seq<nat>): (i: Inode)
    requires |fs| == 33
    ensures InodeShaped(i)
  {
    Inode(fs[0], fs[1], fs[2..4], fs[4], fs[5..13], fs[13], fs[14], fs[15], fs[16],
          [fs[17..29], fs[29..30], fs[30..31], fs[31..32], fs[32..33]])
  }

  /** Every field fits its machine type. */
  predicate InodeFits(i: Inode) {
    InodeShaped(i) && Fits(InodeWidths(), Fields(i))
  }

  lemma {:induction false} EightsAre(n: nat, k: nat)
    requires k < n
    ensures Eights(n)[k] == WORD
  {
    if k > 0 {
      EightsAre(n - 1, k - 1);
    }
  }

  lemma WordFields(k: nat)
    requires k == 13 || k == 14 || 16 <= k < 33
    ensures InodeWidths()[k] == WORD
  {
    EightsAre(20, k - 13);
  }

  lemma FitsSize(i: Inode)
    requires InodeFits(i)
    ensures i.size < WORD_LIMIT
  {
    hide Eights, InodeWidths;
    WordRange();
    WordFields(13);
    assert Fields(i)[13] == i.size;
  }

  /** Size, counter and pointers that fit 64 bits do not stop an inode from fitting. */
  lemma StillFits(i: Inode, j: Inode)
    requires InodeFits(i) && InodeShaped(j)
    requires j == i.(size := j.size, blocks := j.blocks, xattrPtr := j.xattrPtr, ptrs := j.ptrs)
    requires j.size < WORD_LIMIT && j.blocks < WORD_LIMIT && j.xattrPtr < WORD_LIMIT
    requires forall t, k :: 0 <= t < 5 && 0 <= k < |j.ptrs[t]| ==> j.ptrs[t][k] < WORD_LIMIT
    ensures InodeFits(j)
  {
    hide Eights, InodeWidths, Fields, Pow;
    WordRange();
    forall k | 0 <= k < 33
      ensures Fields(j)[k] < Pow(256, InodeWidths()[k])
    {
      FieldKept(i, j, k);
      if k == 13 || k == 14 || 16 <= k {
        WordFields(k);
      }
    }
  }

  lemma FieldKept(i: Inode, j: Inode, k: nat)
    requires InodeShaped(i) && InodeShaped(j) && k < 33
    requires j == i.(size := j.size, blocks := j.blocks, xattrPtr := j.xattrPtr, ptrs := j.ptrs)
    requires j.size < WORD_LIMIT && j.blocks < WORD_LIMIT && j.xattrPtr < WORD_LIMIT
    requires forall t, k :: 0 <= t < 5 && 0 <= k < |j.ptrs[t]| ==> j.ptrs[t][k] < WORD_LIMIT
    ensures if k == 13 || k == 14 || 16 <= k then Fields(j)[k] < WORD_LIMIT else Fields(j)[k] == Fields(i)[k]
  {
  }

  /** What `mknod` is given fits the machine types of the source's struct. */
  predicate NodeFits(mode: nat, owner: seq<nat>, nlink: nat, times: seq<nat>, device: nat) {
    && mode < 0x1_0000 && nlink < WORD_LIMIT && device < WORD_LIMIT
    && |owner| == 2 && owner[0] < 0x1_0000_0000 && owner[1] < 0x1_0000_0000
    && |times| == 8 && times[0] < WORD_LIMIT && times[2] < WORD_LIMIT && times[4] < WORD_LIMIT && times[6] < WORD_LIMIT
    && times[1] < 0x1_0000_0000 && times[3] < 0x1_0000_0000 && times[5] < 0x1_0000_0000 && times[7] < 0x1_0000_0000
  }

  /** Such an inode, with a 64-bit number and nothing else set, can be stored. */
  lemma NodeStored(i: Inode)
    requires NodeFits(i.mode, i.owner, i.nlink, i.times, i.device) && i.ino < WORD_LIMIT && PtrsShaped(i.ptrs)
    requires i.size == 0 && i.blocks == 0 && i.xattrPtr == 0
    requires forall t, k :: 0 <= t < 5 && 0 <= k < |i.ptrs[t]| ==> i.ptrs[t][k] == 0
    ensures InodeFits(i)
  {
    hide InodeWidths, Pow, Fields, Place;
    WordRange();
    SmallRanges();
    forall k | 0 <= k < 33
      ensures Fields(i)[k] < Pow(256, InodeWidths()[k])
    {
      WidthOf(k);
      if k < 13 {
        EarlyField(i, k);
      } else {
        LateField(i, k);
      }
    }
  }

  lemma EarlyField(i: Inode, k: nat)
    requires NodeFits(i.mode, i.owner, i.nlink, i.times, i.device) && i.ino < WORD_LIMIT && InodeShaped(i) && k < 13
    ensures match Place(k + 1) - Place(k)
      case 2 => Fields(i)[k] < 0x1_0000
      case 4 => Fields(i)[k] < 0x1_0000_0000
      case w => w == WORD && Fields(i)[k] < WORD_LIMIT
  {
  }

  lemma LateField(i: Inode, k: nat)
    requires InodeShaped(i) && 13 <= k < 33 && i.size == 0 && i.blocks == 0 && i.device < WORD_LIMIT && i.xattrPtr == 0
    requires forall t, k :: 0 <= t < 5 && 0 <= k < |i.ptrs[t]| ==> i.ptrs[t][k] == 0
    ensures Fields(i)[k] < WORD_LIMIT && Place(k + 1) - Place(k) == WORD
  {
  }

  function InodeBytes(i: Inode): (s: seq<Byte>)
    requires InodeShaped(i)
    ensures |s| == INODE_BYTES < INODE_SIZE
  {
    EncodeRecord(InodeWidths(), Fields(i))
  }

  function InodeIn(slot: seq<Byte>): (i: Inode)
    requires |slot| >= INODE_BYTES
    ensures InodeShaped(i)
  {
    FromFields(DecodeRecord(InodeWidths(), slot))
  }

  lemma FieldsInverse(i: Inode)
    requires InodeShaped(i)
    ensures FromFields(Fields(i)) == i
  {
    var fs := Fields(i);
    assert fs[2..4] == i.owner;
    assert fs[5..13] == i.times;
    assert fs[17..29] == i.ptrs[0];
    assert fs[29..30] == i.ptrs[1];
    assert fs[30..31] == i.ptrs[2];
    assert fs[31..32] == i.ptrs[3];
    assert fs[32..33] == i.ptrs[4];
    assert i.ptrs == [i.ptrs[0], i.ptrs[1], i.ptrs[2], i.ptrs[3], i.ptrs[4]];
  }

  /** An inode written over the front of any slot is read back unchanged. */
  lemma InodeRoundTrip(i: Inode, slot: seq<Byte>)
    requires InodeFits(i) && |slot| == INODE_SIZE
    ensures InodeIn(Splice(slot, 0, InodeBytes(i))) == i
  {
    SlotRecord(InodeWidths(), Fields(i), slot);
    FieldsInverse(i);
  }

  lemma SlotRecord(widths: seq<nat>, fields: seq<nat>, slot: seq<Byte>)
    requires Fits(widths, fields) && Width(widths) <= |slot|
    ensures DecodeRecord(widths, Splice(slot, 0, EncodeRecord(widths, fields))) == fields
  {
    var s := EncodeRecord(widths, fields);
    assert Splice(slot, 0, s) == s + slot[|s|..];
    RecordRoundTrip(widths, fields, slot[|s|..]);
  }

  /** Where the fields of the record begin. */
  function Place(k: nat): nat {
    if k < 2 then 8 * k
    else if k < 5 then 10 + 4 * (k - 2)
    else if k < 13 then 26 + 12 * ((k - 5) / 2) + 8 * ((k - 5) % 2)
    else 74 + 8 * (k - 13)
  }

  lemma {:induction false} Places(k: nat)
    requires k <= 33
    ensures Width(InodeWidths()[..k]) == Place(k)
  {
    hide InodeWidths;
    if k > 0 {
      Places(k - 1);
      WidthNext(InodeWidths(), k - 1);
      WidthOf(k - 1);
    }
  }

  lemma WidthOf(k: nat)
    requires k < 33
    ensures Place(k) + InodeWidths()[k] == Place(k + 1)
  {
    hide Eights;
    var front := [WORD, 2, 4, 4, WORD, WORD, 4, WORD, 4, WORD, 4, WORD, 4];
    assert StampWidths() == [WORD, 4, WORD, 4, WORD, 4, WORD, 4];
    assert AttrWidths() + StampWidths() == front;
    assert InodeWidths() == front + Eights(20);
    if k >= 13 {
      EightsAre(20, k - 13);
    }
  }

  /** `s` is a record whose fields begin at their places. */
  ghost predicate LaidOut(widths: seq<nat>, fields: seq<nat>, s: seq<Byte>) {
    && Fits(widths, fields) && |fields| == 33 && s == EncodeRecord(widths, fields)
    && forall k: nat :: k <= 33 ==> Width(widths[..k]) == Place(k)
  }

  lemma InodeLaidOut(i: Inode)
    requires InodeFits(i)
    ensures InodeShaped(i) && LaidOut(InodeWidths(), Fields(i), InodeBytes(i))
  {
    hide InodeWidths, Place, Fields, Fits;
    forall k: nat | k <= 33
      ensures Width(InodeWidths()[..k]) == Place(k)
    {
      Places(k);
    }
  }

  lemma FieldSlice(widths: seq<nat>, fields: seq<nat>, s: seq<Byte>, k: nat, p: nat, w: nat)
    requires LaidOut(widths, fields, s) && k < 33 && p == Place(k) && p + w == Place(k + 1)
    ensures p + w <= |s| && Decode(s[p..p + w]) == fields[k]
  {
    hide Decode, Place;
    WidthNext(widths, k);
    FieldAt(widths, fields, k, p);
  }

  lemma FieldOrder(i: Inode)
    requires InodeShaped(i)
    ensures var fs := Fields(i);
      && fs[0] == i.ino && fs[1] == i.mode && fs[2..4] == i.owner && fs[4] == i.nlink && fs[5..13] == i.times
      && fs[13] == i.size && fs[14] == i.blocks && fs[15] == i.device && fs[16] == i.xattrPtr
      && fs[17..29] == i.ptrs[0] && fs[29] == i.ptrs[1][0] && fs[30] == i.ptrs[2][0] && fs[31] == i.ptrs[3][0]
      && fs[32] == i.ptrs[4][0]
  {
  }

  /** Where the fields of the source's struct are in the 234 bytes of an inode. */
  lemma InodeOffsets(i: Inode)
    requires InodeFits(i)
    ensures var s := InodeBytes(i);
      && |s| == 234 && Decode(s[0..8]) == i.ino && Decode(s[8..10]) == i.mode
      && Decode(s[10..14]) == i.owner[0] && Decode(s[14..18]) == i.owner[1] && Decode(s[18..26]) == i.nlink
      && Decode(s[26..34]) == i.times[0] && Decode(s[34..38]) == i.times[1]
      && Decode(s[38..46]) == i.times[2] && Decode(s[46..50]) == i.times[3]
      && Decode(s[50..58]) == i.times[4] && Decode(s[58..62]) == i.times[5]
      && Decode(s[62..70]) == i.times[6] && Decode(s[70..74]) == i.times[7]
      && Decode(s[74..82]) == i.size && Decode(s[82..90]) == i.blocks
      && Decode(s[90..98]) == i.device && Decode(s[98..106]) == i.xattrPtr
  {
    hide Decode, InodeWidths, LaidOut, InodeBytes, InodeFits, Fields;
    InodeLaidOut(i);
    FieldOrder(i);
    var widths, fields, s := InodeWidths(), Fields(i), InodeBytes(i);
    FieldSlice(widths, fields, s, 0, 0, 8);
    FieldSlice(widths, fields, s, 1, 8, 2);
    FieldSlice(widths, fields, s, 2, 10, 4);
    FieldSlice(widths, fields, s, 3, 14, 4);
    FieldSlice(widths, fields, s, 4, 18, 8);
    FieldSlice(widths, fields, s, 5, 26, 8);
    FieldSlice(widths, fields, s, 6, 34, 4);
    FieldSlice(widths, fields, s, 7, 38, 8);
    FieldSlice(widths, fields, s, 8, 46, 4);
    FieldSlice(widths, fields, s, 9, 50, 8);
    FieldSlice(widths, fields, s, 10, 58, 4);
    FieldSlice(widths, fields, s, 11, 62, 8);
    FieldSlice(widths, fields, s, 12, 70, 4);
    FieldSlice(widths, fields, s, 13, 74, 8);
    FieldSlice(widths, fields, s, 14, 82, 8);
    FieldSlice(widths, fields, s, 15, 90, 8);
    FieldSlice(widths, fields, s, 16, 98, 8);
  }

  /** Where the block pointers are. */
  lemma PtrOffsets(i: Inode)
    requires InodeFits(i)
    ensures var s := InodeBytes(i);
      && (forall k: nat {:trigger i.ptrs[0][k]} :: k < 12 ==> Decode(s[106 + 8 * k..114 + 8 * k]) == i.ptrs[0][k])
      && Decode(s[202..210]) == i.ptrs[1][0] && Decode(s[210..218]) == i.ptrs[2][0]
      && Decode(s[218..226]) == i.ptrs[3][0] && Decode(s[226..234]) == i.ptrs[4][0]
  {
    hide Decode, InodeWidths, LaidOut, InodeBytes, InodeFits, Fields;
    InodeLaidOut(i);
    FieldOrder(i);
    var widths, fields, s := InodeWidths(), Fields(i), InodeBytes(i);
    forall k: nat | k < 12
      ensures Decode(s[106 + 8 * k..114 + 8 * k]) == i.ptrs[0][k]
    {
      FieldSlice(widths, fields, s, 17 + k, 106 + 8 * k, 8);
    }
    FieldSlice(widths, fields, s, 29, 202, 8);
    FieldSlice(widths, fields, s, 30, 210, 8);
    FieldSlice(widths, fields, s, 31, 218, 8);
    FieldSlice(widths, fields, s, 32, 226, 8);
  }

  function InodePtr(ino: nat): nat
    requires ino >= ROOT_INODE
  {
    (ino - ROOT_INODE) * INODE_SIZE + FIRST_INODE_PTR
  }

  function InodeNumber(ptr: nat): nat
    requires ptr >= FIRST_INODE_PTR
  {
    (ptr - FIRST_INODE_PTR) / INODE_SIZE + ROOT_INODE
  }

  /** Numbers and slot pointers are inverse, and distinct numbers have disjoint slots. */
  lemma InodeNumbers(ino: nat, other: nat, slot: nat)
    requires ino >= ROOT_INODE && other >= ROOT_INODE
    ensures InodeNumber(InodePtr(ino)) == ino
    ensures InodePtr(InodeNumber(FIRST_INODE_PTR + slot * INODE_SIZE)) == FIRST_INODE_PTR + slot * INODE_SIZE
    ensures ino < other ==> InodePtr(ino) + INODE_SIZE <= InodePtr(other)
  {
  }

  // ----- format -----

  function InodeTable(inodeCount: nat): Area {
    Area(FIRST_INODE_PTR, INODE_SIZE, inodeCount)
  }

  function UsedBlocks(blockSize: nat, inodeCount: nat): nat
    requires blockSize > 0
  {
    (FIRST_INODE_PTR + INODE_SIZE * inodeCount + blockSize - 1) / blockSize
  }

  function DataArea(blockSize: nat, inodeCount: nat, blockCount: nat): Area
    requires blockSize > 0 && UsedBlocks(blockSize, inodeCount) <= blockCount
  {
    var used := UsedBlocks(blockSize, inodeCount);
    Area(used * blockSize, blockSize, blockCount - used)
  }

  predicate BlockSizeOk(blockSize: nat) {
    blockSize >= FREE_LIST_SIZE && blockSize % WORD == 0
  }

  /**
   Superblock, inode table and data area follow one another without overlap and end with the device; the data area
   begins at the first block boundary behind the table.
   */
  lemma LayoutFits(blockSize: nat, inodeCount: nat, blockCount: nat)
    requires BlockSizeOk(blockSize) && UsedBlocks(blockSize, inodeCount) <= blockCount
    requires blockSize * blockCount < WORD_LIMIT
    ensures var it, db := InodeTable(inodeCount), DataArea(blockSize, inodeCount, blockCount);
      && SUPER_BLOCK_PTR + SUPER_BLOCK_BYTES <= it.base
      && End(it) <= db.base < End(it) + blockSize
      && End(db) == blockSize * blockCount
      && AreaOk(it, blockSize * blockCount) && AreaOk(db, blockSize * blockCount)
  {
    hide UsedBlocks;
    var used := UsedBlocks(blockSize, inodeCount);
    UsedEnough(blockSize, inodeCount);
    TimesIsMul(inodeCount, INODE_SIZE);
    TimesIsMul(blockCount - used, blockSize);
    Distribute(used, blockCount - used, blockSize);
  }

  lemma UsedEnough(blockSize: nat, inodeCount: nat)
    requires blockSize > 0
    ensures var table := FIRST_INODE_PTR + INODE_SIZE * inodeCount;
      table <= UsedBlocks(blockSize, inodeCount) * blockSize < table + blockSize
  {
    DivMod(FIRST_INODE_PTR + INODE_SIZE * inodeCount + blockSize - 1, blockSize);
  }

  lemma Distribute(x: nat, y: nat, m: nat)
    ensures x * m + y * m == m * (x + y)
  {
  }
}
