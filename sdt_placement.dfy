/** Where each part of a finished SDT file sits: the header, valid and
    checksummed, at the start; the identification and setup texts at the
    offsets the header gives; descriptor j at measDescBlockOffs plus j
    descriptors; and data block j at dataBlockOffs plus j blocks, its
    header's next_block_offs holding the start of block j + 1, or 0 in the
    last block, and its samples behind the header. */
module SdtPlacement {
  import opened SdtFormat
  import opened SdtImage
  import opened SdtLayout

  // ---------------------------------------------------------------------
  // Sequences of cells

  /** If t, which is a + x, begins s, then x sits in s from i, the
      length of a, to e. */
  lemma PieceOf(s: seq<Cell>, t: seq<Cell>, a: seq<Cell>, x: seq<Cell>, i: nat, e: nat)
    requires t == a + x && t <= s && i == |a| && e == |a| + |x|
    ensures i <= e <= |s| && s[i..e] == x
  {
    assert s[i..e] == s[..|t|][|a|..];
  }

  /** The three leading parts of (((a + b) + c) + m) + r, which start at
      0, i1 and i2. */
  lemma LeadingParts(s: seq<Cell>, a: seq<Cell>, b: seq<Cell>, c: seq<Cell>, m: seq<Cell>, r: seq<Cell>,
                     i1: nat, i2: nat, i3: nat)
    requires s == (((a + b) + c) + m) + r && i1 == |a| && i2 == i1 + |b| && i3 == i2 + |c|
    ensures |s| == i3 + |m| + |r|
    ensures s[..i1] == a && s[i1..i2] == b && s[i2..i3] == c
  {
    PieceOf(s, a, [], a, 0, i1);
    PieceOf(s, a + b, a, b, i1, i2);
    PieceOf(s, a + b + c, a + b, c, i2, i3);
  }

  lemma Trans(a: seq<Cell>, b: seq<Cell>, c: seq<Cell>)
    requires a == b && b == c
    ensures a == c
  {
  }

  lemma Regroup(a: seq<Cell>, b: seq<Cell>, c: seq<Cell>, m: seq<Cell>, r: seq<Cell>)
    ensures a + ((b + c) + (m + r)) == (((a + b) + c) + m) + r
  {
  }

  // ---------------------------------------------------------------------
  // One step of each recursive definition

  lemma MeasDescsStep(k: Constants, d: FileData, channels: seq<ChannelData>, j: nat)
    requires j < |channels|
    ensures MeasDescs(k, d, channels, j + 1)
            == MeasDescs(k, d, channels, j) + MeasureInfoCells(k, MeasurementDesc(k, d, channels[j]))
  {
  }

  lemma LinkedBlocksStep(k: Constants, d: FileData, channels: seq<ChannelData>, base: nat, i: nat, j: nat)
    requires ValidConstants(k) && ChannelsFit(d, channels) && j == i + 1 <= |channels|
    ensures LinkedBlocks(k, d, channels, base, j)
            == LinkedBlocks(k, d, channels, base, i) + LinkedBlock(k, d, channels, base, i)
  {
  }

  lemma BlocksStep(k: Constants, d: FileData, channels: seq<ChannelData>, base: nat, i: nat, j: nat)
    requires ValidConstants(k) && ChannelsFit(d, channels) && j == i + 1 <= |channels|
    ensures Blocks(k, d, channels, base, j)
            == LinkedBlocks(k, d, channels, base, i) + RawBlock(k, d, channels, base, i)
  {
  }

  // ---------------------------------------------------------------------
  // Block and descriptor positions

  /** The linked blocks i to n - 1. */
  function LinkedBlocksFrom(k: Constants, d: FileData, channels: seq<ChannelData>, base: nat, i: nat, n: nat): seq<Cell>
    requires ValidConstants(k) && ChannelsFit(d, channels) && i <= n <= |channels|
    decreases n
  {
    if n == i then [] else LinkedBlocksFrom(k, d, channels, base, i, n - 1) + LinkedBlock(k, d, channels, base, n - 1)
  }

  lemma LinkedBlocksFromStep(k: Constants, d: FileData, channels: seq<ChannelData>, base: nat, i: nat, m: nat, n: nat)
    requires ValidConstants(k) && ChannelsFit(d, channels) && i <= m && n == m + 1 <= |channels|
    ensures LinkedBlocksFrom(k, d, channels, base, i, n)
            == LinkedBlocksFrom(k, d, channels, base, i, m) + LinkedBlock(k, d, channels, base, m)
  {
  }

  lemma LinkedBlocksFromNone(k: Constants, d: FileData, channels: seq<ChannelData>, base: nat, i: nat)
    requires ValidConstants(k) && ChannelsFit(d, channels) && i <= |channels|
    ensures LinkedBlocksFrom(k, d, channels, base, i, i) == []
  {
  }

  /** ln, which is lm + x, is li + fn when lm is li + fm and fn is fm + x. */
  lemma SplitStep(ln: seq<Cell>, lm: seq<Cell>, li: seq<Cell>, fm: seq<Cell>, fn: seq<Cell>, x: seq<Cell>)
    requires ln == lm + x && lm == li + fm && fn == fm + x
    ensures ln == li + fn
  {
  }

  lemma SplitNone(ln: seq<Cell>, li: seq<Cell>, fn: seq<Cell>)
    requires ln == li && fn == []
    ensures ln == li + fn
  {
  }

  /** The first n linked blocks are the first i and then the rest. */
  lemma {:induction false} LinkedBlocksSplit(k: Constants, d: FileData, channels: seq<ChannelData>, base: nat, i: nat, n: nat)
    requires ValidConstants(k) && ChannelsFit(d, channels) && i <= n <= |channels|
    ensures LinkedBlocks(k, d, channels, base, n)
            == LinkedBlocks(k, d, channels, base, i) + LinkedBlocksFrom(k, d, channels, base, i, n)
    decreases n
  {
    if i < n {
      var m := n - 1;
      LinkedBlocksSplit(k, d, channels, base, i, m);
      LinkedBlocksSplitStep(k, d, channels, base, i, m, n);
    } else {
      LinkedBlocksFromNone(k, d, channels, base, i);
      SplitNone(LinkedBlocks(k, d, channels, base, n), LinkedBlocks(k, d, channels, base, i),
                LinkedBlocksFrom(k, d, channels, base, i, n));
    }
  }

  /** One step of LinkedBlocksSplit, from m to n = m + 1. */
  lemma LinkedBlocksSplitStep(k: Constants, d: FileData, channels: seq<ChannelData>, base: nat, i: nat, m: nat, n: nat)
    requires ValidConstants(k) && ChannelsFit(d, channels) && i <= m && n == m + 1 <= |channels|
    requires LinkedBlocks(k, d, channels, base, m)
             == LinkedBlocks(k, d, channels, base, i) + LinkedBlocksFrom(k, d, channels, base, i, m)
    ensures LinkedBlocks(k, d, channels, base, n)
            == LinkedBlocks(k, d, channels, base, i) + LinkedBlocksFrom(k, d, channels, base, i, n)
  {
    LinkedBlocksStep(k, d, channels, base, m, n);
    LinkedBlocksFromStep(k, d, channels, base, i, m, n);
    SplitStep(LinkedBlocks(k, d, channels, base, n), LinkedBlocks(k, d, channels, base, m),
              LinkedBlocks(k, d, channels, base, i), LinkedBlocksFrom(k, d, channels, base, i, m),
              LinkedBlocksFrom(k, d, channels, base, i, n), LinkedBlock(k, d, channels, base, m));
  }

  /** x sits in ((a + x) + f) + r from i, the length of a, to e. */
  lemma PieceFirst(s: seq<Cell>, a: seq<Cell>, x: seq<Cell>, f: seq<Cell>, r: seq<Cell>, i: nat, e: nat)
    requires s == ((a + x) + f) + r && i == |a| && e == i + |x|
    ensures e <= |s| && s[i..e] == x
  {
    assert s == a + (x + (f + r));
  }

  /** r sits in l + r from i, the length of l, to e. */
  lemma PieceEnd(s: seq<Cell>, l: seq<Cell>, r: seq<Cell>, i: nat, e: nat)
    requires s == l + r && i == |l| && e == i + |r|
    ensures e <= |s| && s[i..e] == r
  {
  }

  /** Descriptor j of the first n sits behind the first j. */
  lemma {:induction false} MeasDescsSlice(k: Constants, d: FileData, channels: seq<ChannelData>, n: nat, j: nat)
    requires j < n <= |channels|
    ensures |MeasDescs(k, d, channels, j)| == j * k.measureInfoSize
    ensures j * k.measureInfoSize + k.measureInfoSize <= |MeasDescs(k, d, channels, n)|
    ensures MeasDescs(k, d, channels, n)[j * k.measureInfoSize..j * k.measureInfoSize + k.measureInfoSize]
            == MeasureInfoCells(k, MeasurementDesc(k, d, channels[j]))
  {
    var x, m := j * k.measureInfoSize, k.measureInfoSize;
    MeasDescsPrefix(k, d, channels, j + 1, n);
    MeasDescsStep(k, d, channels, j);
    MeasDescsLength(k, d, channels, j);
    PieceOf(MeasDescs(k, d, channels, n), MeasDescs(k, d, channels, j + 1),
            MeasDescs(k, d, channels, j), MeasureInfoCells(k, MeasurementDesc(k, d, channels[j])), x, x + m);
  }

  /** Block j of the first n, when another block follows it, sits linked
      behind the first j linked blocks. */
  lemma {:induction false} InnerBlockSlice(k: Constants, d: FileData, channels: seq<ChannelData>, base: nat, n: nat, j: nat)
    requires ValidConstants(k) && ChannelsFit(d, channels) && j + 1 < n <= |channels|
    ensures var a := |LinkedBlocks(k, d, channels, base, j)|;
      && a + BlockSize(k, d) <= |Blocks(k, d, channels, base, n)|
      && Blocks(k, d, channels, base, n)[a..a + BlockSize(k, d)] == LinkedBlock(k, d, channels, base, j)
  {
    var i, m := j + 1, n - 1;
    var s, lj, x := Blocks(k, d, channels, base, n), LinkedBlocks(k, d, channels, base, j), LinkedBlock(k, d, channels, base, j);
    var f, r := LinkedBlocksFrom(k, d, channels, base, i, m), RawBlock(k, d, channels, base, m);
    var a := |lj|;
    var e := a + BlockSize(k, d);
    InnerBlocksShape(k, d, channels, base, n, j, i, m);
    BlockLength(k, d, channels, base, j);
    PieceFirst(s, lj, x, f, r, a, e);
  }

  /** The first n blocks around linked block j, when a block follows it. */
  lemma {:induction false} InnerBlocksShape(k: Constants, d: FileData, channels: seq<ChannelData>, base: nat,
                                            n: nat, j: nat, i: nat, m: nat)
    requires ValidConstants(k) && ChannelsFit(d, channels) && i == j + 1 && m == n - 1 && i < n <= |channels|
    ensures Blocks(k, d, channels, base, n)
            == ((LinkedBlocks(k, d, channels, base, j) + LinkedBlock(k, d, channels, base, j))
                + LinkedBlocksFrom(k, d, channels, base, i, m)) + RawBlock(k, d, channels, base, m)
  {
    BlocksStep(k, d, channels, base, m, n);
    LinkedBlocksSplit(k, d, channels, base, i, m);
    LinkedBlocksStep(k, d, channels, base, j, i);
    Nest(Blocks(k, d, channels, base, n), LinkedBlocks(k, d, channels, base, m),
         LinkedBlocks(k, d, channels, base, i), LinkedBlocks(k, d, channels, base, j),
         LinkedBlock(k, d, channels, base, j), LinkedBlocksFrom(k, d, channels, base, i, m),
         RawBlock(k, d, channels, base, m));
  }

  lemma Nest(s: seq<Cell>, l: seq<Cell>, t: seq<Cell>, a: seq<Cell>, x: seq<Cell>, f: seq<Cell>, r: seq<Cell>)
    requires s == l + r && l == t + f && t == a + x
    ensures s == ((a + x) + f) + r
  {
  }

  /** The last of the first n blocks sits, as written, behind the linked
      blocks before it. */
  lemma {:induction false} LastBlockSlice(k: Constants, d: FileData, channels: seq<ChannelData>, base: nat, n: nat, j: nat)
    requires ValidConstants(k) && ChannelsFit(d, channels) && j + 1 == n <= |channels|
    ensures var a := |LinkedBlocks(k, d, channels, base, j)|;
      && a + BlockSize(k, d) <= |Blocks(k, d, channels, base, n)|
      && Blocks(k, d, channels, base, n)[a..a + BlockSize(k, d)] == RawBlock(k, d, channels, base, j)
  {
    var s, l, r := Blocks(k, d, channels, base, n), LinkedBlocks(k, d, channels, base, j),
                   RawBlock(k, d, channels, base, j);
    var a := |l|;
    var e := a + BlockSize(k, d);
    BlocksStep(k, d, channels, base, j, n);
    BlockLength(k, d, channels, base, j);
    PieceEnd(s, l, r, a, e);
  }

  /** A block as written: its header, then its samples. */
  lemma {:induction false} RawBlockParts(k: Constants, d: FileData, channels: seq<ChannelData>, base: nat, j: nat)
    requires ValidConstants(k) && ChannelsFit(d, channels) && j < |channels|
    ensures |RawBlock(k, d, channels, base, j)| == k.blockHeaderSize + 2 * NumSamples(d)
    ensures RawBlock(k, d, channels, base, j)[..k.blockHeaderSize]
            == BlockHeaderCells(k, DataBlockHeader(k, d, BlockStart(k, d, base, j), channels[j].channel))
    ensures RawBlock(k, d, channels, base, j)[k.blockHeaderSize..] == SampleCells(Histogram(d, channels[j]))
  {
  }

  /** A linked block: its header with next_block_offs set to where the
      next block starts, then the same samples. */
  lemma {:induction false} LinkedBlockParts(k: Constants, d: FileData, channels: seq<ChannelData>, base: nat, j: nat, i: nat)
    requires ValidConstants(k) && ChannelsFit(d, channels) && j < |channels| && i == j + 1
    ensures |LinkedBlock(k, d, channels, base, j)| == k.blockHeaderSize + 2 * NumSamples(d)
    ensures LinkedBlock(k, d, channels, base, j)[..k.blockHeaderSize]
            == Patch(BlockHeaderCells(k, DataBlockHeader(k, d, BlockStart(k, d, base, j), channels[j].channel)),
                     k.nextBlockOffsField, OffsetCells(k, BlockStart(k, d, base, i)))
    ensures LinkedBlock(k, d, channels, base, j)[k.blockHeaderSize..] == SampleCells(Histogram(d, channels[j]))
  {
    var h := BlockHeaderCells(k, DataBlockHeader(k, d, BlockStart(k, d, base, j), channels[j].channel));
    var s := SampleCells(Histogram(d, channels[j]));
    var v := OffsetCells(k, BlockStart(k, d, base, i));
    var f := k.nextBlockOffsField;
    assert RawBlock(k, d, channels, base, j) == h + s;
    assert (h + s)[..f] == h[..f];
    assert (h + s)[f + |v|..] == h[f + |v|..] + s;
    assert LinkedBlock(k, d, channels, base, j) == Patch(h, f, v) + s;
  }

  // ---------------------------------------------------------------------
  // The finished file

  /** The header of the finished file: valid, with the checksum, and
      pointing at the texts, the descriptors and the data blocks. */
  lemma FileHeaderFields(k: Constants, d: FileData, id: string, words: Header -> seq<Uint16>)
    requires forall h :: ChecksumWords(k) <= |words(h)|
    ensures var h := FileHeader(k, d, id, words);
      && h.headerValid == k.headerValid && h.revision == Revision(d.modelName)
      && h.infoOffs == k.headerSize && h.infoLength == I16(|id|)
      && h.setupOffs == SetupStart(k, id) && h.setupLength == I16(|SetupText|)
      && h.measDescBlockOffs == MeasDescStart(k, id)
      && h.noOfMeasDescBlocks == h.noOfDataBlocks == d.numChannels
      && h.measDescBlockLength == k.measureInfoSize && h.dataBlockLength == DataBlockLength(d)
      && h.dataBlockOffs == (if d.numChannels > 0 then DataStart(k, d, id) else 0)
      && (ChecksumWords(k) >= 0 ==>
            (Sum(words(h.(chksum := 0))[..ChecksumWords(k)]) + h.chksum) % 0x1_0000 == k.headerChksum % 0x1_0000)
  {
    var h := FileHeader(k, d, id, words);
    assert h.(chksum := 0) == FilledHeader(k, d, id);
  }

  /** The file unfolded into its five parts. */
  lemma {:induction false} FileImageUnfold(k: Constants, d: FileData, id: string, channels: seq<ChannelData>, words: Header -> seq<Uint16>)
    requires ValidConstants(k) && ChannelsFit(d, channels)
    requires forall h :: ChecksumWords(k) <= |words(h)|
    ensures FileImage(k, d, id, channels, words)
            == HeaderCells(k, FileHeader(k, d, id, words))
               + (TextCells(id) + TextCells(SetupText)
                  + (MeasDescs(k, d, channels, |channels|) + Blocks(k, d, channels, DataStart(k, d, id), |channels|)))
  {
    assert DataStart(k, d, id) == MeasDescStart(k, id) + |channels| * k.measureInfoSize;
  }

  /** The file as its five parts one after the other, the descriptors
      starting at measDescBlockOffs and the blocks at dataBlockOffs. */
  lemma {:induction false} FileImageSplit(k: Constants, d: FileData, id: string, channels: seq<ChannelData>, words: Header -> seq<Uint16>)
    requires ValidConstants(k) && ChannelsFit(d, channels)
    requires forall h :: ChecksumWords(k) <= |words(h)|
    ensures var hc, ic, sc := HeaderCells(k, FileHeader(k, d, id, words)), TextCells(id), TextCells(SetupText);
      var md, bl := MeasDescs(k, d, channels, |channels|), Blocks(k, d, channels, DataStart(k, d, id), |channels|);
      && FileImage(k, d, id, channels, words) == (((hc + ic) + sc) + md) + bl
      && |(hc + ic) + sc| == MeasDescStart(k, id)
      && |((hc + ic) + sc) + md| == DataStart(k, d, id)
  {
    var hc, ic, sc := HeaderCells(k, FileHeader(k, d, id, words)), TextCells(id), TextCells(SetupText);
    var md, bl := MeasDescs(k, d, channels, |channels|), Blocks(k, d, channels, DataStart(k, d, id), |channels|);
    FileImageUnfold(k, d, id, channels, words);
    Regroup(hc, ic, sc, md, bl);
    Trans(FileImage(k, d, id, channels, words), hc + ((ic + sc) + (md + bl)), (((hc + ic) + sc) + md) + bl);
    MeasDescsLength(k, d, channels, |channels|);
  }

  /** The header and the texts lie where the header says; the file ends
      where a block after the last would start. */
  lemma {:induction false} FileImageFront(k: Constants, d: FileData, id: string, channels: seq<ChannelData>, words: Header -> seq<Uint16>)
    requires ValidConstants(k) && ChannelsFit(d, channels)
    requires forall h :: ChecksumWords(k) <= |words(h)|
    ensures var F := FileImage(k, d, id, channels, words);
      && |F| == BlockStart(k, d, DataStart(k, d, id), |channels|)
      && F[..k.headerSize] == HeaderCells(k, FileHeader(k, d, id, words))
      && F[k.headerSize..SetupStart(k, id)] == TextCells(id)
      && F[SetupStart(k, id)..MeasDescStart(k, id)] == TextCells(SetupText)
  {
    var md := MeasDescs(k, d, channels, |channels|);
    var bl := Blocks(k, d, channels, DataStart(k, d, id), |channels|);
    FileImageSplit(k, d, id, channels, words);
    LeadingParts(FileImage(k, d, id, channels, words), HeaderCells(k, FileHeader(k, d, id, words)),
                 TextCells(id), TextCells(SetupText), md, bl, k.headerSize, SetupStart(k, id), MeasDescStart(k, id));
    BlocksLength(k, d, channels, DataStart(k, d, id), |channels|);
  }

  /** Where descriptor j starts. */
  function DescriptorStart(k: Constants, id: string, j: nat): nat
  {
    MeasDescStart(k, id) + j * k.measureInfoSize
  }

  /** x, the piece of m from i to i + w, sits in (p + m) + r from the
      length of p plus i. */
  lemma PieceInMiddle(s: seq<Cell>, p: seq<Cell>, m: seq<Cell>, r: seq<Cell>, x: seq<Cell>, i: nat, w: nat, at: nat)
    requires s == (p + m) + r && i + w <= |m| && m[i..i + w] == x && at == |p| + i
    ensures at + w <= |s| && s[at..at + w] == x
  {
    assert s[at..at + w] == m[i..i + w];
  }

  /** Descriptor j lies j descriptors after measDescBlockOffs. */
  lemma {:induction false} FileImageDescriptor(k: Constants, d: FileData, id: string, channels: seq<ChannelData>,
                            words: Header -> seq<Uint16>, j: nat)
    requires ValidConstants(k) && ChannelsFit(d, channels) && j < |channels|
    requires forall h :: ChecksumWords(k) <= |words(h)|
    ensures var s := DescriptorStart(k, id, j);
      && s + k.measureInfoSize <= |FileImage(k, d, id, channels, words)|
      && FileImage(k, d, id, channels, words)[s..s + k.measureInfoSize]
         == MeasureInfoCells(k, MeasurementDesc(k, d, channels[j]))
  {
    var front := HeaderCells(k, FileHeader(k, d, id, words)) + TextCells(id) + TextCells(SetupText);
    var F, bl := FileImage(k, d, id, channels, words), Blocks(k, d, channels, DataStart(k, d, id), |channels|);
    var s := DescriptorStart(k, id, j);
    FileImageSplit(k, d, id, channels, words);
    DescriptorInFile(k, d, channels, F, front, bl, j, s);
  }

  /** Descriptor j in any file whose descriptors follow front. */
  lemma {:induction false} DescriptorInFile(k: Constants, d: FileData, channels: seq<ChannelData>,
                                            F: seq<Cell>, front: seq<Cell>, bl: seq<Cell>, j: nat, s: nat)
    requires j < |channels| && F == (front + MeasDescs(k, d, channels, |channels|)) + bl
    requires s == |front| + j * k.measureInfoSize
    ensures s + k.measureInfoSize <= |F| && F[s..s + k.measureInfoSize] == MeasureInfoCells(k, MeasurementDesc(k, d, channels[j]))
  {
    MeasDescsSlice(k, d, channels, |channels|, j);
    PieceInMiddle(F, front, MeasDescs(k, d, channels, |channels|), bl,
                  MeasureInfoCells(k, MeasurementDesc(k, d, channels[j])),
                  j * k.measureInfoSize, k.measureInfoSize, s);
  }

  /** A block that sits in (front + bl) at a within bl: its first hs cells
      and the rest, at s, the length of front plus a. */
  lemma BlockAt(F: seq<Cell>, front: seq<Cell>, bl: seq<Cell>, block: seq<Cell>, a: nat, bs: nat,
                s: nat, e: nat, hs: nat, head: seq<Cell>, tail: seq<Cell>)
    requires F == front + bl && a + bs <= |bl| && bl[a..a + bs] == block && bs == |block|
    requires s == |front| + a && e == s + bs && hs <= bs && block[..hs] == head && block[hs..] == tail
    ensures e <= |F| && F[s..s + hs] == head && F[s + hs..e] == tail
  {
    assert F[s..e] == block;
  }

  /** Data block j lies j blocks after dataBlockOffs: its header, with
      next_block_offs holding the start of block j + 1 unless it is the
      last block, whose header keeps the 0 it was written with, then its
      samples. */
  lemma {:induction false} FileImageBlock(k: Constants, d: FileData, id: string, channels: seq<ChannelData>,
                       words: Header -> seq<Uint16>, j: nat)
    requires ValidConstants(k) && ChannelsFit(d, channels) && j < |channels|
    requires forall h :: ChecksumWords(k) <= |words(h)|
    ensures var s, e := BlockStart(k, d, DataStart(k, d, id), j), BlockStart(k, d, DataStart(k, d, id), j + 1);
      var hdr := BlockHeaderCells(k, DataBlockHeader(k, d, s, channels[j].channel));
      && e == s + k.blockHeaderSize + 2 * NumSamples(d) && e <= |FileImage(k, d, id, channels, words)|
      && FileImage(k, d, id, channels, words)[s..s + k.blockHeaderSize]
         == (if j + 1 < |channels| then Patch(hdr, k.nextBlockOffsField, OffsetCells(k, e)) else hdr)
      && FileImage(k, d, id, channels, words)[s + k.blockHeaderSize..e] == SampleCells(Histogram(d, channels[j]))
  {
    var front := HeaderCells(k, FileHeader(k, d, id, words)) + TextCells(id) + TextCells(SetupText)
                 + MeasDescs(k, d, channels, |channels|);
    var base, F := DataStart(k, d, id), FileImage(k, d, id, channels, words);
    FileImageSplit(k, d, id, channels, words);
    BlockInFile(k, d, channels, base, F, front, j);
  }

  /** Block j in any file whose blocks, starting at base, follow front. */
  lemma {:induction false} BlockInFile(k: Constants, d: FileData, channels: seq<ChannelData>, base: nat,
                                       F: seq<Cell>, front: seq<Cell>, j: nat)
    requires ValidConstants(k) && ChannelsFit(d, channels) && j < |channels|
    requires F == front + Blocks(k, d, channels, base, |channels|) && |front| == base
    ensures var s, e := BlockStart(k, d, base, j), BlockStart(k, d, base, j + 1);
      var hdr := BlockHeaderCells(k, DataBlockHeader(k, d, s, channels[j].channel));
      && e == s + k.blockHeaderSize + 2 * NumSamples(d) && e <= |F|
      && F[s..s + k.blockHeaderSize]
         == (if j + 1 < |channels| then Patch(hdr, k.nextBlockOffsField, OffsetCells(k, e)) else hdr)
      && F[s + k.blockHeaderSize..e] == SampleCells(Histogram(d, channels[j]))
  {
    var i := j + 1;
    if i < |channels| {
      InnerBlockInFile(k, d, channels, base, F, front, j, i);
    } else {
      LastBlockInFile(k, d, channels, base, F, front, j, i);
    }
  }

  /** A block that another follows, with i its successor's number. */
  lemma {:induction false} InnerBlockInFile(k: Constants, d: FileData, channels: seq<ChannelData>, base: nat,
                                            F: seq<Cell>, front: seq<Cell>, j: nat, i: nat)
    requires ValidConstants(k) && ChannelsFit(d, channels) && i == j + 1 < |channels|
    requires F == front + Blocks(k, d, channels, base, |channels|) && |front| == base
    ensures var s, e := BlockStart(k, d, base, j), BlockStart(k, d, base, i);
      && e == s + k.blockHeaderSize + 2 * NumSamples(d) && e <= |F|
      && F[s..s + k.blockHeaderSize]
         == Patch(BlockHeaderCells(k, DataBlockHeader(k, d, s, channels[j].channel)), k.nextBlockOffsField, OffsetCells(k, e))
      && F[s + k.blockHeaderSize..e] == SampleCells(Histogram(d, channels[j]))
  {
    var n := |channels|;
    var s, e := BlockStart(k, d, base, j), BlockStart(k, d, base, i);
    LinkedBlocksLength(k, d, channels, base, j);
    NextBlockStart(k, d, base, j, i);
    InnerBlockSlice(k, d, channels, base, n, j);
    LinkedBlockParts(k, d, channels, base, j, i);
    var bl, block, a, bs := Blocks(k, d, channels, base, n), LinkedBlock(k, d, channels, base, j),
                            |LinkedBlocks(k, d, channels, base, j)|, BlockSize(k, d);
    var head := Patch(BlockHeaderCells(k, DataBlockHeader(k, d, s, channels[j].channel)), k.nextBlockOffsField, OffsetCells(k, e));
    var tail := SampleCells(Histogram(d, channels[j]));
    BlockAt(F, front, bl, block, a, bs, s, e, k.blockHeaderSize, head, tail);
  }

  /** The last block, with i the number a successor would have. */
  lemma {:induction false} LastBlockInFile(k: Constants, d: FileData, channels: seq<ChannelData>, base: nat,
                                           F: seq<Cell>, front: seq<Cell>, j: nat, i: nat)
    requires ValidConstants(k) && ChannelsFit(d, channels) && i == j + 1 == |channels|
    requires F == front + Blocks(k, d, channels, base, |channels|) && |front| == base
    ensures var s, e := BlockStart(k, d, base, j), BlockStart(k, d, base, i);
      && e == s + k.blockHeaderSize + 2 * NumSamples(d) && e <= |F|
      && F[s..s + k.blockHeaderSize] == BlockHeaderCells(k, DataBlockHeader(k, d, s, channels[j].channel))
      && F[s + k.blockHeaderSize..e] == SampleCells(Histogram(d, channels[j]))
  {
    var n := |channels|;
    var s, e := BlockStart(k, d, base, j), BlockStart(k, d, base, i);
    LinkedBlocksLength(k, d, channels, base, j);
    NextBlockStart(k, d, base, j, i);
    LastBlockSlice(k, d, channels, base, n, j);
    RawBlockParts(k, d, channels, base, j);
    var bl, block, a, bs := Blocks(k, d, channels, base, n), RawBlock(k, d, channels, base, j),
                            |LinkedBlocks(k, d, channels, base, j)|, BlockSize(k, d);
    var head := BlockHeaderCells(k, DataBlockHeader(k, d, s, channels[j].channel));
    var tail := SampleCells(Histogram(d, channels[j]));
    BlockAt(F, front, bl, block, a, bs, s, e, k.blockHeaderSize, head, tail);
  }

  lemma NextBlockStart(k: Constants, d: FileData, base: nat, j: nat, i: nat)
    requires i == j + 1
    ensures BlockStart(k, d, base, i) == BlockStart(k, d, base, j) + BlockSize(k, d)
  {
    BlockStartNext(k, d, base, j);
  }
}
