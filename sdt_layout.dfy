/** The file a successful WriteSDTFileP leaves behind, and where each part
    of it sits: the valid header with its checksum, the identification and
    setup texts, one measurement descriptor per channel, then one data block
    per channel whose next_block_offs field holds the start of the following
    block. */
module SdtLayout {
  import opened SdtFormat
  import opened SdtImage

  /** What the writer is given: a channel record and a histogram of at
      least width * height * 2^histogramBits samples for each channel. */
  predicate ChannelsFit(d: FileData, channels: seq<ChannelData>)
  {
    |channels| == d.numChannels && forall j :: 0 <= j < |channels| ==> NumSamples(d) <= |channels[j].histogram|
  }

  /** The samples written for one channel. */
  function Histogram(d: FileData, c: ChannelData): seq<Uint16>
    requires NumSamples(d) <= |c.histogram|
  {
    c.histogram[..NumSamples(d)]
  }

  function IdText(k: Constants, d: FileData): string
  {
    IdentificationText(k, d.histogramBits, d.date, d.time)
  }

  // ---------------------------------------------------------------------
  // Offsets

  // The parts after the header depend on the identification text only
  // through id, so that what is said about them holds for any text.

  function SetupStart(k: Constants, id: string): nat
  {
    k.headerSize + |id|
  }

  function MeasDescStart(k: Constants, id: string): nat
  {
    SetupStart(k, id) + |SetupText|
  }

  function DataStart(k: Constants, d: FileData, id: string): nat
  {
    MeasDescStart(k, id) + d.numChannels * k.measureInfoSize
  }

  /** A data block: its header, then its samples. */
  function BlockSize(k: Constants, d: FileData): nat
  {
    k.blockHeaderSize + 2 * NumSamples(d)
  }

  /** Where block j starts when the blocks start at base. */
  function BlockStart(k: Constants, d: FileData, base: nat, j: nat): (s: nat)
    ensures base <= s
  {
    base + j * BlockSize(k, d)
  }

  /** Block j + 1 starts where block j ends. */
  lemma BlockStartNext(k: Constants, d: FileData, base: nat, j: nat)
    ensures BlockStart(k, d, base, j + 1) == BlockStart(k, d, base, j) + BlockSize(k, d)
  {
    assert (j + 1) * BlockSize(k, d) == j * BlockSize(k, d) + BlockSize(k, d);
  }

  // ---------------------------------------------------------------------
  // The parts of the file

  /** The header once the two texts are written: still marked not valid,
      with their places and lengths (the lengths truncated to short). */
  function TextsHeader(k: Constants, d: FileData, id: string): (h: Header)
    ensures h.headerValid == k.headerNotValid && h.chksum == 0
    ensures h.infoOffs == k.headerSize && h.setupOffs == h.infoOffs + |id|
  {
    InvalidHeader(k, d.modelName).(
      infoOffs := k.headerSize, infoLength := I16(|id|),
      setupOffs := SetupStart(k, id), setupLength := I16(|SetupText|))
  }

  /** The header h completed once the descriptors, written from
      measDescOffs on, and the data blocks after them are written, and
      marked valid; the checksum is still to come. */
  function CompletedHeader(k: Constants, d: FileData, h: Header, measDescOffs: nat): (r: Header)
    ensures r.headerValid == k.headerValid && r.chksum == h.chksum && r.revision == h.revision
    ensures r.noOfMeasDescBlocks == r.noOfDataBlocks == d.numChannels
    ensures r.dataBlockOffs == if d.numChannels > 0 then measDescOffs + d.numChannels * k.measureInfoSize else 0
  {
    h.(measDescBlockOffs := measDescOffs, noOfMeasDescBlocks := d.numChannels,
       measDescBlockLength := k.measureInfoSize,
       noOfDataBlocks := d.numChannels, dataBlockLength := DataBlockLength(d),
       reserved1 := d.numChannels,
       dataBlockOffs := if d.numChannels > 0 then measDescOffs + d.numChannels * k.measureInfoSize else 0,
       headerValid := k.headerValid)
  }

  /** The header as WriteSDTFileP has filled it in before the checksum. */
  function FilledHeader(k: Constants, d: FileData, id: string): (h: Header)
    ensures h.headerValid == k.headerValid && h.revision == Revision(d.modelName) && h.chksum == 0
    ensures h.infoOffs == k.headerSize && h.setupOffs == h.infoOffs + |id|
    ensures h.measDescBlockOffs == h.setupOffs + |SetupText|
    ensures h.noOfMeasDescBlocks == h.noOfDataBlocks == d.numChannels
    ensures h.dataBlockOffs == if d.numChannels > 0 then DataStart(k, d, id) else 0
  {
    CompletedHeader(k, d, TextsHeader(k, d, id), MeasDescStart(k, id))
  }

  /** The file's header, a channel's descriptor and that channel's data
      block agree: one descriptor row per data block, the block names its
      descriptor by channel, and the block's length is the size of the
      histogram the descriptor describes. */
  lemma DescriptorMatchesBlock(k: Constants, d: FileData, id: string, c: ChannelData, headerOffset: nat)
    ensures var m := MeasurementDesc(k, d, c);
            var b := DataBlockHeader(k, d, headerOffset, c.channel);
            && m.imageRx == FilledHeader(k, d, id).noOfDataBlocks
            && b.measDescBlockNo == m.chan
            && b.blockLength == U32(2 * (m.adcRe * m.imageX * m.imageY))
  {
  }

  /** h with the checksum over the 16-bit words of its image (given by
      words, as the image's layout is not part of this model), taken while
      the checksum field holds 0. */
  function Checksummed(k: Constants, h: Header, words: Header -> seq<Uint16>): (r: Header)
    requires ChecksumWords(k) <= |words(h)|
    requires h.chksum == 0
    ensures r.(chksum := 0) == h
    ensures ChecksumWords(k) >= 0 ==>
      (Sum(words(r.(chksum := 0))[..ChecksumWords(k)]) + r.chksum) % 0x1_0000 == k.headerChksum % 0x1_0000
  {
    h.(chksum := Checksum(k, words(h)))
  }

  /** The header rewritten at the end. */
  function FileHeader(k: Constants, d: FileData, id: string, words: Header -> seq<Uint16>): Header
    requires forall h :: ChecksumWords(k) <= |words(h)|
  {
    Checksummed(k, FilledHeader(k, d, id), words)
  }

  /** The descriptors of the first n channels. */
  function MeasDescs(k: Constants, d: FileData, channels: seq<ChannelData>, n: nat): seq<Cell>
    requires n <= |channels|
  {
    if n == 0 then []
    else MeasDescs(k, d, channels, n - 1) + MeasureInfoCells(k, MeasurementDesc(k, d, channels[n - 1]))
  }

  /** A data block as WriteSDTHistogramDataBlock writes it at headerOffset. */
  function DataBlockCells(k: Constants, d: FileData, headerOffset: nat, c: ChannelData): seq<Cell>
    requires ValidConstants(k) && NumSamples(d) <= |c.histogram|
  {
    BlockHeaderCells(k, DataBlockHeader(k, d, headerOffset, c.channel)) + SampleCells(Histogram(d, c))
  }

  function RawBlock(k: Constants, d: FileData, channels: seq<ChannelData>, base: nat, j: nat): seq<Cell>
    requires ValidConstants(k) && ChannelsFit(d, channels) && j < |channels|
  {
    DataBlockCells(k, d, BlockStart(k, d, base, j), channels[j])
  }

  /** The cells of r with the stretch at off replaced by v. */
  function Patch(r: seq<Cell>, off: nat, v: seq<Cell>): seq<Cell>
    requires off + |v| <= |r|
  {
    r[..off] + v + r[off + |v|..]
  }

  /** Block j once the next block has been written: its next_block_offs
      field overwritten with the next block's start. */
  function LinkedBlock(k: Constants, d: FileData, channels: seq<ChannelData>, base: nat, j: nat): seq<Cell>
    requires ValidConstants(k) && ChannelsFit(d, channels) && j < |channels|
  {
    Patch(RawBlock(k, d, channels, base, j), k.nextBlockOffsField, OffsetCells(k, BlockStart(k, d, base, j + 1)))
  }

  function LinkedBlocks(k: Constants, d: FileData, channels: seq<ChannelData>, base: nat, n: nat): seq<Cell>
    requires ValidConstants(k) && ChannelsFit(d, channels) && n <= |channels|
  {
    if n == 0 then [] else LinkedBlocks(k, d, channels, base, n - 1) + LinkedBlock(k, d, channels, base, n - 1)
  }

  /** The first n data blocks, all linked but the last. */
  function Blocks(k: Constants, d: FileData, channels: seq<ChannelData>, base: nat, n: nat): seq<Cell>
    requires ValidConstants(k) && ChannelsFit(d, channels) && n <= |channels|
  {
    if n == 0 then [] else LinkedBlocks(k, d, channels, base, n - 1) + RawBlock(k, d, channels, base, n - 1)
  }

  /** The descriptors, written from start on, and the data blocks after
      them. */
  function Records(k: Constants, d: FileData, channels: seq<ChannelData>, start: nat): seq<Cell>
    requires ValidConstants(k) && ChannelsFit(d, channels)
  {
    MeasDescs(k, d, channels, |channels|) + Blocks(k, d, channels, start + |channels| * k.measureInfoSize, |channels|)
  }

  /** Everything after the header. */
  function Body(k: Constants, d: FileData, id: string, channels: seq<ChannelData>): seq<Cell>
    requires ValidConstants(k) && ChannelsFit(d, channels)
  {
    TextCells(id) + TextCells(SetupText) + Records(k, d, channels, MeasDescStart(k, id))
  }

  /** The file with identification text id. */
  function FileImage(k: Constants, d: FileData, id: string, channels: seq<ChannelData>,
                     words: Header -> seq<Uint16>): seq<Cell>
    requires ValidConstants(k) && ChannelsFit(d, channels)
    requires forall h :: ChecksumWords(k) <= |words(h)|
  {
    HeaderCells(k, FileHeader(k, d, id, words)) + Body(k, d, id, channels)
  }

  /** The complete file. */
  function SdtFile(k: Constants, d: FileData, channels: seq<ChannelData>, words: Header -> seq<Uint16>): seq<Cell>
    requires ValidConstants(k) && ChannelsFit(d, channels)
    requires forall h :: ChecksumWords(k) <= |words(h)|
  {
    FileImage(k, d, IdText(k, d), channels, words)
  }

  /** The file as the writer builds it: the texts, then the records from
      where the texts end, under the header completed from the one the
      texts leave. */
  lemma FileImageParts(k: Constants, d: FileData, id: string, channels: seq<ChannelData>, words: Header -> seq<Uint16>)
    requires ValidConstants(k) && ChannelsFit(d, channels)
    requires forall h :: ChecksumWords(k) <= |words(h)|
    ensures FileImage(k, d, id, channels, words)
            == HeaderCells(k, Checksummed(k, CompletedHeader(k, d, TextsHeader(k, d, id), MeasDescStart(k, id)), words))
               + (TextCells(id) + TextCells(SetupText) + Records(k, d, channels, MeasDescStart(k, id)))
  {
  }

  // ---------------------------------------------------------------------
  // Sizes

  lemma {:induction false} MeasDescsLength(k: Constants, d: FileData, channels: seq<ChannelData>, n: nat)
    requires n <= |channels|
    ensures |MeasDescs(k, d, channels, n)| == n * k.measureInfoSize
  {
    if n > 0 {
      MeasDescsLength(k, d, channels, n - 1);
      assert n * k.measureInfoSize == (n - 1) * k.measureInfoSize + k.measureInfoSize;
    }
  }

  /** The descriptors of fewer channels come first. */
  lemma {:induction false} MeasDescsPrefix(k: Constants, d: FileData, channels: seq<ChannelData>, i: nat, n: nat)
    requires i <= n <= |channels|
    ensures MeasDescs(k, d, channels, i) <= MeasDescs(k, d, channels, n)
  {
    if i < n {
      MeasDescsPrefix(k, d, channels, i, n - 1);
    }
  }

  lemma BlockLength(k: Constants, d: FileData, channels: seq<ChannelData>, base: nat, j: nat)
    requires ValidConstants(k) && ChannelsFit(d, channels) && j < |channels|
    ensures |RawBlock(k, d, channels, base, j)| == BlockSize(k, d)
    ensures |LinkedBlock(k, d, channels, base, j)| == BlockSize(k, d)
  {
  }

  /** The first n blocks, linked or not, end where block n starts. */
  lemma {:induction false} LinkedBlocksLength(k: Constants, d: FileData, channels: seq<ChannelData>, base: nat, n: nat)
    requires ValidConstants(k) && ChannelsFit(d, channels) && n <= |channels|
    ensures base + |LinkedBlocks(k, d, channels, base, n)| == BlockStart(k, d, base, n)
  {
    if n > 0 {
      var l, r := LinkedBlocks(k, d, channels, base, n - 1), LinkedBlock(k, d, channels, base, n - 1);
      assert base + |l| == BlockStart(k, d, base, n - 1) by {
        LinkedBlocksLength(k, d, channels, base, n - 1);
      }
      assert |r| == BlockSize(k, d) by {
        BlockLength(k, d, channels, base, n - 1);
      }
      assert LinkedBlocks(k, d, channels, base, n) == l + r;
      BlockStartNext(k, d, base, n - 1);
    }
  }

  lemma BlocksLength(k: Constants, d: FileData, channels: seq<ChannelData>, base: nat, n: nat)
    requires ValidConstants(k) && ChannelsFit(d, channels) && n <= |channels|
    ensures base + |Blocks(k, d, channels, base, n)| == BlockStart(k, d, base, n)
  {
    if n > 0 {
      var l, r := LinkedBlocks(k, d, channels, base, n - 1), RawBlock(k, d, channels, base, n - 1);
      assert base + |l| == BlockStart(k, d, base, n - 1) by {
        LinkedBlocksLength(k, d, channels, base, n - 1);
      }
      assert |r| == BlockSize(k, d) by {
        BlockLength(k, d, channels, base, n - 1);
      }
      assert Blocks(k, d, channels, base, n) == l + r;
      BlockStartNext(k, d, base, n - 1);
    }
  }

  // ---------------------------------------------------------------------
  // The steps of the data block loop

  /** Patching the next_block_offs field of the last block written so far
      (in b, from p on) with the start of block i, where b ends, links
      it. */
  lemma LinkStep(k: Constants, d: FileData, channels: seq<ChannelData>, pre: seq<Cell>, i: nat,
                 b: seq<Cell>, p: nat, v: seq<Cell>)
    requires ValidConstants(k) && ChannelsFit(d, channels) && 0 < i < |channels|
    requires b == pre + Blocks(k, d, channels, |pre|, i)
    requires p == BlockStart(k, d, |pre|, i - 1) + k.nextBlockOffsField
    requires v == OffsetCells(k, |b|)
    ensures |b| == BlockStart(k, d, |pre|, i)
    ensures Splice(b, p, v) == pre + LinkedBlocks(k, d, channels, |pre|, i)
  {
    var l, r := LinkedBlocks(k, d, channels, |pre|, i - 1), RawBlock(k, d, channels, |pre|, i - 1);
    LinkStepShape(k, d, channels, pre, i, b);
    LinkStepEnd(k, d, channels, pre, i, b);
    LinkedBlocksUnfold(k, d, channels, |pre|, i);
    SpliceTail(b, p, pre, l, r, k.nextBlockOffsField, v);
  }

  /** The shape LinkStep works on: b is pre, the linked blocks before the
      last, and the last block as written ... */
  lemma LinkStepShape(k: Constants, d: FileData, channels: seq<ChannelData>, pre: seq<Cell>, i: nat, b: seq<Cell>)
    requires ValidConstants(k) && ChannelsFit(d, channels) && 0 < i < |channels|
    requires b == pre + Blocks(k, d, channels, |pre|, i)
    ensures b == pre + (LinkedBlocks(k, d, channels, |pre|, i - 1) + RawBlock(k, d, channels, |pre|, i - 1))
    ensures |pre| + |LinkedBlocks(k, d, channels, |pre|, i - 1)| == BlockStart(k, d, |pre|, i - 1)
  {
    LinkedBlocksLength(k, d, channels, |pre|, i - 1);
  }

  /** ... which ends where block i starts. */
  lemma LinkStepEnd(k: Constants, d: FileData, channels: seq<ChannelData>, pre: seq<Cell>, i: nat, b: seq<Cell>)
    requires ValidConstants(k) && ChannelsFit(d, channels) && 0 < i < |channels|
    requires b == pre + Blocks(k, d, channels, |pre|, i)
    ensures |RawBlock(k, d, channels, |pre|, i - 1)| == BlockSize(k, d)
    ensures |b| == BlockStart(k, d, |pre|, i)
  {
    BlocksLength(k, d, channels, |pre|, i);
    BlockLength(k, d, channels, |pre|, i - 1);
  }

  /** Linking block i - 1 patches the start of block i into it. */
  lemma LinkedBlocksUnfold(k: Constants, d: FileData, channels: seq<ChannelData>, base: nat, i: nat)
    requires ValidConstants(k) && ChannelsFit(d, channels) && 0 < i < |channels|
    ensures LinkedBlocks(k, d, channels, base, i)
            == LinkedBlocks(k, d, channels, base, i - 1)
               + Patch(RawBlock(k, d, channels, base, i - 1), k.nextBlockOffsField, OffsetCells(k, BlockStart(k, d, base, i)))
  {
  }

  lemma SpliceTail(b: seq<Cell>, p: nat, pre: seq<Cell>, l: seq<Cell>, r: seq<Cell>, off: nat, v: seq<Cell>)
    requires off + |v| <= |r| && b == pre + (l + r) && p == |pre| + |l| + off
    ensures Splice(b, p, v) == pre + (l + Patch(r, off, v))
  {
    assert b == (pre + l) + r;
    SpliceInside(pre + l, r, off, v);
  }

  /** Writing block i after the linked blocks before it. */
  lemma AppendStep(k: Constants, d: FileData, channels: seq<ChannelData>, base: nat, pre: seq<Cell>, i: nat)
    requires ValidConstants(k) && ChannelsFit(d, channels) && i < |channels|
    ensures (pre + LinkedBlocks(k, d, channels, base, i)) + RawBlock(k, d, channels, base, i)
            == pre + Blocks(k, d, channels, base, i + 1)
  {
  }
}
