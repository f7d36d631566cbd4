/** The SDT writer: the identification and setup texts, the measurement
    descriptors and the data blocks written one after another, each block's
    next_block_offs patched once the following block's start is known, and
    the header first written marked not valid and rewritten valid, with its
    checksum, only when everything else has been written. */
module SdtWriter {
  import opened SdtFormat
  import opened SdtImage
  import opened SdtLayout
  import opened Bits

  /** Writes the identification text; fails (1) when it is 2^20 - 1
      characters or longer or is not written in full.  The NUL terminator
      is not written. */
  method WriteSDTIdentification(f: File, k: Constants, d: FileData) returns (err: int)
    modifies f
    ensures err == 0 || err == 1
    ensures WrotePrefix(old(f.bytes), old(f.pos), f.bytes, f.pos, TextCells(IdText(k, d)))
    ensures err == 0 <==> |IdText(k, d)| < 0x10_0000 - 1 && f.pos == old(f.pos) + |IdText(k, d)|
  {
    IdentificationTextHasNoNul(k, d.histogramBits, d.date, d.time);
    err := WriteThroughGrowingBuffer(f, IdText(k, d));
  }

  /** The retry loop of WriteSDTIdentification: the text is formatted into
      a buffer of 512 bytes, doubled while the text may not have fit, up to
      1 MiB; what the buffer then holds up to its NUL is written. */
  method WriteThroughGrowingBuffer(f: File, text: string) returns (err: int)
    requires '\0' !in text
    modifies f
    ensures err == 0 || err == 1
    ensures WrotePrefix(old(f.bytes), old(f.pos), f.bytes, f.pos, TextCells(text))
    ensures err == 0 <==> |text| < 0x10_0000 - 1 && f.pos == old(f.pos) + |text|
  {
    Pow2Values();
    Pow2Split(8, 1);
    var bufSize := 0;
    ghost var e := 0;
    while true
      invariant bufSize == 0 ==> e == 0
      invariant bufSize != 0 ==> 9 <= e < 20 && bufSize == Pow2(e) && |text| >= bufSize - 1
      invariant f.bytes == old(f.bytes) && f.pos == old(f.pos)
      decreases 20 - e
    {
      if bufSize == 0 {
        bufSize, e := 512, 9;
      } else {
        bufSize, e := 2 * bufSize, e + 1;
      }
      // snprintf keeps at most bufSize - 1 characters; strlen stops at a NUL
      var kept := if |text| < bufSize - 1 then |text| else bufSize - 1;
      var buf := CStr(text[..kept]);
      var len := |buf|;
      if len >= bufSize - 1 { // may not have fit
        if bufSize >= 1024 * 1024 {
          return 1;
        }
        Pow2Increasing(e, 20);
        continue;
      }
      if e < 20 {
        Pow2Increasing(e, 20);
      }
      assert text[..kept] == text;
      ghost var b, p := f.bytes, f.pos;
      var written := f.Write(TextCells(buf));
      WriteWrotePrefix(b, p, f.bytes, f.pos, TextCells(text), written);
      return if written < len then 1 else 0;
    }
  }

  /** Writes the setup text; fails (1) on a short write. */
  method WriteSDTEmptySetup(f: File) returns (err: int)
    modifies f
    ensures err == 0 || err == 1
    ensures WrotePrefix(old(f.bytes), old(f.pos), f.bytes, f.pos, TextCells(SetupText))
    ensures err == 0 <==> f.pos == old(f.pos) + |SetupText|
  {
    SetupTextLength();
    var len := |SetupText|;
    ghost var b, p := f.bytes, f.pos;
    var written := f.Write(TextCells(SetupText));
    WriteWrotePrefix(b, p, f.bytes, f.pos, TextCells(SetupText), written);
    if written < len {
      return 1;
    }
    return 0;
  }

  /** Writes one channel's measurement descriptor; fails (1) unless the
      whole record is written. */
  method WriteSDTMeasurementDescBlock(f: File, k: Constants, d: FileData, c: ChannelData) returns (err: int)
    modifies f
    ensures err == 0 || err == 1
    ensures WrotePrefix(old(f.bytes), old(f.pos), f.bytes, f.pos, MeasureInfoCells(k, MeasurementDesc(k, d, c)))
    ensures err == 0 <==> f.pos == old(f.pos) + k.measureInfoSize
  {
    var b := MeasurementDesc(k, d, c);
    var written := f.Write(MeasureInfoCells(k, b));
    WriteWrotePrefix(old(f.bytes), old(f.pos), f.bytes, f.pos, MeasureInfoCells(k, b), written);
    if written < k.measureInfoSize {
      return 1;
    }
    return 0;
  }

  /** Writes a data block, header then samples, where the cursor stands,
      and says where its next_block_offs field is; fails (1) unless both
      are written whole. */
  method WriteSDTHistogramDataBlock(f: File, k: Constants, d: FileData, c: ChannelData)
    returns (err: int, nextBlockOffsetFieldOffset: nat)
    requires ValidConstants(k) && NumSamples(d) <= |c.histogram|
    modifies f
    ensures nextBlockOffsetFieldOffset == old(f.pos) + k.nextBlockOffsField
    ensures err == 0 || err == 1
    ensures WrotePrefix(old(f.bytes), old(f.pos), f.bytes, f.pos, DataBlockCells(k, d, old(f.pos), c))
    ensures err == 0 <==> f.pos == old(f.pos) + BlockSize(k, d)
  {
    var numSamples := NumSamples(d);
    var headerOffset := f.pos;
    var header := DataBlockHeader(k, d, headerOffset, c.channel);
    nextBlockOffsetFieldOffset := headerOffset + k.nextBlockOffsField;
    var headerCells := BlockHeaderCells(k, header);
    var written := f.Write(headerCells);
    WriteWrotePrefix(old(f.bytes), headerOffset, f.bytes, f.pos, headerCells, written);
    if written < k.blockHeaderSize {
      WrotePrefixOfLonger(old(f.bytes), headerOffset, f.bytes, f.pos, headerCells, DataBlockCells(k, d, headerOffset, c));
      return 1, nextBlockOffsetFieldOffset;
    }
    ghost var b1, p1 := f.bytes, f.pos;
    var samples := SampleCells(c.histogram[..numSamples]);
    written := f.Write(samples);
    WriteWrotePrefix(b1, p1, f.bytes, f.pos, samples, written);
    WrotePrefixThen(old(f.bytes), headerOffset, b1, p1, headerCells, f.bytes, f.pos, samples);
    if written < 2 * numSamples {
      return 1, nextBlockOffsetFieldOffset;
    }
    return 0, nextBlockOffsetFieldOffset;
  }

  /** A failure before the final header write: the file's header bytes
      (as many of them as were written) are those of the header marked not
      valid. */
  ghost predicate InvalidHeaderKept(k: Constants, d: FileData, bytes: seq<Cell>)
  {
    var invalid := HeaderCells(k, InvalidHeader(k, d.modelName));
    if |bytes| < k.headerSize then bytes == invalid[..|bytes|] else bytes[..k.headerSize] == invalid
  }

  /** b after a rewrite at its start that stopped after the first n cells
      of header. */
  function RewrittenUpTo(b: seq<Cell>, header: seq<Cell>, n: nat): seq<Cell>
    requires n <= |header|
  {
    Splice(b, 0, header[..n])
  }

  /** A short final header write: everything of file but its header, which
      is the header marked not valid with fewer than all of file's own
      header bytes written over its start. */
  ghost predicate HeaderPartlyRewritten(k: Constants, d: FileData, file: seq<Cell>, bytes: seq<Cell>)
  {
    && k.headerSize <= |file|
    && exists n :: 0 <= n < k.headerSize
         && bytes == RewrittenUpTo(HeaderCells(k, InvalidHeader(k, d.modelName)) + file[k.headerSize..],
                                   file[..k.headerSize], n)
  }

  /** A write after the header, whole or not, keeps the header bytes. */
  lemma WriteKeepsHeader(k: Constants, d: FileData, b: seq<Cell>, p: nat, b': seq<Cell>, p': nat, cells: seq<Cell>)
    requires k.headerSize <= p && k.headerSize <= |b| && InvalidHeaderKept(k, d, b)
    requires WrotePrefix(b, p, b', p', cells)
    ensures k.headerSize <= |b'| && InvalidHeaderKept(k, d, b')
  {
    PrefixKeepsStart(b, p, b', p', cells, k.headerSize);
  }

  /** The header marked not valid, followed by anything, is kept. */
  lemma StartsInvalid(k: Constants, d: FileData, rest: seq<Cell>)
    ensures var bytes := HeaderCells(k, InvalidHeader(k, d.modelName)) + rest;
            k.headerSize <= |bytes| && InvalidHeaderKept(k, d, bytes)
  {
    var invalid := HeaderCells(k, InvalidHeader(k, d.modelName));
    assert (invalid + rest)[..k.headerSize] == invalid;
  }

  /** A short first write of the header marked not valid keeps what it
      wrote of it. */
  lemma ShortFirstWrite(k: Constants, d: FileData, bytes: seq<Cell>, n: nat)
    requires n < k.headerSize && bytes == Splice([], 0, HeaderCells(k, InvalidHeader(k, d.modelName))[..n])
    ensures InvalidHeaderKept(k, d, bytes)
  {
  }

  /** Cells appended after a complete header keep it. */
  lemma AppendKeepsHeader(k: Constants, d: FileData, b: seq<Cell>, b': seq<Cell>)
    requires k.headerSize <= |b| <= |b'| && b'[..|b|] == b && InvalidHeaderKept(k, d, b)
    ensures InvalidHeaderKept(k, d, b')
  {
    assert b'[..k.headerSize] == b'[..|b|][..k.headerSize];
  }

  /** A short rewrite of the header of a file whose header is valid and
      whose rest is body. */
  lemma ShortRewrite(k: Constants, d: FileData, file: seq<Cell>, valid: seq<Cell>, body: seq<Cell>,
                     bytes: seq<Cell>, n: nat)
    requires |valid| == k.headerSize && file == valid + body && n < k.headerSize
    requires bytes == RewrittenUpTo(HeaderCells(k, InvalidHeader(k, d.modelName)) + body, valid, n)
    ensures HeaderPartlyRewritten(k, d, file, bytes)
  {
    assert file[..k.headerSize] == valid && file[k.headerSize..] == body;
  }

  /** The last header byte of the SDT file belongs to a header marked
      valid. */
  lemma SdtFileMarkedValid(k: Constants, d: FileData, channels: seq<ChannelData>, words: Header -> seq<Uint16>)
    requires ValidConstants(k) && ChannelsFit(d, channels)
    requires forall h :: ChecksumWords(k) <= |words(h)|
    ensures var file := SdtFile(k, d, channels, words);
            && k.headerSize <= |file|
            && file[k.headerSize - 1].HeaderByte?
            && file[k.headerSize - 1].h.headerValid == k.headerValid
  {
    assert FileHeader(k, d, IdText(k, d), words).headerValid == k.headerValid;
  }

  /** Whichever way WriteSDTFileP fails, the file is not the SDT file, as
      long as the valid and not-valid marks differ. */
  lemma FailedWriteIsNotTheFile(k: Constants, d: FileData, channels: seq<ChannelData>,
                                words: Header -> seq<Uint16>, bytes: seq<Cell>)
    requires ValidConstants(k) && ChannelsFit(d, channels)
    requires forall h :: ChecksumWords(k) <= |words(h)|
    requires k.headerValid != k.headerNotValid
    requires InvalidHeaderKept(k, d, bytes) || HeaderPartlyRewritten(k, d, SdtFile(k, d, channels, words), bytes)
    ensures bytes != SdtFile(k, d, channels, words)
  {
    var file := SdtFile(k, d, channels, words);
    var hs := k.headerSize;
    var invalid := HeaderCells(k, InvalidHeader(k, d.modelName));
    SdtFileMarkedValid(k, d, channels, words);
    if InvalidHeaderKept(k, d, bytes) {
      if |bytes| >= hs {
        assert bytes[hs - 1] == bytes[..hs][hs - 1] == invalid[hs - 1];
      }
    } else {
      var n :| 0 <= n < hs && bytes == RewrittenUpTo(invalid + file[hs..], file[..hs], n);
      ShortWriteKeepsAbove(invalid + file[hs..], file[..hs][..n], hs - 1);
      assert bytes[hs - 1] == invalid[hs - 1];
    }
  }

  /** Rewriting the header in place. */
  lemma HeaderRewrite(k: Constants, old_: Header, new_: Header, rest: seq<Cell>)
    ensures Splice(HeaderCells(k, old_) + rest, 0, HeaderCells(k, new_)) == HeaderCells(k, new_) + rest
  {
    SpliceFront(HeaderCells(k, old_), rest, HeaderCells(k, new_));
  }

  /** The loop of WriteSDTFileP that writes one measurement descriptor per
      channel; it stops at the first that fails. */
  method WriteMeasurementDescBlocks(f: File, k: Constants, d: FileData, channels: seq<ChannelData>)
    returns (err: int)
    requires |channels| == d.numChannels
    modifies f
    ensures err == 0 || err == 1
    ensures WrotePrefix(old(f.bytes), old(f.pos), f.bytes, f.pos, MeasDescs(k, d, channels, |channels|))
    ensures err == 0 <==> f.pos == old(f.pos) + |MeasDescs(k, d, channels, |channels|)|
  {
    ghost var all := MeasDescs(k, d, channels, |channels|);
    for i := 0 to d.numChannels
      invariant WrotePrefix(old(f.bytes), old(f.pos), f.bytes, f.pos, MeasDescs(k, d, channels, i))
      invariant f.pos == old(f.pos) + |MeasDescs(k, d, channels, i)|
    {
      ghost var b, p := f.bytes, f.pos;
      ghost var m := MeasureInfoCells(k, MeasurementDesc(k, d, channels[i]));
      err := WriteSDTMeasurementDescBlock(f, k, d, channels[i]);
      WrotePrefixThen(old(f.bytes), old(f.pos), b, p, MeasDescs(k, d, channels, i), f.bytes, f.pos, m);
      if err != 0 {
        MeasDescsPrefix(k, d, channels, i + 1, |channels|);
        WrotePrefixOfLonger(old(f.bytes), old(f.pos), f.bytes, f.pos, MeasDescs(k, d, channels, i + 1), all);
        return;
      }
    }
    return 0;
  }

  /** The loop of WriteSDTFileP that writes the data blocks from the cursor
      at the end of the file, and, before each block after the first, goes
      back to the previous block's next_block_offs field to write the new
      block's start there.  dataBlockOffs is the first block's start (0 when
      there is none).  Whatever happens, the bytes before the first block
      stay. */
  method WriteHistogramDataBlocks(f: File, k: Constants, d: FileData, channels: seq<ChannelData>)
    returns (err: int, dataBlockOffs: nat)
    requires ValidConstants(k) && ChannelsFit(d, channels)
    requires f.pos == |f.bytes|
    modifies f
    ensures err == 0 || err == 1
    ensures dataBlockOffs == if d.numChannels > 0 then old(f.pos) else 0
    ensures |old(f.bytes)| <= |f.bytes| && f.bytes[..|old(f.bytes)|] == old(f.bytes)
    ensures err == 0 ==> f.bytes == old(f.bytes) + Blocks(k, d, channels, old(f.pos), d.numChannels)
  {
    ghost var pre, base := f.bytes, f.pos;
    dataBlockOffs := 0;
    var nextOffsetPosInPrevBlock: nat := 0;
    for i := 0 to d.numChannels
      invariant f.bytes == pre + Blocks(k, d, channels, base, i)
      invariant f.pos == |f.bytes| == BlockStart(k, d, base, i)
      invariant i > 0 ==> nextOffsetPosInPrevBlock == BlockStart(k, d, base, i - 1) + k.nextBlockOffsField
      invariant dataBlockOffs == if i > 0 then base else 0
    {
      assert f.bytes[..|pre|] == pre;
      var pos := f.pos;
      if i == 0 {
        dataBlockOffs := pos;
      } else {
        var ok := LinkPreviousBlock(f, k, d, channels, pre, i, nextOffsetPosInPrevBlock);
        if !ok {
          return 1, dataBlockOffs;
        }
      }
      ghost var b, p := f.bytes, f.pos;
      var err1;
      err1, nextOffsetPosInPrevBlock := WriteSDTHistogramDataBlock(f, k, d, channels[i]);
      BlockWritten(k, d, channels, pre, i, b, f.bytes, f.pos);
      if err1 != 0 {
        return err1, dataBlockOffs;
      }
    }
    return 0, dataBlockOffs;
  }

  /** Block i written after the blocks before it, in full or not: the
      bytes before the blocks stay, and a whole block completes the first
      i + 1 blocks. */
  lemma BlockWritten(k: Constants, d: FileData, channels: seq<ChannelData>, pre: seq<Cell>, i: nat,
                     b: seq<Cell>, b': seq<Cell>, p': nat)
    requires ValidConstants(k) && ChannelsFit(d, channels) && i < |channels|
    requires b == pre + LinkedBlocks(k, d, channels, |pre|, i) && |b| == BlockStart(k, d, |pre|, i)
    requires WrotePrefix(b, |b|, b', p', DataBlockCells(k, d, |b|, channels[i]))
    ensures |pre| <= |b'| && b'[..|pre|] == pre
    ensures p' == |b| + BlockSize(k, d) ==>
      b' == pre + Blocks(k, d, channels, |pre|, i + 1) && p' == |b'| == BlockStart(k, d, |pre|, i + 1)
  {
    var block := RawBlock(k, d, channels, |pre|, i);
    assert b[..|pre|] == pre;
    PrefixKeepsStart(b, |b|, b', p', block, |pre|);
    if p' == |b| + BlockSize(k, d) {
      BlockLength(k, d, channels, |pre|, i);
      WroteAll(b, b', p', block);
      AppendStep(k, d, channels, |pre|, pre, i);
      BlockStartNext(k, d, |pre|, i);
    }
  }

  /** The turn of the data block loop before block i > 0: the previous
      block's next_block_offs field, at nextOffsetPosInPrevBlock, is
      overwritten with the current position, the start of block i, and the
      cursor returns there.  It fails (false) when a seek fails or the
      offset is not written whole; the bytes before the blocks stay. */
  method LinkPreviousBlock(f: File, k: Constants, d: FileData, channels: seq<ChannelData>, ghost pre: seq<Cell>,
                           i: nat, nextOffsetPosInPrevBlock: nat) returns (ok: bool)
    requires ValidConstants(k) && ChannelsFit(d, channels) && 0 < i < |channels|
    requires f.bytes == pre + Blocks(k, d, channels, |pre|, i) && f.pos == |f.bytes|
    requires nextOffsetPosInPrevBlock == BlockStart(k, d, |pre|, i - 1) + k.nextBlockOffsField
    modifies f
    ensures |pre| <= |f.bytes| && f.bytes[..|pre|] == pre
    ensures ok ==> f.bytes == pre + LinkedBlocks(k, d, channels, |pre|, i) && f.pos == |f.bytes| == BlockStart(k, d, |pre|, i)
  {
    var pos := f.pos;
    assert f.bytes[..|pre|] == pre;
    ok := f.Seek(nextOffsetPosInPrevBlock);
    if !ok {
      return;
    }
    ghost var b, p := f.bytes, f.pos;
    var written := f.Write(OffsetCells(k, pos));
    if written < k.ulongSize {
      WriteWrotePrefix(b, p, f.bytes, f.pos, OffsetCells(k, pos), written);
      PrefixKeepsStart(b, p, f.bytes, f.pos, OffsetCells(k, pos), |pre|);
      return false;
    }
    LinkWritten(k, d, channels, pre, i, b, p, f.bytes, pos, written);
    ok := f.Seek(pos);
  }

  /** The offset of block i written whole into the previous block's
      next_block_offs field links the blocks and leaves the length as it
      was. */
  lemma LinkWritten(k: Constants, d: FileData, channels: seq<ChannelData>, pre: seq<Cell>, i: nat,
                    b: seq<Cell>, p: nat, b': seq<Cell>, pos: nat, written: nat)
    requires ValidConstants(k) && ChannelsFit(d, channels) && 0 < i < |channels|
    requires b == pre + Blocks(k, d, channels, |pre|, i) && pos == |b|
    requires p == BlockStart(k, d, |pre|, i - 1) + k.nextBlockOffsField
    requires written == k.ulongSize && b' == Splice(b, p, OffsetCells(k, pos)[..written])
    ensures b' == pre + LinkedBlocks(k, d, channels, |pre|, i)
    ensures |b'| == pos == BlockStart(k, d, |pre|, i) && |pre| <= |b'| && b'[..|pre|] == pre
  {
    assert OffsetCells(k, pos)[..written] == OffsetCells(k, pos);
    LinkStep(k, d, channels, pre, i, b, p, OffsetCells(k, pos));
    LinkedBlocksLength(k, d, channels, |pre|, i);
  }

  /** Writes the whole file into a freshly truncated file.  On success the
      file is SdtFile.  A failure before the final header write leaves the
      header marked not valid in the header bytes; a short final header
      write leaves its first bytes written over that header and the rest of
      the file as SdtFile has it. */
  method WriteSDTFileP(f: File, k: Constants, d: FileData, channels: seq<ChannelData>,
                       words: Header -> seq<Uint16>) returns (err: int)
    requires ValidConstants(k) && ChannelsFit(d, channels)
    requires forall h :: ChecksumWords(k) <= |words(h)|
    requires f.bytes == [] && f.pos == 0
    modifies f
    ensures err == 0 || err == 1
    ensures err == 0 ==> f.bytes == SdtFile(k, d, channels, words)
    ensures err != 0 ==> InvalidHeaderKept(k, d, f.bytes) || HeaderPartlyRewritten(k, d, SdtFile(k, d, channels, words), f.bytes)
  {
    var header;
    err, header := WriteSDTFileTexts(f, k, d);
    if err != 0 {
      return;
    }
    ghost var idText := IdText(k, d);
    ghost var invalid := HeaderCells(k, InvalidHeader(k, d.modelName));
    ghost var texts := TextCells(idText) + TextCells(SetupText);
    ghost var start := f.pos;
    ghost var b := f.bytes;
    err, header := WriteSDTFileRecords(f, k, d, channels, header);
    if err != 0 {
      StartsInvalid(k, d, texts);
      AppendKeepsHeader(k, d, b, f.bytes);
      return;
    }
    ghost var body := texts + Records(k, d, channels, start);
    assert f.bytes == invalid + body by {
      Assoc(invalid, texts, Records(k, d, channels, start));
    }
    err := WriteValidHeader(f, k, d, words, header, body);
    ghost var valid := HeaderCells(k, Checksummed(k, header.(headerValid := k.headerValid), words));
    FileImageParts(k, d, idText, channels, words);
    if err != 0 {
      ghost var n :| 0 <= n < k.headerSize && f.bytes == RewrittenUpTo(invalid + body, valid, n);
      ShortRewrite(k, d, SdtFile(k, d, channels, words), valid, body, f.bytes, n);
    }
  }

  /** The start of WriteSDTFileP: the header marked not valid, then the
      identification and setup texts, with the header noting where they
      are and how long. */
  method WriteSDTFileTexts(f: File, k: Constants, d: FileData) returns (err: int, header: Header)
    requires ValidConstants(k)
    requires f.bytes == [] && f.pos == 0
    modifies f
    ensures err == 0 || err == 1
    ensures err == 0 ==>
      && header == TextsHeader(k, d, IdText(k, d))
      && f.bytes == HeaderCells(k, InvalidHeader(k, d.modelName)) + (TextCells(IdText(k, d)) + TextCells(SetupText))
      && f.pos == |f.bytes| == MeasDescStart(k, IdText(k, d))
    ensures err != 0 ==> InvalidHeaderKept(k, d, f.bytes)
  {
    header := InvalidHeader(k, d.modelName);
    var written := f.Write(HeaderCells(k, header));
    if written < k.headerSize {
      ShortFirstWrite(k, d, f.bytes, written);
      return 1, header;
    }
    ghost var invalid := HeaderCells(k, header);
    assert f.bytes == invalid && f.pos == k.headerSize;

    header := header.(infoOffs := f.pos);
    ghost var idText := IdText(k, d);
    ghost var id := TextCells(idText);
    ghost var b, p := f.bytes, f.pos;
    err := WriteSDTIdentification(f, k, d);
    if err != 0 {
      StartsInvalid(k, d, []);
      WriteKeepsHeader(k, d, b, p, f.bytes, f.pos, id);
      return;
    }
    WroteAll(b, f.bytes, f.pos, id);
    header := header.(infoLength := I16(f.pos - header.infoOffs));

    header := header.(setupOffs := f.pos);
    b, p := f.bytes, f.pos;
    err := WriteSDTEmptySetup(f);
    if err != 0 {
      StartsInvalid(k, d, id);
      WriteKeepsHeader(k, d, b, p, f.bytes, f.pos, TextCells(SetupText));
      return;
    }
    WroteAll(b, f.bytes, f.pos, TextCells(SetupText));
    header := header.(setupLength := I16(f.pos - header.setupOffs));
    Assoc(invalid, id, TextCells(SetupText));
  }

  /** The middle of WriteSDTFileP, from where the texts end: the
      descriptors and the data blocks, appended, with the header noting
      where they are, how many and how long.  On failure the bytes before
      them stay. */
  method WriteSDTFileRecords(f: File, k: Constants, d: FileData, channels: seq<ChannelData>, partial: Header)
    returns (err: int, header: Header)
    requires ValidConstants(k) && ChannelsFit(d, channels)
    requires f.pos == |f.bytes|
    modifies f
    ensures err == 0 || err == 1
    ensures err == 0 ==>
      && f.bytes == old(f.bytes) + Records(k, d, channels, old(f.pos))
      && header.(headerValid := k.headerValid) == CompletedHeader(k, d, partial, old(f.pos))
    ensures err != 0 ==> |old(f.bytes)| <= |f.bytes| && f.bytes[..|old(f.bytes)|] == old(f.bytes)
  {
    ghost var pre, start := f.bytes, f.pos;
    header := partial.(measDescBlockOffs := f.pos, noOfMeasDescBlocks := d.numChannels,
                       measDescBlockLength := k.measureInfoSize);
    ghost var descs := MeasDescs(k, d, channels, |channels|);
    err := WriteMeasurementDescBlocks(f, k, d, channels);
    if err != 0 {
      PrefixKeepsStart(pre, start, f.bytes, f.pos, descs, |pre|);
      assert pre[..|pre|] == pre;
      return;
    }
    WroteAll(pre, f.bytes, f.pos, descs);
    assert f.pos == start + |channels| * k.measureInfoSize by {
      MeasDescsLength(k, d, channels, |channels|);
    }

    header := header.(noOfDataBlocks := d.numChannels, dataBlockLength := DataBlockLength(d),
                      reserved1 := d.numChannels);
    ghost var b := f.bytes;
    var dataBlockOffs;
    err, dataBlockOffs := WriteHistogramDataBlocks(f, k, d, channels);
    if err != 0 {
      PrefixOfPrefix(pre, b, f.bytes);
      return;
    }
    header := header.(dataBlockOffs := dataBlockOffs);
    RecordsAppended(k, d, channels, pre, start);
  }

  lemma PrefixOfPrefix(a: seq<Cell>, b: seq<Cell>, c: seq<Cell>)
    requires |a| <= |b| <= |c| && b[..|a|] == a && c[..|b|] == b
    ensures c[..|a|] == a
  {
    assert c[..|a|] == c[..|b|][..|a|];
  }

  lemma RecordsAppended(k: Constants, d: FileData, channels: seq<ChannelData>, pre: seq<Cell>, start: nat)
    requires ValidConstants(k) && ChannelsFit(d, channels)
    ensures pre + MeasDescs(k, d, channels, |channels|)
              + Blocks(k, d, channels, start + |channels| * k.measureInfoSize, |channels|)
            == pre + Records(k, d, channels, start)
  {
    Assoc(pre, MeasDescs(k, d, channels, |channels|),
          Blocks(k, d, channels, start + |channels| * k.measureInfoSize, |channels|));
  }

  /** The end of WriteSDTFileP: the header, marked valid and with its
      checksum, written over the one marked not valid at the start of the
      file. */
  method WriteValidHeader(f: File, k: Constants, d: FileData, words: Header -> seq<Uint16>,
                          header: Header, ghost body: seq<Cell>) returns (err: int)
    requires ValidConstants(k)
    requires forall h :: ChecksumWords(k) <= |words(h)|
    requires header.chksum == 0
    requires f.bytes == HeaderCells(k, InvalidHeader(k, d.modelName)) + body
    modifies f
    ensures err == 0 || err == 1
    ensures err == 0 ==> f.bytes == HeaderCells(k, Checksummed(k, header.(headerValid := k.headerValid), words)) + body
    ensures err != 0 ==>
      exists n :: 0 <= n < k.headerSize
        && f.bytes == RewrittenUpTo(old(f.bytes), HeaderCells(k, Checksummed(k, header.(headerValid := k.headerValid), words)), n)
  {
    var valid := header.(headerValid := k.headerValid);
    var sum := HeaderChecksum(k, words(valid));
    ghost var target := HeaderCells(k, Checksummed(k, valid, words));
    var ok := f.Seek(0);
    if !ok {
      assert f.bytes == RewrittenUpTo(f.bytes, target, 0);
      return 1;
    }
    ghost var b := f.bytes;
    var cells := HeaderCells(k, valid.(chksum := sum));
    assert cells == target;
    var written := f.Write(cells);
    if written < k.headerSize {
      assert f.bytes == RewrittenUpTo(b, target, written);
      return 1;
    }
    assert cells[..written] == cells;
    HeaderRewrite(k, InvalidHeader(k, d.modelName), valid.(chksum := sum), body);
    return 0;
  }

  /** Opens the file for writing (which may fail: canOpen), writes it, and
      closes it. */
  method WriteSDTFile(canOpen: bool, k: Constants, d: FileData, channels: seq<ChannelData>,
                      words: Header -> seq<Uint16>) returns (err: int, f: File?)
    requires ValidConstants(k) && ChannelsFit(d, channels)
    requires forall h :: ChecksumWords(k) <= |words(h)|
    ensures f == null <==> !canOpen
    ensures f == null ==> err == 1
    ensures f != null ==> fresh(f) && (err == 0 || err == 1)
    ensures f != null && err == 0 ==> f.bytes == SdtFile(k, d, channels, words)
    ensures f != null && err != 0 ==>
      InvalidHeaderKept(k, d, f.bytes) || HeaderPartlyRewritten(k, d, SdtFile(k, d, channels, words), f.bytes)
  {
    if !canOpen {
      return 1, null; // cannot open file
    }
    f := new File();
    err := WriteSDTFileP(f, k, d, channels, words);
  }
}
