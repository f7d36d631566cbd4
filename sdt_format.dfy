/** The Becker & Hickl SDT histogram file as the writer fills it in: the
    file header, the text blocks, the measurement descriptor and the data
    block headers, with the integer and bit fields the writer computes.  The
    struct layouts come from the vendor's SPC_data_file_structure.h, which is
    not part of this model: the sizes, the offset of next_block_offs and the
    vendor constants are parameters (Constants below). */
module SdtFormat {
  import opened Bits

  type Uint16 = x: int | 0 <= x < 0x1_0000

  /** C's (short) conversion: the value modulo 2^16, read as signed. */
  function I16(x: int): (r: int)
    ensures -0x8000 <= r < 0x8000
    ensures (r - x) % 0x1_0000 == 0
    ensures -0x8000 <= x < 0x8000 ==> r == x
  {
    (x + 0x8000) % 0x1_0000 - 0x8000
  }

  /** C's conversion to a 32-bit unsigned long. */
  function U32(x: int): (r: nat)
    ensures r < 0x1_0000_0000
    ensures (r - x) % 0x1_0000_0000 == 0
    ensures 0 <= x < 0x1_0000_0000 ==> r == x
  {
    x % 0x1_0000_0000
  }

  // ---------------------------------------------------------------------
  // Bitwise operations on non-negative integers

  function BitOr(a: nat, b: nat): (r: nat)
    ensures r >= a && r >= b
  {
    if a == 0 && b == 0 then 0
    else 2 * BitOr(a / 2, b / 2) + (if a % 2 == 1 || b % 2 == 1 then 1 else 0)
  }

  function BitAnd(a: nat, b: nat): (r: nat)
    ensures r <= a && r <= b
  {
    if a == 0 || b == 0 then 0
    else 2 * BitAnd(a / 2, b / 2) + (if a % 2 == 1 && b % 2 == 1 then 1 else 0)
  }

  /** A value below 2^k shares no bit with a multiple of 2^k. */
  lemma {:induction false} AndDisjoint(a: nat, b: nat, k: nat)
    requires a < Pow2(k) && b % Pow2(k) == 0
    ensures BitAnd(a, b) == 0
  {
    if a != 0 && b != 0 {
      assert k > 0;
      HalveMultiple(b, k);
      AndDisjoint(a / 2, b / 2, k - 1);
    }
  }

  /** Or-ing a value below 2^k into a multiple of 2^k adds it. */
  lemma {:induction false} OrDisjoint(a: nat, b: nat, k: nat)
    requires a < Pow2(k) && b % Pow2(k) == 0
    ensures BitOr(a, b) == a + b
  {
    if a != 0 || b != 0 {
      if a == 0 {
        OrZero(b);
      } else {
        assert k > 0;
        HalveMultiple(b, k);
        OrDisjoint(a / 2, b / 2, k - 1);
      }
    }
  }

  lemma {:induction false} OrZero(b: nat)
    ensures BitOr(0, b) == b
  {
    if b != 0 {
      OrZero(b / 2);
    }
  }

  lemma HalveMultiple(b: nat, k: nat)
    requires k > 0 && b % Pow2(k) == 0
    ensures b % 2 == 0 && (b / 2) % Pow2(k - 1) == 0
  {
    var p, q := Pow2(k - 1), b / Pow2(k);
    assert b == Pow2(k) * q;
    assert b == 2 * (p * q);
    MultipleMod(p, q);
  }

  lemma MultipleMod(p: nat, q: nat)
    requires p > 0
    ensures (p * q) % p == 0
  {
    DivModUnique(p * q, p, q, 0);
  }

  lemma DivModUnique(a: int, b: nat, q: int, r: int)
    requires b > 0 && 0 <= r < b && a == b * q + r
    ensures a % b == r && a / b == q
  {
    var q', r' := a / b, a % b;
    assert a == b * q' + r';
    assert q' < q ==> b * (q' + 1) <= b * q;
    assert q < q' ==> b * (q + 1) <= b * q';
  }

  /** The powers of two the fields use. */
  lemma Pow2Values()
    ensures Pow2(4) == 16 && Pow2(8) == 0x100 && Pow2(16) == 0x1_0000
    ensures Pow2(20) == 0x10_0000 && Pow2(24) == 0x100_0000
  {
    assert Pow2(2) == 4;
    assert Pow2(4) == 16 by { Pow2Split(2, 2); }
    Pow2Split(4, 4);
    Pow2Split(8, 8);
    Pow2Split(16, 4);
    Pow2Split(16, 8);
  }

  // ---------------------------------------------------------------------
  // C strings

  /** The C string a character array holds: up to its first NUL. */
  function CStr(s: string): (r: string)
    ensures '\0' !in r
    ensures r <= s
    ensures '\0' !in s ==> r == s
    ensures |r| < |s| ==> s[|r|] == '\0'
  {
    if s == [] || s[0] == '\0' then [] else [s[0]] + CStr(s[1..])
  }

  /** The number a string of decimal digits spells, most significant
      first. */
  function DigitsValue(s: string): int
  {
    if s == [] then 0 else 10 * DigitsValue(s[..|s| - 1]) + (s[|s| - 1] as int - '0' as int)
  }

  /** %u formatting: the decimal digits of n, without leading zeros. */
  function Decimal(n: nat): (r: string)
    ensures |r| > 0
    ensures forall i :: 0 <= i < |r| ==> '0' <= r[i] <= '9'
    ensures DigitsValue(r) == n
    ensures n > 0 ==> r[0] != '0'
  {
    var d := [(('0' as int) + n % 10) as char];
    if n < 10 then d else Decimal(n / 10) + d
  }

  // ---------------------------------------------------------------------
  // Vendor layout and constants

  /** What the vendor header fixes: struct sizes, the offset of
      next_block_offs within a data block header, the width of unsigned
      long, BH_HDR_LENGTH, the header validity markers and checksum
      constant, the block type bits, SPC_CMD_STOP and the FIFO identifier
      text. */
  datatype Constants = Constants(
    headerSize: nat, blockHeaderSize: nat, nextBlockOffsField: nat, ulongSize: nat,
    measureInfoSize: nat, hdrLength: nat,
    headerNotValid: nat, headerValid: nat, headerChksum: nat,
    fifoData: nat, imgBlock: nat, dataUshort: nat,
    cmdStop: int, fcsDataIdentifier: string)

  /** What the writer relies on: the header has a last byte, and the
      next_block_offs field lies inside the data block header. */
  predicate ValidConstants(k: Constants)
  {
    k.headerSize > 0 && k.nextBlockOffsField + k.ulongSize <= k.blockHeaderSize
  }

  /** The block type bits are 16-bit flags. */
  predicate BlockTypeBitsFit(k: Constants)
  {
    k.fifoData < 0x1_0000 && k.imgBlock < 0x1_0000 && k.dataUshort < 0x1_0000
  }

  // ---------------------------------------------------------------------
  // File header

  datatype Header = Header(
    revision: int, infoOffs: int, infoLength: int, setupOffs: int, setupLength: int,
    dataBlockOffs: int, noOfDataBlocks: int, dataBlockLength: int,
    measDescBlockOffs: int, noOfMeasDescBlocks: int, measDescBlockLength: int,
    headerValid: int, reserved1: int, chksum: int)

  /** The header as memset leaves it. */
  const ZeroHeader := Header(0, 0, 0, 0, 0, 0, 0, 0, 0, 0, 0, 0, 0, 0)

  /** The module type code of the revision field; 0 for an unknown model.
      The name is a C string's contents. */
  function ModuleTypeToHeaderBits(t: string): (r: Uint16)
    ensures r < 0x100
  {
    if t == "SPC-130" then 0x20
    else if t == "SPC-600" then 0x21
    else if t == "SPC-630" then 0x22
    else if t == "SPC-700" then 0x23
    else if t == "SPC-730" then 0x24
    else if t == "SPC-830" then 0x25
    else if t == "SPC-140" then 0x26
    else if t == "SPC-930" then 0x27
    else if t == "SPC-150" then 0x28
    else if t == "DPC-230" then 0x29
    else if t == "SPC-130EM" then 0x2a
    else if t == "SPC-160" then 0x2b
    else if t == "SPC-150N" then 0x2e
    else if t == "SPC-150NX" then 0x80
    else if t == "SPC-160X" then 0x81
    else if t == "SPC-160PCIE" then 0x82
    else 0
  }

  const ModuleNames: seq<string> := [
    "SPC-130", "SPC-600", "SPC-630", "SPC-700", "SPC-730", "SPC-830", "SPC-140", "SPC-930",
    "SPC-150", "DPC-230", "SPC-130EM", "SPC-160", "SPC-150N", "SPC-150NX", "SPC-160X", "SPC-160PCIE"]

  const ModuleCodes: seq<Uint16> := [
    0x20, 0x21, 0x22, 0x23, 0x24, 0x25, 0x26, 0x27,
    0x28, 0x29, 0x2a, 0x2b, 0x2e, 0x80, 0x81, 0x82]

  /** Each known model gets its code from the table. */
  lemma ModuleCodeOf(i: nat)
    requires i < |ModuleNames|
    ensures ModuleTypeToHeaderBits(ModuleNames[i]) == ModuleCodes[i]
  {
  }

  /** The codes rise along the table. */
  lemma {:induction false} ModuleCodesIncreasing(i: nat, j: nat)
    requires i < j < |ModuleCodes|
    ensures ModuleCodes[i] < ModuleCodes[j]
  {
    assert forall n :: 0 <= n < |ModuleCodes| - 1 ==> ModuleCodes[n] < ModuleCodes[n + 1];
    if i + 1 < j {
      ModuleCodesIncreasing(i, j - 1);
    }
  }

  /** The sixteen known models get sixteen different nonzero codes. */
  lemma ModuleCodesDistinct(i: nat, j: nat)
    requires i < |ModuleNames| && j < |ModuleNames|
    ensures ModuleTypeToHeaderBits(ModuleNames[i]) != 0
    ensures ModuleTypeToHeaderBits(ModuleNames[i]) == ModuleTypeToHeaderBits(ModuleNames[j]) ==> i == j
  {
    ModuleCodeOf(i);
    ModuleCodeOf(j);
    if i < j {
      ModuleCodesIncreasing(i, j);
    } else if j < i {
      ModuleCodesIncreasing(j, i);
    }
  }

  /** The code is 0 exactly for a name outside the table. */
  lemma UnknownModuleCode(t: string)
    ensures ModuleTypeToHeaderBits(t) == 0 <==> t !in ModuleNames
  {
    if t in ModuleNames {
      var i :| 0 <= i < |ModuleNames| && ModuleNames[i] == t;
      ModuleCodesDistinct(i, i);
    }
  }

  /** The revision field: file format revision 15 in bits 0-3, the module
      type code above it. */
  function Revision(modelName: string): nat
  {
    ModuleTypeToHeaderBits(CStr(modelName)) * 16 + 15
  }

  /** The revision is 15 or'ed with the module type code shifted left by
      4; the two occupy distinct bits, so that is the sum above. */
  lemma RevisionBits(modelName: string)
    ensures Revision(modelName) == BitOr(15, ModuleTypeToHeaderBits(CStr(modelName)) * Pow2(4))
    ensures Revision(modelName) % 16 == 15 && Revision(modelName) / 16 == ModuleTypeToHeaderBits(CStr(modelName))
    ensures Revision(modelName) < 0x1000
  {
    var code := ModuleTypeToHeaderBits(CStr(modelName));
    Pow2Values();
    assert (code * 16) % Pow2(4) == 0;
    OrDisjoint(15, code * 16, 4);
  }

  /** The header first written, marked not valid. */
  function InvalidHeader(k: Constants, modelName: string): (h: Header)
    ensures h.headerValid == k.headerNotValid && h.revision == Revision(modelName)
  {
    ZeroHeader.(revision := Revision(modelName), headerValid := k.headerNotValid)
  }

  // ---------------------------------------------------------------------
  // Header checksum

  /** The sum of some 16-bit words. */
  function Sum(words: seq<Uint16>): nat
  {
    if words == [] then 0 else Sum(words[..|words| - 1]) + words[|words| - 1]
  }

  /** How many header words the checksum covers: all but the last of the
      BH_HDR_LENGTH / 2 words, which holds the checksum itself. */
  function ChecksumWords(k: Constants): int
  {
    k.hdrLength / 2 - 1
  }

  /** The checksum that brings the covered words' sum modulo 2^16 to the
      checksum constant. */
  function Checksum(k: Constants, words: seq<Uint16>): (r: Uint16)
    requires ChecksumWords(k) <= |words|
    ensures ChecksumWords(k) >= 0 ==> (Sum(words[..ChecksumWords(k)]) + r) % 0x1_0000 == k.headerChksum % 0x1_0000
  {
    var n := if ChecksumWords(k) < 0 then 0 else ChecksumWords(k);
    (k.headerChksum - Sum(words[..n])) % 0x1_0000
  }

  /** HeaderChecksum: a 16-bit running sum, negated and offset by the
      checksum constant. */
  method HeaderChecksum(k: Constants, words: seq<Uint16>) returns (r: Uint16)
    requires ChecksumWords(k) <= |words|
    ensures r == Checksum(k, words)
  {
    var n := ChecksumWords(k);
    var sum: Uint16 := 0;
    var i := 0;
    while i < n
      invariant 0 <= i && (n < 0 ==> i == 0) && (n >= 0 ==> i <= n)
      invariant sum == Sum(words[..i]) % 0x1_0000
    {
      assert words[..i + 1][..i] == words[..i];
      ModAdd(Sum(words[..i]), words[i]);
      sum := (sum + words[i]) % 0x1_0000;
      i := i + 1;
    }
    r := (k.headerChksum - sum) % 0x1_0000;
    ModSub(k.headerChksum, Sum(words[..i]));
  }

  lemma ModAdd(a: int, b: int)
    ensures (a % 0x1_0000 + b) % 0x1_0000 == (a + b) % 0x1_0000
  {
    var m := 0x1_0000;
    var q := a / m;
    assert a == m * q + a % m;
    assert a + b == (a % m + b) + m * q;
  }

  lemma ModSub(c: int, s: int)
    ensures (c - s % 0x1_0000) % 0x1_0000 == (c - s) % 0x1_0000
  {
    var m := 0x1_0000;
    var q := s / m;
    assert s == m * q + s % m;
    assert c - s % m == (c - s) + m * q;
  }

  // ---------------------------------------------------------------------
  // Text blocks

  /** The strings of parts, one after another. */
  function Concat(parts: seq<string>): string
  {
    if parts == [] then [] else parts[0] + Concat(parts[1..])
  }

  /** The identification block as snprintf formats it, line by line (the
      format's NEWLINE is CR LF): the FIFO identifier flanked by EOT
      characters, the ADC resolution in bits, the date and the time.  The
      heading's spelling is that of files written by the vendor software. */
  function IdentificationText(k: Constants, histogramBits: nat, date: string, time: string): string
  {
    Concat(IdentificationParts(k, histogramBits, date, time))
  }

  function IdentificationParts(k: Constants, histogramBits: nat, date: string, time: string): seq<string>
  {
    [ "*IDENTIFICAION\r\n",
      "  ID        : \U{4}", CStr(k.fcsDataIdentifier), "\U{4}\r\n",
      "  Title     : OpenScan FLIM Image\r\n",
      "  Version   : 3  980 M\r\n",
      "  Revision  : ", Decimal(histogramBits), " bits ADC\r\n",
      "  Date      : ", CStr(date), "\r\n",
      "  Time      : ", CStr(time), "\r\n",
      "  Author    : Unknown\r\n",
      "  Company   : Unknown\r\n",
      "  Contents  : FLIM histogram(s) ", "generated by OpenScan\r\n",
      "*END\r\n",
      "\r\n" ]
  }

  /** The identification text holds no NUL, so strlen counts all of it. */
  lemma IdentificationTextHasNoNul(k: Constants, histogramBits: nat, date: string, time: string)
    ensures '\0' !in IdentificationText(k, histogramBits, date, time)
  {
    HeadLinesHaveNoNul();
    FieldLinesHaveNoNul();
    TailLinesHaveNoNul();
    var bits := Decimal(histogramBits);
    assert '\0' !in bits;
    ConcatHasNoNul(IdentificationParts(k, histogramBits, date, time));
  }

  lemma {:induction false} ConcatHasNoNul(parts: seq<string>)
    requires forall i | 0 <= i < |parts| :: '\0' !in parts[i]
    ensures '\0' !in Concat(parts)
  {
    if parts != [] {
      ConcatHasNoNul(parts[1..]);
    }
  }

  lemma HeadLinesHaveNoNul()
    ensures '\0' !in "*IDENTIFICAION\r\n" && '\0' !in "  ID        : \U{4}" && '\0' !in "\U{4}\r\n"
    ensures '\0' !in "  Title     : OpenScan FLIM Image\r\n" && '\0' !in "  Version   : 3  980 M\r\n"
  {
    NulFreeHasNoNul("*IDENTIFICAION\r\n");
    NulFreeHasNoNul("  ID        : \U{4}");
    NulFreeHasNoNul("\U{4}\r\n");
    NulFreeHasNoNul("  Title     : OpenScan FLIM Image\r\n");
    NulFreeHasNoNul("  Version   : 3  980 M\r\n");
  }

  lemma FieldLinesHaveNoNul()
    ensures '\0' !in "  Revision  : " && '\0' !in " bits ADC\r\n" && '\0' !in "\r\n"
    ensures '\0' !in "  Date      : " && '\0' !in "  Time      : "
  {
    NulFreeHasNoNul("  Revision  : ");
    NulFreeHasNoNul(" bits ADC\r\n");
    NulFreeHasNoNul("\r\n");
    NulFreeHasNoNul("  Date      : ");
    NulFreeHasNoNul("  Time      : ");
  }

  lemma TailLinesHaveNoNul()
    ensures '\0' !in "  Author    : Unknown\r\n" && '\0' !in "  Company   : Unknown\r\n"
    ensures '\0' !in "  Contents  : FLIM histogram(s) " && '\0' !in "generated by OpenScan\r\n"
    ensures '\0' !in "*END\r\n"
  {
    NulFreeHasNoNul("  Author    : Unknown\r\n");
    NulFreeHasNoNul("  Company   : Unknown\r\n");
    NulFreeHasNoNul("  Contents  : FLIM histogram(s) ");
    NulFreeHasNoNul("generated by OpenScan\r\n");
    NulFreeHasNoNul("*END\r\n");
  }

  /** No character of s is NUL. */
  predicate NulFree(s: string)
  {
    forall i | 0 <= i < |s| :: s[i] != '\0'
  }

  lemma NulFreeHasNoNul(s: string)
    requires NulFree(s)
    ensures '\0' !in s
  {
  }

  /** The setup block is empty. */
  const SetupText: string := "*SETUP\r\n*END\r\n\r\n"

  lemma SetupTextLength()
    ensures |SetupText| == 16 && '\0' !in SetupText && CStr(SetupText) == SetupText
  {
  }

  // ---------------------------------------------------------------------
  // Measurement descriptor

  function Flag(b: bool): nat
  {
    if b then 1 else 0
  }

  /** StopInfo.flags: pixel, line and frame clock detected in bits 0-2, end
      of frame found (bit 7), first frame and line present (bit 8), rate
      counter ranges recorded in bit 15.  The terms occupy distinct bits, so
      or-ing them adds them. */
  function StopFlags(pixelMarkers: bool, lineMarkers: bool, frameMarkers: bool, rateRanges: bool): (r: nat)
    ensures r % 2 == Flag(pixelMarkers)
    ensures (r / 2) % 2 == Flag(lineMarkers)
    ensures (r / 4) % 2 == Flag(frameMarkers)
    ensures r % 128 < 8
    ensures (r / 128) % 2 == 1 && (r / 256) % 2 == 1
    ensures (r / 512) % 64 == 0
    ensures r / 0x8000 == Flag(rateRanges)
  {
    Flag(pixelMarkers) + 2 * Flag(lineMarkers) + 4 * Flag(frameMarkers) + 0x80 + 0x100
      + 0x8000 * Flag(rateRanges)
  }

  /** dig_flags: the master clock in bit 0, an inverted time axis in bit 2. */
  function DigFlags(masterClock: bool, timeInverted: bool): (r: nat)
    ensures r % 2 == Flag(masterClock) && (r / 2) % 2 == 0 && r / 4 == Flag(timeInverted)
  {
    Flag(masterClock) + 4 * Flag(timeInverted)
  }

  /** What the measurement descriptor records about one channel's
      histogram.  Fields copied from the board parameters, the floating
      point fields, the strings and the reserved fields are not modelled. */
  datatype MeasureInfo = MeasureInfo(
    measMode: int, adcRe: int, ncx: int, ncy: int, page: int, stopt: int,
    overfl: char, useMotor: int, steps: int, incr: int, memBank: int, deadTimeComp: int,
    polarityL: int, polarityF: int, polarityP: int, linediv: int, accumulate: int,
    flbckY: int, flbckX: int, bordU: int, bordL: int, pixClk: int,
    scanX: int, scanY: int, scanRx: int, scanRy: int, fifoTyp: int,
    modTypeCode: int, modFpgaVer: int, adcZoom: int, cycles: int,
    stopStatus: int, stopFlags: int, curStep: int, curCycle: int, curPage: int,
    chan: int, fcsDecayCalc: int, mtResol: int, calcPhotons: int, fcsPoints: int,
    overruns: int, fcsType: int, crossChan: int, mod: int, crossMod: int, crossMtResol: int,
    imageX: int, imageY: int, imageRx: int, imageRy: int, digFlags: int,
    scanType: int, skip2ndLineClk: int, rightBorder: int,
    mosaicX: int, mosaicY: int, framesPerEl: int, chanPerEl: int)

  /** What the writer is told about the acquisition (the integer part). */
  datatype FileData = FileData(
    modelName: string, histogramBits: nat, date: string, time: string,
    numChannels: nat, width: nat, height: nat, moduleNumber: nat,
    modelCode: int, fpgaVersion: int, macroTimeUnitsTenthNs: int,
    pixelMarkersRecorded: bool, lineMarkersRecorded: bool, frameMarkersRecorded: bool,
    usePixelMarker: bool, recordRateCounterRanges: bool,
    masterClock: bool, histogramTimeInverted: bool)

  /** One channel: its number, its photon count and its histogram. */
  datatype ChannelData = ChannelData(channel: nat, numPhotons: int, histogram: seq<Uint16>)

  function MeasurementDesc(k: Constants, d: FileData, c: ChannelData): (m: MeasureInfo)
    // The time bins times the image size count the samples of each data
    // block, whose 16-bit samples make the header's data block length.
    ensures m.adcRe * m.imageX * m.imageY == NumSamples(d)
    ensures U32(2 * (m.adcRe * m.imageX * m.imageY)) == DataBlockLength(d)
    // One image row per channel, and the descriptor describes its own
    // channel and module (no cross correlation).
    ensures m.imageRx == m.ncx && m.imageRy == m.ncy == 1
    ensures m.chan == m.crossChan && m.mod == m.crossMod
    // Line polarity 1 (line clock present) exactly when the stop flags
    // record line markers.
    ensures m.polarityL == 1 <==> (m.stopFlags / 2) % 2 == 1
  {
    SamplesRotated(d);
    MeasureInfo(
      measMode := 13, adcRe := Pow2(d.histogramBits), ncx := d.numChannels, ncy := 1, page := 1, stopt := 0,
      overfl := 'N', useMotor := 0, steps := 1, incr := 1, memBank := 0, deadTimeComp := 0,
      polarityL := if d.lineMarkersRecorded then 1 else 2, polarityF := 1, polarityP := 1,
      linediv := 0, accumulate := 0, flbckY := 1, flbckX := 1, bordU := 0, bordL := 0,
      pixClk := Flag(d.usePixelMarker),
      scanX := 0, scanY := 0, scanRx := 0, scanRy := 0, fifoTyp := 0,
      modTypeCode := d.modelCode, modFpgaVer := d.fpgaVersion, adcZoom := 0, cycles := 1,
      stopStatus := k.cmdStop,
      stopFlags := StopFlags(d.pixelMarkersRecorded, d.lineMarkersRecorded,
                             d.frameMarkersRecorded, d.recordRateCounterRanges),
      curStep := 1, curCycle := 1, curPage := 1,
      chan := c.channel, fcsDecayCalc := 32, mtResol := d.macroTimeUnitsTenthNs,
      calcPhotons := c.numPhotons, fcsPoints := 0, overruns := 0, fcsType := 0,
      crossChan := c.channel, mod := d.moduleNumber, crossMod := d.moduleNumber,
      crossMtResol := d.macroTimeUnitsTenthNs,
      imageX := d.width, imageY := d.height, imageRx := d.numChannels, imageRy := 1,
      digFlags := DigFlags(d.masterClock, d.histogramTimeInverted),
      scanType := 0, skip2ndLineClk := 0, rightBorder := 0,
      mosaicX := 1, mosaicY := 1, framesPerEl := 1, chanPerEl := 1)
  }

  lemma SamplesRotated(d: FileData)
    ensures Pow2(d.histogramBits) * d.width * d.height == NumSamples(d)
  {
    var w, h, t := d.width, d.height, Pow2(d.histogramBits);
    calc {
      t * w * h;
      t * (w * h);
      (w * h) * t;
    }
  }

  // ---------------------------------------------------------------------
  // Data block header

  datatype BlockHeader = BlockHeader(
    dataOffs: int, nextBlockOffs: int, blockType: nat, measDescBlockNo: int,
    lblockNo: LBlockNoOperands, blockLength: nat)

  /** The lblock_no field, kept as the three values it is or'ed together
      from; Value() is the number they make. */
  datatype LBlockNoOperands = LBlockNoOperands(moduleNumber: nat, blockType: nat, channel: nat)
  {
    function Value(): nat
    {
      LBlockNo(moduleNumber, blockType, channel)
    }
  }

  /** The samples of one histogram: width * height pixels of
      2^histogramBits time bins. */
  function NumSamples(d: FileData): nat
  {
    d.width * d.height * Pow2(d.histogramBits)
  }

  /** The byte length of one histogram as an unsigned long. */
  function DataBlockLength(d: FileData): nat
  {
    U32(NumSamples(d) * 2)
  }

  /** FIFO data, image block, 16-bit samples. */
  function BlockType(k: Constants): nat
  {
    BitOr(BitOr(k.fifoData, k.imgBlock), k.dataUshort)
  }

  /** Or'ed together, 16-bit flags make a 16-bit block type. */
  lemma BlockTypeFits(k: Constants)
    requires BlockTypeBitsFit(k)
    ensures BlockType(k) < 0x1_0000
  {
    Pow2Values();
    OrBelow(k.fifoData, k.imgBlock, 16);
    OrBelow(BitOr(k.fifoData, k.imgBlock), k.dataUshort, 16);
  }

  lemma {:induction false} OrBelow(a: nat, b: nat, n: nat)
    requires a < Pow2(n) && b < Pow2(n)
    ensures BitOr(a, b) < Pow2(n)
  {
    if a != 0 || b != 0 {
      assert n > 0;
      OrBelow(a / 2, b / 2, n - 1);
    }
  }

  /** lblock_no as written: the module number in bits 24 and up, the
      channel below, and a middle term that is meant to carry the block type
      but masks bits 20-23 of block_type >> 4, since the shift binds
      tighter than the and. */
  function LBlockNo(moduleNumber: nat, blockType: nat, channel: nat): nat
  {
    BitOr(BitOr(moduleNumber * Pow2(24), BitAnd(blockType / 16, 0xf * Pow2(20))), channel)
  }

  /** For a 16-bit block type the middle term vanishes, so lblock_no is the
      module number shifted to bit 24 plus a channel below 2^24. */
  lemma LBlockNoValue(moduleNumber: nat, blockType: nat, channel: nat)
    requires blockType < 0x1_0000 && channel < Pow2(24)
    ensures LBlockNo(moduleNumber, blockType, channel) == moduleNumber * Pow2(24) + channel
  {
    MiddleTermVanishes(blockType);
    ShiftedOr(moduleNumber, channel);
  }

  lemma ShiftedOr(moduleNumber: nat, c: nat)
    requires c < Pow2(24)
    ensures BitOr(BitOr(moduleNumber * Pow2(24), 0), c) == moduleNumber * Pow2(24) + c
  {
    MultipleMod(Pow2(24), moduleNumber);
    OrLowBits(moduleNumber * Pow2(24), c);
  }

  /** A value below 2^24 or'ed onto a multiple of 2^24 adds to it. */
  lemma OrLowBits(m: nat, c: nat)
    requires m % Pow2(24) == 0 && c < Pow2(24)
    ensures BitOr(BitOr(m, 0), c) == m + c
  {
    OrWithZero(m);
    OrDisjoint(c, m, 24);
    OrSymmetric(c, m);
  }

  lemma OrWithZero(m: nat)
    ensures BitOr(m, 0) == m
  {
    OrZero(m);
    OrSymmetric(0, m);
  }

  /** The middle term of lblock_no is zero for a 16-bit block type. */
  lemma MiddleTermVanishes(blockType: nat)
    requires blockType < 0x1_0000
    ensures BitAnd(blockType / 16, 0xf * Pow2(20)) == 0
  {
    Pow2Values();
    MultipleMod(Pow2(20), 0xf);
    AndDisjoint(blockType / 16, 0xf * Pow2(20), 20);
  }

  lemma {:induction false} OrSymmetric(a: nat, b: nat)
    ensures BitOr(a, b) == BitOr(b, a)
  {
    if a != 0 || b != 0 {
      OrSymmetric(a / 2, b / 2);
    }
  }

  lemma {:induction false} Pow2Increasing(a: nat, b: nat)
    requires a < b
    ensures Pow2(a) < Pow2(b)
  {
    if a + 1 < b {
      Pow2Increasing(a, b - 1);
    }
  }

  lemma {:induction false} Pow2Split(a: nat, b: nat)
    ensures Pow2(a + b) == Pow2(a) * Pow2(b)
  {
    if a > 0 {
      Pow2Split(a - 1, b);
    }
  }

  /** The header of a data block written at headerOffset. */
  function DataBlockHeader(k: Constants, d: FileData, headerOffset: nat, channel: nat): (b: BlockHeader)
    ensures b.dataOffs == headerOffset + k.blockHeaderSize
    ensures b.nextBlockOffs == 0
    ensures b.measDescBlockNo == channel
    ensures b.blockLength == DataBlockLength(d)
  {
    var blockType := BlockType(k);
    BlockHeader(
      dataOffs := headerOffset + k.blockHeaderSize,
      nextBlockOffs := 0,
      blockType := blockType,
      measDescBlockNo := channel,
      lblockNo := LBlockNoOperands(d.moduleNumber, blockType, channel),
      blockLength := DataBlockLength(d))
  }

  /** The lblock_no of a data block: the module number shifted to bit 24
      with the channel below it, when the channel fits in 24 bits. */
  lemma DataBlockLBlockNo(k: Constants, d: FileData, headerOffset: nat, channel: nat)
    requires BlockTypeBitsFit(k) && channel < Pow2(24)
    ensures DataBlockHeader(k, d, headerOffset, channel).lblockNo.Value() == d.moduleNumber * Pow2(24) + channel
  {
    BlockTypeFits(k);
    LBlockNoValue(d.moduleNumber, BlockType(k), channel);
  }
}
