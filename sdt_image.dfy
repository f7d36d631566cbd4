/** The SDT file as the writer sees it: a sequence of bytes under a cursor.
    A byte is named by what it belongs to (a character of a text block, byte
    i of the image of some header or descriptor, byte i of an offset or of a
    sample), because the struct layouts are not part of this model.  Writes
    may stop short and seeks may fail, as fwrite and fseek may. */
module SdtImage {
  import opened SdtFormat

  datatype Cell =
    | Zero
    | Text(c: char)
    | HeaderByte(h: Header, i: nat)
    | MeasureInfoByte(m: MeasureInfo, i: nat)
    | BlockHeaderByte(b: BlockHeader, i: nat)
    | OffsetByte(offset: int, i: nat)
    | SampleByte(sample: Uint16, i: nat)

  function TextCells(s: string): seq<Cell>
  {
    seq(|s|, i requires 0 <= i < |s| => Text(s[i]))
  }

  function HeaderCells(k: Constants, h: Header): seq<Cell>
  {
    seq(k.headerSize, i requires 0 <= i => HeaderByte(h, i))
  }

  function MeasureInfoCells(k: Constants, m: MeasureInfo): seq<Cell>
  {
    seq(k.measureInfoSize, i requires 0 <= i => MeasureInfoByte(m, i))
  }

  function BlockHeaderCells(k: Constants, b: BlockHeader): seq<Cell>
  {
    seq(k.blockHeaderSize, i requires 0 <= i => BlockHeaderByte(b, i))
  }

  /** An unsigned long in the file. */
  function OffsetCells(k: Constants, v: int): seq<Cell>
  {
    seq(k.ulongSize, i requires 0 <= i => OffsetByte(v, i))
  }

  /** 16-bit samples, two bytes each. */
  function SampleCells(samples: seq<Uint16>): seq<Cell>
  {
    seq(2 * |samples|, i requires 0 <= i < 2 * |samples| => SampleByte(samples[i / 2], i % 2))
  }

  function Max(a: nat, b: nat): nat
  {
    if a < b then b else a
  }

  /** The file after data is written at position p: the data replaces what
      was there, a gap between the old end and p reads as zeros, and writing
      nothing changes nothing. */
  function Splice(b: seq<Cell>, p: nat, data: seq<Cell>): (r: seq<Cell>)
    ensures data == [] ==> r == b
    ensures data != [] ==> |r| == Max(|b|, p + |data|)
  {
    if data == [] then b
    else if p <= |b| then b[..p] + data + (if p + |data| < |b| then b[p + |data|..] else [])
    else b + seq(p - |b|, _ => Zero) + data
  }

  /** Byte i after the write: from the data where the data went, else as
      before, else a zero of the gap. */
  lemma SpliceIndex(b: seq<Cell>, p: nat, data: seq<Cell>, i: nat)
    requires data != [] && i < Max(|b|, p + |data|)
    ensures Splice(b, p, data)[i] == if p <= i < p + |data| then data[i - p] else if i < |b| then b[i] else Zero
  {
  }

  /** Writing at the end appends. */
  lemma SpliceAtEnd(b: seq<Cell>, data: seq<Cell>)
    ensures Splice(b, |b|, data) == b + data
  {
  }

  /** Writing inside the tail r of a + r rewrites that stretch of r only. */
  lemma SpliceInside(a: seq<Cell>, r: seq<Cell>, off: nat, v: seq<Cell>)
    requires off + |v| <= |r|
    ensures Splice(a + r, |a| + off, v) == a + (r[..off] + v + r[off + |v|..])
  {
    if v != [] {
      var b, p := a + r, |a| + off;
      assert b[..p] == a + r[..off];
      assert b[p + |v|..] == r[off + |v|..];
      assert Splice(b, p, v) == b[..p] + v + b[p + |v|..];
      assert (a + r[..off]) + v + r[off + |v|..] == a + (r[..off] + v + r[off + |v|..]);
    }
  }

  /** Two writes, the second where the first ended, make one write. */
  lemma SpliceThen(b: seq<Cell>, p: nat, x: seq<Cell>, y: seq<Cell>)
    ensures Splice(Splice(b, p, x), p + |x|, y) == Splice(b, p, x + y)
  {
    if x == [] {
      assert x + y == y;
    } else if y != [] {
      var lhs, rhs := Splice(Splice(b, p, x), p + |x|, y), Splice(b, p, x + y);
      assert |lhs| == |rhs|;
      forall i | 0 <= i < |lhs|
        ensures lhs[i] == rhs[i]
      {
        SpliceThenAt(b, p, x, y, i);
      }
    }
  }

  lemma SpliceThenAt(b: seq<Cell>, p: nat, x: seq<Cell>, y: seq<Cell>, i: nat)
    requires x != [] && y != [] && i < Max(|b|, p + |x| + |y|)
    ensures Splice(Splice(b, p, x), p + |x|, y)[i] == Splice(b, p, x + y)[i]
  {
    SpliceIndex(Splice(b, p, x), p + |x|, y, i);
    SpliceIndex(b, p, x + y, i);
    if i < Max(|b|, p + |x|) {
      SpliceIndex(b, p, x, i);
    }
    if p <= i < p + |x| {
      assert (x + y)[i - p] == x[i - p];
    } else if p + |x| <= i < p + |x| + |y| {
      assert (x + y)[i - p] == y[i - p - |x|];
    }
  }

  /** The file went from (b, p) to (b', p') by writing a prefix of cells at
      p: the outcome of writing cells, in one piece or several, when the
      writing may stop short. */
  ghost predicate WrotePrefix(b: seq<Cell>, p: nat, b': seq<Cell>, p': nat, cells: seq<Cell>)
  {
    p <= p' <= p + |cells| && b' == Splice(b, p, cells[..p' - p])
  }

  /** One write of data that wrote its first n cells. */
  lemma WriteWrotePrefix(b: seq<Cell>, p: nat, b': seq<Cell>, p': nat, data: seq<Cell>, n: nat)
    requires n <= |data| && p' == p + n && b' == Splice(b, p, data[..n])
    ensures WrotePrefix(b, p, b', p', data)
  {
  }

  /** A prefix of x followed, once x is complete, by a prefix of y is a
      prefix of x + y. */
  lemma WrotePrefixThen(b0: seq<Cell>, p0: nat, b1: seq<Cell>, p1: nat, x: seq<Cell>,
                        b2: seq<Cell>, p2: nat, y: seq<Cell>)
    requires WrotePrefix(b0, p0, b1, p1, x) && p1 == p0 + |x|
    requires WrotePrefix(b1, p1, b2, p2, y)
    ensures WrotePrefix(b0, p0, b2, p2, x + y)
  {
    assert x[..|x|] == x;
    SpliceThen(b0, p0, x, y[..p2 - p1]);
    assert x + y[..p2 - p1] == (x + y)[..p2 - p0];
  }

  /** A write at p or beyond leaves the bytes before p as they were. */
  lemma WriteKeepsBelow(b: seq<Cell>, p: nat, data: seq<Cell>, i: nat)
    requires i < p && i < |b|
    ensures i < |Splice(b, p, data)| && Splice(b, p, data)[i] == b[i]
  {
    if data != [] {
      SpliceIndex(b, p, data, i);
    }
  }

  /** A write that stopped at or before p, whole or not, leaves the bytes
      before p as they were. */
  lemma PrefixKeepsBelow(b: seq<Cell>, p: nat, b': seq<Cell>, p': nat, cells: seq<Cell>, i: nat)
    requires WrotePrefix(b, p, b', p', cells) && i < p && i < |b|
    ensures i < |b'| && b'[i] == b[i]
  {
    WriteKeepsBelow(b, p, cells[..p' - p], i);
  }

  /** ... and so does any number of them: the bytes before q stay. */
  lemma PrefixKeepsStart(b: seq<Cell>, p: nat, b': seq<Cell>, p': nat, cells: seq<Cell>, q: nat)
    requires WrotePrefix(b, p, b', p', cells) && q <= p && q <= |b|
    ensures q <= |b'| && b'[..q] == b[..q]
  {
    if cells[..p' - p] != [] {
      forall i | 0 <= i < q
        ensures b'[i] == b[i]
      {
        PrefixKeepsBelow(b, p, b', p', cells, i);
      }
    }
  }

  /** A prefix of x written is a prefix of any extension of x written. */
  lemma WrotePrefixOfLonger(b: seq<Cell>, p: nat, b': seq<Cell>, p': nat, x: seq<Cell>, y: seq<Cell>)
    requires WrotePrefix(b, p, b', p', x) && x <= y
    ensures WrotePrefix(b, p, b', p', y)
  {
    assert y[..p' - p] == x[..p' - p];
  }

  /** A write that was whole, at the end, appended. */
  lemma WroteAll(b: seq<Cell>, b': seq<Cell>, p': nat, cells: seq<Cell>)
    requires WrotePrefix(b, |b|, b', p', cells) && p' == |b| + |cells|
    ensures b' == b + cells && p' == |b'|
  {
    assert cells[..p' - |b|] == cells;
    SpliceAtEnd(b, cells);
  }

  /** A write at 0 that stopped before byte i leaves byte i as it was. */
  lemma ShortWriteKeepsAbove(b: seq<Cell>, data: seq<Cell>, i: nat)
    requires |data| <= i < |b|
    ensures i < |Splice(b, 0, data)| && Splice(b, 0, data)[i] == b[i]
  {
    if data != [] {
      SpliceIndex(b, 0, data, i);
    }
  }

  /** Writing over the front a of a + r with as many cells. */
  lemma SpliceFront(a: seq<Cell>, r: seq<Cell>, v: seq<Cell>)
    requires |v| == |a|
    ensures Splice(a + r, 0, v) == v + r
  {
    if v != [] {
      var lhs := Splice(a + r, 0, v);
      assert |lhs| == |v + r|;
      forall i | 0 <= i < |lhs|
        ensures lhs[i] == (v + r)[i]
      {
        SpliceIndex(a + r, 0, v, i);
      }
    }
  }

  lemma Assoc(a: seq<Cell>, b: seq<Cell>, c: seq<Cell>)
    ensures (a + b) + c == a + (b + c)
  {
  }

  /** The open output file: its bytes and the cursor. */
  class File {
    var bytes: seq<Cell>
    var pos: nat

    /** A file opened for writing, truncated. */
    constructor ()
      ensures bytes == [] && pos == 0
    {
      bytes, pos := [], 0;
    }

    /** fwrite: some prefix of data, possibly all of it, lands at the
        cursor, which moves past it; written says how much. */
    method Write(data: seq<Cell>) returns (written: nat)
      modifies this
      ensures written <= |data|
      ensures pos == old(pos) + written
      ensures bytes == Splice(old(bytes), old(pos), data[..written])
    {
      written :| written <= |data|;
      bytes := Splice(bytes, pos, data[..written]);
      pos := pos + written;
    }

    /** fseek from the start: it either moves the cursor or fails. */
    method Seek(p: nat) returns (ok: bool)
      modifies this
      ensures bytes == old(bytes)
      ensures pos == if ok then p else old(pos)
    {
      ok :| true;
      if ok {
        pos := p;
      }
    }
  }
}
