/** The write-ahead log: how records are framed, and what can be read back. The checksum is any function. */
module Wal {

  type byte = x: int | 0 <= x < 256

  const TWO32 := 0x1_0000_0000

  type uint32 = x: int | 0 <= x < 0x1_0000_0000

  datatype Record = Record(kind: byte, data: seq<byte>)

  datatype Error = EOF | UNEXPECTED_EOF | CORRUPT

  datatype Loaded = Records(records: seq<Record>) | Failed(error: Error)

  const HEADER_SIZE := 9

  // ---- big-endian numbers ----

  function PutUint32(x: uint32): (b: seq<byte>)
    ensures |b| == 4
  {
    [x / 0x100_0000, x / 0x1_0000 % 256, x / 256 % 256, x % 256]
  }

  function Uint32(b: seq<byte>): uint32
    requires |b| == 4
  {
    ((b[0] as int * 256 + b[1]) * 256 + b[2]) * 256 + b[3]
  }

  lemma Uint32OfPut(x: uint32)
    ensures Uint32(PutUint32(x)) == x
  {
    var b := PutUint32(x);
    assert b[0] as int * 256 + b[1] == x / 0x1_0000;
    assert (x / 0x1_0000) * 256 + b[2] == x / 256;
  }

  lemma PutOfUint32(b: seq<byte>)
    requires |b| == 4
    ensures PutUint32(Uint32(b)) == b
  {
    var x := Uint32(b);
    var low := b[2] as int * 256 + b[3];
    assert x == (b[0] as int * 256 + b[1]) * 0x1_0000 + low;
    Digits(b[0], b[1], b[2], b[3]);
  }

  /** The digits of a number to base 256. */
  lemma Digits(a: byte, b: byte, c: byte, d: byte)
    ensures var x := ((a as int * 256 + b) * 256 + c) * 256 + d;
      x / 0x100_0000 == a && x / 0x1_0000 % 256 == b && x / 256 % 256 == c && x % 256 == d
  {
    var two := a as int * 256 + b;
    var three := two * 256 + c;
    var x := three * 256 + d;
    Low8(three, d);
    Low16(two, c as int * 256 + d);
    Low24(a, (b as int * 256 + c) * 256 + d);
    Low8(two, c);
    Low8(a, b);
  }

  lemma Low8(high: nat, low: nat)
    requires low < 256
    ensures (high * 256 + low) / 256 == high && (high * 256 + low) % 256 == low
  {
  }

  lemma Low16(high: nat, low: nat)
    requires low < 0x1_0000
    ensures (high * 0x1_0000 + low) / 0x1_0000 == high
  {
  }

  lemma Low24(high: nat, low: nat)
    requires low < 0x100_0000
    ensures (high * 0x100_0000 + low) / 0x100_0000 == high
  {
  }

  // ---- one record ----

  /** The length field counts type, checksum and data, truncated to 32 bits. */
  function LengthField(n: nat): uint32 {
    (1 + n + 4) % TWO32
  }

  /** Subtracting in 32 bits. */
  function DataLength(field: uint32): uint32 {
    (field - (1 + 4)) % TWO32
  }

  /** The reader gets the length back exactly when it fits in 32 bits. */
  lemma LengthReadBack(n: nat)
    ensures DataLength(LengthField(n)) == n <==> n < TWO32
  {
    assert DataLength(LengthField(n)) == n % TWO32;
  }

  lemma LengthWritten(field: uint32)
    ensures LengthField(DataLength(field)) == field
  {
  }

  function Header(crc: seq<byte> -> uint32, r: Record): (h: seq<byte>)
    ensures |h| == HEADER_SIZE
  {
    PutUint32(LengthField(|r.data|)) + [r.kind] + PutUint32(crc([r.kind] + r.data))
  }

  function Framed(crc: seq<byte> -> uint32, r: Record): (f: seq<byte>)
    ensures |f| == HEADER_SIZE + |r.data|
  {
    Header(crc, r) + r.data
  }

  function AllFramed(crc: seq<byte> -> uint32, rs: seq<Record>): seq<byte> {
    if rs == [] then [] else Framed(crc, rs[0]) + AllFramed(crc, rs[1..])
  }

  // ---- reading ----

  datatype Read = End | One(record: Record, size: nat) | Bad(error: Error)

  /** What the reader finds at the start of the bytes. */
  function ReadOne(crc: seq<byte> -> uint32, b: seq<byte>): (r: Read)
    ensures r.One? ==> HEADER_SIZE <= r.size <= |b|
  {
    if b == [] then End
    else if |b| < HEADER_SIZE then Bad(UNEXPECTED_EOF)
    else
      var n := DataLength(Uint32(b[0..4]));
      if |b| - HEADER_SIZE < n then Bad(if |b| == HEADER_SIZE then EOF else UNEXPECTED_EOF)
      else
        var data := b[HEADER_SIZE..HEADER_SIZE + n];
        if crc([b[4]] + data) != Uint32(b[5..9]) then Bad(CORRUPT)
        else One(Record(b[4], data), HEADER_SIZE + n)
  }

  function Prepend(rs: seq<Record>, l: Loaded): Loaded {
    if l.Records? then Records(rs + l.records) else l
  }

  /** Any failure discards what was read before it. */
  function Parse(crc: seq<byte> -> uint32, b: seq<byte>): Loaded
    decreases |b|
  {
    match ReadOne(crc, b)
    case End => Records([])
    case Bad(e) => Failed(e)
    case One(r, n) => Prepend([r], Parse(crc, b[n..]))
  }

  function ParseFiles(crc: seq<byte> -> uint32, files: seq<seq<byte>>): Loaded {
    if files == [] then Records([])
    else
      match Parse(crc, files[0])
      case Failed(e) => Failed(e)
      case Records(rs) => Prepend(rs, ParseFiles(crc, files[1..]))
  }

  // ---- round trip ----

  predicate Fits(r: Record) {
    |r.data| < TWO32
  }

  lemma FramedParts(crc: seq<byte> -> uint32, r: Record)
    ensures var f := Framed(crc, r);
      && f[0..4] == PutUint32(LengthField(|r.data|)) && f[4] == r.kind
      && f[5..9] == PutUint32(crc([r.kind] + r.data)) && f[9..] == r.data
  {
  }

  lemma ReadFramed(crc: seq<byte> -> uint32, r: Record, rest: seq<byte>)
    requires Fits(r)
    ensures ReadOne(crc, Framed(crc, r) + rest) == One(r, |Framed(crc, r)|)
  {
    var f := Framed(crc, r);
    var b := f + rest;
    FramedParts(crc, r);
    LengthReadBack(|r.data|);
    Uint32OfPut(LengthField(|r.data|));
    Uint32OfPut(crc([r.kind] + r.data));
    assert b[0..4] == f[0..4] && b[5..9] == f[5..9] && b[9..|f|] == f[9..];
    hide Framed, PutUint32, Uint32, LengthField, DataLength;
  }

  lemma ReadIsFramed(crc: seq<byte> -> uint32, b: seq<byte>)
    requires ReadOne(crc, b).One?
    ensures var r := ReadOne(crc, b);
      Fits(r.record) && b[..r.size] == Framed(crc, r.record)
  {
    var r := ReadOne(crc, b);
    var f := Framed(crc, r.record);
    FramedParts(crc, r.record);
    LengthWritten(Uint32(b[0..4]));
    PutOfUint32(b[0..4]);
    PutOfUint32(b[5..9]);
    hide Framed, PutUint32, Uint32, LengthField, DataLength;
    assert b[..r.size] == b[0..4] + [b[4]] + b[5..9] + b[9..r.size];
    assert f == f[0..4] + [f[4]] + f[5..9] + f[9..];
  }

  /** The file loads as these records exactly when it is their framing and each data length fits in 32 bits. */
  lemma {:induction false} ParseIff(crc: seq<byte> -> uint32, b: seq<byte>, rs: seq<Record>)
    ensures Parse(crc, b) == Records(rs) <==> b == AllFramed(crc, rs) && forall r :: r in rs ==> Fits(r)
    decreases |b|
  {
    hide Framed, ReadOne;
    if Parse(crc, b) == Records(rs) && rs != [] {
      ReadIsFramed(crc, b);
      var n := ReadOne(crc, b).size;
      ParseTail(crc, b, rs);
      ParseIff(crc, b[n..], rs[1..]);
      assert b == b[..n] + b[n..];
    }
    if b == AllFramed(crc, rs) && (forall r :: r in rs ==> Fits(r)) && rs != [] {
      var f := Framed(crc, rs[0]);
      assert b == f + AllFramed(crc, rs[1..]) && b[|f|..] == AllFramed(crc, rs[1..]);
      ReadFramed(crc, rs[0], AllFramed(crc, rs[1..]));
      ParseIff(crc, b[|f|..], rs[1..]);
      assert rs == [rs[0]] + rs[1..];
    }
    ReadNothing(crc, b);
  }

  lemma ReadNothing(crc: seq<byte> -> uint32, b: seq<byte>)
    ensures ReadOne(crc, b).End? <==> b == []
    ensures Parse(crc, b) == Records([]) <==> b == []
  {
  }

  lemma ParseTail(crc: seq<byte> -> uint32, b: seq<byte>, rs: seq<Record>)
    requires Parse(crc, b) == Records(rs) && rs != []
    ensures ReadOne(crc, b).One? && ReadOne(crc, b).record == rs[0]
    ensures Parse(crc, b[ReadOne(crc, b).size..]) == Records(rs[1..])
  {
    hide ReadOne;
    var n := ReadOne(crc, b).size;
    var tail := Parse(crc, b[n..]);
    assert Parse(crc, b) == Prepend([ReadOne(crc, b).record], tail);
    assert ([ReadOne(crc, b).record] + tail.records)[1..] == tail.records;
  }

  // ---- a file cut anywhere ----

  /** The first records that end at or before the cut. */
  function Whole(rs: seq<Record>, n: nat): (k: nat)
    ensures k <= |rs|
  {
    if rs == [] || n < HEADER_SIZE + |rs[0].data| then 0
    else 1 + Whole(rs[1..], n - HEADER_SIZE - |rs[0].data|)
  }

  lemma CutRecord(crc: seq<byte> -> uint32, r: Record, n: nat)
    requires Fits(r) && 0 < n < |Framed(crc, r)|
    ensures ReadOne(crc, Framed(crc, r)[..n]).Bad? && ReadOne(crc, Framed(crc, r)[..n]).error != CORRUPT
  {
    var f := Framed(crc, r);
    FramedParts(crc, r);
    LengthReadBack(|r.data|);
    Uint32OfPut(LengthField(|r.data|));
    if n >= HEADER_SIZE {
      assert f[..n][0..4] == f[0..4];
    }
    hide Framed, PutUint32, Uint32, LengthField, DataLength;
  }

  /** A file cut at a record boundary loads the records before the cut; cut anywhere else it fails, and not as
    * corrupt. */
  lemma {:induction false} CutAnywhere(crc: seq<byte> -> uint32, rs: seq<Record>, n: nat)
    requires n <= |AllFramed(crc, rs)| && forall r :: r in rs ==> Fits(r)
    ensures var l := Parse(crc, AllFramed(crc, rs)[..n]);
      var k := Whole(rs, n);
      if |AllFramed(crc, rs[..k])| == n then l == Records(rs[..k]) else l.Failed? && l.error != CORRUPT
  {
    hide Framed, ReadOne;
    if rs == [] {
      ReadNothing(crc, []);
    } else {
      var f, rest := Framed(crc, rs[0]), AllFramed(crc, rs[1..]);
      var b := AllFramed(crc, rs)[..n];
      if n < |f| {
        assert b == f[..n];
        ReadNothing(crc, b);
        if n > 0 {
          CutRecord(crc, rs[0], n);
        }
      } else {
        assert b == f + rest[..n - |f|] && b[|f|..] == rest[..n - |f|];
        ReadFramed(crc, rs[0], rest[..n - |f|]);
        CutAnywhere(crc, rs[1..], n - |f|);
        var k := Whole(rs, n);
        assert rs[..k] == [rs[0]] + rs[1..][..k - 1];
        assert rs[..k][1..] == rs[1..][..k - 1];
      }
    }
  }

  // ---- several files ----

  function Flat(parts: seq<seq<Record>>): seq<Record> {
    if parts == [] then [] else parts[0] + Flat(parts[1..])
  }

  /** The files load as the concatenation of what was written to each. */
  lemma {:induction false} FilesRoundTrip(crc: seq<byte> -> uint32, files: seq<seq<byte>>, parts: seq<seq<Record>>)
    requires |files| == |parts|
    requires forall i :: 0 <= i < |files| ==> files[i] == AllFramed(crc, parts[i]) && forall r :: r in parts[i] ==>
      Fits(r)
    ensures ParseFiles(crc, files) == Records(Flat(parts))
  {
    if files != [] {
      ParseIff(crc, files[0], parts[0]);
      FilesRoundTrip(crc, files[1..], parts[1..]);
    }
  }

  lemma {:induction false} FramedConcat(crc: seq<byte> -> uint32, a: seq<Record>, b: seq<Record>)
    ensures AllFramed(crc, a + b) == AllFramed(crc, a) + AllFramed(crc, b)
  {
    if a == [] {
      assert a + b == b;
    } else {
      assert (a + b)[1..] == a[1..] + b;
      FramedConcat(crc, a[1..], b);
    }
  }

  lemma FramedAppend(crc: seq<byte> -> uint32, found: seq<byte>, rs: seq<Record>, r: Record)
    ensures found + AllFramed(crc, rs + [r]) == found + AllFramed(crc, rs) + Header(crc, r) + r.data
  {
    assert AllFramed(crc, [r]) == Framed(crc, r) + [];
    FramedConcat(crc, rs, [r]);
  }

  // ---- the file ----

  class Wal {
    const crc: seq<byte> -> uint32
    var file: seq<byte>
    var closed: bool
    ghost const found: seq<byte>
    ghost var written: seq<Record>

    /** The file is what was found when it was opened and the framing of what was written since, in order. */
    ghost predicate Valid()
      reads this
    {
      file == found + AllFramed(crc, written)
    }

    /** The file is opened for appending. */
    constructor (crc: seq<byte> -> uint32, existing: seq<byte>)
      ensures Valid() && found == existing && written == [] && !closed && this.crc == crc
    {
      this.crc := crc;
      file, closed, found, written := existing, false, existing, [];
    }

    method Write(kind: byte, data: seq<byte>) returns (ok: bool)
      requires Valid()
      modifies this
      ensures Valid() && ok == !old(closed) && closed == old(closed)
      ensures written == old(written) + if ok then [Record(kind, data)] else []
    {
      if closed {
        return false;
      }
      hide PutUint32, LengthField, Framed, AllFramed;
      var header := new byte[HEADER_SIZE];
      PutInto(header, 0, LengthField(|data|));
      header[4] := kind;
      assert header[0..4] == PutUint32(LengthField(|data|));
      PutInto(header, 5, crc([kind] + data));
      assert header[..] == header[0..4] + [header[4]] + header[5..9];
      file := file + header[..];
      file := file + data;
      ghost var r := Record(kind, data);
      assert header[..] == Header(crc, r);
      FramedAppend(crc, found, written, r);
      written := written + [r];
      return true;
    }

    /** Reads every file of the directory to its end. */
    method LoadAll(files: seq<seq<byte>>) returns (l: Loaded)
      ensures l == ParseFiles(crc, files)
    {
      var records: seq<Record> := [];
      for i := 0 to |files|
        invariant ParseFiles(crc, files) == Prepend(records, ParseFiles(crc, files[i..]))
      {
        assert files[i..][0] == files[i] && files[i..][1..] == files[i + 1..];
        l := LoadFile(files[i]);
        if l.Failed? {
          return l;
        }
        assert forall m: Loaded :: Prepend(records, Prepend(l.records, m)) == Prepend(records + l.records, m);
        records := records + l.records;
      }
      return Records(records);
    }

    method LoadFile(f: seq<byte>) returns (l: Loaded)
      ensures l == Parse(crc, f)
    {
      hide Parse, ReadOne, Uint32, DataLength;
      var records: seq<Record> := [];
      var pos := 0;
      while pos < |f|
        invariant pos <= |f|
        invariant Parse(crc, f) == Prepend(records, Parse(crc, f[pos..]))
      {
        ghost var start := pos;
        ReadAt(crc, f, start);
        ParseStep(crc, f[start..]);
        if |f| - pos < HEADER_SIZE {
          return Failed(UNEXPECTED_EOF);
        }
        var length := Uint32(f[pos..pos + 4]);
        var kind := f[pos + 4];
        var expectedCrc := Uint32(f[pos + 5..pos + 9]);
        pos := pos + HEADER_SIZE;
        var dataLen := DataLength(length);
        if |f| - pos < dataLen {
          return Failed(if pos == |f| then EOF else UNEXPECTED_EOF);
        }
        var data := f[pos..pos + dataLen];
        if crc([kind] + data) != expectedCrc {
          return Failed(CORRUPT);
        }
        pos := pos + dataLen;
        assert f[start..][pos - start..] == f[pos..];
        PrependTwice(records, Record(kind, data), Parse(crc, f[pos..]));
        records := records + [Record(kind, data)];
      }
      ReadNothing(crc, f[pos..]);
      return Records(records);
    }
  }

  /** What the reader finds at a position, in terms of the whole file. */
  lemma ReadAt(crc: seq<byte> -> uint32, f: seq<byte>, pos: nat)
    requires pos < |f|
    ensures |f| - pos < HEADER_SIZE ==> ReadOne(crc, f[pos..]) == Bad(UNEXPECTED_EOF)
    ensures |f| - pos >= HEADER_SIZE ==>
      var n := DataLength(Uint32(f[pos..pos + 4]));
      ReadOne(crc, f[pos..]) ==
        if |f| - pos - HEADER_SIZE < n then Bad(if |f| - pos == HEADER_SIZE then EOF else UNEXPECTED_EOF)
        else if crc([f[pos + 4]] + f[pos + 9..pos + 9 + n]) != Uint32(f[pos + 5..pos + 9]) then Bad(CORRUPT)
        else One(Record(f[pos + 4], f[pos + 9..pos + 9 + n]), HEADER_SIZE + n)
  {
    hide Uint32, DataLength;
    var b := f[pos..];
    if |b| >= HEADER_SIZE {
      assert b[0..4] == f[pos..pos + 4] && b[5..9] == f[pos + 5..pos + 9];
      var n := DataLength(Uint32(f[pos..pos + 4]));
      if |b| - HEADER_SIZE >= n {
        assert b[9..9 + n] == f[pos + 9..pos + 9 + n];
      }
    }
  }

  lemma ParseStep(crc: seq<byte> -> uint32, b: seq<byte>)
    ensures ReadOne(crc, b).Bad? ==> Parse(crc, b) == Failed(ReadOne(crc, b).error)
    ensures ReadOne(crc, b).One? ==>
      Parse(crc, b) == Prepend([ReadOne(crc, b).record], Parse(crc, b[ReadOne(crc, b).size..]))
  {
    hide ReadOne;
  }

  lemma PrependTwice(rs: seq<Record>, r: Record, l: Loaded)
    ensures Prepend(rs, Prepend([r], l)) == Prepend(rs + [r], l)
  {
    if l.Records? {
      assert rs + ([r] + l.records) == rs + [r] + l.records;
    }
  }

  method PutInto(a: array<byte>, at: nat, x: uint32)
    requires at + 4 <= a.Length
    modifies a
    ensures a[at..at + 4] == PutUint32(x)
    ensures forall i :: 0 <= i < a.Length && !(at <= i < at + 4) ==> a[i] == old(a[i])
  {
    a[at], a[at + 1], a[at + 2], a[at + 3] := x / 0x100_0000, x / 0x1_0000 % 256, x / 256 % 256, x % 256;
  }

  /** Appending to a file that loads: it loads with the new records at the end. */
  method WriteThenLoad(w: Wal, ghost before: seq<Record>) returns (l: Loaded)
    requires w.Valid() && Parse(w.crc, w.found) == Records(before) && forall r :: r in w.written ==> Fits(r)
    ensures l == Records(before + w.written)
  {
    ParseIff(w.crc, w.found, before);
    FramedConcat(w.crc, before, w.written);
    FilesRoundTrip(w.crc, [w.file], [before + w.written]);
    assert Flat([before + w.written]) == before + w.written + [];
    l := w.LoadAll([w.file]);
  }
}
