/**
 The end-of-central-directory record of a ZIP file, section 4.3.16 of the PKWARE ZIP APPNOTE: the
 backward search for it in the tail of the file and the limits put on what it says.
 */
module ZipEndRecord {
  import opened Common

  newtype byte = x: int | 0 <= x < 256

  const RECORD_SIZE: nat := 22
  const MAX_COMMENT: nat := 65_535
  const TAIL_SIZE: nat := 65_557
  const MAX_ARCHIVE_MEMBERS: nat := 100_000
  const MAX_CENTRAL_DIRECTORY: nat := 128 * 1024 * 1024

  /** `PK\5\6` at a position. */
  predicate SignatureAt(s: seq<byte>, p: int) {
    0 <= p && p + 4 <= |s| && s[p] == 80 && s[p + 1] == 75 && s[p + 2] == 5 && s[p + 3] == 6
  }

  /** Little-endian, two bytes. */
  function U16(s: seq<byte>, p: nat): (v: nat)
    requires p + 2 <= |s|
    ensures v <= MAX_COMMENT
  {
    s[p] as nat + 256 * s[p + 1] as nat
  }

  function U32(s: seq<byte>, p: nat): nat
    requires p + 4 <= |s|
  {
    U16(s, p) + 65_536 * U16(s, p + 2)
  }

  /** A record at `p` whose comment ends exactly at the end. */
  predicate RecordAt(s: seq<byte>, p: int) {
    SignatureAt(s, p) && p + RECORD_SIZE <= |s| && p + RECORD_SIZE + U16(s, p + 20) == |s|
  }

  /** What an end record says, besides its comment. */
  datatype Fields = Fields(disk: nat, centralDisk: nat, diskEntries: nat, entries: nat, size: nat, offset: nat)

  predicate Fits(f: Fields) {
    && f.disk < 65_536 && f.centralDisk < 65_536 && f.diskEntries < 65_536 && f.entries < 65_536
    && f.size < 4_294_967_296 && f.offset < 4_294_967_296
  }

  /** The bytes of a number, lowest first. */
  function Byte0(v: nat): byte { (v % 256) as byte }

  function Byte1(v: nat): byte
    requires v < 65_536
  {
    (v / 256) as byte
  }

  /** The two halves of a number of four bytes. */
  function Low(v: nat): (w: nat) ensures w < 65_536 { v % 65_536 }

  function High(v: nat): (w: nat)
    requires v < 4_294_967_296
    ensures w < 65_536
  {
    v / 65_536
  }

  /** An end record as it is written: the letters PK, the numbers 5 and 6, the fields and the comment. */
  function Written(f: Fields, comment: seq<byte>): seq<byte>
    requires Fits(f) && |comment| < 65_536
  {
    Header(f, |comment|) + comment
  }

  function Header(f: Fields, length: nat): seq<byte>
    requires Fits(f) && length < 65_536
  {
    ['P' as int as byte, 'K' as int as byte, 5, 6]
    + [Byte0(f.disk), Byte1(f.disk)] + [Byte0(f.centralDisk), Byte1(f.centralDisk)]
    + [Byte0(f.diskEntries), Byte1(f.diskEntries)] + [Byte0(f.entries), Byte1(f.entries)]
    + [Byte0(Low(f.size)), Byte1(Low(f.size)), Byte0(High(f.size)), Byte1(High(f.size))]
    + [Byte0(Low(f.offset)), Byte1(Low(f.offset)), Byte0(High(f.offset)), Byte1(High(f.offset))]
    + [Byte0(length), Byte1(length)]
  }

  lemma HeaderBytes(f: Fields, length: nat)
    requires Fits(f) && length < 65_536
    ensures var h := Header(f, length);
      |h| == 22 && SignatureAt(h, 0) && BytesAre(h, 0, f) && h[20] == Byte0(length) && h[21] == Byte1(length)
  {
  }

  /** Two bytes and a number below 65536 determine each other. */
  lemma TwoBytes(s: seq<byte>, p: nat, v: nat)
    requires v < 65_536 && p + 2 <= |s|
    ensures U16(s, p) == v <==> s[p] == Byte0(v) && s[p + 1] == Byte1(v)
  {
  }

  lemma FourBytes(s: seq<byte>, p: nat, v: nat)
    requires v < 4_294_967_296 && p + 4 <= |s|
    ensures U32(s, p) == v <==>
      && s[p] == Byte0(Low(v)) && s[p + 1] == Byte1(Low(v))
      && s[p + 2] == Byte0(High(v)) && s[p + 3] == Byte1(High(v))
  {
    TwoBytes(s, p, Low(v));
    TwoBytes(s, p + 2, High(v));
    TwoHalves(U16(s, p), U16(s, p + 2), v);
  }

  lemma TwoHalves(low: nat, high: nat, v: nat)
    requires low < 65_536 && high < 65_536 && v < 4_294_967_296
    ensures low + 65_536 * high == v <==> low == Low(v) && high == High(v)
  {
  }

  predicate BytesAre(file: seq<byte>, p: nat, f: Fields)
    requires p + 22 <= |file| && Fits(f)
  {
    && file[p + 4] == Byte0(f.disk) && file[p + 5] == Byte1(f.disk)
    && file[p + 6] == Byte0(f.centralDisk) && file[p + 7] == Byte1(f.centralDisk)
    && file[p + 8] == Byte0(f.diskEntries) && file[p + 9] == Byte1(f.diskEntries)
    && file[p + 10] == Byte0(f.entries) && file[p + 11] == Byte1(f.entries)
    && file[p + 12] == Byte0(Low(f.size)) && file[p + 13] == Byte1(Low(f.size))
    && file[p + 14] == Byte0(High(f.size)) && file[p + 15] == Byte1(High(f.size))
    && file[p + 16] == Byte0(Low(f.offset)) && file[p + 17] == Byte1(Low(f.offset))
    && file[p + 18] == Byte0(High(f.offset)) && file[p + 19] == Byte1(High(f.offset))
  }

  lemma SameFields(file: seq<byte>, p: nat, f: Fields)
    requires Fits(f) && p + 22 <= |file|
    ensures FieldsOf(file, p) == f <==> BytesAre(file, p, f)
  {
    TwoBytes(file, p + 4, f.disk);
    TwoBytes(file, p + 6, f.centralDisk);
    TwoBytes(file, p + 8, f.diskEntries);
    TwoBytes(file, p + 10, f.entries);
    FourBytes(file, p + 12, f.size);
    FourBytes(file, p + 16, f.offset);
  }

  lemma WrittenBytes(file: seq<byte>, p: nat, f: Fields, comment: seq<byte>)
    requires Fits(f) && |comment| < 65_536 && p <= |file| && file[p..] == Written(f, comment)
    ensures |file| == p + 22 + |comment| && SignatureAt(file, p) && BytesAre(file, p, f)
    ensures file[p + 20] == Byte0(|comment|) && file[p + 21] == Byte1(|comment|)
  {
    var h := Header(f, |comment|);
    HeaderBytes(f, |comment|);
    forall i | 0 <= i < 22 ensures file[p + i] == h[i] {
      assert file[p + i] == file[p..][i] == h[i];
    }
  }

  /** A written record is recognised at its place, and its fields are read back. */
  lemma WrittenIsRead(before: seq<byte>, f: Fields, comment: seq<byte>)
    requires Fits(f) && |comment| < 65_536
    ensures var file, p := before + Written(f, comment), |before|;
      RecordAt(file, p) && FieldsOf(file, p) == f
  {
    var file, p := before + Written(f, comment), |before|;
    assert file[p..] == Written(f, comment);
    WrittenBytes(file, p, f, comment);
    SameFields(file, p, f);
    TwoBytes(file, p + 20, |comment|);
  }

  /** The fields of a record, each at its place. */
  function FieldsOf(file: seq<byte>, p: nat): (f: Fields)
    requires p + 22 <= |file|
    ensures Fits(f)
  {
    Fields(U16(file, p + 4), U16(file, p + 6), U16(file, p + 8), U16(file, p + 10),
      U32(file, p + 12), U32(file, p + 16))
  }

  lemma SameBytes(a: seq<byte>, b: seq<byte>, f: Fields)
    requires |a| == |b| == 22 && Fits(f)
    requires SignatureAt(a, 0) && SignatureAt(b, 0) && BytesAre(a, 0, f) && BytesAre(b, 0, f)
    requires a[20] == b[20] && a[21] == b[21]
    ensures a == b
  {
  }

  /** What is recognised as a record is one: the file from there on is the written form of the fields read. */
  lemma ReadIsWritten(file: seq<byte>, p: nat)
    requires RecordAt(file, p)
    ensures |file| - p - 22 < 65_536 && file[p..] == Written(FieldsOf(file, p), file[p + 22..])
  {
    var f, comment := FieldsOf(file, p), file[p + 22..];
    SameFields(file, p, f);
    TwoBytes(file, p + 20, |comment|);
    HeaderBytes(f, |comment|);
    SameBytes(file[p..p + 22], Header(f, |comment|), f);
    assert file[p..] == file[p..p + 22] + comment;
  }

  /** The last such record of the whole file. */
  predicate LastRecord(s: seq<byte>, p: int) {
    RecordAt(s, p) && forall q :: p < q < |s| ==> !RecordAt(s, q)
  }

  /** `rfind` of the signature within the first `end` bytes; -1 for none. */
  method FindBackwards(s: seq<byte>, end: nat) returns (p: int)
    requires end <= |s|
    ensures p == -1 || (SignatureAt(s, p) && p + 4 <= end)
    ensures forall q :: p < q && q + 4 <= end ==> !SignatureAt(s, q)
  {
    p := end - 4;
    while p >= 0 && !SignatureAt(s, p)
      invariant -4 <= p <= end - 4
      invariant forall q :: p < q && q + 4 <= end ==> !SignatureAt(s, q)
    {
      p := p - 1;
    }
    if p < 0 {
      p := -1;
    }
  }

  /** Two signatures never overlap: no end of the signature is also a start of it. */
  lemma SignaturesDoNotOverlap(s: seq<byte>, p: int, q: int)
    requires SignatureAt(s, q) && q < p < q + 4
    ensures !SignatureAt(s, p)
  {
  }

  /** The search loop over the bytes read: it finds the last record, or there is none. */
  method SearchTail(tail: seq<byte>) returns (found: Option<nat>)
    ensures found.Some? ==> LastRecord(tail, found.value)
    ensures found.None? ==> forall q :: 0 <= q < |tail| ==> !RecordAt(tail, q)
  {
    var searchEnd := |tail|;
    while true
      invariant 0 <= searchEnd <= |tail|
      invariant forall q :: 0 <= q < |tail| && RecordAt(tail, q) ==> q + 4 <= searchEnd
      decreases searchEnd
    {
      var position := FindBackwards(tail, searchEnd);
      if position < 0 {
        return None;
      }
      if position + RECORD_SIZE <= |tail| {
        var commentLength := U16(tail, position + 20);
        if position + RECORD_SIZE + commentLength == |tail| {
          return Some(position);
        }
      }
      forall q | 0 <= q < |tail| && RecordAt(tail, q) ensures q + 4 <= position {
        assert q < position;
        if position < q + 4 {
          SignaturesDoNotOverlap(tail, position, q);
          assert false;
        }
      }
      searchEnd := position;
    }
  }

  /** A record and the longest comment fit in the tail, so reading the tail loses no record. */
  lemma TailHoldsRecords(file: seq<byte>, start: nat, q: int)
    requires start == |file| - (if |file| < TAIL_SIZE then |file| else TAIL_SIZE)
    ensures RecordAt(file, q) <==> RecordAt(file[start..], q - start)
  {
  }

  /** The search of `_preflight_zip_directory` over the whole file. */
  method FindEndRecord(file: seq<byte>) returns (found: Option<nat>)
    ensures found.Some? ==> LastRecord(file, found.value)
    ensures found.None? ==> forall q :: 0 <= q < |file| ==> !RecordAt(file, q)
  {
    var tailSize := if |file| < TAIL_SIZE then |file| else TAIL_SIZE;
    var start := |file| - tailSize;
    var inTail := SearchTail(file[start..]);
    forall q: int ensures RecordAt(file, q) <==> RecordAt(file[start..], q - start) {
      TailHoldsRecords(file, start, q);
    }
    found := if inTail.Some? then Some(start + inTail.value) else None;
    assert inTail.Some? ==> RecordAt(file, found.value);
    forall q | 0 <= q < |file| && (inTail.Some? ==> found.value < q) ensures !RecordAt(file, q) {
      assert !RecordAt(file[start..], q - start);
    }
  }

  datatype Verdict = Accepted | NoRecord | MultiDisk | Zip64 | TooMany | TooLarge | Outside

  /** What an end record must say. */
  predicate Acceptable(file: seq<byte>, p: nat)
    requires p + RECORD_SIZE <= |file|
  {
    && U16(file, p + 4) == 0 && U16(file, p + 6) == 0
    && U16(file, p + 8) == U16(file, p + 10) < 0xFFFF
    && U16(file, p + 10) <= MAX_ARCHIVE_MEMBERS
    && U32(file, p + 12) <= MAX_CENTRAL_DIRECTORY
    && U32(file, p + 16) + U32(file, p + 12) <= |file|
    && U32(file, p + 16) != 0xFFFF_FFFF
  }

  /** What a refusal says about the record; `Accepted` says that it is acceptable. */
  predicate Explains(verdict: Verdict, file: seq<byte>, p: nat)
    requires p + RECORD_SIZE <= |file|
  {
    match verdict
    case Accepted => Acceptable(file, p)
    case NoRecord => false
    case MultiDisk => U16(file, p + 4) != 0 || U16(file, p + 6) != 0 || U16(file, p + 8) != U16(file, p + 10)
    case Zip64 => U16(file, p + 10) == 0xFFFF || U32(file, p + 12) == 0xFFFF_FFFF || U32(file, p + 16) == 0xFFFF_FFFF
    case TooMany => U16(file, p + 10) > MAX_ARCHIVE_MEMBERS
    case TooLarge => U32(file, p + 12) > MAX_CENTRAL_DIRECTORY
    case Outside => U32(file, p + 16) + U32(file, p + 12) > |file|
  }

  /**
   `_preflight_zip_directory`: accepts exactly by what the last record of the file says. The entry
   count has two bytes, so the member limit is never what refuses a file here.
   */
  method Preflight(file: seq<byte>) returns (verdict: Verdict)
    ensures verdict == NoRecord <==> forall p :: 0 <= p < |file| ==> !RecordAt(file, p)
    ensures verdict != NoRecord ==> exists p: nat :: LastRecord(file, p) && Explains(verdict, file, p)
    ensures verdict != TooMany
    ensures verdict == Accepted <==> exists p: nat :: LastRecord(file, p) && Acceptable(file, p)
  {
    var found := FindEndRecord(file);
    if found.None? {
      return NoRecord;
    }
    var p := found.value;
    assert LastRecord(file, p) && p < |file|;
    assert forall q: nat :: LastRecord(file, q) ==> q == p by {
      OneLastRecord(file, p);
    }
    var diskNumber, centralDisk := U16(file, p + 4), U16(file, p + 6);
    var diskEntries, totalEntries := U16(file, p + 8), U16(file, p + 10);
    var centralSize, centralOffset := U32(file, p + 12), U32(file, p + 16);
    if diskNumber != 0 || centralDisk != 0 || diskEntries != totalEntries {
      verdict := MultiDisk;
    } else if totalEntries == 0xFFFF || centralSize == 0xFFFF_FFFF || centralOffset == 0xFFFF_FFFF {
      verdict := Zip64;
    } else if totalEntries > MAX_ARCHIVE_MEMBERS {
      verdict := TooMany;
    } else if centralSize > MAX_CENTRAL_DIRECTORY {
      verdict := TooLarge;
    } else if centralOffset + centralSize > |file| {
      verdict := Outside;
    } else {
      verdict := Accepted;
    }
  }

  lemma OneLastRecord(file: seq<byte>, p: nat)
    requires LastRecord(file, p)
    ensures forall q: nat :: LastRecord(file, q) ==> q == p
  {
  }
}
