/** Byte ranges of a file: the `Range` header, the chunked body and the response. */
module HttpRange {
  import opened Text
  import opened Decimal

  const RANGE_CHUNK_SIZE: nat := 64 * 1024
  const FULL_CHUNK: nat := 64 * 1024

  // ------------------------------------------------------------------ parsing

  datatype Selection = WholeFile | Slice(start: nat, end: nat) | NotSatisfiable

  const BYTES: string := "bytes"
  const UNIT: string := BYTES + "="

  /** The part of `s` before its first dash, and the part after it (empty when there is no dash). */
  function PartitionAtDash(s: string): (r: (string, string))
    ensures '-' !in r.0
    ensures s == r.0 + "-" + r.1 || (s == r.0 && r.1 == "")
  {
    if s == "" then ("", "")
    else if s[0] == '-' then ("", s[1..])
    else var (a, b) := PartitionAtDash(s[1..]); ([s[0]] + a, b)
  }

  function Min(a: int, b: int): int { if a < b then a else b }
  function Max(a: int, b: int): int { if a < b then b else a }

  /** The bounds two numbers name, before they are compared with the file size. */
  function BoundsFrom(first: string, last: string, size: nat): Option<(int, int)>
  {
    if first == "" then
      match ParseInt(last)
      case None => None
      case Some(n) => if n <= 0 then None else Some((Max(0, size - n), size - 1))
    else
      match ParseInt(first)
      case None => None
      case Some(start) =>
        if last == "" then Some((start, size - 1))
        else match ParseInt(last)
          case None => None
          case Some(end) => Some((start, end))
  }

  function Bounds(spec: string, size: nat): Option<(int, int)>
  {
    var (first, last) := PartitionAtDash(spec);
    BoundsFrom(first, last, size)
  }

  /** Compares bounds with the file size: reject, or cut off at the end. */
  function Clamp(bounds: Option<(int, int)>, size: nat): (r: Selection)
    ensures r.Slice? ==> r.start <= r.end < size
    ensures !r.WholeFile?
  {
    match bounds
    case None => NotSatisfiable
    case Some((start, end)) =>
      if start < 0 || end < start || start >= size then NotSatisfiable
      else Slice(start, Min(end, size - 1))
  }

  /** What follows the unit, if the unit is bytes and only one range is asked for. */
  function SpecOf(header: string): Option<string>
  {
    if !(UNIT <= header) then None
    else
      var spec := Strip(header[|UNIT|..]);
      if ',' in spec then None else Some(spec)
  }

  function ParseRange(header: Option<string>, size: nat): (r: Selection)
    ensures r.Slice? ==> r.start <= r.end < size
    ensures r.WholeFile? <==> header.None? || header.value == ""
  {
    if header.None? || header.value == "" then WholeFile
    else match SpecOf(header.value)
      case None => NotSatisfiable
      case Some(spec) => Clamp(Bounds(spec, size), size)
  }

  // ------------------------------------------------------------------ section 14.1.2 of RFC 9110

  /** A single byte range: `first-last`, `first-` or `-length`. */
  datatype ByteRange = FirstLast(first: nat, last: nat) | From(first: nat) | Suffix(length: nat)

  /** The positions of a file of `size` bytes that the range selects. */
  predicate Selects(r: ByteRange, size: nat, i: nat)
  {
    i < size && match r
      case FirstLast(first, last) => first <= i <= last
      case From(first) => first <= i
      case Suffix(length) => size <= i + length
  }

  /** An invalid range ends before it begins. */
  predicate IsValid(r: ByteRange)
  {
    r.FirstLast? ==> r.first <= r.last
  }

  /**
    * An int range is satisfiable when it begins inside the file, a suffix range whenever its
    * length is not zero, even of an empty file.
    */
  predicate Satisfiable(r: ByteRange, size: nat)
  {
    match r
    case FirstLast(first, _) => first < size
    case From(first) => first < size
    case Suffix(length) => length != 0
  }

  /** Of a file with content, satisfiable ranges are those that select something. */
  lemma SatisfiableSelects(r: ByteRange, size: nat)
    requires IsValid(r) && size > 0
    ensures Satisfiable(r, size) <==> exists i: nat :: Selects(r, size, i)
  {
    if Satisfiable(r, size) {
      assert Selects(r, size, if r.FirstLast? then r.first else size - 1);
    }
  }

  /** `p` is the slice of exactly the selected positions, or refuses a range that is not satisfiable. */
  ghost predicate Meets(r: ByteRange, size: nat, p: Selection)
  {
    match p
    case WholeFile => false
    case NotSatisfiable => !Satisfiable(r, size)
    case Slice(start, end) =>
      && Satisfiable(r, size) && start <= end < size
      && forall i: nat :: start <= i <= end <==> Selects(r, size, i)
  }

  /** The grammar: two runs of digits around a dash, at most one of them empty. */
  ghost predicate Grammatical(first: string, last: string)
  {
    (first == "" || AllDigits(first)) && (last == "" || AllDigits(last)) && (first != "" || last != "")
  }

  /** Both numerals are short enough for `int()`. */
  predicate Short(first: string, last: string)
  {
    |first| <= MAX_STR_DIGITS && |last| <= MAX_STR_DIGITS
  }

  function Denotes(first: string, last: string): ByteRange
    requires Grammatical(first, last)
  {
    if first == "" then Suffix(DigitsValue(last))
    else if last == "" then From(DigitsValue(first))
    else FirstLast(DigitsValue(first), DigitsValue(last))
  }

  /** A unit as it may be written: a token, which contains no equals sign. */
  predicate IsUnit(unit: string)
  {
    unit != "" && '=' !in unit
  }

  /** The unit means bytes, in whatever case it is written. */
  predicate NamesBytes(unit: string)
  {
    Lower(unit) == BYTES
  }

  function Header(unit: string, first: string, last: string): string
  {
    unit + "=" + (first + "-" + last)
  }

  /** What the standard asks for: its rule for a range of bytes, and that any other unit be ignored. */
  ghost predicate FollowsStandard(unit: string, r: ByteRange, size: nat, p: Selection)
  {
    if NamesBytes(unit) then Meets(r, size, p) else p == WholeFile
  }

  lemma {:induction false} PartitionJoin(a: string, b: string)
    requires '-' !in a
    ensures PartitionAtDash(a + "-" + b) == (a, b)
  {
    var s := a + "-" + b;
    if a == "" {
      assert s[1..] == b;
    } else {
      assert s[1..] == a[1..] + "-" + b;
      PartitionJoin(a[1..], b);
      assert [a[0]] + a[1..] == a;
    }
  }

  function NamedBounds(r: ByteRange, size: nat): Option<(int, int)>
  {
    match r
    case FirstLast(first, last) => Some((first, last))
    case From(first) => Some((first, size - 1))
    case Suffix(length) => if length == 0 then None else Some((Max(0, size - length), size - 1))
  }

  lemma BoundsFromDigits(first: string, last: string, size: nat)
    requires Grammatical(first, last)
    ensures BoundsFrom(first, last, size)
         == if Short(first, last) then NamedBounds(Denotes(first, last), size) else None
  {
    if first != "" { ParseDigits(first); }
    if last != "" { ParseDigits(last); }
  }

  lemma BoundsOfGrammatical(first: string, last: string, size: nat)
    requires Grammatical(first, last)
    ensures Bounds(first + "-" + last, size) == BoundsFrom(first, last, size)
  {
    PartitionJoin(first, last);
  }

  lemma SpecIsPlain(first: string, last: string)
    requires Grammatical(first, last)
    ensures Stripped(first + "-" + last) && ',' !in first + "-" + last
  {
  }

  lemma UnitOfHeader(unit: string, first: string, last: string)
    requires IsUnit(unit)
    ensures UNIT <= Header(unit, first, last) <==> unit == BYTES
    ensures unit == BYTES ==> Header(unit, first, last)[|UNIT|..] == first + "-" + last
  {
    var h := Header(unit, first, last);
    assert h[|unit|] == '=' && h[..|unit|] == unit;
    if UNIT <= h {
      assert h[|BYTES|] == UNIT[|BYTES|] == '=';
      assert h[..|BYTES|] == UNIT[..|BYTES|] == BYTES;
    }
  }

  lemma SpecOfHeader(unit: string, first: string, last: string)
    requires IsUnit(unit) && Grammatical(first, last)
    ensures SpecOf(Header(unit, first, last)) == if unit == BYTES then Some(first + "-" + last) else None
  {
    UnitOfHeader(unit, first, last);
    SpecIsPlain(first, last);
    StripFixpoint(first + "-" + last);
  }

  lemma ParseGrammatical(unit: string, first: string, last: string, size: nat)
    requires IsUnit(unit) && Grammatical(first, last)
    ensures ParseRange(Some(Header(unit, first, last)), size)
         == if unit == BYTES && Short(first, last) then Clamp(NamedBounds(Denotes(first, last), size), size)
            else NotSatisfiable
  {
    SpecOfHeader(unit, first, last);
    BoundsOfGrammatical(first, last, size);
    BoundsFromDigits(first, last, size);
  }

  lemma ClampMeets(r: ByteRange, size: nat)
    requires IsValid(r)
    ensures Meets(r, size, Clamp(NamedBounds(r, size), size)) <==> (Satisfiable(r, size) ==> size > 0)
    ensures !Satisfiable(r, size) || size == 0 ==> Clamp(NamedBounds(r, size), size) == NotSatisfiable
  {
  }

  /**
    * When the standard is followed, for every unit, every valid single range and every file size. A
    * range of bytes that is not satisfiable is always refused; a satisfiable one becomes the slice of
    * exactly the selected positions if and only if the unit is spelled in lower case, the file has
    * content and `int()` reads both numerals. Another unit is never ignored.
    */
  lemma ParseRangeMeetsStandard(unit: string, first: string, last: string, size: nat)
    requires IsUnit(unit) && Grammatical(first, last) && IsValid(Denotes(first, last))
    ensures FollowsStandard(unit, Denotes(first, last), size, ParseRange(Some(Header(unit, first, last)), size))
       <==> NamesBytes(unit)
            && (Satisfiable(Denotes(first, last), size) ==> unit == BYTES && size > 0 && Short(first, last))
  {
    ParseGrammatical(unit, first, last, size);
    ClampMeets(Denotes(first, last), size);
    assert NamesBytes(BYTES);
  }

  /** An invalid range is refused, as the standard allows. */
  lemma InvalidRangeRefused(unit: string, first: string, last: string, size: nat)
    requires IsUnit(unit) && Grammatical(first, last) && !IsValid(Denotes(first, last))
    ensures ParseRange(Some(Header(unit, first, last)), size) == NotSatisfiable
  {
    ParseGrammatical(unit, first, last, size);
  }

  /** Any header that does not begin with the unit in lower case, or asks for several ranges, is refused. */
  lemma RefusedOutright(header: string, size: nat)
    requires header != "" && (!(UNIT <= header) || ',' in header)
    ensures ParseRange(Some(header), size) == NotSatisfiable
  {
    if UNIT <= header {
      var rest := header[|UNIT|..];
      assert header == UNIT + rest && ',' in rest;
      StripKeeps(rest, ',');
    }
  }

  /** Three such headers: bytes in another case, an unknown unit, and two satisfiable ranges. */
  lemma RefusedHeaders()
    ensures NamesBytes("Bytes") && ParseRange(Some("Bytes=0-4"), 10) == NotSatisfiable
    ensures !NamesBytes("items") && ParseRange(Some("items=0-4"), 10) == NotSatisfiable
    ensures ParseRange(Some("bytes=0-0,2-2"), 3) == NotSatisfiable
  {
    assert Lower("Bytes") == BYTES;
    assert Lower("items")[0] != BYTES[0];
    assert "Bytes=0-4"[0] != UNIT[0] && "items=0-4"[0] != UNIT[0];
    RefusedOutright("Bytes=0-4", 10);
    RefusedOutright("items=0-4", 10);
    assert "bytes=0-0,2-2"[9] == ',';
    RefusedOutright("bytes=0-0,2-2", 3);
  }

  /** The rule fails on an empty file: the last `n` bytes of it are a satisfiable range, and refused. */
  lemma EmptyFileSuffixRefused(n: nat)
    requires n > 0
    ensures Grammatical("", PrintNat(n)) && Satisfiable(Denotes("", PrintNat(n)), 0)
    ensures ParseRange(Some(Header(BYTES, "", PrintNat(n))), 0) == NotSatisfiable
  {
    DigitsValuePrint(n);
    ParseGrammatical(BYTES, "", PrintNat(n), 0);
  }

  function Zeros(k: nat): (s: string)
    ensures |s| == k && forall i | 0 <= i < k :: s[i] == '0'
  {
    seq(k, _ => '0')
  }

  lemma {:induction false} ZerosValue(k: nat)
    ensures DigitsValue(Zeros(k)) == 0
  {
    if k > 0 {
      assert Zeros(k)[..k - 1] == Zeros(k - 1);
      ZerosValue(k - 1);
    }
  }

  /** And on a numeral that `int()` finds too long: `bytes=00...0-` asks for the whole file. */
  lemma LongNumeralRefused(k: nat, size: nat)
    requires k > 4300 && size > 0
    ensures Grammatical(Zeros(k), "") && Denotes(Zeros(k), "") == From(0) && Satisfiable(From(0), size)
    ensures ParseRange(Some(Header(BYTES, Zeros(k), "")), size) == NotSatisfiable
  {
    ZerosValue(k);
    ParseGrammatical(BYTES, Zeros(k), "", size);
  }

  // ------------------------------------------------------------------ every header that is accepted

  /** The numbers that two texts spell name the slice, cut off at the end of the file. */
  ghost predicate Names(first: string, last: string, size: nat, start: nat, end: nat)
  {
    && start <= end < size
    && if first == "" then
         end == size - 1 && exists n: int :: n > 0 && ReadsAs(last, n) && start == Max(0, size - n)
       else
         && ReadsAs(first, start)
         && if last == "" then end == size - 1
            else exists e: int :: ReadsAs(last, e) && start <= e && end == Min(e, size - 1)
  }

  /** The part before the first dash and the part after it, or all of it and nothing. */
  predicate Splits(spec: string, first: string, last: string)
  {
    '-' !in first && (spec == first + "-" + last || (spec == first && last == ""))
  }

  ghost predicate NamesSlice(spec: string, size: nat, start: nat, end: nat)
  {
    exists first, last :: Splits(spec, first, last) && Names(first, last, size, start, end)
  }

  lemma {:induction false} PartitionWithoutDash(s: string)
    requires '-' !in s
    ensures PartitionAtDash(s) == (s, "")
  {
    if s != "" { PartitionWithoutDash(s[1..]); }
  }

  lemma BoundsNamed(first: string, last: string, size: nat, start: nat, end: nat)
    requires Clamp(BoundsFrom(first, last, size), size) == Slice(start, end)
    ensures Names(first, last, size, start, end)
  {
    if first == "" {
      var n := ParseInt(last).value;
      ParseIntReads(last, n);
      assert n > 0 && ReadsAs(last, n) && start == Max(0, size - n);
    } else {
      ParseIntReads(first, start);
      if last != "" {
        var e := ParseInt(last).value;
        ParseIntReads(last, e);
        assert ReadsAs(last, e) && start <= e && end == Min(e, size - 1);
      }
    }
  }

  lemma NamedBound(first: string, last: string, size: nat, start: nat, end: nat)
    requires Names(first, last, size, start, end)
    ensures Clamp(BoundsFrom(first, last, size), size) == Slice(start, end)
  {
    if first == "" {
      var n: int :| n > 0 && ReadsAs(last, n) && start == Max(0, size - n);
      ParseIntReads(last, n);
    } else {
      ParseIntReads(first, start);
      if last != "" {
        var e: int :| ReadsAs(last, e) && start <= e && end == Min(e, size - 1);
        ParseIntReads(last, e);
      }
    }
  }

  lemma SplitIsPartition(spec: string, first: string, last: string)
    ensures Splits(spec, first, last) <==> PartitionAtDash(spec) == (first, last)
  {
    if Splits(spec, first, last) {
      if spec == first + "-" + last {
        PartitionJoin(first, last);
      } else {
        PartitionWithoutDash(spec);
      }
    }
  }

  lemma CommaInSpec(rest: string)
    ensures ',' in Strip(rest) <==> ',' in rest
  {
    var before, after := StripDecomposes(rest);
    if ',' in rest { StripKeeps(rest, ','); }
  }

  /**
    * Every header that is accepted, and as what: the unit in lower case, no comma, and, without the
    * white space around it, numbers in the sense of `int()` before and after the first dash, which name
    * a slice that begins inside the file.
    */
  lemma AcceptedExactly(header: string, size: nat, start: nat, end: nat)
    ensures ParseRange(Some(header), size) == Slice(start, end) <==>
              UNIT <= header && ',' !in header && NamesSlice(Strip(header[|UNIT|..]), size, start, end)
  {
    if UNIT <= header && ',' !in header {
      var rest := header[|UNIT|..];
      CommaInSpec(rest);
      var (first, last) := PartitionAtDash(Strip(rest));
      SplitIsPartition(Strip(rest), first, last);
      assert ParseRange(Some(header), size) == Clamp(BoundsFrom(first, last, size), size);
      if Names(first, last, size, start, end) {
        NamedBound(first, last, size, start, end);
      }
      if ParseRange(Some(header), size) == Slice(start, end) {
        BoundsNamed(first, last, size, start, end);
      }
      if NamesSlice(Strip(rest), size, start, end) {
        var f, l :| Splits(Strip(rest), f, l) && Names(f, l, size, start, end);
        SplitIsPartition(Strip(rest), f, l);
      }
    } else if header != "" {
      RefusedOutright(header, size);
    }
  }

  lemma OddCharacterInPart(spec: string, first: string, last: string, size: nat, c: char)
    requires Splits(spec, first, last) && c in spec && !Numeric(c)
    ensures BoundsFrom(first, last, size) == None
  {
    assert c in first || c in last;
    if c in first { OddCharacterUnread(first, c); } else { OddCharacterUnread(last, c); }
  }

  /** A character after the unit that belongs to no number and is no dash: the header is refused. */
  lemma OddCharacterRefused(header: string, size: nat, c: char)
    requires UNIT <= header && c in header[|UNIT|..] && !Numeric(c)
    ensures ParseRange(Some(header), size) == NotSatisfiable
  {
    var rest := header[|UNIT|..];
    StripKeeps(rest, c);
    var (first, last) := PartitionAtDash(Strip(rest));
    OddCharacterInPart(Strip(rest), first, last, size, c);
  }

  /** A number without a dash, which the grammar does not have, is taken for one with a dash after it. */
  lemma NumberWithoutDashAccepted(n: nat, size: nat)
    requires Readable(n) && n < size
    ensures ParseRange(Some(UNIT + PrintNat(n)), size) == Slice(n, size - 1)
  {
    var digits := PrintNat(n);
    assert (UNIT + digits)[|UNIT|..] == digits;
    StripFixpoint(digits);
    PartitionWithoutDash(digits);
    ParsePrint(n);
  }

  /** `bytes=a-b` with both numbers printed in decimal. */
  function Ask(a: nat, b: nat): string
  {
    Header(BYTES, PrintNat(a), PrintNat(b))
  }

  /** `bytes=a-b` asks for `a` to `b`, cut off at the end of the file, if `b` can be read at all. */
  lemma PrintThenParse(a: nat, b: nat, size: nat)
    requires a <= b && a < size
    ensures ParseRange(Some(Ask(a, b)), size) == if Readable(b) then Slice(a, Min(b, size - 1)) else NotSatisfiable
  {
    ParseGrammatical(BYTES, PrintNat(a), PrintNat(b), size);
    DigitsValuePrint(a);
    DigitsValuePrint(b);
    PrintGrows(a, b);
  }

  /** Whatever header was accepted, printing its result and parsing again changes nothing, if it can be read. */
  lemma AcceptedRangeIsFixpoint(header: Option<string>, size: nat)
    requires ParseRange(header, size).Slice?
    ensures var s := ParseRange(header, size);
            ParseRange(Some(Ask(s.start, s.end)), size) == s <==> Readable(s.end)
  {
    var s := ParseRange(header, size);
    PrintThenParse(s.start, s.end, size);
  }

  // ------------------------------------------------------------------ reading

  /** An open binary file. */
  class FileHandle {
    const content: Bytes
    var pos: nat

    constructor (content: Bytes)
      ensures this.content == content && pos == 0
    {
      this.content := content;
      pos := 0;
    }

    method Seek(offset: nat)
      modifies this
      ensures pos == offset
    {
      pos := offset;
    }

    /** Up to `n` bytes, fewer only at the end of the file. */
    method Read(n: nat) returns (data: Bytes)
      modifies this
      ensures old(pos) <= |content| ==>
                pos == Min(old(pos) + n, |content|) && data == content[old(pos)..pos]
      ensures old(pos) > |content| ==> data == [] && pos == old(pos)
    {
      if pos > |content| { return []; }
      var end := Min(pos + n, |content|);
      data := content[pos..end];
      pos := end;
    }
  }

  /** Every chunk is non-empty and at most `size` long, and only the last may be shorter. */
  ghost predicate WellChunked(chunks: seq<Bytes>, size: nat)
  {
    && (forall i | 0 <= i < |chunks| :: 0 < |chunks[i]| <= size)
    && (forall i | 0 <= i < |chunks| - 1 :: |chunks[i]| == size)
  }

  /** `iter_file_range`: the bytes `start..end`, both included, in chunks. */
  method IterFileRange(content: Bytes, start: nat, end: nat, chunkSize: nat) returns (chunks: seq<Bytes>)
    requires start <= end < |content| && chunkSize > 0
    ensures Concat(chunks) == content[start..end + 1]
    ensures WellChunked(chunks, chunkSize)
  {
    chunks := [];
    var remaining := end - start + 1;
    var f := new FileHandle(content);
    f.Seek(start);
    while remaining > 0
      invariant f.content == content && 0 <= remaining && f.pos == end + 1 - remaining && start <= f.pos
      invariant Concat(chunks) == content[start..f.pos]
      invariant WellChunked(chunks, chunkSize)
      invariant remaining > 0 ==> forall i | 0 <= i < |chunks| :: |chunks[i]| == chunkSize
      decreases remaining
    {
      ghost var before := f.pos;
      var data := f.Read(Min(chunkSize, remaining));
      if data == [] { break; }
      remaining := remaining - |data|;
      ConcatAppend(chunks, data);
      assert content[start..before] + data == content[start..f.pos];
      chunks := chunks + [data];
    }
  }

  /** The unranged body: read until the file ends. */
  method IterWholeFile(content: Bytes) returns (chunks: seq<Bytes>)
    ensures Concat(chunks) == content
    ensures WellChunked(chunks, FULL_CHUNK)
  {
    chunks := [];
    var f := new FileHandle(content);
    while true
      invariant f.content == content && f.pos <= |content|
      invariant Concat(chunks) == content[..f.pos]
      invariant WellChunked(chunks, FULL_CHUNK)
      invariant f.pos < |content| ==> forall i | 0 <= i < |chunks| :: |chunks[i]| == FULL_CHUNK
      decreases |content| - f.pos
    {
      ghost var before := f.pos;
      var data := f.Read(FULL_CHUNK);
      if data == [] { break; }
      ConcatAppend(chunks, data);
      assert content[..before] + data == content[..f.pos];
      chunks := chunks + [data];
    }
  }

  // ------------------------------------------------------------------ responding

  datatype Response = Response(
    status: nat, contentRange: Option<string>, contentLength: Option<nat>, chunks: seq<Bytes>)

  /** The bytes of a selection, without reference to chunks or statuses. */
  function Selected(content: Bytes, selection: Selection): Bytes
    requires selection.Slice? ==> selection.start <= selection.end < |content|
  {
    match selection
    case WholeFile => content
    case Slice(start, end) => content[start..end + 1]
    case NotSatisfiable => []
  }

  /** The response that carries a selection: the selected bytes, and headers that describe them. */
  ghost predicate Carries(r: Response, content: Bytes, selection: Selection)
    requires selection.Slice? ==> selection.start <= selection.end < |content|
  {
    && Concat(r.chunks) == Selected(content, selection)
    && WellChunked(r.chunks, RANGE_CHUNK_SIZE)
    && match selection
       case WholeFile => r.status == 200 && r.contentRange == None && r.contentLength == Some(|Concat(r.chunks)|)
       case Slice(start, end) =>
         && r.status == 206 && r.contentLength == Some(|Concat(r.chunks)|)
         && r.contentRange == Some("bytes " + PrintNat(start) + "-" + PrintNat(end) + "/" + PrintNat(|content|))
       case NotSatisfiable => r.status == 416 && r.contentRange == Some("bytes */" + PrintNat(|content|))
  }

  /** `_stream_response`. */
  method StreamResponse(content: Bytes, header: Option<string>) returns (r: Response)
    ensures Carries(r, content, ParseRange(header, |content|))
  {
    var selection := ParseRange(header, |content|);
    r := Serve(content, selection);
  }

  method Serve(content: Bytes, selection: Selection) returns (r: Response)
    requires selection.Slice? ==> selection.start <= selection.end < |content|
    ensures Carries(r, content, selection)
  {
    var size := |content|;
    match selection
    case NotSatisfiable =>
      r := Response(416, Some("bytes */" + PrintNat(size)), None, []);
    case WholeFile =>
      var chunks := IterWholeFile(content);
      r := Response(200, None, Some(size), chunks);
    case Slice(start, end) =>
      var chunks := IterFileRange(content, start, end, RANGE_CHUNK_SIZE);
      r := Response(206, Some("bytes " + PrintNat(start) + "-" + PrintNat(end) + "/" + PrintNat(size)),
                    Some(end - start + 1), chunks);
  }

  // ------------------------------------------------------------------ tiling

  /** The bodies of consecutive `k`-byte requests, from position `from` to the end of the file. */
  function TileBodies(content: Bytes, k: nat, from: nat): seq<Bytes>
    requires k > 0
    decreases |content| - from
  {
    if from >= |content| then []
    else [Tile(content, k, from)] + TileBodies(content, k, from + k)
  }

  /** The body answering `bytes=from-(from+k-1)`. */
  function Tile(content: Bytes, k: nat, from: nat): Bytes
    requires k > 0
  {
    Body(content, Ask(from, from + k - 1))
  }

  function Body(content: Bytes, header: string): Bytes
  {
    Selected(content, ParseRange(Some(header), |content|))
  }

  lemma BodyOfAsk(content: Bytes, a: nat, b: nat)
    requires a <= b && a < |content|
    ensures Body(content, Ask(a, b)) == if Readable(b) then content[a..Min(b + 1, |content|)] else []
  {
    PrintThenParse(a, b, |content|);
  }

  lemma TileIsSlice(content: Bytes, k: nat, from: nat)
    requires k > 0 && from < |content|
    ensures Tile(content, k, from) == if Readable(from + k - 1) then content[from..Min(from + k, |content|)] else []
  {
    var last := from + k - 1;
    assert Tile(content, k, from) == Body(content, Ask(from, last));
    BodyOfAsk(content, from, last);
    assert last + 1 == from + k;
  }

  lemma TileStep(content: Bytes, k: nat, from: nat, next: nat)
    requires k > 0 && from < |content| && next == Min(from + k, |content|)
    ensures TileBodies(content, k, from)
         == [if Readable(from + k - 1) then content[from..next] else []] + TileBodies(content, k, next)
  {
    TileIsSlice(content, k, from);
    assert TileBodies(content, k, next) == TileBodies(content, k, from + k);
  }

  /** The last position that the tiling asks for. */
  function LastAsked(size: nat, k: nat, from: nat): (r: nat)
    requires k > 0 && from < size
    ensures r >= from + k - 1
    decreases size - from
  {
    if from + k >= size then from + k - 1 else LastAsked(size, k, from + k)
  }

  /** The tiles are never longer than the file, and shorter when a number is too long to be read. */
  lemma {:induction false} TilesLength(content: Bytes, k: nat, from: nat)
    requires k > 0 && from <= |content|
    ensures |Concat(TileBodies(content, k, from))| <= |content| - from
    ensures from < |content| && !Readable(LastAsked(|content|, k, from)) ==>
              |Concat(TileBodies(content, k, from))| < |content| - from
    decreases |content| - from
  {
    if from < |content| {
      var next := Min(from + k, |content|);
      TileStep(content, k, from, next);
      TilesLength(content, k, next);
      ConcatCons(if Readable(from + k - 1) then content[from..next] else [], TileBodies(content, k, next));
    }
  }

  /**
    * Fetching a file piece by piece gives the file back, whatever the size of the pieces, if and
    * only if the last number asked for is one that can be read.
    */
  lemma {:induction false} TilesCoverFile(content: Bytes, k: nat, from: nat)
    requires k > 0 && from <= |content|
    ensures Concat(TileBodies(content, k, from)) == content[from..]
       <==> (from < |content| ==> Readable(LastAsked(|content|, k, from)))
    decreases |content| - from
  {
    TilesLength(content, k, from);
    if from == |content| {
      assert TileBodies(content, k, from) == [];
    } else if Readable(LastAsked(|content|, k, from)) {
      var next := Min(from + k, |content|);
      PrintGrows(from + k - 1, LastAsked(|content|, k, from));
      TileStep(content, k, from, next);
      TilesCoverFile(content, k, next);
      ConcatCons(content[from..next], TileBodies(content, k, next));
      SliceJoin(content, from, next);
    }
  }

  lemma SliceJoin(s: Bytes, a: nat, b: nat)
    requires a <= b <= |s|
    ensures s[a..b] + s[b..] == s[a..]
  {
  }
}
