/**
  Compiled time zone files (RFC 8536) and the resolution of a local time to the one instant at
  which the zone's clock shows it.  Instants and local times are whole seconds since the epoch.
 */
module CalendarTimezone {
  import opened Wrappers

  type Byte = b: int | 0 <= b < 256
  type Bytes = seq<Byte>

  const I64_LIMIT: nat := 0x8000_0000_0000_0000
  const USIZE_LIMIT: nat := 0x1_0000_0000_0000_0000
  const HEADER: nat := 44
  const TYPE_RECORD: nat := 6

  /** The first and the last second the calendar library can represent. */
  const MIN_TIMESTAMP: int := -8334601228800
  const MAX_TIMESTAMP: int := 8210266876799

  datatype ZoneError =
    | InvalidData | InvalidSecondHeader | Overflow | Truncated | InvalidTransitionType
    | InvalidName | UnknownZone | AmbiguousOrNonexistent | ConversionOverflow

  datatype Result<+T> = Ok(value: T) | Err(error: ZoneError)

  // ---- Big-endian integers ---------------------------------------------------------------------

  function Pow256(n: nat): (r: nat)
    ensures r > 0
    ensures n > 0 ==> r % 2 == 0
  {
    if n == 0 then 1 else 256 * Pow256(n - 1)
  }

  function Unsigned(s: Bytes): (r: nat)
    ensures r < Pow256(|s|)
  {
    if s == [] then 0 else 256 * Unsigned(s[..|s| - 1]) + s[|s| - 1]
  }

  function Signed(s: Bytes): (r: int)
    requires s != []
    ensures -(Pow256(|s|) / 2) <= r < Pow256(|s|) / 2
  {
    var v := Unsigned(s);
    if v < Pow256(|s|) / 2 then v else v - Pow256(|s|)
  }

  function BigEndian(v: nat, n: nat): (s: Bytes)
    requires v < Pow256(n)
    ensures |s| == n
  {
    if n == 0 then [] else BigEndian(v / 256, n - 1) + [v % 256]
  }

  function TwosComplement(x: int, n: nat): (s: Bytes)
    requires n > 0 && -(Pow256(n) / 2) <= x < Pow256(n) / 2
    ensures |s| == n
  {
    BigEndian(if x < 0 then x + Pow256(n) else x, n)
  }

  lemma {:induction false} UnsignedReadsBack(v: nat, n: nat)
    requires v < Pow256(n)
    ensures Unsigned(BigEndian(v, n)) == v
  {
    if n > 0 {
      var s := BigEndian(v, n);
      assert s[..n - 1] == BigEndian(v / 256, n - 1);
      UnsignedReadsBack(v / 256, n - 1);
    }
  }

  lemma SignedReadsBack(x: int, n: nat)
    requires n > 0 && -(Pow256(n) / 2) <= x < Pow256(n) / 2
    ensures Signed(TwosComplement(x, n)) == x
  {
    var v := if x < 0 then x + Pow256(n) else x;
    UnsignedReadsBack(v, n);
    SignedOf(BigEndian(v, n), v);
  }

  lemma SignedOf(s: Bytes, v: nat)
    requires s != [] && Unsigned(s) == v
    ensures Signed(s) == if v < Pow256(|s|) / 2 then v else v - Pow256(|s|)
  {
  }

  function ReadU32(data: Bytes, offset: nat): (r: Result<nat>)
    ensures r.Ok? <==> offset + 4 <= |data|
  {
    if offset + 4 <= |data| then Ok(Unsigned(data[offset..offset + 4])) else Err(Truncated)
  }

  function ReadSigned(data: Bytes, offset: nat, width: nat): (r: Result<int>)
    requires width > 0
    ensures r.Ok? <==> offset + width <= |data|
  {
    if offset + width <= |data| then Ok(Signed(data[offset..offset + width])) else Err(Truncated)
  }

  // ---- Headers ---------------------------------------------------------------------------------

  datatype Counts = Counts(times: nat, types: nat, chars: nat, leaps: nat, std: nat, gmt: nat)

  const MAGIC: Bytes := [0x54, 0x5A, 0x69, 0x66]

  function HeaderCounts(header: Bytes): (r: Result<Counts>)
    ensures r.Ok? <==> |header| >= HEADER
  {
    if |header| < HEADER then Err(Truncated)
    else
      Ok(Counts(
           gmt := ReadU32(header, 20).value,
           std := ReadU32(header, 24).value,
           leaps := ReadU32(header, 28).value,
           times := ReadU32(header, 32).value,
           types := ReadU32(header, 36).value,
           chars := ReadU32(header, 40).value))
  }

  predicate Small(c: Counts) {
    var limit := 0x1_0000_0000;
    c.times < limit && c.types < limit && c.chars < limit && c.leaps < limit && c.std < limit && c.gmt < limit
  }

  function Checked(x: nat): Option<nat> {
    if x < USIZE_LIMIT then Some(x) else None
  }

  function CheckedAdd(x: Option<nat>, y: Option<nat>): Option<nat> {
    if x.Some? && y.Some? then Checked(x.value + y.value) else None
  }

  /** The size in bytes of the data block that follows a header. */
  function BlockSize(c: Counts, width: nat): Result<nat> {
    var times := Checked(c.times * width);
    var indices := CheckedAdd(times, Some(c.times));
    var types := CheckedAdd(indices, Checked(c.types * TYPE_RECORD));
    var chars := CheckedAdd(types, Some(c.chars));
    var leaps := CheckedAdd(chars, Checked(c.leaps * (width + 4)));
    var std := CheckedAdd(leaps, Some(c.std));
    var gmt := CheckedAdd(std, Some(c.gmt));
    if gmt.Some? then Ok(gmt.value) else Err(Overflow)
  }

  /** The size of `n` consecutive items of `width` bytes. */
  function Span(n: nat, width: nat): nat {
    if n == 0 then 0 else width + Span(n - 1, width)
  }

  function Sections(c: Counts, width: nat): nat {
    Span(c.times, width) + c.times + c.types * TYPE_RECORD + c.chars + Span(c.leaps, width + 4) + c.std + c.gmt
  }

  lemma {:induction false} SpanIsProduct(n: nat, width: nat)
    ensures Span(n, width) == n * width
  {
    if n > 0 {
      SpanIsProduct(n - 1, width);
      assert n * width == (n - 1) * width + width;
    }
  }

  lemma CountsAreSmall(header: Bytes)
    requires |header| >= HEADER
    ensures Small(HeaderCounts(header).value)
  {
    assert Pow256(4) == 0x1_0000_0000 by {
      assert Pow256(2) == 0x1_0000;
    }
  }

  lemma SumFits(times: nat, indices: nat, types: nat, chars: nat, leaps: nat, std: nat, gmt: nat)
    requires times + indices + types + chars + leaps + std + gmt < USIZE_LIMIT / 2
    ensures CheckedAdd(CheckedAdd(CheckedAdd(CheckedAdd(CheckedAdd(CheckedAdd(
                    Checked(times), Some(indices)), Checked(types)), Some(chars)), Checked(leaps)),
                    Some(std)), Some(gmt))
         == Some(times + indices + types + chars + leaps + std + gmt)
  {
  }

  /** No header can make the size computation overflow, so every header has a size. */
  lemma BlockSizeNeverOverflows(c: Counts, width: nat)
    requires Small(c) && (width == 4 || width == 8)
    ensures BlockSize(c, width) == Ok(Sections(c, width)) && Sections(c, width) < USIZE_LIMIT / 2
  {
    SpanIsProduct(c.times, width);
    SpanIsProduct(c.leaps, width + 4);
    var times, leaps := c.times * width, c.leaps * (width + 4);
    assert times <= 8 * c.times && leaps <= 12 * c.leaps;
    SumFits(times, c.times, c.types * TYPE_RECORD, c.chars, leaps, c.std, c.gmt);
  }

  // ---- The decoder -----------------------------------------------------------------------------

  /** A decoded zone: when the clock changes, to which type, and each type's offset from UTC. */
  datatype Tzif = Tzif(transitions: seq<int>, indices: Bytes, offsets: seq<int>, defaultIndex: nat)

  predicate ValidZone(z: Tzif) {
    && |z.indices| == |z.transitions|
    && z.defaultIndex < |z.offsets|
    && (forall i :: 0 <= i < |z.indices| ==> z.indices[i] < |z.offsets|)
  }

  /** Where the header that counts starts and how wide its transition times are. */
  function Heading(data: Bytes): (r: Result<(nat, nat)>)
    ensures r.Ok? ==> r.value.0 + HEADER <= |data| && (r.value.1 == 4 || r.value.1 == 8)
  {
    if |data| < HEADER || data[..4] != MAGIC then Err(InvalidData)
    else
      var size := BlockSize(HeaderCounts(data[..HEADER]).value, 4);
      if size.Err? then Err(size.error)
      else if data[4] in {0x32, 0x33, 0x34} then
        var offset := HEADER + size.value;
        if offset >= USIZE_LIMIT then Err(Overflow)
        else if |data| < offset + HEADER || data[offset..offset + 4] != MAGIC then Err(InvalidSecondHeader)
        else Ok((offset, 8))
      else Ok((0, 4))
  }

  /** The consecutive `width`-byte integers of a section. */
  function Integers(s: Bytes, width: nat): seq<int>
    requires width > 0
  {
    if |s| < width then [] else [Signed(s[..width])] + Integers(s[width..], width)
  }

  /** The offsets of consecutive six-byte type records: four offset bytes, a flag and a name index. */
  function Offsets(s: Bytes): seq<int> {
    if |s| < TYPE_RECORD then [] else [Signed(s[..4])] + Offsets(s[TYPE_RECORD..])
  }

  /** The position of the first type record that is not daylight saving time. */
  function FirstStandard(s: Bytes): (r: Option<nat>)
    ensures r.Some? ==> TYPE_RECORD * (r.value + 1) <= |s|
  {
    if |s| < TYPE_RECORD then None
    else if s[4] == 0 then Some(0)
    else
      var rest := FirstStandard(s[TYPE_RECORD..]);
      if rest.Some? then Some(rest.value + 1) else None
  }

  /** Cutting a prefix off a concatenation. */
  lemma CutPrefix(s: Bytes, tail: Bytes, k: nat)
    requires k <= |s|
    ensures (s + tail)[..k] == s[..k] && (s + tail)[k..] == s[k..] + tail
  {
  }

  /** Reading one more integer appends it. */
  lemma {:induction false} IntegersStep(s: Bytes, next: Bytes, width: nat, k: nat)
    requires width > 0 && |s| == Span(k, width) && |next| == width
    ensures Integers(s + next, width) == Integers(s, width) + [Signed(next)]
    decreases k
  {
    if k == 0 {
      assert s + next == next && next[..width] == next && next[width..] == [];
    } else {
      CutPrefix(s, next, width);
      IntegersStep(s[width..], next, width, k - 1);
    }
  }

  lemma IntegersExtend(data: Bytes, start: nat, cursor: nat, width: nat, k: nat)
    requires width > 0 && cursor == start + Span(k, width) && cursor + width <= |data|
    ensures Integers(data[start..cursor + width], width)
         == Integers(data[start..cursor], width) + [Signed(data[cursor..cursor + width])]
  {
    IntegersStep(data[start..cursor], data[cursor..cursor + width], width, k);
    assert data[start..cursor] + data[cursor..cursor + width] == data[start..cursor + width];
  }

  /** Reading one more type record appends its offset, and it may be the first standard one. */
  lemma {:induction false} OffsetsStep(s: Bytes, next: Bytes, k: nat)
    requires |s| == k * TYPE_RECORD && |next| == TYPE_RECORD
    ensures Offsets(s + next) == Offsets(s) + [Signed(next[..4])]
    ensures FirstStandard(s + next) ==
            if FirstStandard(s).Some? then FirstStandard(s) else if next[4] == 0 then Some(k) else None
    decreases k
  {
    if k == 0 {
      assert s + next == next && next[TYPE_RECORD..] == [];
    } else {
      CutPrefix(s, next, TYPE_RECORD);
      CutPrefix(s, next, 4);
      OffsetsStep(s[TYPE_RECORD..], next, k - 1);
    }
  }

  lemma {:induction false} SpanGrows(k: nat, n: nat, width: nat)
    requires k <= n
    ensures Span(k, width) <= Span(n, width)
    ensures Span(k + 1, width) == Span(k, width) + width
    decreases n
  {
    if k < n {
      SpanGrows(k, n - 1, width);
    }
  }

  lemma {:induction false} IntegersCount(s: Bytes, width: nat, n: nat)
    requires width > 0 && |s| == Span(n, width)
    ensures |Integers(s, width)| == n
  {
    if n > 0 {
      IntegersCount(s[width..], width, n - 1);
    }
  }

  lemma {:induction false} OffsetsCount(s: Bytes, n: nat)
    requires |s| == n * TYPE_RECORD
    ensures |Offsets(s)| == n
  {
    if n > 0 {
      OffsetsCount(s[TYPE_RECORD..], n - 1);
    }
  }

  /** Decodes the sections one after the other; what follows the type records is not used. */
  function Body(data: Bytes, start: nat, width: nat, c: Counts): (r: Result<Tzif>)
    requires width > 0 && start + Span(c.times, width) + c.times + c.types * TYPE_RECORD <= |data| && c.types > 0
    ensures r.Ok? ==> ValidZone(r.value)
  {
    var a := start + Span(c.times, width);
    var b := a + c.times;
    Decoded(data[start..a], data[a..b], data[b..b + c.types * TYPE_RECORD], width, c)
  }

  function Decoded(times: Bytes, indices: Bytes, records: Bytes, width: nat, c: Counts): (r: Result<Tzif>)
    requires width > 0 && c.types > 0
    requires |times| == Span(c.times, width) && |indices| == c.times && |records| == c.types * TYPE_RECORD
    ensures r.Ok? ==> ValidZone(r.value)
  {
    IntegersCount(times, width, c.times);
    OffsetsCount(records, c.types);
    var z := Tzif(Integers(times, width), indices, Offsets(records), DefaultIndex(records));
    if AllKnown(indices, |z.offsets|) then Ok(z) else Err(InvalidTransitionType)
  }

  predicate AllKnown(indices: Bytes, types: nat) {
    forall i :: 0 <= i < |indices| ==> indices[i] < types
  }

  function DefaultIndex(records: Bytes): nat {
    var standard := FirstStandard(records);
    if standard.Some? then standard.value else 0
  }

  /** What a zone file means: the decoded zone, or why it is refused. */
  function Parsed(data: Bytes): (r: Result<Tzif>)
    ensures r.Ok? ==> ValidZone(r.value)
  {
    var heading := Heading(data);
    if heading.Err? then Err(heading.error)
    else
      var (header, width) := heading.value;
      var c := HeaderCounts(data[header..header + HEADER]).value;
      var start := header + HEADER;
      CountsAreSmall(data[header..header + HEADER]);
      BlockSizeNeverOverflows(c, width);
      if |data| < start + Sections(c, width) || c.types == 0 then Err(Truncated)
      else Body(data, start, width, c)
  }

  /** The cursor-driven decoder: none of its reads leaves the data once the size was checked. */
  method Parse(data: Bytes) returns (r: Result<Tzif>)
    ensures r == Parsed(data)
  {
    var heading := Heading(data);
    if heading.Err? {
      return Err(heading.error);
    }
    var (header, width) := heading.value;
    var c := HeaderCounts(data[header..header + HEADER]).value;
    var start := header + HEADER;
    CountsAreSmall(data[header..header + HEADER]);
    BlockSizeNeverOverflows(c, width);
    var need := BlockSize(c, width);
    if |data| < start + need.value || c.types == 0 {
      return Err(Truncated);
    }
    r := ParseBlock(data, start, width, c);
  }

  method ParseBlock(data: Bytes, start: nat, width: nat, c: Counts) returns (r: Result<Tzif>)
    requires width > 0 && start + Span(c.times, width) + c.times + c.types * TYPE_RECORD <= |data| && c.types > 0
    ensures r == Body(data, start, width, c)
  {
    var transitions, cursor := ReadTransitions(data, start, width, c.times);
    var indices := data[cursor..cursor + c.times];
    cursor := cursor + c.times;
    var offsets, defaultIndex;
    offsets, defaultIndex, cursor := ReadTypes(data, cursor, c.types);
    if !AllKnown(indices, |offsets|) {
      return Err(InvalidTransitionType);
    }
    return Ok(Tzif(transitions, indices, offsets, defaultIndex));
  }

  method ReadTransitions(data: Bytes, start: nat, width: nat, n: nat)
    returns (transitions: seq<int>, cursor: nat)
    requires width > 0 && start + Span(n, width) <= |data|
    ensures cursor == start + Span(n, width)
    ensures transitions == Integers(data[start..cursor], width)
  {
    cursor := start;
    transitions := [];
    for k := 0 to n
      invariant cursor == start + Span(k, width) <= |data|
      invariant transitions == Integers(data[start..cursor], width)
    {
      SpanGrows(k + 1, n, width);
      SpanGrows(k, n, width);
      IntegersExtend(data, start, cursor, width, k);
      var value := ReadSigned(data, cursor, width);
      assert value.Ok?;
      transitions := transitions + [value.value];
      cursor := cursor + width;
    }
  }

  method ReadTypes(data: Bytes, start: nat, n: nat)
    returns (offsets: seq<int>, defaultIndex: nat, cursor: nat)
    requires start + n * TYPE_RECORD <= |data|
    ensures cursor == start + n * TYPE_RECORD
    ensures offsets == Offsets(data[start..cursor])
    ensures defaultIndex == DefaultIndex(data[start..cursor])
  {
    var standard: Option<nat> := None;
    cursor := start;
    offsets := [];
    for k := 0 to n
      invariant cursor == start + k * TYPE_RECORD
      invariant offsets == Offsets(data[start..cursor]) && standard == FirstStandard(data[start..cursor])
    {
      ghost var next := data[cursor..cursor + TYPE_RECORD];
      OffsetsStep(data[start..cursor], next, k);
      assert data[start..cursor] + next == data[start..cursor + TYPE_RECORD] && next[..4] == data[cursor..cursor + 4];
      var offset := ReadSigned(data, cursor, 4);
      assert offset.Ok?;
      offsets := offsets + [offset.value];
      if standard.None? && data[cursor + 4] == 0 {
        standard := Some(k);
      }
      cursor := cursor + TYPE_RECORD;
    }
    defaultIndex := if standard.Some? then standard.value else 0;
  }

  // ---- Round trip with the file layout ---------------------------------------------------------

  /** One type record of section 3.2 of RFC 8536. */
  datatype TypeRecord = TypeRecord(offset: int, daylight: bool, name: Byte)

  /**
    The content of a zone file: the transitions and types, and the parts the decoder skips.  A
    version 1 file has no `legacy` part; a later one starts with a legacy header and block.
   */
  datatype ZoneFile = ZoneFile(
    version: Byte, legacy: Option<(Counts, Bytes)>,
    transitions: seq<int>, indices: Bytes, types: seq<TypeRecord>,
    chars: Bytes, leaps: nat, leapData: Bytes, std: Bytes, gmt: Bytes, footer: Bytes)

  function WidthOf(f: ZoneFile): nat {
    if f.legacy.Some? then 8 else 4
  }

  function CountsOf(f: ZoneFile): Counts {
    Counts(|f.transitions|, |f.types|, |f.chars|, f.leaps, |f.std|, |f.gmt|)
  }

  predicate Fits(x: int, width: nat) {
    -(Pow256(width) / 2) <= x < Pow256(width) / 2
  }

  predicate WellFormed(f: ZoneFile) {
    && (f.legacy.Some? <==> f.version in {0x32, 0x33, 0x34})
    && (f.legacy.Some? ==> Small(f.legacy.value.0) && |f.legacy.value.1| == Sections(f.legacy.value.0, 4))
    && Small(CountsOf(f)) && f.types != []
    && |f.indices| == |f.transitions| && AllKnown(f.indices, |f.types|)
    && |f.leapData| == Span(f.leaps, WidthOf(f) + 4)
    && (forall i :: 0 <= i < |f.transitions| ==> Fits(f.transitions[i], WidthOf(f)))
    && (forall i :: 0 <= i < |f.types| ==> Fits(f.types[i].offset, 4))
  }

  function EncodeHeader(version: Byte, c: Counts): (s: Bytes)
    requires Small(c)
    ensures |s| == HEADER && s[..4] == MAGIC && s[4] == version
  {
    Preamble(version) + EncodeWords([c.gmt, c.std, c.leaps, c.times, c.types, c.chars])
  }

  /** The magic number, the version and the reserved bytes. */
  function Preamble(version: Byte): (s: Bytes)
    ensures |s| == 20 && s[..4] == MAGIC && s[4] == version
  {
    MAGIC + [version] + seq(15, i => 0)
  }

  function EncodeWords(words: seq<nat>): (s: Bytes)
    requires forall i :: 0 <= i < |words| ==> words[i] < 0x1_0000_0000
    ensures |s| == 4 * |words|
  {
    if words == [] then [] else Word(words[0]) + EncodeWords(words[1..])
  }

  lemma {:induction false} WordsReadBack(before: Bytes, words: seq<nat>, i: nat)
    requires forall k :: 0 <= k < |words| ==> words[k] < 0x1_0000_0000
    requires i < |words|
    decreases |words|
    ensures ReadU32(before + EncodeWords(words), |before| + 4 * i) == Ok(words[i])
  {
    var first, rest := Word(words[0]), EncodeWords(words[1..]);
    Reassociate(before, first, rest);
    if i == 0 {
      Middle(before, first, rest);
    } else {
      WordsReadBack(before + first, words[1..], i - 1);
    }
  }

  lemma Reassociate(a: Bytes, b: Bytes, c: Bytes)
    ensures a + (b + c) == (a + b) + c
  {
  }

  /** Cutting a part out of the middle gives the part. */
  lemma Middle(before: Bytes, part: Bytes, after: Bytes)
    ensures ((before + part) + after)[|before|..|before| + |part|] == part
  {
  }

  function Word(v: nat): (s: Bytes)
    requires v < 0x1_0000_0000
    ensures |s| == 4 && Unsigned(s) == v
  {
    assert Pow256(2) == 0x1_0000;
    assert Pow256(4) == 0x1_0000_0000;
    UnsignedReadsBack(v, 4);
    BigEndian(v, 4)
  }

  function EncodeIntegers(xs: seq<int>, width: nat): (s: Bytes)
    requires width > 0 && forall i :: 0 <= i < |xs| ==> Fits(xs[i], width)
    ensures |s| == Span(|xs|, width)
  {
    if xs == [] then []
    else
      assert Fits(xs[0], width);
      TwosComplement(xs[0], width) + EncodeIntegers(xs[1..], width)
  }

  function EncodeTypes(types: seq<TypeRecord>): (s: Bytes)
    requires forall i :: 0 <= i < |types| ==> Fits(types[i].offset, 4)
    ensures |s| == |types| * TYPE_RECORD
  {
    if types == [] then []
    else EncodeType(types[0]) + EncodeTypes(types[1..])
  }

  function EncodeType(t: TypeRecord): (s: Bytes)
    requires Fits(t.offset, 4)
    ensures |s| == TYPE_RECORD && Signed(s[..4]) == t.offset && (s[4] == 0 <==> !t.daylight)
  {
    SignedReadsBack(t.offset, 4);
    var s := TwosComplement(t.offset, 4) + [if t.daylight then 1 else 0, t.name];
    assert s[..4] == TwosComplement(t.offset, 4);
    s
  }

  function EncodeBlock(f: ZoneFile): Bytes
    requires WellFormed(f)
  {
    EncodeIntegers(f.transitions, WidthOf(f)) + f.indices + EncodeTypes(f.types)
    + (f.chars + f.leapData + f.std + f.gmt + f.footer)
  }

  function Encode(f: ZoneFile): Bytes
    requires WellFormed(f)
  {
    (if f.legacy.Some? then EncodeHeader(f.version, f.legacy.value.0) + f.legacy.value.1 else [])
    + EncodeHeader(f.version, CountsOf(f)) + EncodeBlock(f)
  }

  /** The zone a file describes: times, kinds and offsets, and the first standard type as default. */
  function Meaning(f: ZoneFile): Tzif {
    Tzif(f.transitions, f.indices, seq(|f.types|, i requires 0 <= i < |f.types| => f.types[i].offset),
         StandardType(f.types))
  }

  function StandardType(types: seq<TypeRecord>): nat {
    if exists i :: 0 <= i < |types| && !types[i].daylight then Leading(types) else 0
  }

  /** How many daylight saving types come before the first standard one. */
  function Leading(types: seq<TypeRecord>): nat {
    if types == [] || !types[0].daylight then 0 else 1 + Leading(types[1..])
  }

  lemma {:induction false} IntegersReadBack(xs: seq<int>, width: nat)
    requires width > 0 && forall i :: 0 <= i < |xs| ==> Fits(xs[i], width)
    ensures Integers(EncodeIntegers(xs, width), width) == xs
  {
    if xs != [] {
      var s := EncodeIntegers(xs, width);
      assert |s| >= width;
      assert s[..width] == TwosComplement(xs[0], width) && s[width..] == EncodeIntegers(xs[1..], width);
      SignedReadsBack(xs[0], width);
      IntegersReadBack(xs[1..], width);
    }
  }

  lemma {:induction false} TypesReadBack(types: seq<TypeRecord>)
    requires forall i :: 0 <= i < |types| ==> Fits(types[i].offset, 4)
    ensures Offsets(EncodeTypes(types)) == seq(|types|, i requires 0 <= i < |types| => types[i].offset)
    ensures DefaultIndex(EncodeTypes(types)) == StandardType(types)
    ensures FirstStandard(EncodeTypes(types)).Some? <==> exists i :: 0 <= i < |types| && !types[i].daylight
  {
    if types != [] {
      var s := EncodeTypes(types);
      assert s[..TYPE_RECORD] == EncodeType(types[0]) && s[TYPE_RECORD..] == EncodeTypes(types[1..]);
      assert s[..4] == s[..TYPE_RECORD][..4] && s[4] == s[..TYPE_RECORD][4];
      TypesReadBack(types[1..]);
      if i :| 0 <= i < |types[1..]| && !types[1..][i].daylight {
        assert !types[i + 1].daylight;
      }
      if types[0].daylight {
        if i :| 0 <= i < |types| && !types[i].daylight {
          assert !types[1..][i - 1].daylight;
        }
      }
    }
  }

  lemma HeaderReadsBack(version: Byte, c: Counts)
    requires Small(c)
    ensures HeaderCounts(EncodeHeader(version, c)) == Ok(c)
  {
    var before, words := Preamble(version), [c.gmt, c.std, c.leaps, c.times, c.types, c.chars];
    WordsReadBack(before, words, 0);
    WordsReadBack(before, words, 1);
    WordsReadBack(before, words, 2);
    WordsReadBack(before, words, 3);
    WordsReadBack(before, words, 4);
    WordsReadBack(before, words, 5);
  }

  lemma DecodedKnown(times: Bytes, indices: Bytes, types: Bytes, width: nat, c: Counts)
    requires width > 0 && c.types > 0 && AllKnown(indices, |Offsets(types)|)
    requires |times| == Span(c.times, width) && |indices| == c.times && |types| == c.types * TYPE_RECORD
    ensures Decoded(times, indices, types, width, c)
         == Ok(Tzif(Integers(times, width), indices, Offsets(types), DefaultIndex(types)))
  {
  }

  /** The sections behind a prefix are where the decoder cuts them. */
  lemma SectionsAreCut(before: Bytes, times: Bytes, indices: Bytes, types: Bytes, rest: Bytes)
    ensures var data := before + (times + indices + types + rest);
            var a := |before| + |times|;
            var b := a + |indices|;
            data[|before|..a] == times && data[a..b] == indices && data[b..b + |types|] == types
  {
    var data := before + (times + indices + types + rest);
    Reassociate(times + indices, types, rest);
    Reassociate(times, indices, types + rest);
    Reassociate(before, times, indices + (types + rest));
    Middle(before, times, indices + (types + rest));
    Reassociate(before + times, indices, types + rest);
    Middle(before + times, indices, types + rest);
    Reassociate(before + times + indices, types, rest);
    Middle(before + times + indices, types, rest);
  }

  lemma BodyOfCuts(data: Bytes, start: nat, times: Bytes, indices: Bytes, types: Bytes, width: nat, c: Counts)
    requires width > 0 && c.types > 0
    requires |times| == Span(c.times, width) && |indices| == c.times && |types| == c.types * TYPE_RECORD
    requires start + |times| + |indices| + |types| <= |data|
    requires data[start..start + |times|] == times
    requires data[start + |times|..start + |times| + |indices|] == indices
    requires data[start + |times| + |indices|..start + |times| + |indices| + |types|] == types
    ensures Body(data, start, width, c) == Decoded(times, indices, types, width, c)
  {
  }

  lemma BodyOfSections(before: Bytes, times: Bytes, indices: Bytes, types: Bytes, rest: Bytes, width: nat, c: Counts)
    requires width > 0 && c.types > 0
    requires |times| == Span(c.times, width) && |indices| == c.times && |types| == c.types * TYPE_RECORD
    ensures Body(before + (times + indices + types + rest), |before|, width, c)
         == Decoded(times, indices, types, width, c)
  {
    SectionsAreCut(before, times, indices, types, rest);
    BodyOfCuts(before + (times + indices + types + rest), |before|, times, indices, types, width, c);
  }

  lemma BlockReadsBack(f: ZoneFile, before: Bytes)
    requires WellFormed(f)
    ensures Span(|f.transitions|, WidthOf(f)) + |f.transitions| + |f.types| * TYPE_RECORD <= |EncodeBlock(f)|
    ensures Body(before + EncodeBlock(f), |before|, WidthOf(f), CountsOf(f)) == Ok(Meaning(f))
  {
    var times, types := EncodeIntegers(f.transitions, WidthOf(f)), EncodeTypes(f.types);
    IntegersReadBack(f.transitions, WidthOf(f));
    TypesReadBack(f.types);
    var z := Meaning(f);
    assert Offsets(types) == z.offsets && |z.offsets| == |f.types|;
    assert AllKnown(f.indices, |Offsets(types)|);
    var rest := f.chars + f.leapData + f.std + f.gmt + f.footer;
    BodyOfSections(before, times, f.indices, types, rest, WidthOf(f), CountsOf(f));
    DecodedKnown(times, f.indices, types, WidthOf(f), CountsOf(f));
  }

  lemma BlockHasItsSize(f: ZoneFile)
    requires WellFormed(f)
    ensures |EncodeBlock(f)| >= Sections(CountsOf(f), WidthOf(f))
  {
  }

  /** The counting header of an encoded file is where the decoder looks for it. */
  ghost predicate HeadedAt(f: ZoneFile, before: nat)
    requires WellFormed(f)
  {
    var data := Encode(f);
    && Heading(data) == Ok((before, WidthOf(f)))
    && data[before..before + HEADER] == EncodeHeader(f.version, CountsOf(f))
    && data[before + HEADER..] == EncodeBlock(f)
  }

  lemma HeadingOf(data: Bytes, c: Counts)
    requires |data| >= HEADER && data[..4] == MAGIC && Small(c) && HeaderCounts(data[..HEADER]) == Ok(c)
    ensures data[4] !in {0x32, 0x33, 0x34} ==> Heading(data) == Ok((0, 4))
    ensures var before := HEADER + Sections(c, 4);
            data[4] in {0x32, 0x33, 0x34} && |data| >= before + HEADER && data[before..before + 4] == MAGIC
            ==> Heading(data) == Ok((before, 8))
  {
    BlockSizeNeverOverflows(c, 4);
  }

  lemma SingleHeading(f: ZoneFile)
    requires WellFormed(f) && f.legacy.None?
    ensures HeadedAt(f, 0)
  {
    var data, header, block := Encode(f), EncodeHeader(f.version, CountsOf(f)), EncodeBlock(f);
    assert data == header + block;
    assert data[..HEADER] == header && data[HEADER..] == block && data[..4] == header[..4];
    HeaderReadsBack(f.version, CountsOf(f));
    HeadingOf(data, CountsOf(f));
  }

  lemma SecondHeaderIsInPlace(first: Bytes, skipped: Bytes, header: Bytes, block: Bytes)
    requires |first| == |header| == HEADER
    ensures var data, before := first + skipped + header + block, HEADER + |skipped|;
            && data[..HEADER] == first && data[..4] == first[..4] && data[4] == first[4]
            && data[before..before + HEADER] == header && data[before..before + 4] == header[..4]
            && data[before + HEADER..] == block
  {
  }

  lemma SecondHeading(f: ZoneFile)
    requires WellFormed(f) && f.legacy.Some?
    ensures HeadedAt(f, HEADER + Sections(f.legacy.value.0, 4))
  {
    var data, header, block := Encode(f), EncodeHeader(f.version, CountsOf(f)), EncodeBlock(f);
    var (c, skipped) := f.legacy.value;
    SecondHeaderIsInPlace(EncodeHeader(f.version, c), skipped, header, block);
    HeaderReadsBack(f.version, c);
    HeadingOf(data, c);
  }

  lemma ParsedBelow(data: Bytes, before: nat, width: nat, c: Counts)
    requires Heading(data) == Ok((before, width)) && before + HEADER <= |data|
    requires HeaderCounts(data[before..before + HEADER]) == Ok(c) && c.types > 0
    requires |data| >= before + HEADER + Sections(c, width)
    ensures Parsed(data) == Body(data, before + HEADER, width, c)
  {
  }

  /** Decoding a file laid out as RFC 8536 prescribes gives back its transitions, types and default. */
  lemma ParseInvertsEncode(f: ZoneFile)
    requires WellFormed(f)
    ensures Parsed(Encode(f)) == Ok(Meaning(f))
  {
    var before := if f.legacy.None? then 0 else HEADER + Sections(f.legacy.value.0, 4);
    if f.legacy.None? {
      SingleHeading(f);
    } else {
      SecondHeading(f);
    }
    assert HeadedAt(f, before);
    HeaderReadsBack(f.version, CountsOf(f));
    BlockHasItsSize(f);
    var data := Encode(f);
    BlockReadsBack(f, data[..before + HEADER]);
    assert data == data[..before + HEADER] + EncodeBlock(f);
    ParsedBelow(data, before, WidthOf(f), CountsOf(f));
  }

  // ---- The offset in force ---------------------------------------------------------------------

  predicate Sorted(s: seq<int>) {
    forall i, j :: 0 <= i < j < |s| ==> s[i] <= s[j]
  }

  /** Bisection between `lo` and `hi` for the first element above `x`. */
  function PartitionPoint(s: seq<int>, x: int, lo: nat, hi: nat): (r: nat)
    requires lo <= hi <= |s|
    ensures lo <= r <= hi
    decreases hi - lo
  {
    if lo == hi then lo
    else
      var mid := (lo + hi) / 2;
      if s[mid] <= x then PartitionPoint(s, x, mid + 1, hi) else PartitionPoint(s, x, lo, mid)
  }

  function OffsetAt(z: Tzif, epoch: int): (r: int)
    requires ValidZone(z)
    ensures r in z.offsets
  {
    var position := PartitionPoint(z.transitions, epoch, 0, |z.transitions|);
    if position == 0 then z.offsets[z.defaultIndex] else z.offsets[z.indices[position - 1]]
  }

  /** The reference: look at the latest transitions first and stop at one that is not in the future. */
  function ScanBack(z: Tzif, epoch: int, n: nat): int
    requires ValidZone(z) && n <= |z.transitions|
  {
    if n == 0 then z.offsets[z.defaultIndex]
    else if z.transitions[n - 1] <= epoch then z.offsets[z.indices[n - 1]]
    else ScanBack(z, epoch, n - 1)
  }

  lemma {:induction false} BisectionSplits(s: seq<int>, x: int, lo: nat, hi: nat)
    requires lo <= hi <= |s| && Sorted(s)
    requires forall i :: 0 <= i < lo ==> s[i] <= x
    requires forall i :: hi <= i < |s| ==> x < s[i]
    ensures var p := PartitionPoint(s, x, lo, hi);
            (forall i :: 0 <= i < p ==> s[i] <= x) && (forall i :: p <= i < |s| ==> x < s[i])
    decreases hi - lo
  {
    if lo < hi {
      var mid := (lo + hi) / 2;
      if s[mid] <= x {
        UpTo(s, x, mid);
        BisectionSplits(s, x, mid + 1, hi);
      } else {
        From(s, x, mid);
        BisectionSplits(s, x, lo, mid);
      }
    }
  }

  lemma UpTo(s: seq<int>, x: int, mid: nat)
    requires mid < |s| && Sorted(s) && s[mid] <= x
    ensures forall i :: 0 <= i <= mid ==> s[i] <= x
  {
    forall i | 0 <= i < mid ensures s[i] <= x {
      assert s[i] <= s[mid];
    }
  }

  lemma From(s: seq<int>, x: int, mid: nat)
    requires mid < |s| && Sorted(s) && x < s[mid]
    ensures forall i :: mid <= i < |s| ==> x < s[i]
  {
    forall i | mid < i < |s| ensures x < s[i] {
      assert s[mid] <= s[i];
    }
  }

  lemma {:induction false} ScanFinds(z: Tzif, epoch: int, p: nat, n: nat)
    requires ValidZone(z) && p <= n <= |z.transitions|
    requires forall i :: p <= i < n ==> epoch < z.transitions[i]
    ensures ScanBack(z, epoch, n) == ScanBack(z, epoch, p)
  {
    if p < n {
      ScanFinds(z, epoch, p, n - 1);
    }
  }

  /** With sorted transitions, bisection finds what a linear scan finds. */
  lemma OffsetAtIsScan(z: Tzif, epoch: int)
    requires ValidZone(z) && Sorted(z.transitions)
    ensures OffsetAt(z, epoch) == ScanBack(z, epoch, |z.transitions|)
  {
    var n := |z.transitions|;
    var p := PartitionPoint(z.transitions, epoch, 0, n);
    BisectionSplits(z.transitions, epoch, 0, n);
    ScanFinds(z, epoch, p, n);
  }

  // ---- Local times -----------------------------------------------------------------------------

  predicate InstantRange(u: int) {
    -(I64_LIMIT as int) <= u < I64_LIMIT
  }

  /** At instant `u`, the zone's clock shows `local`. */
  predicate Shows(z: Tzif, u: int, local: int)
    requires ValidZone(z)
  {
    InstantRange(u) && u + OffsetAt(z, u) == local
  }

  /** Subtracts each offset of the zone from the local time and keeps the instants that have it. */
  function Matches(z: Tzif, local: int): set<int>
    requires ValidZone(z)
  {
    set o | o in z.offsets && InstantRange(local - o) && OffsetAt(z, local - o) == o :: local - o
  }

  function Only(s: set<int>): (u: int)
    requires |s| == 1
    ensures s == {u}
  {
    OnlyOne(s);
    var u :| u in s && s == {u};
    u
  }

  lemma OnlyOne(s: set<int>)
    requires |s| == 1
    ensures exists u :: u in s && s == {u}
  {
    if forall u :: u !in s {
      assert false;
    }
    var u :| u in s;
    assert |s - {u}| == 0;
    assert s == {u};
  }

  function Resolve(z: Tzif, local: int): Result<int>
    requires ValidZone(z)
  {
    var matches := Matches(z, local);
    if |matches| != 1 then Err(AmbiguousOrNonexistent)
    else
      var u := Only(matches);
      if MIN_TIMESTAMP <= u <= MAX_TIMESTAMP then Ok(u) else Err(ConversionOverflow)
  }

  /** The candidates are exactly the instants at which the clock shows the local time. */
  lemma MatchesAreTheInstants(z: Tzif, local: int, u: int)
    requires ValidZone(z)
    ensures u in Matches(z, local) <==> Shows(z, u, local)
  {
    if Shows(z, u, local) {
      var o := OffsetAt(z, u);
      assert o in z.offsets && u == local - o;
    }
  }

  ghost predicate ShowsOnlyAt(z: Tzif, u: int, local: int)
    requires ValidZone(z)
  {
    Shows(z, u, local) && forall v :: Shows(z, v, local) ==> v == u
  }

  /**
    A local time resolves to `u` exactly when `u` is the only instant that shows it and can be
    represented; it is refused as ambiguous or nonexistent exactly when there is no single instant.
   */
  lemma ResolvesTheOnlyInstant(z: Tzif, local: int)
    requires ValidZone(z)
    ensures forall u :: Resolve(z, local) == Ok(u) <==> ShowsOnlyAt(z, u, local) && MIN_TIMESTAMP <= u <= MAX_TIMESTAMP
    ensures Resolve(z, local) == Err(AmbiguousOrNonexistent) <==> !exists u :: ShowsOnlyAt(z, u, local)
    ensures Resolve(z, local) == Err(ConversionOverflow) <==>
            exists u :: ShowsOnlyAt(z, u, local) && !(MIN_TIMESTAMP <= u <= MAX_TIMESTAMP)
  {
    var matches := Matches(z, local);
    forall u ensures u in matches <==> Shows(z, u, local) {
      MatchesAreTheInstants(z, local, u);
    }
    forall u ensures ShowsOnlyAt(z, u, local) <==> matches == {u} {
      if ShowsOnlyAt(z, u, local) {
        assert forall v :: v in matches <==> v == u;
      }
    }
    if |matches| == 1 {
      assert ShowsOnlyAt(z, Only(matches), local);
    } else {
      assert forall u :: matches != {u};
    }
  }

  /** An instant that shows the local time and is the only one among the zone's candidates is the answer. */
  lemma OnlyInstant(z: Tzif, local: int, u: int)
    requires ValidZone(z) && Shows(z, u, local) && MIN_TIMESTAMP <= u <= MAX_TIMESTAMP
    requires forall o :: o in z.offsets && Shows(z, local - o, local) ==> local - o == u
    ensures Resolve(z, local) == Ok(u)
  {
    forall v | Shows(z, v, local) ensures v == u {
      var o := OffsetAt(z, v);
      assert o in z.offsets && v == local - o;
    }
    assert ShowsOnlyAt(z, u, local);
    ResolvesTheOnlyInstant(z, local);
  }

  // ---- The zone directory ----------------------------------------------------------------------

  predicate ValidName(parts: seq<string>) {
    parts != [] && forall i :: 0 <= i < |parts| ==> parts[i] != "" && parts[i] != "." && parts[i] != ".."
  }

  /** The zone files below the zone directory, by the parts of their names. */
  type Directory = map<seq<string>, Bytes>

  function ResolveLocalTime(zones: Directory, name: seq<string>, local: int): Result<int> {
    if !ValidName(name) then Err(InvalidName)
    else if name !in zones then Err(UnknownZone)
    else
      var z := Parsed(zones[name]);
      if z.Err? then Err(z.error) else Resolve(z.value, local)
  }

  /** The zone's clock never falls back by `step` seconds or more. */
  ghost predicate FallsBackLessThan(z: Tzif, step: int)
    requires ValidZone(z)
  {
    forall u, v :: InstantRange(u) && InstantRange(v) && u < v ==> u + OffsetAt(z, u) < v + OffsetAt(z, v) + step
  }

  /** The named zone, if it can be read at all, never falls back by `step` seconds or more. */
  ghost predicate ZoneAdvances(zones: Directory, name: seq<string>, step: int) {
    name in zones && Parsed(zones[name]).Ok? ==> FallsBackLessThan(Parsed(zones[name]).value, step)
  }

  lemma InOrder(z: Tzif, step: int, local: int, later: int)
    requires ValidZone(z) && FallsBackLessThan(z, step) && step > 0 && local + step <= later
    requires Resolve(z, local).Ok? && Resolve(z, later).Ok?
    ensures Resolve(z, local).value < Resolve(z, later).value
  {
    var u, v := Resolve(z, local).value, Resolve(z, later).value;
    MatchesAreTheInstants(z, local, u);
    MatchesAreTheInstants(z, later, v);
    assert Shows(z, u, local) && Shows(z, v, later);
  }

  /** Local times a step apart resolve to instants in the same order. */
  lemma ResolvedInOrder(zones: Directory, step: int, name: seq<string>, local: int, later: int)
    requires ZoneAdvances(zones, name, step) && step > 0 && local + step <= later
    requires ResolveLocalTime(zones, name, local).Ok? && ResolveLocalTime(zones, name, later).Ok?
    ensures ResolveLocalTime(zones, name, local).value < ResolveLocalTime(zones, name, later).value
  {
    InOrder(Parsed(zones[name]).value, step, local, later);
  }

  /** Different local times never resolve to the same instant. */
  lemma OneLocalTime(zones: Directory, name: seq<string>, a: int, b: int)
    requires ResolveLocalTime(zones, name, a).Ok? && ResolveLocalTime(zones, name, b).Ok? && a != b
    ensures ResolveLocalTime(zones, name, a).value != ResolveLocalTime(zones, name, b).value
  {
    OneLocalTimeIn(Parsed(zones[name]).value, a, b);
  }

  lemma OneLocalTimeIn(z: Tzif, a: int, b: int)
    requires ValidZone(z) && Resolve(z, a).Ok? && Resolve(z, b).Ok? && a != b
    ensures Resolve(z, a).value != Resolve(z, b).value
  {
    MatchesAreTheInstants(z, a, Resolve(z, a).value);
    MatchesAreTheInstants(z, b, Resolve(z, b).value);
  }
}
