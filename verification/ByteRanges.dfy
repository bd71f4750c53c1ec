/**
 Byte ranges: the `Range` header, what `Content-Range` announces, and the two chunked readers
 (src/o2gateway/webdav/parsing.py, src/o2gateway/webdav/router.py, src/o2gateway/o2/store.py,
 src/o2gateway/cloud/simulated.py).
 */
module ByteRanges {
  import opened Wrappers
  import opened Integers
  import opened Decimals
  import opened CloudTypes

  /** First byte, or minus the length of a suffix, and last byte if given. */
  datatype ByteRange = ByteRange(start: int, end: Option<int>)

  const CHUNK_SIZE: nat := 1024 * 1024

  // ------------------------------------------------------------------ the bytes a range stands for

  /** `_range_bounds`: the first and last byte that `Content-Range` announces. */
  function RangeBounds(r: ByteRange, size: nat): (int, int) {
    var start := if r.start < 0 then Max(0, size + r.start) else r.start;
    var end := if r.end.None? || r.end.value >= size then size - 1 else r.end.value;
    (start, end)
  }

  /** The bytes from `start` to `end`, both included, that exist. */
  function Slice(content: Bytes, start: int, end: int): Bytes {
    var from, to := Max(0, start), Min(end + 1, |content|);
    if from < to then content[from..to] else []
  }

  /** What `_read_local_file` is to deliver. */
  function LocalSlice(content: Bytes, range: Option<ByteRange>): Bytes {
    match range
    case None => content
    case Some(r) => Slice(content, r.start, if r.end.Some? then Min(|content| - 1, r.end.value) else |content| - 1)
  }

  /** `_normalize_range` of the simulated store. */
  function NormalizeRange(range: Option<ByteRange>, size: nat): (int, int) {
    if size == 0 then (0, -1)
    else if range.None? then (0, size - 1)
    else
      var (start, end) := RangeBounds(range.value, size);
      if start >= size then (size, size - 1)
      else if end < start then (start, start - 1)
      else (start, end)
  }

  function SimulatedSlice(content: Bytes, range: Option<ByteRange>): Bytes {
    var (start, end) := NormalizeRange(range, |content|);
    Slice(content, start, end)
  }

  function Concat(chunks: seq<Bytes>): Bytes
    decreases |chunks|
  {
    if chunks == [] then [] else Concat(chunks[..|chunks| - 1]) + chunks[|chunks| - 1]
  }

  // ------------------------------------------------------------------ the readers

  /** `handle.read(limit)` at `position`: at least one byte unless at the end of the file. */
  method ReadSome(content: Bytes, position: nat, limit: nat) returns (chunk: Bytes)
    requires limit > 0
    ensures |chunk| <= limit
    ensures chunk == [] <==> position >= |content|
    ensures chunk != [] ==> position + |chunk| <= |content| && chunk == content[position..position + |chunk|]
  {
    if position >= |content| {
      return [];
    }
    var available := Min(limit, |content| - position);
    var count: int := *;
    if count <= 0 || count > available {
      count := available;
    }
    chunk := content[position..position + count];
  }

  lemma NothingLeft(content: Bytes, start: nat, position: nat, stop: nat)
    requires |content| <= position <= stop
    ensures Slice(content, start, position - 1) == Slice(content, start, stop - 1)
  {
  }

  lemma SliceGrows(content: Bytes, start: nat, position: nat, more: nat)
    requires start <= position && position + more <= |content|
    ensures Slice(content, start, position + more - 1) == Slice(content, start, position - 1) + content[position..position + more]
  {
  }

  lemma EmptySlice(content: Bytes, start: nat)
    ensures Slice(content, start, start - 1) == []
  {
  }

  lemma OneMoreChunk(chunks: seq<Bytes>, chunk: Bytes)
    ensures Concat(chunks + [chunk]) == Concat(chunks) + chunk
  {
    assert (chunks + [chunk])[..|chunks|] == chunks;
  }

  /** The loop both readers share: `remaining` bytes from `start`, in chunks. */
  method ReadChunks(content: Bytes, start: nat, length: nat) returns (chunks: seq<Bytes>)
    ensures Concat(chunks) == Slice(content, start, start + length - 1)
    ensures forall i :: 0 <= i < |chunks| ==> 0 < |chunks[i]| <= CHUNK_SIZE
  {
    hide Slice;
    EmptySlice(content, start);
    chunks := [];
    var position, remaining := start, length;
    while remaining > 0
      invariant position + remaining == start + length && position >= 0 && remaining >= 0
      invariant start < position ==> position <= |content|
      invariant start <= position
      invariant Concat(chunks) == Slice(content, start, position - 1)
      invariant forall i :: 0 <= i < |chunks| ==> 0 < |chunks[i]| <= CHUNK_SIZE
      decreases remaining
    {
      var chunk := ReadSome(content, position, Min(CHUNK_SIZE, remaining));
      if chunk == [] {
        NothingLeft(content, start, position, start + length);
        return;
      }
      OneMoreChunk(chunks, chunk);
      SliceGrows(content, start, position, |chunk|);
      chunks := chunks + [chunk];
      position, remaining := position + |chunk|, remaining - |chunk|;
    }
  }

  /** `_read_local_file` */
  method ReadLocalFile(content: Bytes, range: Option<ByteRange>) returns (chunks: seq<Bytes>)
    ensures Concat(chunks) == LocalSlice(content, range)
    ensures forall i :: 0 <= i < |chunks| ==> 0 < |chunks[i]| <= CHUNK_SIZE
  {
    var start, end := 0, |content| - 1;
    if range.Some? {
      start := Max(0, range.value.start);
      if range.value.end.Some? {
        end := Min(end, range.value.end.value);
      }
    }
    chunks := ReadChunks(content, start, Max(0, end - start + 1));
  }

  /** `open_read` of the simulated store. */
  method ReadSimulated(content: Bytes, range: Option<ByteRange>) returns (chunks: seq<Bytes>)
    ensures Concat(chunks) == SimulatedSlice(content, range)
    ensures forall i :: 0 <= i < |chunks| ==> 0 < |chunks[i]| <= CHUNK_SIZE
  {
    var (start, end) := NormalizeRange(range, |content|);
    chunks := ReadChunks(content, start, end - start + 1);
  }

  // ------------------------------------------------------------------ what the readers promise

  /** The two readers agree on every range that does not count from the end; a suffix they agree on only
      when it covers the whole file, because the local reader starts at 0 for it. */
  lemma ReadersAgree(content: Bytes, r: ByteRange)
    ensures r.start >= 0 ==> LocalSlice(content, Some(r)) == SimulatedSlice(content, Some(r))
    ensures r.start < 0 && r.end.None? ==>
      (LocalSlice(content, Some(r)) == SimulatedSlice(content, Some(r)) <==> -r.start >= |content|)
  {
    if r.start < 0 && r.end.None? && -r.start < |content| {
      assert |LocalSlice(content, Some(r))| == |content|;
      assert |SimulatedSlice(content, Some(r))| == -r.start;
    }
  }

  /** For a range with a first byte inside the file and no later than its last byte, both readers deliver
      exactly the bytes announced in `Content-Range`. */
  lemma DeliversWhatIsAnnounced(content: Bytes, r: ByteRange)
    requires 0 <= r.start < |content| && (r.end.Some? ==> r.start <= r.end.value)
    ensures var (first, last) := RangeBounds(r, |content|);
      && 0 <= first <= last < |content|
      && LocalSlice(content, Some(r)) == content[first..last + 1]
      && SimulatedSlice(content, Some(r)) == content[first..last + 1]
  {
  }

  /** So does the simulated reader for a suffix of at least one byte. */
  lemma SuffixDeliversWhatIsAnnounced(content: Bytes, r: ByteRange)
    requires r.start <= -1 && r.end.None? && content != []
    ensures var (first, last) := RangeBounds(r, |content|);
      && 0 <= first <= last == |content| - 1
      && |content[first..]| == Min(-r.start, |content|)
      && SimulatedSlice(content, Some(r)) == content[first..last + 1]
  {
  }

  /** The router announces a `Content-Range` even for a range it cannot satisfy; the announced length is the
      delivered one exactly when the announced last byte is not more than one below the first. */
  lemma AnnouncedLength(content: Bytes, r: ByteRange)
    requires r.start >= 0
    ensures var (first, last) := RangeBounds(r, |content|);
      |LocalSlice(content, Some(r))| == last - first + 1 <==> first <= last + 1
  {
  }

  // ------------------------------------------------------------------ the header

  function DropBlanks(s: string): string
    decreases |s|
  {
    if s != "" && (s[0] == ' ' || s[0] == '\t') then DropBlanks(s[1..]) else s
  }

  function DropTrailingBlanks(s: string): string
    decreases |s|
  {
    if s != "" && (s[|s| - 1] == ' ' || s[|s| - 1] == '\t') then DropTrailingBlanks(s[..|s| - 1]) else s
  }

  /** The position of the first hyphen, or the length. */
  function FirstHyphen(s: string): (i: nat)
    ensures i <= |s| && '-' !in s[..i] && (i < |s| ==> s[i] == '-')
    decreases |s|
  {
    if s == "" || s[0] == '-' then 0 else 1 + FirstHyphen(s[1..])
  }

  const BYTES_UNIT: string := "bytes="

  /** `parse_range` */
  function ParseRange(header: Option<string>): Option<ByteRange> {
    if header.None? then None else
    var value := DropTrailingBlanks(DropBlanks(header.value));
    if !(BYTES_UNIT <= value) then None else
    var spec := value[|BYTES_UNIT|..];
    var hyphen := FirstHyphen(spec);
    if hyphen == |spec| then None else
    var first, last := spec[..hyphen], spec[hyphen + 1..];
    if !AllDigits(first) || !AllDigits(last) || (first == "" && last == "") then None
    else if first == "" then Some(ByteRange(-(Value(last) as int), None))
    else Some(ByteRange(Value(first), if last == "" then None else Some(Value(last))))
  }

  function IntText(n: int): string {
    if n < 0 then "-" + Text(-n) else Text(n)
  }

  /** The `Range` header of a provider download. */
  function PrintRange(r: ByteRange): string {
    BYTES_UNIT + IntText(r.start) + "-" + LastText(r)
  }

  lemma HyphenAfterDigits(first: string, rest: string)
    requires AllDigits(first)
    ensures FirstHyphen(first + "-" + rest) == |first|
  {
    var s := first + "-" + rest;
    var i := FirstHyphen(s);
    assert s[|first|] == '-' && forall k :: 0 <= k < |first| ==> s[k] in first;
    assert forall k :: 0 <= k < i ==> s[k] in s[..i];
  }

  lemma Halves(first: string, middle: string, rest: string)
    ensures var s := first + middle + rest;
      s[..|first|] == first && s[|first| + |middle|..] == rest && first <= s
  {
  }

  predicate Blank(c: char) {
    c == ' ' || c == '\t'
  }

  /** A header without blanks at its ends is read as it is. */
  lemma NothingToStrip(s: string)
    requires s != "" && !Blank(s[0]) && !Blank(s[|s| - 1])
    ensures DropTrailingBlanks(DropBlanks(s)) == s
  {
  }

  lemma HeaderEnds(unit: string, spec: string)
    requires unit != "" && spec != ""
    ensures var s := unit + spec; s != "" && s[0] == unit[0] && s[|s| - 1] == spec[|spec| - 1]
    ensures unit <= unit + spec && (unit + spec)[|unit|..] == spec
  {
  }

  function LastText(r: ByteRange): string {
    if r.end.None? then "" else IntText(r.end.value)
  }

  lemma LastTextEnds(first: string, last: string)
    requires AllDigits(last)
    ensures var spec := first + "-" + last; spec != "" && !Blank(spec[|spec| - 1])
  {
    if last != "" {
      assert last[|last| - 1] in last;
    }
  }

  /** The header around a printed specification goes away. */
  lemma SpecificationRead(first: string, last: string)
    requires AllDigits(last)
    ensures var spec := first + "-" + last; var header := BYTES_UNIT + spec;
      && DropTrailingBlanks(DropBlanks(header)) == header
      && BYTES_UNIT <= header && header[|BYTES_UNIT|..] == spec
  {
    var spec := first + "-" + last;
    LastTextEnds(first, last);
    HeaderEnds(BYTES_UNIT, spec);
    NothingToStrip(BYTES_UNIT + spec);
  }

  /** A range passed on to the provider reads back as the same range exactly when it does not count from
      the end; a suffix is printed as a header that is no range at all. */
  lemma RangeRoundTrip(r: ByteRange)
    requires r.end.Some? ==> r.end.value >= 0
    ensures ParseRange(Some(PrintRange(r))) == (if r.start >= 0 then Some(r) else None)
  {
    hide DropTrailingBlanks, DropBlanks;
    var first, last := IntText(r.start), LastText(r);
    SpecificationRead(first, last);
    RegroupHeader(first, last);
    if r.start >= 0 {
      HyphenAfterDigits(first, last);
      Halves(first, "-", last);
      ValueOfText(r.start);
      if r.end.Some? {
        ValueOfText(r.end.value);
      }
    } else {
      SuffixIsNoRange(-r.start, last);
    }
  }

  lemma RegroupHeader(first: string, last: string)
    ensures BYTES_UNIT + first + "-" + last == BYTES_UNIT + (first + "-" + last)
  {
  }

  /** After its own hyphen, a printed suffix still contains one where only digits are allowed. */
  lemma SuffixIsNoRange(length: nat, last: string)
    ensures var spec := "-" + Text(length) + "-" + last; FirstHyphen(spec) == 0 && !AllDigits(spec[1..])
  {
    var tail := ("-" + Text(length) + "-" + last)[1..];
    assert tail[|Text(length)|] == '-';
    assert '-' in tail && !IsDigit('-');
  }

  // ------------------------------------------------------------------ the same in bytes and text

  /** What the local reader delivers: the bytes from the start, or from the first byte for a negative start, to the end as
      far as they exist. */
  lemma ReadsLocally(content: Bytes, r: ByteRange)
    ensures LocalSlice(content, None) == content
    ensures var from := if r.start < 0 then 0 else r.start;
      var to := if r.end.None? || r.end.value >= |content| then |content| else r.end.value + 1;
      LocalSlice(content, Some(r)) == if from < to then content[from..to] else []
  {
  }

  /** What the simulated reader delivers of a suffix: so many of the last bytes. */
  lemma ReadsSuffix(content: Bytes, length: nat)
    requires length > 0
    ensures SimulatedSlice(content, Some(ByteRange(0 - length, None))) == if length < |content| then content[|content| - length..] else content
    ensures SimulatedSlice(content, None) == content
  {
  }

  /** What is announced: first and last byte as asked for, the last one no later than the end of the file; of a suffix
      the last bytes. */
  lemma Announces(r: ByteRange, size: nat)
    ensures r.start >= 0 ==> RangeBounds(r, size).0 == r.start
    ensures r.start < 0 ==> RangeBounds(r, size).0 == if -r.start < size then size + r.start else 0
    ensures RangeBounds(r, size).1 == if r.end.Some? && r.end.value < size then r.end.value else size - 1
  {
  }

  predicate AllBlank(s: string) {
    forall c :: c in s ==> Blank(c)
  }

  /** `header` asks for a range: between blanks, the unit, digits, a hyphen and digits, not both without digits. */
  predicate IsRangeHeader(header: string, before: string, first: string, last: string, after: string) {
    && AllBlank(before) && AllBlank(after) && AllDigits(first) && AllDigits(last) && (first != "" || last != "")
    && header == before + (BYTES_UNIT + (first + "-" + last)) + after
  }

  lemma {:induction false} BlanksDropped(before: string, s: string)
    requires AllBlank(before) && s != "" && !Blank(s[0])
    ensures DropBlanks(before + s) == s
    decreases |before|
  {
    if before == "" {
      assert before + s == s;
    } else {
      assert before[0] in before && (before + s)[1..] == before[1..] + s;
      BlanksDropped(before[1..], s);
    }
  }

  lemma {:induction false} TrailingDropped(s: string, after: string)
    requires AllBlank(after) && s != "" && !Blank(s[|s| - 1])
    ensures DropTrailingBlanks(s + after) == s
    decreases |after|
  {
    if after == "" {
      assert s + after == s;
    } else {
      var n := |after| - 1;
      assert after[n] in after && (s + after)[..|s + after| - 1] == s + after[..n];
      TrailingDropped(s, after[..n]);
    }
  }

  /** Every such header is read: with a first byte as a range from there, without one as a suffix. */
  lemma ReadsRange(header: string, before: string, first: string, last: string, after: string)
    requires IsRangeHeader(header, before, first, last, after)
    ensures ParseRange(Some(header)) == Some(
      if first == "" then ByteRange(-(Value(last) as int), None)
      else ByteRange(Value(first), if last == "" then None else Some(Value(last))))
  {
    hide DropBlanks, DropTrailingBlanks, IsRangeHeader;
    BetweenBlanks(header, before, first, last, after);
    HyphenAfterDigits(first, last);
    Halves(first, "-", last);
  }

  lemma BetweenBlanks(header: string, before: string, first: string, last: string, after: string)
    requires IsRangeHeader(header, before, first, last, after)
    ensures AllDigits(first) && AllDigits(last) && (first != "" || last != "")
    ensures var spec := first + "-" + last; var value := DropTrailingBlanks(DropBlanks(header));
      value == BYTES_UNIT + spec && BYTES_UNIT <= value && value[|BYTES_UNIT|..] == spec
  {
    hide DropBlanks, DropTrailingBlanks;
    var spec := first + "-" + last;
    var text := BYTES_UNIT + spec;
    LastTextEnds(first, last);
    HeaderEnds(BYTES_UNIT, spec);
    assert before + text + after == before + (text + after) && (text + after)[0] == text[0];
    BlanksDropped(before, text + after);
    TrailingDropped(text, after);
  }

  lemma {:induction false} WhatBlanksDrop(s: string) returns (before: string)
    ensures AllBlank(before) && s == before + DropBlanks(s)
    decreases |s|
  {
    if s != "" && Blank(s[0]) {
      var rest := WhatBlanksDrop(s[1..]);
      before := [s[0]] + rest;
      PutInFront(s, rest, DropBlanks(s[1..]));
      assert AllBlank([s[0]]);
    } else {
      before := "";
    }
  }

  lemma PutInFront(s: string, a: string, b: string)
    requires s != "" && s[1..] == a + b
    ensures s == [s[0]] + a + b
  {
    assert s == [s[0]] + s[1..];
  }

  lemma PutBehind(s: string, a: string, b: string)
    requires s != "" && s[..|s| - 1] == a + b
    ensures s == a + (b + [s[|s| - 1]])
  {
    assert s == s[..|s| - 1] + [s[|s| - 1]];
  }

  lemma {:induction false} WhatTrailingDrops(s: string) returns (after: string)
    ensures AllBlank(after) && s == DropTrailingBlanks(s) + after
    decreases |s|
  {
    if s != "" && Blank(s[|s| - 1]) {
      var rest := WhatTrailingDrops(s[..|s| - 1]);
      after := rest + [s[|s| - 1]];
      PutBehind(s, DropTrailingBlanks(s[..|s| - 1]), rest);
    } else {
      after := "";
    }
  }

  /** Nothing else is read as a range. */
  lemma ReadsOnlyRanges(header: string)
    requires ParseRange(Some(header)).Some?
    ensures exists before, first, last, after :: IsRangeHeader(header, before, first, last, after)
  {
    hide DropBlanks, DropTrailingBlanks;
    var before := WhatBlanksDrop(header);
    var after := WhatTrailingDrops(DropBlanks(header));
    var value := DropTrailingBlanks(DropBlanks(header));
    var spec := value[|BYTES_UNIT|..];
    var hyphen := FirstHyphen(spec);
    var first, last := spec[..hyphen], spec[hyphen + 1..];
    assert value == BYTES_UNIT + spec && spec == first + "-" + last;
    assert before + (value + after) == before + value + after;
    assert IsRangeHeader(header, before, first, last, after);
  }
}
