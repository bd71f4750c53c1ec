/**
 Hrefs of WebDAV answers and the paths of WebDAV requests (src/o2gateway/webdav/parsing.py:12-35): UTF-8
 octets, percent-encoding as in section 2.1 of RFC 3986, and the base path in front.
 */
module Href {
  import opened Wrappers
  import opened CloudTypes
  import opened CloudPath
  import opened Strings

  type Octet = n: int | 0 <= n < 256

  // ------------------------------------------------------------------ UTF-8

  function CharOctets(c: char): (r: seq<Octet>)
    ensures 1 <= |r| <= 4
  {
    var n := c as int;
    if n < 0x80 then [n]
    else if n < 0x800 then [0xC0 + n / 0x40, 0x80 + n % 0x40]
    else if n < 0x1_0000 then [0xE0 + n / 0x1000, 0x80 + n / 0x40 % 0x40, 0x80 + n % 0x40]
    else [0xF0 + n / 0x4_0000, 0x80 + n / 0x1000 % 0x40, 0x80 + n / 0x40 % 0x40, 0x80 + n % 0x40]
  }

  /** `value.encode("utf-8")` */
  function Encode(s: string): seq<Octet> {
    if s == "" then [] else CharOctets(s[0]) + Encode(s[1..])
  }

  predicate Continues(o: seq<Octet>, count: nat) {
    |o| > count && forall i :: 1 <= i <= count ==> 0x80 <= o[i] < 0xC0
  }

  /** The six bits of a continuation octet. */
  function Low(n: int): int {
    n - 0x80
  }

  /** The first character of an octet string and how many octets it takes. */
  function FirstChar(o: seq<Octet>): (r: Option<(char, nat)>)
    requires o != []
    ensures r.Some? ==> 0 < r.value.1 <= |o|
  {
    var b: int := o[0];
    if b < 0x80 then Some((b as char, 1))
    else if 0xC2 <= b < 0xE0 && Continues(o, 1) then
      Some((((b - 0xC0) * 0x40 + Low(o[1])) as char, 2))
    else if 0xE0 <= b < 0xF0 && Continues(o, 2) then
      var n := (b - 0xE0) * 0x1000 + Low(o[1]) * 0x40 + Low(o[2]);
      if n < 0x800 || 0xD800 <= n < 0xE000 then None else Some((n as char, 3))
    else if 0xF0 <= b < 0xF5 && Continues(o, 3) then
      var n := (b - 0xF0) * 0x4_0000 + Low(o[1]) * 0x1000 + Low(o[2]) * 0x40 + Low(o[3]);
      if n < 0x1_0000 || 0x11_0000 <= n then None else Some((n as char, 4))
    else None
  }

  /** `octets.decode("utf-8")`; `None` where an octet does not belong to a character. */
  function Decode(o: seq<Octet>): Option<string>
    decreases |o|
  {
    if o == [] then Some("")
    else
      match FirstChar(o)
      case None => None
      case Some(first) =>
        match Decode(o[first.1..])
        case None => None
        case Some(rest) => Some([first.0] + rest)
  }

  lemma FirstCharOf(c: char, rest: seq<Octet>)
    ensures FirstChar(CharOctets(c) + rest) == Some((c, |CharOctets(c)|))
  {
    var n := c as int;
    var o := CharOctets(c) + rest;
    if 0x80 <= n < 0x800 {
      assert Continues(o, 1);
    } else if 0x800 <= n < 0x1_0000 {
      assert Continues(o, 2);
      assert n / 0x1000 == n / 0x40 / 0x40;
    } else if 0x1_0000 <= n {
      assert Continues(o, 3);
      assert n / 0x1000 == n / 0x40 / 0x40 && n / 0x4_0000 == n / 0x1000 / 0x40;
    }
  }

  /** Decoding undoes encoding, for every text. */
  lemma {:induction false} DecodeEncode(s: string)
    ensures Decode(Encode(s)) == Some(s)
    decreases |s|
  {
    if s != "" {
      var rest := Encode(s[1..]);
      FirstCharOf(s[0], rest);
      assert (CharOctets(s[0]) + rest)[|CharOctets(s[0])|..] == rest;
      DecodeEncode(s[1..]);
      assert [s[0]] + s[1..] == s;
    }
  }

  // ------------------------------------------------------------------ percent-encoding

  predicate Unreserved(n: Octet) {
    || 'A' as int <= n <= 'Z' as int
    || 'a' as int <= n <= 'z' as int
    || '0' as int <= n <= '9' as int
    || n == '_' as int || n == '.' as int || n == '-' as int || n == '~' as int
  }

  function HexDigit(n: int): char
    requires 0 <= n < 16
  {
    if n < 10 then ('0' as int + n) as char else ('A' as int + (n - 10)) as char
  }

  function HexValue(c: char): (r: Option<int>)
    ensures r.Some? ==> 0 <= r.value < 16
  {
    if '0' <= c <= '9' then Some(c as int - '0' as int)
    else if 'A' <= c <= 'F' then Some(c as int - 'A' as int + 10)
    else if 'a' <= c <= 'f' then Some(c as int - 'a' as int + 10)
    else None
  }

  function QuoteOctet(n: Octet): string {
    if Unreserved(n) then [n as char] else ['%', HexDigit(n / 16), HexDigit(n % 16)]
  }

  function QuoteOctets(o: seq<Octet>): string {
    if o == [] then "" else QuoteOctet(o[0]) + QuoteOctets(o[1..])
  }

  /** `quote(value, safe="")` */
  function QuoteSegment(s: string): string {
    QuoteOctets(Encode(s))
  }

  /** `%` and two hexadecimal digits. */
  predicate IsTriplet(s: string) {
    |s| >= 3 && s[0] == '%' && HexValue(s[1]).Some? && HexValue(s[2]).Some?
  }

  predicate AsciiText(s: string) {
    forall i :: 0 <= i < |s| ==> s[i] < 128 as char
  }

  /** `unquote_to_bytes`: a `%` that is not followed by two hexadecimal digits stands for itself. */
  function UnquoteOctets(s: string): seq<Octet>
    requires AsciiText(s)
    decreases |s|
  {
    if s == "" then []
    else if IsTriplet(s) then [HexValue(s[1]).value * 16 + HexValue(s[2]).value] + UnquoteOctets(s[3..])
    else [s[0] as int] + UnquoteOctets(s[1..])
  }

  function AsciiRun(s: string): (n: nat)
    ensures n <= |s| && AsciiText(s[..n]) && (n < |s| ==> s[n] >= 128 as char)
  {
    if s == "" || s[0] >= 128 as char then 0 else 1 + AsciiRun(s[1..])
  }

  /** `unquote(value)`: the octets of every ASCII run are decoded together, other characters stay. */
  function Unquote(s: string): Option<string>
    decreases |s|
  {
    if s == "" then Some("")
    else
      var n := AsciiRun(s);
      var kept := if n == 0 then Some(s[..1]) else Decode(UnquoteOctets(s[..n]));
      match (kept, Unquote(s[if n == 0 then 1 else n..]))
      case (Some(first), Some(rest)) => Some(first + rest)
      case _ => None
  }

  // ------------------------------------------------------------------ hrefs

  function QuotedAll(parts: seq<string>): (r: seq<string>)
    ensures |r| == |parts|
  {
    seq(|parts|, i requires 0 <= i < |parts| => QuoteSegment(parts[i]))
  }

  /** `href_for_cloud_path` */
  function HrefForCloudPath(pathBase: string, cloudPath: string, isFolder: bool): string {
    var base := StripRight(pathBase);
    var href :=
      if cloudPath == "/" then (if base != "" then base else "/")
      else base + "/" + JoinWith('/', QuotedAll(Split(Strip(cloudPath))));
    if isFolder && (href == "" || href[|href| - 1] != '/') then href + "/"
    else if href != "" then href else "/"
  }

  /** `cloud_path_from_request` */
  function CloudPathFromRequest(pathBase: string, requestPath: string): Option<string> {
    var base := StripRight(pathBase);
    var value := if base != "" && base <= requestPath then requestPath[|base|..] else requestPath;
    match Unquote(value)
    case None => None
    case Some(text) => Some(Normalized(text))
  }

  // ------------------------------------------------------------------ what a quoted segment looks like

  /** Only unreserved characters and percent-encoded octets (section 2 of RFC 3986). */
  predicate PercentEncoded(s: string)
    decreases |s|
  {
    || s == ""
    || (s[0] as int < 256 && Unreserved(s[0] as int) && PercentEncoded(s[1..]))
    || (IsTriplet(s) && PercentEncoded(s[3..]))
  }

  lemma HexRoundTrip(n: int)
    requires 0 <= n < 16
    ensures HexValue(HexDigit(n)) == Some(n) && HexDigit(n) < 128 as char && HexDigit(n) != '/'
  {
  }

  lemma Regroup<T>(a: seq<T>, b: seq<T>, c: seq<T>)
    ensures a + b + c == a + (b + c)
  {
  }

  lemma QuotedOctet(n: Octet, rest: string)
    requires AsciiText(rest)
    ensures AsciiText(QuoteOctet(n) + rest)
    ensures UnquoteOctets(QuoteOctet(n) + rest) == [n] + UnquoteOctets(rest)
    ensures PercentEncoded(rest) ==> PercentEncoded(QuoteOctet(n) + rest)
    ensures '/' !in QuoteOctet(n) && QuoteOctet(n) != ""
  {
    var q := QuoteOctet(n);
    HexRoundTrip(n / 16);
    HexRoundTrip(n % 16);
    assert (q + rest)[|q|..] == rest;
    if Unreserved(n) {
      assert !IsTriplet(q + rest);
    } else {
      assert IsTriplet(q + rest);
    }
  }

  lemma {:induction false} QuotedOctets(o: seq<Octet>, rest: string)
    requires AsciiText(rest)
    ensures AsciiText(QuoteOctets(o) + rest)
    ensures UnquoteOctets(QuoteOctets(o) + rest) == o + UnquoteOctets(rest)
    ensures PercentEncoded(rest) ==> PercentEncoded(QuoteOctets(o) + rest)
    ensures '/' !in QuoteOctets(o) && (o != [] ==> QuoteOctets(o) != "")
    decreases |o|
  {
    hide QuoteOctet, AsciiText;
    if o == [] {
      assert QuoteOctets(o) + rest == rest && o + UnquoteOctets(rest) == UnquoteOctets(rest);
    } else {
      var tail := QuoteOctets(o[1..]) + rest;
      QuotedOctets(o[1..], rest);
      QuotedOctet(o[0], tail);
      Regroup(QuoteOctet(o[0]), QuoteOctets(o[1..]), rest);
      Regroup([o[0]], o[1..], UnquoteOctets(rest));
      assert [o[0]] + o[1..] == o;
    }
  }

  /** A quoted segment is percent-encoded text without a slash, and unquoting gives the segment back. */
  lemma QuotedSegment(s: string)
    ensures PercentEncoded(QuoteSegment(s)) && '/' !in QuoteSegment(s)
    ensures AsciiText(QuoteSegment(s)) && Unquote(QuoteSegment(s)) == Some(s)
  {
    QuotedOctets(Encode(s), "");
    assert QuoteSegment(s) + "" == QuoteSegment(s) && Encode(s) + [] == Encode(s);
    DecodeEncode(s);
    UnquoteAscii(QuoteSegment(s));
  }

  /** ASCII letters, digits and the marks - . _ ~ stand for themselves; every other octet is a percent sign and its two
      digits in upper case (sections 2.1 and 2.3 of RFC 3986). */
  lemma QuotedAs(n: Octet)
    ensures 48 <= n < 58 || 65 <= n < 91 || 97 <= n < 123 || n in [45, 46, 95, 126] ==> QuoteOctet(n) == [n as char]
    ensures !(48 <= n < 58 || 65 <= n < 91 || 97 <= n < 123 || n in [45, 46, 95, 126]) ==>
      var hi, lo := n / 16, n % 16;
      QuoteOctet(n) == ['%', (if hi < 10 then hi + 48 else hi + 55) as char, (if lo < 10 then lo + 48 else lo + 55) as char]
  {
  }

  lemma UnquoteAscii(s: string)
    requires AsciiText(s)
    ensures Unquote(s) == Decode(UnquoteOctets(s))
  {
    var n := AsciiRun(s);
    assert n == |s|;
    assert s[..n] == s && s[n..] == "";
    if s != "" && Decode(UnquoteOctets(s)).Some? {
      var text := Decode(UnquoteOctets(s)).value;
      assert text + "" == text;
    }
  }

  lemma {:induction false} EncodeConcat(a: string, b: string)
    ensures Encode(a + b) == Encode(a) + Encode(b)
    decreases |a|
  {
    if a == "" {
      assert a + b == b;
    } else {
      assert (a + b)[1..] == a[1..] + b;
      EncodeConcat(a[1..], b);
    }
  }

  /** `quoted` is ASCII text that stands for the octets of `text` and then for `after`. */
  predicate StandsForText(quoted: string, text: string, after: seq<Octet>) {
    AsciiText(quoted) && UnquoteOctets(quoted) == Encode(text) + after
  }

  /** Quoted segments joined by slashes stand for the joined segments. */
  lemma {:induction false} QuotedPath(parts: seq<string>, rest: string)
    requires AsciiText(rest)
    ensures StandsForText(JoinWith('/', QuotedAll(parts)) + rest, JoinWith('/', parts), UnquoteOctets(rest))
    decreases |parts|
  {
    hide StandsForText;
    if |parts| <= 1 {
      QuotedPart(if parts == [] then "" else parts[0], rest);
    } else {
      assert QuotedAll(parts)[1..] == QuotedAll(parts[1..]);
      QuotedPath(parts[1..], rest);
      OneMorePart(parts[0], JoinWith('/', QuotedAll(parts)[1..]) + rest, JoinWith('/', parts[1..]), UnquoteOctets(rest));
      JoinedFront(QuotedAll(parts), rest);
      JoinedFront(parts, "");
    }
  }

  lemma QuotedPart(part: string, rest: string)
    requires AsciiText(rest)
    ensures StandsForText(QuoteSegment(part) + rest, part, UnquoteOctets(rest))
  {
    QuotedOctets(Encode(part), rest);
  }

  lemma JoinedFront(parts: seq<string>, rest: string)
    requires |parts| > 1
    ensures JoinWith('/', parts) + rest == parts[0] + ("/" + (JoinWith('/', parts[1..]) + rest))
    ensures JoinWith('/', parts) == parts[0] + ("/" + JoinWith('/', parts[1..]))
  {
    var tail := JoinWith('/', parts[1..]);
    var slash := "/";
    assert JoinWith('/', parts) == parts[0] + slash + tail;
    Regroup(parts[0], slash, tail);
    Regroup(parts[0], slash + tail, rest);
    Regroup(slash, tail, rest);
  }

  lemma OneMorePart(part: string, tail: string, text: string, after: seq<Octet>)
    requires StandsForText(tail, text, after)
    ensures StandsForText(QuoteSegment(part) + ("/" + tail), part + ("/" + text), after)
  {
    var o := Encode(part);
    SlashOctet(tail);
    QuotedOctets(o, "/" + tail);
    EncodeConcat(part, "/" + text);
    SlashEncoded(text);
    Regroup(['/' as int], Encode(text), after);
    Regroup(o, ['/' as int] + Encode(text), after);
  }

  lemma SlashEncoded(text: string)
    ensures Encode("/" + text) == ['/' as int] + Encode(text)
  {
    assert ("/" + text)[1..] == text;
  }

  lemma SlashOctet(rest: string)
    requires AsciiText(rest)
    ensures AsciiText("/" + rest)
    ensures UnquoteOctets("/" + rest) == ['/' as int] + UnquoteOctets(rest)
  {
    assert ("/" + rest)[1..] == rest;
  }

  /** What follows the base in an href, read back. */
  lemma TailReadBack(segments: Path, trailing: string)
    requires trailing == "" || trailing == "/"
    ensures Unquote("/" + (JoinWith('/', QuotedAll(segments)) + trailing)) == Some(Render(segments) + trailing)
  {
    var body := JoinWith('/', QuotedAll(segments)) + trailing;
    QuotedPath(segments, trailing);
    SlashOctet(body);
    TrailingOctets(trailing);
    EncodeConcat(JoinWith('/', segments), trailing);
    SlashEncoded(JoinWith('/', segments) + trailing);
    Regroup("/", JoinWith('/', segments), trailing);
    UnquoteAscii("/" + body);
    DecodeEncode(Render(segments) + trailing);
  }

  lemma TrailingOctets(trailing: string)
    requires trailing == "" || trailing == "/"
    ensures AsciiText(trailing) && UnquoteOctets(trailing) == Encode(trailing)
  {
    SlashOctet("");
    SlashEncoded("");
    assert "/" + "" == "/";
  }

  /** The href of a canonical path: the base, its quoted segments, and a slash for folders. */
  lemma HrefShape(pathBase: string, path: string, isFolder: bool)
    requires Canonical(path)
    ensures var base := StripRight(pathBase); var href := HrefForCloudPath(pathBase, path, isFolder);
      || (path == "/" && href == base + (if base == "" || isFolder then "/" else ""))
      || (path != "/" && href == base + ("/" + (JoinWith('/', QuotedAll(Segments(path))) + (if isFolder then "/" else ""))))
  {
    hide Segments, Strip, QuotedAll, Canonical;
    var base := StripRight(pathBase);
    StripRightEnd(pathBase);
    if path != "/" {
      PartsOfCanonical(path);
      PartsInFront(base, "/", JoinWith('/', QuotedAll(Segments(path))));
    }
  }

  lemma PartsInFront(base: string, slash: string, parts: string)
    requires parts != ""
    ensures base + slash + parts == base + (slash + (parts + ""))
    ensures base + slash + parts + slash == base + (slash + (parts + slash))
    ensures var href := base + slash + parts; href != "" && href[|href| - 1] == parts[|parts| - 1]
  {
    LastOfConcat(base + slash, parts);
    Regroup(base, slash, parts);
    Regroup(base, slash + parts, slash);
    Regroup(slash, parts, slash);
    assert parts + "" == parts;
  }

  lemma LastOfConcat(a: string, b: string)
    requires b != ""
    ensures (a + b)[|a + b| - 1] == b[|b| - 1]
  {
  }

  lemma PartsOfCanonical(path: string)
    requires Canonical(path) && path != "/"
    ensures Split(Strip(path)) == Segments(path)
    ensures var q := JoinWith('/', QuotedAll(Segments(path))); q != "" && q[|q| - 1] != '/'
  {
    var segments := Segments(path);
    SegmentsAreProper(path);
    RenderRoot(segments);
    JoinedEnds(segments);
    StripAround(JoinWith('/', segments), "");
    assert "/" + JoinWith('/', segments) + "" == path;
    SplitJoined(segments);
    QuotedEnd(segments);
  }

  lemma {:induction false} StripRightEnd(s: string)
    ensures var r := StripRight(s); r == "" || r[|r| - 1] != '/'
    decreases |s|
  {
    if s != "" && s[|s| - 1] == '/' {
      StripRightEnd(s[..|s| - 1]);
    }
  }

  lemma {:induction false} QuotedEnd(segments: Path)
    requires AllSegments(segments) && segments != []
    ensures var q := JoinWith('/', QuotedAll(segments)); q != "" && q[|q| - 1] != '/'
    decreases |segments|
  {
    var quoted := QuotedAll(segments);
    if |segments| == 1 {
      QuotedOctets(Encode(segments[0]), "");
      assert quoted[0][|quoted[0]| - 1] in quoted[0];
    } else {
      assert quoted[1..] == QuotedAll(segments[1..]);
      QuotedEnd(segments[1..]);
    }
  }

  /** Main result: for every base and every canonical path, a request for an item's href is understood as the
      item's path, whether it is listed as a file or as a folder. */
  lemma RequestUndoesHref(pathBase: string, path: string, isFolder: bool)
    requires Canonical(path)
    ensures CloudPathFromRequest(pathBase, HrefForCloudPath(pathBase, path, isFolder)) == Some(path)
  {
    var base := StripRight(pathBase);
    var href := HrefForCloudPath(pathBase, path, isFolder);
    var segments := Segments(path);
    var trailing := if isFolder then "/" else "";
    HrefShape(pathBase, path, isFolder);
    SegmentsAreProper(path);
    RenderRoot(segments);
    if path == "/" {
      var tail := if base == "" || isFolder then "/" else "";
      assert href[|base|..] == tail && base <= href;
      UnquoteAscii(tail);
      SlashOctet("");
      assert "/" + "" == "/";
      DecodeEncode("/");
      assert Encode("/") == ['/' as int];
      SegmentsOfRoot("");
      SegmentsOfEmpty();
    } else {
      var tail := "/" + (JoinWith('/', QuotedAll(segments)) + trailing);
      assert href[|base|..] == tail && base <= href;
      TailReadBack(segments, trailing);
      SegmentsOfRendered(segments, trailing);
    }
  }

  lemma SegmentsOfEmpty()
    ensures Segments("") == []
  {
    SegmentsOfRoot("");
    SlashesNone("/" + "");
    assert "/" + "" == "/" && StripLeft("") == "" && StripRight("") == "";
    assert "/"[1..] == "" && StripLeft("/") == "";
    assert Slashes("") == "" && Strip("") == Strip("/");
  }

  /** Two items of one listing never get the same href. */
  lemma HrefsAreDistinct(pathBase: string, path: string, isFolder: bool, other: string, otherIsFolder: bool)
    requires Canonical(path) && Canonical(other) && path != other
    ensures HrefForCloudPath(pathBase, path, isFolder) != HrefForCloudPath(pathBase, other, otherIsFolder)
  {
    RequestUndoesHref(pathBase, path, isFolder);
    RequestUndoesHref(pathBase, other, otherIsFolder);
  }

  // ------------------------------------------------------------------ octets and requests

  predicate Trails(n: int) {
    0x80 <= n < 0xC0
  }

  predicate SpellsTwo(n: int, a: int, b: int) {
    0xC2 <= a < 0xE0 && Trails(b) && n == (a - 0xC0) * 0x40 + (b - 0x80)
  }

  predicate SpellsThree(n: int, a: int, b: int, c: int) {
    0xE0 <= a < 0xF0 && Trails(b) && Trails(c) && n == (a - 0xE0) * 0x1000 + (b - 0x80) * 0x40 + (c - 0x80)
  }

  predicate SpellsFour(n: int, a: int, b: int, c: int, d: int) {
    && 0xF0 <= a < 0xF5 && Trails(b) && Trails(c) && Trails(d)
    && n == (a - 0xF0) * 0x4_0000 + (b - 0x80) * 0x1000 + (c - 0x80) * 0x40 + (d - 0x80)
  }

  /** One to four octets by the size of the character: a lead octet that tells how many, and six bits in each other one
      (section 3 of RFC 3629). */
  lemma Utf8(c: char)
    ensures var n, o := c as int, CharOctets(c);
      && (n < 0x80 ==> o == [n])
      && (0x80 <= n < 0x800 ==> |o| == 2 && SpellsTwo(n, o[0], o[1]))
      && (0x800 <= n < 0x1_0000 ==> |o| == 3 && SpellsThree(n, o[0], o[1], o[2]))
      && (0x1_0000 <= n ==> |o| == 4 && SpellsFour(n, o[0], o[1], o[2], o[3]))
  {
    var n := c as int;
    assert n / 0x1000 == n / 0x40 / 0x40 && n / 0x4_0000 == n / 0x1000 / 0x40;
  }

  /** Only octets that encode a text are decoded. */
  lemma {:induction false} DecodesOnlyEncoded(o: seq<Octet>)
    requires Decode(o).Some?
    ensures Encode(Decode(o).value) == o
    decreases |o|
  {
    if o != [] {
      var (c, n) := FirstChar(o).value;
      OctetsOfFirst(o);
      DecodesOnlyEncoded(o[n..]);
      var rest := Decode(o[n..]).value;
      assert ([c] + rest)[1..] == rest;
      assert o[..n] + o[n..] == o;
    }
  }

  lemma OctetsOfFirst(o: seq<Octet>)
    requires o != [] && FirstChar(o).Some?
    ensures CharOctets(FirstChar(o).value.0) == o[..FirstChar(o).value.1]
  {
    var b: int := o[0];
    if b < 0x80 {
      assert o[..1] == [o[0]];
    } else if b < 0xE0 {
      OctetsOfTwo(b - 0xC0, Low(o[1]));
      assert o[..2] == [o[0], o[1]];
    } else if b < 0xF0 {
      OctetsOfThree(b - 0xE0, Low(o[1]), Low(o[2]));
      assert o[..3] == [o[0], o[1], o[2]];
    } else {
      OctetsOfFour(b - 0xF0, Low(o[1]), Low(o[2]), Low(o[3]));
      assert o[..4] == [o[0], o[1], o[2], o[3]];
    }
    hide CharOctets;
  }

  lemma OctetsOfTwo(a: int, x: int)
    requires 2 <= a < 0x20 && 0 <= x < 0x40
    ensures CharOctets((a * 0x40 + x) as char) == [0xC0 + a, 0x80 + x]
  {
    TwoOctets(a, x);
  }

  lemma OctetsOfThree(a: int, x: int, y: int)
    requires 0 <= a < 0x10 && 0 <= x < 0x40 && 0 <= y < 0x40
    requires var n := a * 0x1000 + x * 0x40 + y; 0x800 <= n && !(0xD800 <= n < 0xE000)
    ensures CharOctets((a * 0x1000 + x * 0x40 + y) as char) == [0xE0 + a, 0x80 + x, 0x80 + y]
  {
    ThreeOctets(a, x, y);
  }

  lemma OctetsOfFour(a: int, x: int, y: int, z: int)
    requires 0 <= a < 5 && 0 <= x < 0x40 && 0 <= y < 0x40 && 0 <= z < 0x40
    requires 0x1_0000 <= a * 0x4_0000 + x * 0x1000 + y * 0x40 + z < 0x11_0000
    ensures CharOctets((a * 0x4_0000 + x * 0x1000 + y * 0x40 + z) as char) == [0xF0 + a, 0x80 + x, 0x80 + y, 0x80 + z]
  {
    FourOctets(a, x, y, z);
  }

  lemma TwoOctets(a: int, x: int)
    requires 0 <= x < 0x40
    ensures (a * 0x40 + x) / 0x40 == a && (a * 0x40 + x) % 0x40 == x
  {
  }

  lemma ThreeOctets(a: int, x: int, y: int)
    requires 0 <= a && 0 <= x < 0x40 && 0 <= y < 0x40
    ensures var n := a * 0x1000 + x * 0x40 + y; n / 0x1000 == a && n / 0x40 % 0x40 == x && n % 0x40 == y
  {
    var n := a * 0x1000 + x * 0x40 + y;
    TwoOctets(a * 0x40 + x, y);
    TwoOctets(a, x);
    assert n == (a * 0x40 + x) * 0x40 + y && n / 0x1000 == n / 0x40 / 0x40;
  }

  lemma FourOctets(a: int, x: int, y: int, z: int)
    requires 0 <= a && 0 <= x < 0x40 && 0 <= y < 0x40 && 0 <= z < 0x40
    ensures var n := a * 0x4_0000 + x * 0x1000 + y * 0x40 + z;
      n / 0x4_0000 == a && n / 0x1000 % 0x40 == x && n / 0x40 % 0x40 == y && n % 0x40 == z
  {
    var n := a * 0x4_0000 + x * 0x1000 + y * 0x40 + z;
    ThreeOctets(a * 0x40 + x, y, z);
    TwoOctets(a, x);
    assert n == (a * 0x40 + x) * 0x1000 + y * 0x40 + z && n / 0x4_0000 == n / 0x1000 / 0x40;
  }

  /** Hexadecimal digits stand for their value in either case, and nothing else is one (section 2.1 of RFC 3986). */
  lemma HexDigits(k: nat, c: char)
    ensures k < 10 ==> HexValue((k + 48) as char) == Some(k)
    ensures 10 <= k < 16 ==> HexValue((k + 55) as char) == Some(k) && HexValue((k + 87) as char) == Some(k)
    ensures HexValue(c).Some? ==> 48 <= c as int < 58 || 65 <= c as int < 71 || 97 <= c as int < 103
  {
  }

  /** A percent sign with two hexadecimal digits stands for their octet, any other for itself. */
  lemma PercentStandsFor(hi: char, lo: char, rest: string)
    requires AsciiText([hi, lo] + rest)
    ensures AsciiText(['%', hi, lo] + rest) && AsciiText(rest)
    ensures HexValue(hi).Some? && HexValue(lo).Some? ==>
      UnquoteOctets(['%', hi, lo] + rest) == [HexValue(hi).value * 16 + HexValue(lo).value] + UnquoteOctets(rest)
    ensures HexValue(hi).None? || HexValue(lo).None? ==>
      UnquoteOctets(['%', hi, lo] + rest) == ['%' as int] + UnquoteOctets([hi, lo] + rest)
  {
    var s := ['%', hi, lo] + rest;
    assert forall i :: 0 <= i < |rest| ==> rest[i] == ([hi, lo] + rest)[i + 2];
    assert s[3..] == rest && s[1..] == [hi, lo] + rest;
    assert forall i :: 0 <= i < |s| ==> s[i] == if i == 0 then '%' else ([hi, lo] + rest)[i - 1];
  }

  /** Text without a percent sign stands for itself. */
  lemma {:induction false} PlainOctets(s: string)
    requires AsciiText(s) && '%' !in s
    ensures UnquoteOctets(s) == Encode(s)
    decreases |s|
  {
    if s != "" {
      assert s[0] in s && forall i :: 0 <= i < |s[1..]| ==> s[1..][i] == s[i + 1];
      PlainOctets(s[1..]);
    }
  }

  lemma {:induction false} PlainText(s: string)
    requires '%' !in s
    ensures Unquote(s) == Some(s)
    decreases |s|
  {
    if s != "" {
      var n := AsciiRun(s);
      PlainTail(s, if n == 0 then 1 else n);
      PlainText(s[if n == 0 then 1 else n..]);
      if n > 0 {
        PlainRun(s[..n]);
        UnquotedParts(s, n, s[..n], s[n..]);
        PutBack(s, n);
      } else {
        UnquotedChar(s);
      }
    }
  }

  lemma PutBack(s: string, n: nat)
    requires n <= |s|
    ensures s[..n] + s[n..] == s
  {
  }

  lemma UnquotedParts(s: string, n: nat, first: string, rest: string)
    requires 0 < n == AsciiRun(s) && Decode(UnquoteOctets(s[..n])) == Some(first) && Unquote(s[n..]) == Some(rest)
    ensures Unquote(s) == Some(first + rest)
  {
  }

  lemma UnquotedChar(s: string)
    requires s != "" && AsciiRun(s) == 0 && Unquote(s[1..]) == Some(s[1..])
    ensures Unquote(s) == Some(s)
  {
    assert s[..1] + s[1..] == s;
  }

  lemma PlainTail(s: string, k: nat)
    requires '%' !in s && k <= |s|
    ensures '%' !in s[k..] && '%' !in s[..k]
  {
    assert forall c :: c in s[k..] ==> c in s;
    assert forall c :: c in s[..k] ==> c in s;
  }

  lemma PlainRun(s: string)
    requires AsciiText(s) && '%' !in s
    ensures Decode(UnquoteOctets(s)) == Some(s)
  {
    PlainOctets(s);
    DecodeEncode(s);
  }

  /** A request outside the base is understood as it is, and every path that is understood is canonical. */
  lemma RequestsAreCanonical(pathBase: string, requestPath: string)
    ensures !(StripRight(pathBase) <= requestPath) ==> CloudPathFromRequest(pathBase, requestPath) == CloudPathFromRequest("", requestPath)
    ensures CloudPathFromRequest(pathBase, requestPath).Some? ==> Canonical(CloudPathFromRequest(pathBase, requestPath).value)
    ensures '%' !in requestPath ==> CloudPathFromRequest("", requestPath) == Some(Normalized(requestPath))
  {
    hide Normalized;
    assert StripRight("") == "";
    var base := StripRight(pathBase);
    var value := if base != "" && base <= requestPath then requestPath[|base|..] else requestPath;
    if Unquote(value).Some? {
      NormalizeIdempotent(Unquote(value).value);
    }
    if '%' !in requestPath {
      PlainText(requestPath);
    }
  }
}
