/**
 Path normalisation (src/o2gateway/cloud/base.py:67-95) and the correspondence between canonical path
 strings and lists of segments, on which the store's maps are keyed.
 */
module CloudPath {
  import opened CloudTypes
  import opened Strings

  // ------------------------------------------------------------------ text

  /** `replace("\\", "/")` */
  function Slashes(s: string): (r: string)
    ensures |r| == |s|
  {
    seq(|s|, i requires 0 <= i < |s| => if s[i] == '\\' then '/' else s[i])
  }

  function StripLeft(s: string): string {
    if s != "" && s[0] == '/' then StripLeft(s[1..]) else s
  }

  function StripRight(s: string): string {
    if s != "" && s[|s| - 1] == '/' then StripRight(s[..|s| - 1]) else s
  }

  /** `strip("/")` */
  function Strip(s: string): string {
    StripRight(StripLeft(s))
  }

  function FirstSlash(s: string): (i: nat)
    ensures i <= |s| && '/' !in s[..i] && (i < |s| ==> s[i] == '/')
  {
    if s == "" || s[0] == '/' then 0 else 1 + FirstSlash(s[1..])
  }

  /** `split("/")` */
  function Split(s: string): (r: seq<string>)
    ensures r != [] && forall i :: 0 <= i < |r| ==> '/' !in r[i]
    decreases |s|
  {
    var i := FirstSlash(s);
    if i == |s| then [s] else [s[..i]] + Split(s[i + 1..])
  }

  // ------------------------------------------------------------------ normalisation

  /** One part: empty and `.` are skipped, `..` takes the last one back. */
  function Step(parts: seq<string>, part: string): seq<string> {
    if part == "" || part == "/" || part == "." then parts
    else if part == ".." then (if parts == [] then [] else parts[..|parts| - 1])
    else parts + [part]
  }

  function Fold(pieces: seq<string>): seq<string>
    decreases |pieces|
  {
    if pieces == [] then [] else Step(Fold(pieces[..|pieces| - 1]), pieces[|pieces| - 1])
  }

  /** The segments a path stands for. */
  function Segments(path: string): Path {
    Fold(Split("/" + Strip(Slashes(path))))
  }

  function Render(segments: Path): string {
    "/" + JoinWith('/', segments)
  }

  function Normalized(path: string): string {
    Render(Segments(path))
  }

  /** `normalize_cloud_path` */
  method NormalizeCloudPath(path: string) returns (r: string)
    ensures r == Normalized(path)
  {
    if path == "" {
      assert Slashes(path) == "" && Split("/") == ["", ""];
      assert Fold(["", ""]) == [] by {
        assert ["", ""][..1] == [""] && [""][..0] == [];
      }
      return "/";
    }
    var value := "/" + Strip(Slashes(path));
    var pieces := Split(value);
    var parts := [];
    for i := 0 to |pieces|
      invariant parts == Fold(pieces[..i])
    {
      assert pieces[..i + 1][..i] == pieces[..i];
      var part := pieces[i];
      if part == "" || part == "/" || part == "." {
        continue;
      }
      if part == ".." {
        if parts != [] {
          parts := parts[..|parts| - 1];
        }
        continue;
      }
      parts := parts + [part];
    }
    assert pieces[..|pieces|] == pieces;
    r := "/" + JoinWith('/', parts);
  }

  // ------------------------------------------------------------------ canonical paths

  predicate IsSegment(s: string) {
    s != "" && s != "." && s != ".." && '/' !in s && '\\' !in s
  }

  predicate AllSegments(segments: Path) {
    forall i :: 0 <= i < |segments| ==> IsSegment(segments[i])
  }

  predicate Canonical(path: string) {
    Normalized(path) == path
  }

  lemma {:induction false} SplitParts(s: string)
    requires '\\' !in s
    ensures forall i :: 0 <= i < |Split(s)| ==> '\\' !in Split(s)[i]
    decreases |s|
  {
    var i := FirstSlash(s);
    if i < |s| {
      SplitParts(s[i + 1..]);
    }
  }

  lemma {:induction false} FoldParts(pieces: seq<string>)
    requires forall i :: 0 <= i < |pieces| ==> '/' !in pieces[i] && '\\' !in pieces[i]
    ensures AllSegments(Fold(pieces))
    decreases |pieces|
  {
    if pieces != [] {
      FoldParts(pieces[..|pieces| - 1]);
    }
  }

  lemma {:induction false} StripKeeps(s: string)
    requires '\\' !in s
    ensures '\\' !in StripLeft(s) && '\\' !in StripRight(s)
    decreases |s|
  {
    if s != "" {
      StripKeeps(s[1..]);
      StripKeeps(s[..|s| - 1]);
    }
  }

  /** Normalisation only leaves proper segments. */
  lemma SegmentsAreProper(path: string)
    ensures AllSegments(Segments(path))
  {
    assert '\\' !in Slashes(path);
    StripKeeps(Slashes(path));
    StripKeeps(StripLeft(Slashes(path)));
    SplitParts("/" + Strip(Slashes(path)));
    FoldParts(Split("/" + Strip(Slashes(path))));
  }

  lemma {:induction false} JoinedEnds(segments: Path)
    requires AllSegments(segments) && segments != []
    ensures var s := JoinWith('/', segments); s != "" && s[0] != '/' && s[|s| - 1] != '/' && '\\' !in s
    decreases |segments|
  {
    assert segments[0][0] in segments[0];
    if |segments| == 1 {
      var s := segments[0];
      assert s[|s| - 1] in s;
    } else {
      JoinedEnds(segments[1..]);
    }
  }

  lemma {:induction false} SplitJoined(segments: Path)
    requires AllSegments(segments) && segments != []
    ensures Split(JoinWith('/', segments)) == segments
    decreases |segments|
  {
    if |segments| == 1 {
      SplitOne(segments[0]);
    } else {
      var rest := JoinWith('/', segments[1..]);
      SplitJoined(segments[1..]);
      SplitFront(segments[0], rest);
      assert JoinWith('/', segments) == segments[0] + "/" + rest;
    }
  }

  lemma SplitOne(part: string)
    requires '/' !in part
    ensures Split(part) == [part]
  {
    FirstSlashAt(part, "");
    assert part + "" == part;
  }

  lemma SplitFront(part: string, rest: string)
    requires '/' !in part
    ensures Split(part + "/" + rest) == [part] + Split(rest)
  {
    var s := part + "/" + rest;
    FirstSlashAt(part, "/" + rest);
    assert s == part + ("/" + rest) && s[..|part|] == part && s[|part| + 1..] == rest;
  }

  lemma {:induction false} FirstSlashAt(first: string, rest: string)
    requires '/' !in first && (rest == "" || rest[0] == '/')
    ensures FirstSlash(first + rest) == |first|
    decreases |first|
  {
    if first == "" {
      assert first + rest == rest;
    } else {
      assert (first + rest)[1..] == first[1..] + rest;
      FirstSlashAt(first[1..], rest);
    }
  }

  lemma {:induction false} FoldSegments(segments: Path)
    requires AllSegments(segments)
    ensures Fold(segments) == segments
    decreases |segments|
  {
    if segments != [] {
      FoldSegments(segments[..|segments| - 1]);
      assert segments == segments[..|segments| - 1] + [segments[|segments| - 1]];
    }
  }

  lemma {:induction false} FoldEmptyFirst(pieces: seq<string>)
    ensures Fold([""] + pieces) == Fold(pieces)
    decreases |pieces|
  {
    if pieces == [] {
      assert [""] + pieces == [""] && [""][..0] == [];
    } else {
      FoldEmptyFirst(pieces[..|pieces| - 1]);
      assert ([""] + pieces)[..|pieces|] == [""] + pieces[..|pieces| - 1];
    }
  }

  lemma SlashesNone(s: string)
    requires '\\' !in s
    ensures Slashes(s) == s
  {
    forall i | 0 <= i < |s| ensures Slashes(s)[i] == s[i] {
      assert s[i] in s;
    }
  }

  /** Text around joined segments: slashes before and after do not count. */
  lemma StripAround(body: string, trailing: string)
    requires body != "" && body[0] != '/' && body[|body| - 1] != '/' && (trailing == "" || trailing == "/")
    ensures Strip("/" + body + trailing) == body
  {
    var rest := body + trailing;
    var whole := "/" + body + trailing;
    assert whole[0] == '/' && whole[1..] == rest;
    assert rest != "" && rest[0] == body[0];
    assert StripLeft(rest) == rest;
    assert StripLeft(whole) == rest;
    assert StripRight(body) == body;
    if trailing == "/" {
      assert rest[|rest| - 1] == '/' && rest[..|rest| - 1] == body;
    } else {
      assert rest == body;
    }
  }

  lemma SegmentsOfRoot(trailing: string)
    requires trailing == "" || trailing == "/"
    ensures Segments("/" + trailing) == []
  {
    var s := "/" + trailing;
    SlashesNone(s);
    assert StripLeft("") == "" && StripRight("") == "";
    assert "/"[1..] == "" && StripLeft("/") == "";
    if trailing == "/" {
      assert s[0] == '/' && s[1..] == "/";
    } else {
      assert s == "/";
    }
    assert "/" + Strip(s) == "/";
    FirstSlashAt("", "/");
    assert "" + "/" == "/" && "/"[..0] == "" && FirstSlash("") == 0;
    assert Split("") == [""] && Split("/") == [""] + [""];
    FoldEmptyFirst([""]);
    FoldEmptyFirst([]);
    assert [""] + [] == [""];
  }

  /** Rendered segments are read back, also with a trailing slash. */
  lemma SegmentsOfRendered(segments: Path, trailing: string)
    requires AllSegments(segments) && (trailing == "" || trailing == "/")
    ensures Segments(Render(segments) + trailing) == segments
  {
    var body := JoinWith('/', segments);
    if segments == [] {
      assert Render(segments) == "/";
      SegmentsOfRoot(trailing);
    } else {
      JoinedEnds(segments);
      assert Render(segments) + trailing == "/" + body + trailing;
      SlashesNone("/" + body + trailing);
      StripAround(body, trailing);
      SplitJoined(segments);
      FirstSlashAt("", "/" + body);
      assert "" + ("/" + body) == "/" + body && ("/" + body)[1..] == body;
      assert Split("/" + body) == [""] + segments;
      FoldEmptyFirst(segments);
      FoldSegments(segments);
    }
  }

  /** Normalising twice is normalising once, and the result is canonical. */
  lemma NormalizeIdempotent(path: string)
    ensures Normalized(Normalized(path)) == Normalized(path) && Canonical(Normalized(path))
  {
    SegmentsAreProper(path);
    assert Normalized(path) + "" == Normalized(path);
    SegmentsOfRendered(Segments(path), "");
  }

  /** Canonical strings and lists of proper segments are in bijection. */
  lemma CanonicalBijection(path: string, segments: Path)
    ensures Canonical(path) <==> AllSegments(Segments(path)) && Render(Segments(path)) == path
    ensures AllSegments(segments) ==> Canonical(Render(segments)) && Segments(Render(segments)) == segments
  {
    SegmentsAreProper(path);
    if AllSegments(segments) {
      assert Render(segments) + "" == Render(segments);
      SegmentsOfRendered(segments, "");
    }
  }

  // ------------------------------------------------------------------ parent and name

  function LastSlash(s: string): (i: nat)
    requires s != "" && s[0] == '/'
    ensures i < |s| && s[i] == '/' && '/' !in s[i + 1..]
  {
    if s[|s| - 1] == '/' then |s| - 1 else LastSlash(s[..|s| - 1])
  }

  /** `parent_path` */
  function ParentPath(path: string): string {
    var normalized := Normalized(path);
    if normalized == "/" then "/"
    else
      var i := LastSlash(normalized);
      if i == 0 then "/" else normalized[..i]
  }

  /** `basename` */
  function Basename(path: string): string {
    var normalized := Normalized(path);
    if normalized == "/" then "" else normalized[LastSlash(normalized) + 1..]
  }

  /** `_join`, for a name that is a proper segment. */
  function JoinPath(parent: string, name: string): string {
    if parent == "/" then "/" + name else parent + "/" + name
  }

  lemma {:induction false} JoinedSnoc(front: Path, name: string)
    ensures JoinWith('/', front + [name]) == (if front == [] then name else JoinWith('/', front) + "/" + name)
    decreases |front|
  {
    if front == [] {
      assert front + [name] == [name];
    } else {
      assert (front + [name])[1..] == front[1..] + [name];
      JoinedSnoc(front[1..], name);
    }
  }

  lemma JoinedLast(segments: Path)
    requires segments != []
    ensures var n := |segments| - 1;
      Render(segments) == (if n == 0 then "" else Render(segments[..n])) + "/" + segments[n]
  {
    var n := |segments| - 1;
    assert segments == segments[..n] + [segments[n]];
    JoinedSnoc(segments[..n], segments[n]);
    if n > 0 {
      assert "/" + (JoinWith('/', segments[..n]) + "/" + segments[n]) == Render(segments[..n]) + "/" + segments[n];
    }
  }

  lemma {:induction false} LastSlashAt(front: string, name: string)
    requires (front + "/" + name)[0] == '/' && '/' !in name
    ensures LastSlash(front + "/" + name) == |front|
    decreases |name|
  {
    var s := front + "/" + name;
    if name == "" {
      assert s[|s| - 1] == '/';
    } else {
      var init := name[..|name| - 1];
      assert s[..|s| - 1] == front + "/" + init;
      assert s[|s| - 1] == name[|name| - 1];
      assert name[|name| - 1] in name;
      LastSlashAt(front, init);
    }
  }

  lemma RenderRoot(segments: Path)
    requires AllSegments(segments)
    ensures Render(segments) == "/" <==> segments == []
  {
    if segments != [] {
      JoinedEnds(segments);
    }
  }

  /** On strings, `parent_path` and `basename` are what `Parent` and `Base` are on segments. */
  lemma ParentAndName(path: string)
    ensures ParentPath(path) == Render(Parent(Segments(path)))
    ensures Basename(path) == Base(Segments(path))
  {
    var segments := Segments(path);
    SegmentsAreProper(path);
    RenderRoot(segments);
    if segments != [] {
      var n := |segments| - 1;
      JoinedLast(segments);
      var front := if n == 0 then "" else Render(segments[..n]);
      LastSlashAt(front, segments[n]);
      assert (front + "/" + segments[n])[..|front|] == front;
      assert (front + "/" + segments[n])[|front| + 1..] == segments[n];
      if n == 0 {
        assert segments[..0] == [];
      }
    }
  }

  /** Joining parent and name rebuilds every canonical path but the root, and going to the parent always
      makes the path one segment shorter, so looking up parents comes to an end. */
  lemma JoinRebuilds(path: string)
    requires Canonical(path) && path != "/"
    ensures JoinPath(ParentPath(path), Basename(path)) == path
    ensures |Segments(ParentPath(path))| == |Segments(path)| - 1
  {
    var segments := Segments(path);
    SegmentsAreProper(path);
    RenderRoot(segments);
    ParentAndName(path);
    var n := |segments| - 1;
    JoinedLast(segments);
    RenderRoot(Parent(segments));
    assert Render(Parent(segments)) + "" == Render(Parent(segments));
    SegmentsOfRendered(Parent(segments), "");
  }

  // ------------------------------------------------------------------ segment by segment

  lemma CutAtSlash(a: string, i: nat)
    requires i < |a| && a[i] == '/'
    ensures a == a[..i] + "/" + a[i + 1..]
  {
  }

  lemma SplitAtFirst(a: string) returns (first: string, rest: string)
    requires FirstSlash(a) < |a|
    ensures a == first + "/" + rest && '/' !in first && |rest| < |a|
    ensures Split(a) == [first] + Split(rest)
  {
    var i := FirstSlash(a);
    first, rest := a[..i], a[i + 1..];
    CutAtSlash(a, i);
    SplitFront(first, rest);
  }

  lemma SplitInFront(first: string, rest: string, b: string)
    requires '/' !in first
    ensures Split(first + "/" + rest + "/" + b) == [first] + Split(rest + "/" + b)
  {
    assert first + "/" + rest + "/" + b == first + "/" + (rest + "/" + b);
    SplitFront(first, rest + "/" + b);
  }

  lemma {:induction false} SplitTogether(a: string, b: string)
    ensures Split(a + "/" + b) == Split(a) + Split(b)
    decreases |a|
  {
    if FirstSlash(a) == |a| {
      SplitWithoutSlash(a, b);
    } else {
      var first, rest := SplitAtFirst(a);
      SplitTogether(rest, b);
      SplitInFront(first, rest, b);
      PiecesTogether(Split(a + "/" + b), Split(a), first, Split(rest), Split(b));
    }
  }

  lemma SplitWithoutSlash(a: string, b: string)
    requires FirstSlash(a) == |a|
    ensures Split(a + "/" + b) == Split(a) + Split(b)
  {
    assert a[..|a|] == a;
    SplitOne(a);
    SplitFront(a, b);
  }

  lemma PiecesTogether(whole: seq<string>, parts: seq<string>, first: string, rest: seq<string>, more: seq<string>)
    requires whole == [first] + (rest + more) && parts == [first] + rest
    ensures whole == parts + more
  {
  }

  lemma FoldOneMore(pieces: seq<string>, piece: string)
    ensures Fold(pieces + [piece]) == Step(Fold(pieces), piece)
  {
    assert (pieces + [piece])[..|pieces|] == pieces;
  }

  lemma SlashBehind(s: string)
    ensures Fold(Split(s + "/")) == Fold(Split(s))
  {
    hide Split, Fold;
    assert s + "/" == s + "/" + "";
    SplitTogether(s, "");
    SplitOne("");
    FoldOneMore(Split(s), "");
  }

  /** Slashes at the ends stand for nothing. */
  lemma {:induction false} StripRightSame(s: string)
    ensures Fold(Split(StripRight(s))) == Fold(Split(s))
    decreases |s|
  {
    hide Split, Fold;
    if s != "" && s[|s| - 1] == '/' {
      var t := s[..|s| - 1];
      StripRightSame(t);
      SlashBehind(t);
      EndsInSlash(s);
    }
  }

  lemma EndsInSlash(s: string)
    requires s != "" && s[|s| - 1] == '/'
    ensures s == s[..|s| - 1] + "/" && StripRight(s) == StripRight(s[..|s| - 1])
  {
  }

  lemma {:induction false} StripLeftSame(s: string)
    ensures Fold(Split(StripLeft(s))) == Fold(Split(s))
    decreases |s|
  {
    if s != "" && s[0] == '/' {
      StripLeftSame(s[1..]);
      LeadingSlash(s[1..]);
      assert s == "/" + s[1..];
    }
  }

  lemma LeadingSlash(s: string)
    ensures Fold(Split("/" + s)) == Fold(Split(s))
  {
    assert "/" + s == "" + "/" + s;
    SplitTogether("", s);
    SplitOne("");
    FoldEmptyFirst(Split(s));
  }

  lemma SegmentsAreFolded(path: string)
    ensures Segments(path) == Fold(Split(Slashes(path)))
  {
    var s := Slashes(path);
    LeadingSlash(Strip(s));
    StripRightSame(StripLeft(s));
    StripLeftSame(s);
  }

  /** A backslash counts as a slash. */
  lemma BackslashIsSlash(s: string, t: string)
    requires |s| == |t| && forall i :: 0 <= i < |s| ==> t[i] == if s[i] == '\\' then '/' else s[i]
    ensures Segments(s) == Segments(t)
  {
    assert Slashes(s) == t && Slashes(t) == t;
  }

  /** A slash in front changes nothing, and no path is the root. */
  lemma SegmentsFromRoot(s: string)
    requires '\\' !in s
    ensures Segments("/" + s) == Segments(s) && Segments("") == []
  {
    SlashesNone("/" + s);
    SlashesNone(s);
    SegmentsAreFolded("/" + s);
    SegmentsAreFolded(s);
    LeadingSlash(s);
    SegmentsAreFolded("");
    SplitOne("");
    FoldOneMore([], "");
    assert [] + [""] == [""] && Slashes("") == "";
  }

  /** Main result on normalisation: one part more behind a slash adds a segment, except that an empty part and a dot add
      nothing, and two dots lead to the parent, which at the root is the root. */
  lemma SegmentsOneMore(s: string, part: string)
    requires '\\' !in s && '\\' !in part && '/' !in part
    ensures Segments(s + "/" + part) ==
      if part == "" || part == "." then Segments(s)
      else if part == ".." then Parent(Segments(s))
      else Segments(s) + [part]
  {
    SlashesNone(s + "/" + part);
    SlashesNone(s);
    SegmentsAreFolded(s + "/" + part);
    SegmentsAreFolded(s);
    SplitTogether(s, part);
    SplitOne(part);
    FoldOneMore(Split(s), part);
  }
}
