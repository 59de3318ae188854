/** Portable project paths and the lexical resolution of references between project files. */
module LogicalPaths {
  import opened Common

  // --- splitting and joining on '/' ----------------------------------------------------

  /** `str::split('/')`: one more part than there are separators. */
  function Split(s: string): (parts: seq<string>)
    ensures |parts| >= 1
  {
    if s == [] then [[]] else Grow(Split(s[..|s|-1]), s[|s|-1])
  }

  function Grow(parts: seq<string>, c: char): (more: seq<string>)
    requires |parts| >= 1
    ensures |more| >= 1
  {
    if c == '/' then parts + [[]] else parts[..|parts|-1] + [parts[|parts|-1] + [c]]
  }

  function Join(parts: seq<string>): string
  {
    if parts == [] then []
    else if |parts| == 1 then parts[0]
    else Join(parts[..|parts|-1]) + ['/'] + parts[|parts|-1]
  }

  predicate Slashless(parts: seq<string>)
  {
    forall p :: p in parts ==> '/' !in p
  }

  lemma {:induction false} SplitIsSlashless(s: string)
    ensures Slashless(Split(s))
  {
    if s != [] {
      SplitIsSlashless(s[..|s|-1]);
    }
  }

  lemma JoinLast(parts: seq<string>, tail: string)
    requires |parts| >= 1
    ensures Join(parts[..|parts|-1] + [parts[|parts|-1] + tail]) == Join(parts) + tail
  {
    var more := parts[..|parts|-1] + [parts[|parts|-1] + tail];
    assert more[..|more|-1] == parts[..|parts|-1];
    if |parts| > 1 {
      assert Join(parts[..|parts|-1]) + ['/'] + (parts[|parts|-1] + tail) == Join(parts) + tail;
    }
  }

  lemma {:induction false} JoinSplit(s: string)
    ensures Join(Split(s)) == s
  {
    if s != [] {
      var init, c := s[..|s|-1], s[|s|-1];
      JoinSplit(init);
      assert s == init + [c];
      if c == '/' {
        assert (Split(init) + [[]])[..|Split(init)|] == Split(init);
        assert Join(Split(s)) == init + ['/'] + [];
      } else {
        JoinLast(Split(init), [c]);
      }
    }
  }

  lemma {:induction false} SplitSlashlessTail(s: string, t: string)
    requires '/' !in t
    ensures Split(s + t) == Split(s)[..|Split(s)|-1] + [Split(s)[|Split(s)|-1] + t]
  {
    if t == [] {
      assert s + t == s;
      assert Split(s)[|Split(s)|-1] + t == Split(s)[|Split(s)|-1];
    } else {
      var init := t[..|t|-1];
      assert (s + t)[..|s + t| - 1] == s + init;
      SplitSlashlessTail(s, init);
      assert t == init + [t[|t|-1]];
      assert (Split(s)[|Split(s)|-1] + init) + [t[|t|-1]] == Split(s)[|Split(s)|-1] + t;
    }
  }

  lemma SplitPush(s: string, c: char)
    ensures Split(s + [c]) == Grow(Split(s), c)
  {
    assert (s + [c])[..|s|] == s;
  }

  lemma SplitSegment(part: string)
    requires '/' !in part
    ensures Split(part) == [part]
  {
    SplitSlashlessTail([], part);
    assert [] + part == part;
    assert Split([]) == [[]];
  }

  lemma {:induction false} SplitJoin(parts: seq<string>)
    requires parts != [] && Slashless(parts)
    ensures Split(Join(parts)) == parts
  {
    var last := parts[|parts|-1];
    assert last in parts;
    if |parts| == 1 {
      SplitSegment(last);
      assert parts == [last];
    } else {
      var most := parts[..|parts|-1];
      assert parts == most + [last];
      SlashlessPrefix(parts);
      SplitJoin(most);
      SplitOneMore(Join(most), most, last);
    }
  }

  lemma SlashlessPrefix(parts: seq<string>)
    requires parts != [] && Slashless(parts)
    ensures Slashless(parts[..|parts|-1])
  {
    InitMembers(parts);
  }

  lemma SplitOneMore(s: string, parts: seq<string>, last: string)
    requires Split(s) == parts && '/' !in last
    ensures Split(s + ['/'] + last) == parts + [last]
  {
    SplitPush(s, '/');
    SplitSlashlessTail(s + ['/'], last);
    assert (parts + [[]])[..|parts|] == parts;
    assert [] + last == last;
  }

  lemma InitMembers(parts: seq<string>)
    requires parts != []
    ensures forall p :: p in parts <==> p in parts[..|parts|-1] || p == parts[|parts|-1]
  {
    assert parts == parts[..|parts|-1] + [parts[|parts|-1]];
  }

  lemma {:induction false} SplitConcat(a: string, b: string)
    ensures Split(a + ['/'] + b) == Split(a) + Split(b)
  {
    if b == [] {
      assert a + ['/'] + b == a + ['/'];
      SplitPush(a, '/');
    } else {
      var init, c := b[..|b|-1], b[|b|-1];
      SplitConcat(a, init);
      assert b == init + [c];
      assert a + ['/'] + b == (a + ['/'] + init) + [c];
      SplitConcatPush(a + ['/'] + init, Split(a), init, c);
    }
  }

  lemma SplitConcatPush(whole: string, head: seq<string>, tail: string, c: char)
    requires Split(whole) == head + Split(tail)
    ensures Split(whole + [c]) == head + Split(tail + [c])
  {
    SplitPush(whole, c);
    SplitPush(tail, c);
    GrowConcat(head, Split(tail), c);
  }

  lemma GrowConcat(a: seq<string>, b: seq<string>, c: char)
    requires b != []
    ensures Grow(a + b, c) == a + Grow(b, c)
  {
    assert (a + b)[..|a + b|-1] == a + b[..|b|-1] && (a + b)[|a + b|-1] == b[|b|-1];
  }

  // --- LogicalPath::parse -------------------------------------------------------------------

  datatype PathError =
    | Empty | TooLong | Absolute | TrailingSlash | ForbiddenCharacter | EmptySegment | DotSegment | SegmentTooLong

  function CharBytes(c: char): nat
  {
    var n := c as int;
    if n < 0x80 then 1 else if n < 0x800 then 2 else if n < 0x10000 then 3 else 4
  }

  /** `str::len` counts UTF-8 bytes. */
  function Bytes(s: string): nat
  {
    if s == [] then 0 else Bytes(s[..|s|-1]) + CharBytes(s[|s|-1])
  }

  predicate Forbidden(c: char)
  {
    c == '\\' || c == ':' || c as int < 0x20 || c as int == 0x7f
  }

  function SegmentErrors(parts: seq<string>): Option<PathError>
  {
    if parts == [] then None
    else if parts[0] == [] then Some(EmptySegment)
    else if parts[0] == "." || parts[0] == ".." then Some(DotSegment)
    else if Bytes(parts[0]) > 255 then Some(SegmentTooLong)
    else SegmentErrors(parts[1..])
  }

  function Parse(value: string): Result<Path, PathError>
  {
    if value == [] then Err(Empty)
    else if Bytes(value) > 1024 then Err(TooLong)
    else if value[0] == '/' then Err(Absolute)
    else if value[|value|-1] == '/' then Err(TrailingSlash)
    else if exists c :: c in value && Forbidden(c) then Err(ForbiddenCharacter)
    else
      match SegmentErrors(Split(value)) case Some(e) => Err(e) case None => Ok(value)
  }

  predicate GoodSegment(s: string)
  {
    s != [] && s != "." && s != ".." && Bytes(s) <= 255
  }

  lemma TailMembers(parts: seq<string>)
    requires parts != []
    ensures forall p :: p in parts <==> p in parts[1..] || p == parts[0]
  {
    assert parts == [parts[0]] + parts[1..];
  }

  lemma {:induction false} NoSegmentErrors(parts: seq<string>)
    ensures SegmentErrors(parts) == None <==> forall p :: p in parts ==> GoodSegment(p)
  {
    if parts != [] {
      NoSegmentErrors(parts[1..]);
      TailMembers(parts);
      assert GoodSegment(parts[0]) <==> parts[0] != [] && parts[0] != "." && parts[0] != ".." && Bytes(parts[0]) <= 255;
    }
  }

  lemma {:induction false} EdgeSlashesSplitEmpty(value: string)
    requires value != []
    ensures value[0] == '/' ==> Split(value)[0] == []
    ensures value[|value|-1] == '/' ==> Split(value)[|Split(value)|-1] == []
  {
    if value[0] == '/' && |value| > 1 {
      EdgeSlashesSplitEmpty(value[..|value|-1]);
      SplitConcat([], value[1..]);
      assert value == [] + ['/'] + value[1..];
    } else if value[0] == '/' {
      assert value[..0] == [];
    }
  }

  /** The accepted paths, without the order in which errors are looked for. */
  lemma ParseAccepts(value: string)
    ensures Parse(value).Ok? <==>
              && Bytes(value) <= 1024
              && (forall c :: c in value ==> c != '\\' && c != ':' && 0x20 <= c as int != 0x7f)
              && (forall p :: p in Split(value) ==> GoodSegment(p))
    ensures Parse(value).Ok? ==> Parse(value).value == value
  {
    NoSegmentErrors(Split(value));
    if value == [] {
      assert [] in Split(value);
    } else {
      EdgeSlashesSplitEmpty(value);
      assert Split(value)[0] in Split(value) && Split(value)[|Split(value)|-1] in Split(value);
    }
  }

  // --- normalized ----------------------------------------------------------------------------

  function Visit(parts: seq<string>, segment: string): Option<seq<string>>
  {
    if segment == [] || segment == "." then Some(parts)
    else if segment == ".." then if parts == [] then None else Some(parts[..|parts|-1])
    else Some(parts + [segment])
  }

  function VisitAll(parts: seq<string>, segments: seq<string>): Option<seq<string>>
  {
    if segments == [] then Some(parts)
    else
      match VisitAll(parts, segments[..|segments|-1])
      case None => None
      case Some(mid) => Visit(mid, segments[|segments|-1])
  }

  function NonEmpty(parts: seq<string>): seq<string>
  {
    if parts == [] then []
    else NonEmpty(parts[..|parts|-1]) + if parts[|parts|-1] == [] then [] else [parts[|parts|-1]]
  }

  predicate Relative(raw: string)
  {
    !(raw != [] && raw[0] == '/') && '\\' !in raw
  }

  function Normalize(base: string, raw: string): Option<Path>
  {
    if !Relative(raw) then None
    else
      match VisitAll(NonEmpty(Split(base)), Split(raw))
      case None => None
      case Some(parts) => match Parse(Join(parts)) case Ok(p) => Some(p) case Err(_) => None
  }

  /** The segments of the base directory, empty ones dropped. */
  method BaseSegments(base: string) returns (parts: seq<string>)
    ensures parts == NonEmpty(Split(base))
  {
    parts := [];
    var pieces := Split(base);
    for i := 0 to |pieces|
      invariant parts == NonEmpty(pieces[..i])
    {
      assert pieces[..i+1][..i] == pieces[..i];
      if pieces[i] != [] {
        parts := parts + [pieces[i]];
      }
    }
    assert pieces[..|pieces|] == pieces;
  }

  /** The loop over the reference's segments; `None` when one climbs above the root. */
  method WalkSegments(start: seq<string>, segments: seq<string>) returns (walked: Option<seq<string>>)
    ensures walked == VisitAll(start, segments)
  {
    var parts := start;
    for i := 0 to |segments|
      invariant VisitAll(start, segments[..i]) == Some(parts)
    {
      assert segments[..i+1][..i] == segments[..i];
      if segments[i] == [] || segments[i] == "." {
      } else if segments[i] == ".." {
        if parts == [] {
          VisitAllStops(start, segments, i + 1);
          return None;
        }
        parts := parts[..|parts|-1];
      } else {
        parts := parts + [segments[i]];
      }
    }
    assert segments[..|segments|] == segments;
    walked := Some(parts);
  }

  method Normalized(base: string, raw: string) returns (r: Option<Path>)
    ensures r == Normalize(base, raw)
  {
    if (raw != [] && raw[0] == '/') || '\\' in raw {
      return None;
    }
    var parts := BaseSegments(base);
    var walked := WalkSegments(parts, Split(raw));
    if walked.None? {
      return None;
    }
    var parsed := Parse(Join(walked.value));
    r := if parsed.Ok? then Some(parsed.value) else None;
  }

  lemma {:induction false} VisitAllStops(parts: seq<string>, segments: seq<string>, n: nat)
    requires n <= |segments| && VisitAll(parts, segments[..n]) == None
    ensures VisitAll(parts, segments) == None
    decreases |segments| - n
  {
    if n == |segments| {
      assert segments[..n] == segments;
    } else {
      assert segments[..n+1][..n] == segments[..n];
      VisitAllStops(parts, segments, n + 1);
    }
  }

  lemma {:induction false} VisitAllConcat(parts: seq<string>, a: seq<string>, b: seq<string>)
    ensures VisitAll(parts, a + b) == match VisitAll(parts, a) { case None => None case Some(mid) => VisitAll(mid, b) }
  {
    if b == [] {
      assert a + b == a;
    } else {
      assert (a + b)[..|a + b| - 1] == a + b[..|b|-1];
      VisitAllConcat(parts, a, b[..|b|-1]);
    }
  }

  lemma {:induction false} VisitGoodSegments(parts: seq<string>, segments: seq<string>)
    requires forall s :: s in segments ==> GoodSegment(s)
    ensures VisitAll(parts, segments) == Some(parts + segments)
  {
    if segments == [] {
      assert parts + segments == parts;
    } else {
      VisitGoodSegments(parts, segments[..|segments|-1]);
      assert GoodSegment(segments[|segments|-1]);
      assert parts + segments == (parts + segments[..|segments|-1]) + [segments[|segments|-1]];
    }
  }

  ghost predicate NoneEmpty(parts: seq<string>)
  {
    forall i :: 0 <= i < |parts| ==> parts[i] != []
  }

  lemma {:induction false} NonEmptyOfNonEmpty(parts: seq<string>)
    ensures NoneEmpty(parts) ==> NonEmpty(parts) == parts
    ensures Slashless(parts) ==> Slashless(NonEmpty(parts))
  {
    if parts != [] {
      var most, last := parts[..|parts|-1], parts[|parts|-1];
      NonEmptyOfNonEmpty(most);
      InitMembers(parts);
      assert parts == most + [last];
      if NoneEmpty(parts) {
        forall i | 0 <= i < |most| ensures most[i] != [] {
          assert most[i] == parts[i];
        }
        assert NoneEmpty(most) && last != [];
      }
    }
  }

  lemma {:induction false} VisitAllSlashless(parts: seq<string>, segments: seq<string>)
    requires Slashless(parts) && Slashless(segments) && VisitAll(parts, segments).Some?
    ensures Slashless(VisitAll(parts, segments).value)
  {
    if segments != [] {
      VisitAllSlashless(parts, segments[..|segments|-1]);
    }
  }

  lemma WalkIsSlashless(base: string, raw: string)
    requires VisitAll(NonEmpty(Split(base)), Split(raw)).Some?
    ensures Slashless(VisitAll(NonEmpty(Split(base)), Split(raw)).value)
  {
    SplitIsSlashless(base);
    SplitIsSlashless(raw);
    NonEmptyOfNonEmpty(Split(base));
    VisitAllSlashless(NonEmpty(Split(base)), Split(raw));
  }

  lemma ParsedJoin(parts: seq<string>)
    requires Slashless(parts) && Parse(Join(parts)).Ok?
    ensures Split(Join(parts)) == parts && NonEmpty(parts) == parts
    ensures forall s :: s in parts ==> GoodSegment(s)
  {
    ParseAccepts(Join(parts));
    assert parts != [];
    SplitJoin(parts);
    forall i | 0 <= i < |parts| ensures parts[i] != [] {
      assert GoodSegment(parts[i]);
    }
    assert NoneEmpty(parts);
    NonEmptyOfNonEmpty(parts);
  }

  /** A result spells out exactly the segments the walk ended with. */
  lemma NormalizedSegments(base: string, raw: string)
    requires Normalize(base, raw).Some?
    ensures var p := Normalize(base, raw).value;
            && VisitAll(NonEmpty(Split(base)), Split(raw)) == Some(Split(p))
            && NonEmpty(Split(p)) == Split(p)
            && Parse(p) == Ok(p)
            && forall s :: s in Split(p) ==> GoodSegment(s)
  {
    var parts := VisitAll(NonEmpty(Split(base)), Split(raw)).value;
    WalkIsSlashless(base, raw);
    ParsedJoin(parts);
    ParseAccepts(Join(parts));
  }

  /** A normalized path has no empty, `.` or `..` segment and normalizes to itself. */
  lemma NormalizedIsStable(base: string, raw: string)
    requires Normalize(base, raw).Some?
    ensures var p := Normalize(base, raw).value;
            (forall s :: s in Split(p) ==> s != [] && s != "." && s != "..") && Normalize([], p) == Some(p)
  {
    NormalizedSegments(base, raw);
    var p := Normalize(base, raw).value;
    ParseAccepts(p);
    assert '\\' !in p;
    var root: seq<string> := Split([]);
    assert root == [[]] && root[..0] == [] && NonEmpty(root) == [];
    VisitGoodSegments([], Split(p));
    assert [] + Split(p) == Split(p);
    JoinSplit(p);
  }

  /** Resolving in two steps or in one gives the same path. */
  lemma NormalizeComposes(base: string, x: string, y: string)
    requires x != [] && !(y != [] && y[0] == '/')
    requires Normalize(base, x).Some?
    ensures Normalize(Normalize(base, x).value, y) == Normalize(base, x + ['/'] + y)
  {
    var p := Normalize(base, x).value;
    NormalizedSegments(base, x);
    SplitConcat(x, y);
    VisitAllConcat(NonEmpty(Split(base)), Split(x), Split(y));
    var whole := x + ['/'] + y;
    assert Relative(whole) <==> Relative(y) by {
      assert whole[0] == x[0];
      assert '\\' in whole <==> '\\' in x || '\\' in y;
    }
  }

  // --- never above the root -------------------------------------------------------------------

  /** How much deeper a list of segments leads. */
  function Net(segments: seq<string>): int
  {
    if segments == [] then 0
    else
      var s := segments[|segments|-1];
      Net(segments[..|segments|-1]) + if s == [] || s == "." then 0 else if s == ".." then -1 else 1
  }

  ghost predicate LeavesRoot(depth: nat, segments: seq<string>)
  {
    exists n :: 0 <= n <= |segments| && depth + Net(segments[..n]) < 0
  }

  /** The walk fails exactly when some prefix climbs above the root; otherwise its depth is the sum. */
  lemma {:induction false} WalkFailsAboveRoot(parts: seq<string>, segments: seq<string>)
    ensures VisitAll(parts, segments).None? <==> LeavesRoot(|parts|, segments)
    ensures VisitAll(parts, segments).Some? ==> |VisitAll(parts, segments).value| == |parts| + Net(segments)
  {
    if segments == [] {
      assert forall n :: 0 <= n <= 0 ==> segments[..n] == [];
    } else {
      var most := segments[..|segments|-1];
      WalkFailsAboveRoot(parts, most);
      assert forall n :: 0 <= n <= |most| ==> segments[..n] == most[..n];
      assert segments[..|segments|] == segments;
      if LeavesRoot(|parts|, most) {
        var n :| 0 <= n <= |most| && |parts| + Net(most[..n]) < 0;
        assert segments[..n] == most[..n];
      } else if |parts| + Net(segments) < 0 {
        assert |parts| + Net(segments[..|segments|]) < 0;
      } else {
        forall n | 0 <= n <= |segments| ensures |parts| + Net(segments[..n]) >= 0 {
          if n <= |most| { assert |parts| + Net(most[..n]) >= 0; }
        }
      }
    }
  }

  lemma ClimbingOutIsRefused(base: string, raw: string)
    ensures LeavesRoot(|NonEmpty(Split(base))|, Split(raw)) ==> Normalize(base, raw) == None
  {
    WalkFailsAboveRoot(NonEmpty(Split(base)), Split(raw));
  }
}
