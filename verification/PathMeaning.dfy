/** What relative references mean: `..` undoes the name before it, `.` and empty segments mean nothing. */
module PathMeaning {
  import opened Common
  import opened LogicalPaths

  predicate IsName(s: string)
  {
    s != [] && s != "." && s != ".."
  }

  /** A name and the `..` after it cancel, wherever they stand and wherever the walk starts. */
  lemma NameThenParentCancels(parts: seq<string>, x: seq<string>, s: string, y: seq<string>)
    requires IsName(s)
    ensures VisitAll(parts, x + [s, ".."] + y) == VisitAll(parts, x + y)
  {
    VisitAllConcat(parts, x + [s, ".."], y);
    VisitAllConcat(parts, x, [s, ".."]);
    VisitAllConcat(parts, x, y);
    if VisitAll(parts, x).Some? {
      DownAndUp(VisitAll(parts, x).value, s);
    }
  }

  lemma DownAndUp(parts: seq<string>, s: string)
    requires IsName(s)
    ensures VisitAll(parts, [s, ".."]) == Some(parts)
  {
    var both := [s, ".."];
    assert both[..1] == [s] && [s][..0] == [];
    assert VisitAll(parts, [s]) == Some(parts + [s]);
    assert (parts + [s])[..|parts|] == parts;
  }

  /** `.` and empty segments change nothing. */
  lemma NoiseIsIgnored(parts: seq<string>, x: seq<string>, s: string, y: seq<string>)
    requires s == [] || s == "."
    ensures VisitAll(parts, x + [s] + y) == VisitAll(parts, x + y)
  {
    VisitAllConcat(parts, x + [s], y);
    VisitAllConcat(parts, x, y);
    assert (x + [s])[..|x|] == x;
  }

  // --- paths ------------------------------------------------------------------------------

  lemma {:induction false} NonEmptyConcat(a: seq<string>, b: seq<string>)
    ensures NonEmpty(a + b) == NonEmpty(a) + NonEmpty(b)
  {
    if b == [] {
      assert a + b == a;
    } else {
      assert (a + b)[..|a + b|-1] == a + b[..|b|-1];
      NonEmptyConcat(a, b[..|b|-1]);
    }
  }

  lemma ChildParts(dir: string, s: string)
    requires IsName(s) && '/' !in s
    ensures NonEmpty(Split(dir + ['/'] + s)) == NonEmpty(Split(dir)) + [s]
  {
    SplitConcat(dir, s);
    SplitSegment(s);
    NonEmptyConcat(Split(dir), [s]);
    assert [s][..0] == [];
  }

  lemma UpFromChild(start: seq<string>, s: string, rest: seq<string>)
    requires IsName(s)
    ensures VisitAll(start + [s], [".."] + rest) == VisitAll(start, rest)
  {
    VisitAllConcat(start, [s], [".."] + rest);
    NameThenParentCancels(start, [], s, rest);
    assert [s] + ([".."] + rest) == [] + [s, ".."] + rest && [] + rest == rest;
    DownOnce(start, s);
  }

  lemma DownOnce(start: seq<string>, s: string)
    requires IsName(s)
    ensures VisitAll(start, [s]) == Some(start + [s])
  {
    assert [s][..0] == [];
  }

  lemma SplitAfter(s: string, raw: string)
    requires '/' !in s && s != []
    ensures Split(s + ['/'] + raw) == [s] + Split(raw)
    ensures '\\' !in s ==> (Relative(s + ['/'] + raw) <==> '\\' !in raw)
  {
    SplitConcat(s, raw);
    SplitSegment(s);
    assert '\\' in s + ['/'] + raw <==> '\\' in s || '\\' in raw;
    assert (s + ['/'] + raw)[0] == s[0];
  }

  predicate Descends(raw: string)
  {
    raw == [] || raw[0] != '/'
  }

  /** From a directory's child, `../x` means what `x` means from the directory. */
  lemma ParentOfChild(dir: string, s: string, raw: string)
    requires IsName(s) && '/' !in s && Descends(raw)
    ensures Normalize(dir + ['/'] + s, ".." + ['/'] + raw) == Normalize(dir, raw)
  {
    ChildParts(dir, s);
    SplitAfter("..", raw);
    UpFromChild(NonEmpty(Split(dir)), s, Split(raw));
  }

  /** From a directory, `s/x` means what `x` means from its child `s`. */
  lemma ChildOfDirectory(dir: string, s: string, raw: string)
    requires IsName(s) && '/' !in s && '\\' !in s && Descends(raw)
    ensures Normalize(dir, s + ['/'] + raw) == Normalize(dir + ['/'] + s, raw)
  {
    ChildParts(dir, s);
    SplitAfter(s, raw);
    VisitAllConcat(NonEmpty(Split(dir)), [s], Split(raw));
    DownOnce(NonEmpty(Split(dir)), s);
  }

  /** Inside a reference, too, `s/../x` means `x`. */
  lemma DetourMeansNothing(dir: string, s: string, raw: string)
    requires IsName(s) && '/' !in s && '\\' !in s && Descends(raw)
    ensures Normalize(dir, s + ['/'] + (".." + ['/'] + raw)) == Normalize(dir, raw)
  {
    ChildOfDirectory(dir, s, ".." + ['/'] + raw);
    ParentOfChild(dir, s, raw);
  }

  /** The file called `name` in the directory `dir`, the root being the empty string. */
  function At(dir: string, name: string): string
  {
    if dir == [] then name else dir + ['/'] + name
  }

  lemma DirectoryParts(dir: string)
    requires dir == [] || Parse(dir).Ok?
    ensures NonEmpty(Split(dir)) == if dir == [] then [] else Split(dir)
  {
    if dir == [] {
      var root := Split(dir);
      assert root == [[]] && root[..0] == [] && NonEmpty(root) == [];
    } else {
      ParseAccepts(dir);
      forall i | 0 <= i < |Split(dir)| ensures Split(dir)[i] != [] {
        assert GoodSegment(Split(dir)[i]);
      }
      NonEmptyOfNonEmpty(Split(dir));
    }
  }

  lemma JoinedAt(dir: string, name: string)
    ensures Join((if dir == [] then [] else Split(dir)) + [name]) == At(dir, name)
  {
    if dir != [] {
      JoinSplit(dir);
      assert (Split(dir) + [name])[..|Split(dir)|] == Split(dir);
    }
  }

  /** A plain name means the file of that name in the directory, if that is a valid path at all. */
  lemma NameMeansSibling(dir: string, name: string)
    requires dir == [] || Parse(dir).Ok?
    requires IsName(name) && '/' !in name && '\\' !in name
    ensures Normalize(dir, name) == if Parse(At(dir, name)).Ok? then Some(At(dir, name)) else None
  {
    SplitSegment(name);
    DirectoryParts(dir);
    DownOnce(NonEmpty(Split(dir)), name);
    JoinedAt(dir, name);
    ParseAccepts(At(dir, name));
  }

  // --- refusals are true ------------------------------------------------------------------------

  lemma {:induction false} SegmentRefusals(parts: seq<string>)
    ensures match SegmentErrors(parts) {
      case None => true
      case Some(EmptySegment) => [] in parts
      case Some(DotSegment) => "." in parts || ".." in parts
      case Some(SegmentTooLong) => exists p :: p in parts && Bytes(p) > 255
      case Some(_) => false
    }
  {
    if parts != [] {
      SegmentRefusals(parts[1..]);
      TailMembers(parts);
    }
  }

  /** Every refusal names something that is wrong with the path. */
  lemma ParseRefusals(value: string)
    ensures match Parse(value) {
      case Ok(_) => true
      case Err(Empty) => value == []
      case Err(TooLong) => Bytes(value) > 1024
      case Err(Absolute) => value != [] && value[0] == '/'
      case Err(TrailingSlash) => value != [] && value[|value|-1] == '/'
      case Err(ForbiddenCharacter) => exists c :: c in value && Forbidden(c)
      case Err(EmptySegment) => [] in Split(value)
      case Err(DotSegment) => "." in Split(value) || ".." in Split(value)
      case Err(SegmentTooLong) => exists p :: p in Split(value) && Bytes(p) > 255
    }
  {
    SegmentRefusals(Split(value));
  }

  // --- lengths in bytes ---------------------------------------------------------------------------

  /** The bytes of one character in UTF-8, section 3 of RFC 3629. */
  function Utf8(c: char): seq<int>
  {
    var n := c as int;
    if n < 0x80 then [n]
    else if n < 0x800 then [0xC0 + n / 64, 0x80 + n % 64]
    else if n < 0x10000 then [0xE0 + n / 4096, 0x80 + n / 64 % 64, 0x80 + n % 64]
    else [0xF0 + n / 262144, 0x80 + n / 4096 % 64, 0x80 + n / 64 % 64, 0x80 + n % 64]
  }

  function Encoded(s: string): seq<int>
  {
    if s == [] then [] else Encoded(s[..|s|-1]) + Utf8(s[|s|-1])
  }

  /** Lengths are those of the encoded string. */
  lemma {:induction false} BytesAreEncoded(s: string)
    ensures Bytes(s) == |Encoded(s)|
  {
    if s != [] {
      BytesAreEncoded(s[..|s|-1]);
    }
  }

  /** References that start at the root, or use the other separator anywhere, are refused. */
  lemma AbsoluteIsRefused(base: string, raw: string)
    ensures raw != [] && raw[0] == '/' ==> Normalize(base, raw) == None
    ensures '\\' in raw ==> Normalize(base, raw) == None
  {
  }
}
