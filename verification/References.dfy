/** How a reference written in a source file picks a project file. */
module References {
  import opened Common
  import opened LogicalPaths
  import opened Dependencies

  /** The directory part, empty for a top-level file. */
  function Parent(path: Path): string
  {
    Join(Split(path)[..|Split(path)|-1])
  }

  /** The last segment has a dot with something after the last one. */
  predicate HasExtension(raw: string)
  {
    var name := Split(raw)[|Split(raw)|-1];
    '.' in name && name[|name|-1] != '.'
  }

  function Suffixes(kind: DependencyKind, explicit: bool): seq<string>
  {
    if explicit then [""]
    else
      match kind
      case Input | Include | Subfile => ["", ".tex"]
      case Graphics => ["", ".pdf", ".png", ".jpg", ".jpeg", ".eps", ".svg"]
      case Bibliography => ["", ".bib"]
  }

  function Optional(p: Option<Path>): seq<Path>
  {
    match p case Some(q) => [q] case None => []
  }

  function WithSuffixes(base: string, raw: string, suffixes: seq<string>): seq<Path>
  {
    if suffixes == [] then []
    else
      Optional(Normalize(base, raw + suffixes[0])) +
      WithSuffixes(base, raw, suffixes[1..])
  }

  function Candidates(from: Path, kind: DependencyKind, raw: string): seq<Path>
  {
    WithSuffixes(Parent(from), raw, Suffixes(kind, HasExtension(raw)))
  }

  function FirstIn(candidates: seq<Path>, files: set<Path>): Option<Path>
  {
    if candidates == [] then None
    else if candidates[0] in files then Some(candidates[0])
    else FirstIn(candidates[1..], files)
  }

  function Resolve(from: Path, kind: DependencyKind, raw: string, files: set<Path>): Resolution
  {
    match FirstIn(Candidates(from, kind, raw), files)
    case Some(p) => ProjectFile(p)
    case None => Missing(Candidates(from, kind, raw))
  }

  // --- which file wins ------------------------------------------------------------------------

  lemma {:induction false} FirstInExactly(candidates: seq<Path>, files: set<Path>)
    ensures FirstIn(candidates, files).None? <==> forall c :: c in candidates ==> c !in files
    ensures FirstIn(candidates, files).Some? ==>
              exists k :: 0 <= k < |candidates| && candidates[k] == FirstIn(candidates, files).value
                  && candidates[k] in files
                          && forall i :: 0 <= i < k ==> candidates[i] !in files
  {
    if candidates != [] {
      FirstInExactly(candidates[1..], files);
      assert candidates == [candidates[0]] + candidates[1..];
      if candidates[0] in files {
        assert FirstIn(candidates, files) == Some(candidates[0]);
      } else if FirstIn(candidates[1..], files).Some? {
        var tail := candidates[1..];
        var k :| 0 <= k < |tail| && tail[k] == FirstIn(tail, files).value && tail[k] in files
                 && forall i :: 0 <= i < k ==> tail[i] !in files;
        forall i | 0 <= i < k + 1 ensures candidates[i] !in files {
          if i > 0 { assert tail[i-1] !in files; }
        }
        assert candidates[k+1] == tail[k];
      }
    }
  }

  lemma {:induction false} WithSuffixesNormalized(base: string, raw: string, suffixes: seq<string>, c: Path)
    requires c in WithSuffixes(base, raw, suffixes)
    ensures exists s :: s in suffixes && Normalize(base, raw + s) == Some(c)
  {
    if c in WithSuffixes(base, raw, suffixes[1..]) {
      WithSuffixesNormalized(base, raw, suffixes[1..], c);
      var s :| s in suffixes[1..] && Normalize(base, raw + s) == Some(c);
      assert s in suffixes;
    } else {
      assert suffixes[0] in suffixes;
    }
  }

  /** A resolved target is a project file in normal form: it resolves to itself from the root. */
  lemma ResolvedIsNormalFile(from: Path, kind: DependencyKind, raw: string, files: set<Path>)
    requires Resolve(from, kind, raw, files).ProjectFile?
    ensures var t := Resolve(from, kind, raw, files).target; t in files && Normalize([], t) == Some(t)
  {
    var cs := Candidates(from, kind, raw);
    FirstInExactly(cs, files);
    var t := Resolve(from, kind, raw, files).target;
    assert t in cs;
    WithSuffixesNormalized(Parent(from), raw, Suffixes(kind, HasExtension(raw)), t);
    var s :| s in Suffixes(kind, HasExtension(raw)) && Normalize(Parent(from), raw + s) == Some(t);
    NormalizedIsStable(Parent(from), raw + s);
  }

  // --- a default extension only lengthens the last segment ------------------------------------------

  /** The last segment is a name, so appending to it cannot change what the other segments mean. */
  predicate EndsInName(raw: string)
  {
    var name := Split(raw)[|Split(raw)|-1];
    name != [] && name != "." && name != ".."
  }

  lemma VisitName(parts: seq<string>, raw: string, suffix: string)
    requires EndsInName(raw) && '/' !in suffix
    requires EndsInName(raw + suffix)
    ensures VisitAll(parts, Split(raw + suffix)) ==
            match VisitAll(parts, Split(raw)) {
              case None => None
              case Some(m) => Some(m[..|m|-1] + [m[|m|-1] + suffix])
            }
    ensures VisitAll(parts, Split(raw)).Some? ==> |VisitAll(parts, Split(raw)).value| > 0
  {
    var segments, longer := Split(raw), Split(raw + suffix);
    SplitSlashlessTail(raw, suffix);
    assert longer[..|longer|-1] == segments[..|segments|-1];
    var name := segments[|segments|-1];
    assert longer[|longer|-1] == name + suffix;
    var before := VisitAll(parts, segments[..|segments|-1]);
    if before.Some? {
      var m := before.value + [name];
      assert VisitAll(parts, segments) == Some(m);
      assert m[..|m|-1] + [m[|m|-1] + suffix] == before.value + [name + suffix];
    }
  }

  /** Trying an extension names the sibling whose name is longer by that extension, never another directory. */
  lemma ExtensionNamesSibling(base: string, raw: string, suffix: string)
    requires EndsInName(raw) && EndsInName(raw + suffix) && '/' !in suffix
    requires Normalize(base, raw).Some? && Normalize(base, raw + suffix).Some?
    ensures Normalize(base, raw + suffix).value == Normalize(base, raw).value + suffix
  {
    var start := NonEmpty(Split(base));
    VisitName(start, raw, suffix);
    var parts := VisitAll(start, Split(raw)).value;
    var longer := parts[..|parts|-1] + [parts[|parts|-1] + suffix];
    JoinLast(parts, suffix);
    ParseAccepts(Join(parts));
    ParseAccepts(Join(longer));
    assert VisitAll(start, Split(raw + suffix)) == Some(longer);
  }

  lemma TexIsExplicit(raw: string)
    requires EndsInName(raw)
    ensures HasExtension(raw + ".tex") && EndsInName(raw + ".tex")
  {
    SplitSlashlessTail(raw, ".tex");
    var name := Split(raw)[|Split(raw)|-1] + ".tex";
    assert name[|name|-4] == '.';
  }

  lemma ExplicitCandidates(from: Path, kind: DependencyKind, raw: string)
    requires HasExtension(raw)
    ensures Candidates(from, kind, raw) == Optional(Normalize(Parent(from), raw))
  {
    var found := Optional(Normalize(Parent(from), raw));
    assert raw + "" == raw && [""][1..] == [];
    assert WithSuffixes(Parent(from), raw, [""]) == found + [];
    assert found + [] == found;
  }

  lemma SourceCandidates(from: Path, kind: DependencyKind, raw: string)
    requires (kind.Input? || kind.Include? || kind.Subfile?) && !HasExtension(raw)
    ensures Candidates(from, kind, raw) ==
            Optional(Normalize(Parent(from), raw)) + Optional(Normalize(Parent(from), raw + ".tex"))
  {
    assert raw + "" == raw;
    assert ["", ".tex"][1..] == [".tex"] && [".tex"][1..] == [];
    assert WithSuffixes(Parent(from), raw, [".tex"]) == Optional(Normalize(Parent(from), raw + ".tex"));
  }

  lemma FirstOfTwo(a: Option<Path>, b: Option<Path>, files: set<Path>)
    requires FirstIn(Optional(b), files).Some? && a != b
    ensures FirstIn(Optional(a) + Optional(b), files) == FirstIn(Optional(b), files) <==> !(a.Some? && a.value in files)
  {
    if a.Some? {
      assert (Optional(a) + Optional(b))[1..] == Optional(b);
    } else {
      assert Optional(a) + Optional(b) == Optional(b);
    }
  }

  lemma ExtensionDiffers(base: string, raw: string)
    requires EndsInName(raw) && EndsInName(raw + ".tex") && Normalize(base, raw + ".tex").Some?
    ensures Normalize(base, raw) != Normalize(base, raw + ".tex")
  {
    if Normalize(base, raw).Some? {
      ExtensionNamesSibling(base, raw, ".tex");
      assert |Normalize(base, raw).value + ".tex"| == |Normalize(base, raw).value| + 4;
    }
  }

  lemma SameWinner(from: Path, kind: DependencyKind, raw: string, other: string, files: set<Path>)
    requires FirstIn(Candidates(from, kind, other), files).Some?
    ensures Resolve(from, kind, raw, files) == Resolve(from, kind, other, files) <==>
            FirstIn(Candidates(from, kind, raw), files) == FirstIn(Candidates(from, kind, other), files)
  {
  }

  /** \input{x} and \input{x.tex} mean the same file unless a file named x exists. */
  lemma ShortFormMeansTex(from: Path, kind: DependencyKind, raw: string, files: set<Path>)
    requires kind.Input? || kind.Include? || kind.Subfile?
    requires EndsInName(raw) && !HasExtension(raw)
    requires Resolve(from, kind, raw + ".tex", files).ProjectFile?
    ensures Resolve(from, kind, raw, files) == Resolve(from, kind, raw + ".tex", files) <==>
            !(Normalize(Parent(from), raw).Some? && Normalize(Parent(from), raw).value in files)
  {
    TexIsExplicit(raw);
    ExplicitCandidates(from, kind, raw + ".tex");
    SourceCandidates(from, kind, raw);
    ExtensionDiffers(Parent(from), raw);
    SameWinner(from, kind, raw, raw + ".tex", files);
    FirstOfTwo(Normalize(Parent(from), raw), Normalize(Parent(from), raw + ".tex"), files);
  }

  // --- the graph of a project ---------------------------------------------------------------------------

  datatype Reference =
    | Static(from: Path, kind: DependencyKind, raw: string)
    | Computed(from: Path, kind: DependencyKind)

  function EdgeOf(r: Reference, files: set<Path>): Edge
  {
    match r
    case Static(from, kind, raw) => Edge(from, kind, Resolve(from, kind, raw, files))
    case Computed(from, kind) => Edge(from, kind, Dynamic)
  }

  function EdgesOf(references: seq<Reference>, files: set<Path>): (edges: seq<Edge>)
  {
    if references == [] then []
    else EdgesOf(references[..|references|-1], files) + [EdgeOf(references[|references|-1], files)]
  }

  lemma {:induction false} EdgesEndInFiles(references: seq<Reference>, files: set<Path>, e: Edge)
    requires e in EdgesOf(references, files) && IsSource(e)
    ensures e.resolution.target in files
  {
    var last := references[|references|-1];
    if e in EdgesOf(references[..|references|-1], files) {
      EdgesEndInFiles(references[..|references|-1], files, e);
    } else {
      ResolvedIsNormalFile(last.from, last.kind, last.raw, files);
    }
  }

  /** Reachability never leaves the project: what the Main file leads to is Main or one of the project's files. */
  lemma ReachableIsInProject(references: seq<Reference>, files: set<Path>, main: Path, x: Path)
    requires ReachedFrom(EdgesOf(references, files), main, x)
    ensures x == main || x in files
  {
    var edges := EdgesOf(references, files);
    if x != main {
      var p :| Walk(SourceGraph(edges), p, main, x);
      assert Links(SourceGraph(edges), p[|p|-2], p[|p|-1]);
      LinksAreDependencies(edges, p[|p|-2], x);
      var e :| e in edges && IsSource(e) && e.from == p[|p|-2] && e.resolution.target == x;
      EdgesEndInFiles(references, files, e);
    }
  }
}
