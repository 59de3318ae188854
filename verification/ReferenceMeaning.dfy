/** Which project file a reference means, from the places of the two files alone. */
module ReferenceMeaning {
  import opened Common
  import opened LogicalPaths
  import opened PathMeaning
  import opened Dependencies
  import opened References

  /** A file's references start from the directory it lies in. */
  lemma ParentIsDirectory(dir: string, file: string)
    requires '/' !in file && (dir == [] || Parse(dir).Ok?)
    ensures Parent(At(dir, file)) == dir
  {
    SplitSegment(file);
    if dir == [] {
      assert [file][..0] == [];
    } else {
      SplitConcat(dir, file);
      assert (Split(dir) + [file])[..|Split(dir)|] == Split(dir);
      JoinSplit(dir);
    }
  }

  /** One segment with no dot in it, so a name without extension. */
  predicate Bare(name: string)
  {
    name != [] && '/' !in name && '\\' !in name && '.' !in name
  }

  lemma BareIsName(name: string)
    requires Bare(name)
    ensures IsName(name) && !HasExtension(name)
  {
    SplitSegment(name);
  }

  lemma ExtendedIsExplicit(stem: string, extension: string)
    requires Bare(extension) && '/' !in stem && '\\' !in stem
    ensures var name := stem + ['.'] + extension;
            HasExtension(name) && IsName(name) && '/' !in name && '\\' !in name
  {
    var name := stem + ['.'] + extension;
    SplitSegment(name);
    assert name[|stem|] == '.' && name[|name|-1] == extension[|extension|-1];
  }

  lemma ExplicitMeans(from: Path, kind: DependencyKind, raw: string, files: set<Path>, target: Path)
    requires HasExtension(raw) && Normalize(Parent(from), raw) == Some(target) && target in files
    ensures Resolve(from, kind, raw, files) == ProjectFile(target)
  {
    ExplicitCandidates(from, kind, raw);
  }

  /** A name with extension, written in a file, means the file of that name beside it. */
  lemma ExplicitMeansSibling(dir: string, file: string, kind: DependencyKind, stem: string, extension: string,
                             files: set<Path>)
    requires '/' !in file && (dir == [] || Parse(dir).Ok?)
    requires Bare(extension) && '/' !in stem && '\\' !in stem
    requires var target := At(dir, stem + ['.'] + extension); Parse(target).Ok? && target in files
    ensures var name := stem + ['.'] + extension;
            Resolve(At(dir, file), kind, name, files) == ProjectFile(At(dir, name))
  {
    var name := stem + ['.'] + extension;
    ParentIsDirectory(dir, file);
    ExtendedIsExplicit(stem, extension);
    NameMeansSibling(dir, name);
    ExplicitMeans(At(dir, file), kind, name, files, At(dir, name));
  }

  lemma ClimbingIsExplicit(name: string)
    requires HasExtension(name)
    ensures HasExtension(".." + ['/'] + name)
  {
    SplitAfter("..", name);
  }

  /** `../` and a name with extension, written in a file of a directory's child, means the file in that directory. */
  lemma ClimbingMeansUncle(dir: string, child: string, file: string, kind: DependencyKind, stem: string,
                           extension: string, files: set<Path>)
    requires '/' !in file && '/' !in child && IsName(child)
    requires (dir == [] || Parse(dir).Ok?) && Parse(At(dir, child)).Ok?
    requires Bare(extension) && '/' !in stem && '\\' !in stem
    requires var target := At(dir, stem + ['.'] + extension); Parse(target).Ok? && target in files
    ensures var name := stem + ['.'] + extension;
            Resolve(At(At(dir, child), file), kind, ".." + ['/'] + name, files) == ProjectFile(At(dir, name))
  {
    var name := stem + ['.'] + extension;
    ParentIsDirectory(At(dir, child), file);
    ExtendedIsExplicit(stem, extension);
    ClimbingIsExplicit(name);
    NameMeansSibling(dir, name);
    FromChild(dir, child, name);
    ExplicitMeans(At(At(dir, child), file), kind, ".." + ['/'] + name, files, At(dir, name));
  }

  lemma FromChild(dir: string, child: string, name: string)
    requires IsName(child) && '/' !in child && Descends(name)
    ensures Normalize(At(dir, child), ".." + ['/'] + name) == Normalize(dir, name)
  {
    ParentOfChild(dir, child, name);
    if dir == [] {
      SplitConcat([], child);
      SplitSegment(child);
      NonEmptyConcat([[]], [child]);
      var root: seq<string> := [[]];
      assert root[..0] == [] && NonEmpty(root) == [] && Split([]) == root;
    }
  }

  // --- default extensions -----------------------------------------------------------------------

  lemma SuffixMeansSibling(dir: string, name: string, suffix: string)
    requires (dir == [] || Parse(dir).Ok?) && Bare(name) && '/' !in suffix && '\\' !in suffix
    ensures Normalize(dir, name + suffix)
            == if Parse(At(dir, name + suffix)).Ok? then Some(At(dir, name + suffix)) else None
  {
    assert (name + suffix)[0] == name[0];
    NameMeansSibling(dir, name + suffix);
  }

  lemma FirstOfMany(first: Path, rest: seq<Path>, files: set<Path>)
    requires first in files
    ensures FirstIn(Optional(Some(first)) + rest, files) == Some(first)
  {
  }

  lemma {:induction false} FirstSuffixWins(dir: string, name: string, suffixes: seq<string>, k: nat, files: set<Path>)
    requires dir == [] || Parse(dir).Ok?
    requires Bare(name) && k < |suffixes|
    requires forall i :: 0 <= i <= k ==> '/' !in suffixes[i] && '\\' !in suffixes[i]
    requires forall i :: 0 <= i < k ==> At(dir, name + suffixes[i]) !in files
    requires Parse(At(dir, name + suffixes[k])).Ok? && At(dir, name + suffixes[k]) in files
    ensures FirstIn(WithSuffixes(dir, name, suffixes), files) == Some(At(dir, name + suffixes[k]))
  {
    SuffixMeansSibling(dir, name, suffixes[0]);
    var rest := WithSuffixes(dir, name, suffixes[1..]);
    if k == 0 {
      FirstOfMany(At(dir, name + suffixes[0]), rest, files);
    } else {
      FirstSuffixWins(dir, name, suffixes[1..], k - 1, files);
      FirstSkips(Normalize(dir, name + suffixes[0]), rest, files);
    }
  }

  lemma FirstSkips(first: Option<Path>, rest: seq<Path>, files: set<Path>)
    requires first.Some? ==> first.value !in files
    ensures FirstIn(Optional(first) + rest, files) == FirstIn(rest, files)
  {
    if first.Some? {
      assert (Optional(first) + rest)[1..] == rest;
    } else {
      assert Optional(first) + rest == rest;
    }
  }

  /** What is tried after a name without extension, by what refers to it. */
  function Tried(kind: DependencyKind): seq<string>
  {
    if kind.Graphics? then [[], ".pdf", ".png", ".jpg", ".jpeg", ".eps", ".svg"]
    else if kind.Bibliography? then [[], ".bib"]
    else [[], ".tex"]
  }

  lemma TriedAreSuffixes(kind: DependencyKind)
    ensures Suffixes(kind, false) == Tried(kind)
    ensures forall i :: 0 <= i < |Tried(kind)| ==> '/' !in Tried(kind)[i] && '\\' !in Tried(kind)[i]
  {
  }

  lemma ImplicitCandidates(from: Path, kind: DependencyKind, raw: string)
    requires !HasExtension(raw)
    ensures Candidates(from, kind, raw) == WithSuffixes(Parent(from), raw, Suffixes(kind, false))
  {
  }

  lemma FoundIsResolved(from: Path, kind: DependencyKind, raw: string, files: set<Path>, target: Path)
    requires FirstIn(Candidates(from, kind, raw), files) == Some(target)
    ensures Resolve(from, kind, raw, files) == ProjectFile(target)
  {
  }

  /**
   * A bare name means the file of that name beside the file it is written in, else the first that exists with one of
   * the extensions of its kind, in their order.
   */
  lemma BareMeansFirstSibling(dir: string, file: string, kind: DependencyKind, name: string, k: nat, files: set<Path>)
    requires '/' !in file && (dir == [] || Parse(dir).Ok?) && Bare(name) && k < |Tried(kind)|
    requires forall i :: 0 <= i < k ==> At(dir, name + Tried(kind)[i]) !in files
    requires Parse(At(dir, name + Tried(kind)[k])).Ok? && At(dir, name + Tried(kind)[k]) in files
    ensures Resolve(At(dir, file), kind, name, files) == ProjectFile(At(dir, name + Tried(kind)[k]))
  {
    ParentIsDirectory(dir, file);
    BareIsName(name);
    TriedAreSuffixes(kind);
    FirstSuffixWins(dir, name, Tried(kind), k, files);
    ImplicitCandidates(At(dir, file), kind, name);
    FoundIsResolved(At(dir, file), kind, name, files, At(dir, name + Tried(kind)[k]));
  }

  /** A dot at the end is no extension. */
  lemma TrailingDotIsBare(name: string)
    requires '/' !in name
    ensures !HasExtension(name + ['.'])
  {
    SplitSegment(name + ['.']);
  }

  /** What is not found names every path that was tried. */
  lemma MissingNamesTried(from: Path, kind: DependencyKind, raw: string, files: set<Path>, suffix: string)
    requires Resolve(from, kind, raw, files).Missing? && suffix in Suffixes(kind, HasExtension(raw))
    requires Normalize(Parent(from), raw + suffix).Some?
    ensures Normalize(Parent(from), raw + suffix).value in Resolve(from, kind, raw, files).candidates
    ensures Normalize(Parent(from), raw + suffix).value !in files
  {
    EverySuffixIsTried(Parent(from), raw, Suffixes(kind, HasExtension(raw)), suffix);
    FirstInExactly(Candidates(from, kind, raw), files);
  }

  lemma {:induction false} EverySuffixIsTried(base: string, raw: string, suffixes: seq<string>, suffix: string)
    requires suffix in suffixes && Normalize(base, raw + suffix).Some?
    ensures Normalize(base, raw + suffix).value in WithSuffixes(base, raw, suffixes)
  {
    if suffixes[0] != suffix {
      EverySuffixIsTried(base, raw, suffixes[1..], suffix);
    } else {
      assert WithSuffixes(base, raw, suffixes)[0] == Normalize(base, raw + suffix).value;
    }
  }

  /** One edge for every reference, in their order; a computed one leads nowhere. */
  lemma {:induction false} EdgesAreReferences(references: seq<Reference>, files: set<Path>, k: nat)
    requires k < |references|
    ensures |EdgesOf(references, files)| == |references|
    ensures var e, r := EdgesOf(references, files)[k], references[k];
            && e.from == r.from && e.kind == r.kind
            && (if r.Static? then e.resolution == Resolve(r.from, r.kind, r.raw, files) else e.resolution == Dynamic)
  {
    var most := references[..|references|-1];
    if k < |most| {
      EdgesAreReferences(most, files, k);
    } else {
      EdgeCount(most, files);
    }
  }

  lemma {:induction false} EdgeCount(references: seq<Reference>, files: set<Path>)
    ensures |EdgesOf(references, files)| == |references|
  {
    if references != [] {
      EdgeCount(references[..|references|-1], files);
    }
  }
}
