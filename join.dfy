/** The primitive paths (Pathy.swift lines 376-385) and `join` (lines
    344-372), the one way to combine a directory with a relative path. */
module Joins {
  import opened Paths
  import opened Describe

  /** `file(_:)`: a file in the current directory. */
  function File(name: string): (r: Path)
    ensures FileShaped(r) && AnchorOf(r) == Current && Steps(r) == [FileStep(name)]
  {
    FileIn(Current, name)
  }

  /** `dir(_:)`: a directory in the current directory. */
  function Dir(name: string): (r: Path)
    ensures NoFileIn(r) && AnchorOf(r) == Current && Steps(r) == [DirStep(name)]
  {
    DirIn(Current, name)
  }

  /** `parent`: one level up from the current directory. */
  const Parent: Path := ParentIn(Current)

  /** `join`. The requires are the source's two `fatalError` arms: the base
      holds no file, and the suffix is relative. As written, the join walks
      down the base first and rebuilds the suffix over the base's anchor, so
      the suffix's components end up BENEATH the base's. */
  function Join(base: Path, suffix: Path): (r: Path)
    requires NoFileIn(base) && AnchorOf(suffix) == Current
    ensures AnchorOf(r) == AnchorOf(base)
    ensures Steps(r) == Steps(suffix) + Steps(base)
    ensures NoFileIn(r) <==> NoFileIn(suffix)
    decreases base, suffix
  {
    match base
    case Root =>
      (match suffix
        case Current => Root
        case Root => assert false; base
        case FileIn(p1, name) => FileIn(Join(Root, p1), name)
        case DirIn(p1, name) => DirIn(Join(Root, p1), name)
        case ParentIn(p1) => ParentIn(Join(Root, p1)))
    case Current =>
      (match suffix
        case Current => Current
        case Root => assert false; base
        case FileIn(p1, name) => FileIn(Join(Current, p1), name)
        case DirIn(p1, name) => DirIn(Join(Current, p1), name)
        case ParentIn(p1) => ParentIn(Join(Current, p1)))
    case DirIn(p1, name) => DirIn(Join(p1, suffix), name)
    case ParentIn(p1) => ParentIn(Join(p1, suffix))
    case FileIn(_, _) => assert false; base
  }

  /** Joining the current directory changes nothing. */
  lemma JoinCurrentRight(base: Path)
    requires NoFileIn(base)
    ensures Join(base, Current) == base
  {
    assert Steps(Current) + Steps(base) == Steps(base);
    SameAnchorAndSteps(Join(base, Current), base);
  }

  /** Joining onto the current directory gives the suffix back. */
  lemma JoinCurrentLeft(suffix: Path)
    requires AnchorOf(suffix) == Current
    ensures Join(Current, suffix) == suffix
  {
    assert Steps(suffix) + Steps(Current) == Steps(suffix);
    SameAnchorAndSteps(Join(Current, suffix), suffix);
  }

  /** Joining onto the root re-anchors the suffix at the root. */
  lemma JoinRootReanchors(suffix: Path)
    requires AnchorOf(suffix) == Current
    ensures Join(Root, suffix) == Build(Root, Steps(suffix))
  {
    StepsOfBuild(Root, Steps(suffix));
    assert Steps(suffix) + Steps(Root) == Steps(suffix);
    SameAnchorAndSteps(Join(Root, suffix), Build(Root, Steps(suffix)));
  }

  /** `join` is associative on directories and relative paths. */
  lemma JoinAssociative(a: Path, b: Path, c: Path)
    requires NoFileIn(a) && NoFileIn(b)
    requires AnchorOf(b) == Current && AnchorOf(c) == Current
    ensures Join(Join(a, b), c) == Join(a, Join(b, c))
  {
    var ab, bc := Join(a, b), Join(b, c);
    SameAnchorRegrouped(Join(ab, c), Join(a, bc), Steps(c), Steps(b), Steps(a));
  }

  /** The outermost node of a join is the suffix's only when the base is an
      anchor: joining a file onto a non-empty directory leaves a directory on top. */
  lemma JoinTopNode(base: Path, suffix: Path)
    requires NoFileIn(base) && AnchorOf(suffix) == Current
    ensures TopIsFile(Join(base, suffix)) <==> TopIsFile(suffix) && IsAnchor(base)
  {
  }

  /** `join(root, dir(n))` is `dirIn(root, n)`, and likewise for a file. */
  lemma JoinRootPrimitive(n: string)
    ensures Join(Root, Dir(n)) == DirIn(Root, n)
    ensures Join(Root, File(n)) == FileIn(Root, n)
  {
  }

  lemma UsersBkaseHelloText()
    ensures Description(DirIn(DirIn(FileIn(Root, "Hello.txt"), "bkase"), "Users")) == "/Hello.txt/bkase/Users"
  {
  }

  /** Joining `dir("Users")`, `dir("bkase")` and `file("Hello.txt")` onto
      root is typed as a file (the `-> _Path<K, T2>` result of Pathy.swift
      lines 340 and 345), yet as written the file comes out innermost and
      the directories in reverse order. */
  lemma JoinPutsSuffixBeneath()
    ensures var p := Join(Join(Join(Root, Dir("Users")), Dir("bkase")), File("Hello.txt"));
      && p == DirIn(DirIn(FileIn(Root, "Hello.txt"), "bkase"), "Users")
      && Description(p) == "/Hello.txt/bkase/Users"
      && !TopIsFile(p)
  {
    JoinRootPrimitive("Users");
    JoinRootPrimitive("bkase");
    JoinRootPrimitive("Hello.txt");
    var users := Join(Root, Dir("Users"));
    assert users == DirIn(Root, "Users");
    var bkase := Join(users, Dir("bkase"));
    assert bkase == DirIn(DirIn(Root, "bkase"), "Users");
    var p := Join(bkase, File("Hello.txt"));
    assert p == DirIn(Join(DirIn(Root, "bkase"), File("Hello.txt")), "Users");
    assert Join(DirIn(Root, "bkase"), File("Hello.txt")) == DirIn(FileIn(Root, "Hello.txt"), "bkase");
    UsersBkaseHelloText();
  }
}
