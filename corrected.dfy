/** Corrected versions of the two operations whose code disagrees with what
    the library evidently intends (see README, Findings): a file parser that
    folds the head chunks in their written order, and a join that stacks the
    suffix on top of the base. */
module Corrected {
  import opened EitherType
  import opened Paths
  import opened Chunks
  import opened Describe
  import opened Parse
  import opened Joins

  /** `_path(rawFile:)` without the `reversed()` of line 117. */
  function ParseFileInOrder(raw: string): Option<Path> {
    if |raw| == 0 then None
    else
      var allChunks := Split(raw);
      if allChunks == [] then None
      else
        var lastChunk := allChunks[|allChunks| - 1];
        if lastChunk == "." || lastChunk == ".." then None
        else
          var headChunks := allChunks[..|allChunks| - 1];
          Some(FileIn(Fold(StartOf(raw), DropEmpty(headChunks)), lastChunk))
  }

  /** A file parsed in order has the components of the head chunks in their written order. */
  lemma ParseFileInOrderShape(raw: string)
    requires ParseFileInOrder(raw).Some?
    ensures var r := ParseFileInOrder(raw).value;
      var cs := Split(raw);
      && FileShaped(r) && ValidNames(r)
      && r.name == cs[|cs| - 1]
      && (IsAbsolute(r) <==> raw[0] == '/')
      && Steps(r.parent) == ChunkSteps(cs[..|cs| - 1])
  {
    var cs := Split(raw);
    var head := cs[..|cs| - 1];
    SplitWellFormed(raw);
    DropEmptyKeepsWellFormed(head);
    var prefix := Fold(StartOf(raw), head);
    assert ParseFileInOrder(raw) == Some(FileIn(prefix, cs[|cs| - 1]));
    FoldWellFormed(StartOf(raw), head);
    FoldBuilds(StartOf(raw), head);
    StepsOfBuild(StartOf(raw), ChunkSteps(head));
  }

  /** The corrected parser rejects the same texts as the code as written and
      differs from it only in the order of the parent's components. */
  lemma ParseFileInOrderAgrees(raw: string)
    ensures ParseFileInOrder(raw).None? <==> ParseFile(raw).None?
    ensures ParseFileInOrder(raw).Some? ==>
      var r, w := ParseFileInOrder(raw).value, ParseFile(raw).value;
      && r.name == w.name
      && AnchorOf(r) == AnchorOf(w)
      && Steps(r.parent) == Reverse(Steps(w.parent))
  {
    if ParseFileInOrder(raw).Some? {
      ParseFileInOrderShape(raw);
      ParseFileShape(raw);
      var cs := Split(raw);
      ReverseReverse(ChunkSteps(cs[..|cs| - 1]));
    }
  }

  /** Parsing the text of a file path with valid names gives the path back. */
  lemma ParseFileInOrderRoundTrip(p: Path)
    requires FileShaped(p) && ValidNames(p)
    ensures ParseFileInOrder(Description(p)) == Some(p)
  {
    var q, raw := p.parent, Description(p);
    DescriptionShape(p);
    SplitDescription(p);
    assert Split(raw) == TextChunks(q) + [p.name];
    assert Split(raw)[..|Split(raw)| - 1] == TextChunks(q);
    SplitWellFormed(raw);
    DropEmptyKeepsWellFormed(TextChunks(q));
    assert StartOf(raw) == AnchorOf(q);
    var prefix := Fold(AnchorOf(q), TextChunks(q));
    assert ParseFileInOrder(raw) == Some(FileIn(prefix, p.name));
    FoldBuilds(AnchorOf(q), TextChunks(q));
    ChunkStepsOfText(q);
    BuildOfSteps(q);
  }

  lemma UsersExampleReparsedInOrder()
    ensures ParseFileInOrder(Description(FileIn(DirIn(DirIn(Root, "Users"), "bkase"), "Hello.swift")))
      == Some(FileIn(DirIn(DirIn(Root, "Users"), "bkase"), "Hello.swift"))
  {
    ParseFileInOrderRoundTrip(FileIn(DirIn(DirIn(Root, "Users"), "bkase"), "Hello.swift"));
  }

  /** The absolute example of the file parser's test suite holds of the corrected parser. */
  lemma ParseFileInOrderUsersExample()
    ensures ParseFileInOrder("/Users/bkase/Hello.swift")
      == Some(FileIn(DirIn(DirIn(Root, "Users"), "bkase"), "Hello.swift"))
  {
    UsersExampleText();
    UsersExampleReparsedInOrder();
  }

  /** `join` with the suffix stacked on top of the base, so the result has
      the suffix's outermost node. Same requires as the code as written. */
  function JoinOnTop(base: Path, suffix: Path): (r: Path)
    requires NoFileIn(base) && AnchorOf(suffix) == Current
    ensures AnchorOf(r) == AnchorOf(base)
    ensures Steps(r) == Steps(base) + Steps(suffix)
    ensures NoFileIn(r) <==> NoFileIn(suffix)
  {
    match suffix
    case Current => base
    case Root => assert false; base
    case FileIn(p1, name) => FileIn(JoinOnTop(base, p1), name)
    case DirIn(p1, name) => DirIn(JoinOnTop(base, p1), name)
    case ParentIn(p1) => ParentIn(JoinOnTop(base, p1))
  }

  /** The result has the suffix's type: its outermost node is the suffix's
      when the suffix has one, so a file suffix gives a file path. */
  lemma JoinOnTopKeepsType(base: Path, suffix: Path)
    requires NoFileIn(base) && AnchorOf(suffix) == Current
    ensures TopIsFile(JoinOnTop(base, suffix)) <==> TopIsFile(suffix)
    ensures FileShaped(suffix) ==> FileShaped(JoinOnTop(base, suffix))
  {
  }

  /** Identity laws. */
  lemma JoinOnTopIdentities(base: Path, suffix: Path)
    requires NoFileIn(base) && AnchorOf(suffix) == Current
    ensures JoinOnTop(base, Current) == base
    ensures JoinOnTop(Current, suffix) == suffix
  {
    assert Steps(Current) + Steps(suffix) == Steps(suffix);
    SameAnchorAndSteps(JoinOnTop(Current, suffix), suffix);
  }

  /** Associativity. */
  lemma {:induction false} JoinOnTopAssociative(a: Path, b: Path, c: Path)
    requires NoFileIn(a) && NoFileIn(b)
    requires AnchorOf(b) == Current && AnchorOf(c) == Current
    ensures JoinOnTop(JoinOnTop(a, b), c) == JoinOnTop(a, JoinOnTop(b, c))
  {
    match c
    case Current =>
    case FileIn(c1, _) => JoinOnTopAssociative(a, b, c1);
    case DirIn(c1, _) => JoinOnTopAssociative(a, b, c1);
    case ParentIn(c1) => JoinOnTopAssociative(a, b, c1);
  }

  lemma UsersBkaseHelloInOrderText()
    ensures Description(FileIn(DirIn(DirIn(Root, "Users"), "bkase"), "Hello.txt")) == "/Users/bkase/Hello.txt"
  {
  }

  /** The documented composition serializes as `/Users/bkase/Hello.txt` and is a file. */
  lemma JoinOnTopUsersExample()
    ensures var p := JoinOnTop(JoinOnTop(JoinOnTop(Root, Dir("Users")), Dir("bkase")), File("Hello.txt"));
      && p == FileIn(DirIn(DirIn(Root, "Users"), "bkase"), "Hello.txt")
      && Description(p) == "/Users/bkase/Hello.txt"
      && FileShaped(p)
  {
    var users := JoinOnTop(Root, Dir("Users"));
    assert users == DirIn(Root, "Users");
    var bkase := JoinOnTop(users, Dir("bkase"));
    assert bkase == DirIn(DirIn(Root, "Users"), "bkase");
    var p := JoinOnTop(bkase, File("Hello.txt"));
    assert p == FileIn(bkase, "Hello.txt");
    UsersBkaseHelloInOrderText();
  }
}
