/** The two smart-constructor parsers, `_path(rawFile:)` (Pathy.swift lines
    108-131) and `_path(rawDir:)` (lines 140-158), their rejection sets, the
    shape of what they build, and their round trips with the serializer. */
module Parse {
  import opened EitherType
  import opened Paths
  import opened Chunks
  import opened Describe

  /** The closure of both parsers' `reduce`: `.` is skipped, `..` steps up,
      anything else enters a directory of that name. */
  function Consume(acc: Path, chunk: string): Path
  {
    if chunk == "." then acc
    else if chunk == ".." then ParentIn(acc)
    else DirIn(acc, chunk)
  }

  /** One step of the closure keeps the anchor and adds exactly the
      component the chunk stands for. */
  lemma ConsumeSteps(acc: Path, chunk: string)
    ensures AnchorOf(Consume(acc, chunk)) == AnchorOf(acc)
    ensures Steps(Consume(acc, chunk)) == Steps(acc) + ChunkStep(chunk)
  {
  }

  /** `reduce(start, Consume)`: a left fold, first chunk applied first. */
  function Fold(start: Path, cs: seq<string>): Path
    decreases |cs|
  {
    if cs == [] then start
    else Consume(Fold(start, cs[..|cs| - 1]), cs[|cs| - 1])
  }

  /** The component one chunk stands for: none for `.`, a step up for `..`,
      otherwise a directory of that name. */
  function ChunkStep(chunk: string): seq<Step> {
    if chunk == "." then [] else if chunk == ".." then [UpStep] else [DirStep(chunk)]
  }

  /** The components a list of chunks stands for. */
  function ChunkSteps(cs: seq<string>): seq<Step>
    decreases |cs|
  {
    if cs == [] then []
    else ChunkSteps(cs[..|cs| - 1]) + ChunkStep(cs[|cs| - 1])
  }

  /** The fold starts from `Root` when the text starts with `/`, else from `Current`. */
  function StartOf(raw: string): Path
    requires raw != ""
  {
    if raw[0] == '/' then Root else Current
  }

  /** The last chunk is `.` or `..`, which cannot name a file. */
  predicate EndsInDots(cs: seq<string>) {
    cs != [] && (cs[|cs| - 1] == "." || cs[|cs| - 1] == "..")
  }

  /** `_path(rawFile:)`. The head chunks are reversed before the fold, as written. */
  function ParseFile(raw: string): Option<Path> {
    if |raw| == 0 then None
    else
      var allChunks := Split(raw);
      if allChunks == [] then None
      else
        var lastChunk := allChunks[|allChunks| - 1];
        if lastChunk == "." || lastChunk == ".." then None
        else
          var headChunks := allChunks[..|allChunks| - 1];
          var prefix := Fold(StartOf(raw), DropEmpty(Reverse(headChunks)));
          Some(FileIn(prefix, lastChunk))
  }

  /** `_path(rawDir:)`. */
  function ParseDir(raw: string): Option<Path> {
    if |raw| == 0 then None
    else if raw == "/" then Some(Root)
    else Some(Fold(StartOf(raw), DropEmpty(Split(raw))))
  }

  // ---------------------------------------------------------------------------
  // The fold

  lemma {:induction false} ChunkStepsAppend(a: seq<string>, b: seq<string>)
    ensures ChunkSteps(a + b) == ChunkSteps(a) + ChunkSteps(b)
    decreases |b|
  {
    if b != [] {
      var init := b[..|b| - 1];
      assert (a + b)[..|a + b| - 1] == a + init;
      assert (a + b)[|a + b| - 1] == b[|b| - 1];
      ChunkStepsAppend(a, init);
    } else {
      assert a + b == a;
    }
  }

  lemma {:induction false} ChunkStepsReverse(cs: seq<string>)
    ensures ChunkSteps(Reverse(cs)) == Reverse(ChunkSteps(cs))
  {
    if cs != [] {
      var c, rest := cs[0], cs[1..];
      assert cs == [c] + rest;
      assert [c][..0] == [];
      assert ChunkSteps([c]) == ChunkStep(c);
      assert Reverse(ChunkStep(c)) == ChunkStep(c);
      ChunkStepsReverse(rest);
      ChunkStepsAppend([c], rest);
      ChunkStepsAppend(Reverse(rest), [c]);
      ReverseAppend(ChunkStep(c), ChunkSteps(rest));
    }
  }

  /** Folding chunks over an anchor builds the components they stand for. */
  lemma {:induction false} FoldBuilds(anchor: Path, cs: seq<string>)
    requires IsAnchor(anchor)
    ensures Fold(anchor, cs) == Build(anchor, ChunkSteps(cs))
    decreases |cs|
  {
    if cs != [] {
      var init, last := cs[..|cs| - 1], cs[|cs| - 1];
      FoldBuilds(anchor, init);
      if last == "." {
        assert ChunkSteps(cs) == ChunkSteps(init) + [];
        assert ChunkSteps(init) + [] == ChunkSteps(init);
      } else if last == ".." {
        BuildAppend(anchor, ChunkSteps(init), UpStep);
      } else {
        BuildAppend(anchor, ChunkSteps(init), DirStep(last));
      }
    }
  }

  /** Folding well-formed chunks keeps the anchor, adds no file and only valid names. */
  lemma {:induction false} FoldWellFormed(anchor: Path, cs: seq<string>)
    requires IsAnchor(anchor) && WellFormedChunks(cs)
    ensures AnchorOf(Fold(anchor, cs)) == anchor
    ensures NoFileIn(Fold(anchor, cs)) && ValidNames(Fold(anchor, cs))
    decreases |cs|
  {
    if cs != [] {
      FoldWellFormed(anchor, cs[..|cs| - 1]);
    }
  }

  /** The chunks of a directory-shaped path stand for its components. */
  lemma {:induction false} ChunkStepsOfText(p: Path)
    requires NoFileIn(p) && ValidNames(p)
    ensures ChunkSteps(TextChunks(p)) == Steps(p)
  {
    match p
    case Root =>
    case Current =>
      assert ["."][..0] == [];
    case DirIn(q, n) =>
      ChunkStepsOfText(q);
      assert (TextChunks(q) + [n])[..|TextChunks(q)|] == TextChunks(q);
    case ParentIn(q) =>
      ChunkStepsOfText(q);
      assert (TextChunks(q) + [".."])[..|TextChunks(q)|] == TextChunks(q);
  }

  lemma TextChunksEmpty(p: Path)
    ensures TextChunks(p) == [] <==> p == Root
  {
  }

  // ---------------------------------------------------------------------------
  // Directory parser

  /** The directory parser fails on the empty string and nowhere else. */
  lemma ParseDirFailsOnlyOnEmpty(raw: string)
    ensures ParseDir(raw).None? <==> raw == ""
  {
  }

  /** A parsed directory has no file in it, only valid names, is absolute
      exactly when the text starts with `/`, and its components are the
      chunks' components in order. */
  lemma ParseDirShape(raw: string)
    requires raw != ""
    ensures var r := ParseDir(raw).value;
      && NoFileIn(r) && ValidNames(r)
      && (IsAbsolute(r) <==> raw[0] == '/')
      && Steps(r) == ChunkSteps(Split(raw))
  {
    var cs := Split(raw);
    SplitWellFormed(raw);
    DropEmptyKeepsWellFormed(cs);
    if raw == "/" {
      SplitEmptyIff(raw);
    } else {
      FoldWellFormed(StartOf(raw), cs);
      FoldBuilds(StartOf(raw), cs);
      StepsOfBuild(StartOf(raw), ChunkSteps(cs));
    }
  }

  /** Parsing the text of a directory-shaped path with valid names gives the path back. */
  lemma ParseDirRoundTrip(p: Path)
    requires NoFileIn(p) && ValidNames(p)
    ensures ParseDir(Description(p)) == Some(p)
  {
    if p != Root {
      var raw := Description(p);
      DescriptionShape(p);
      SplitDescription(p);
      TextChunksEmpty(p);
      SplitEmptyIff("/");
      assert raw != "/";
      var start := StartOf(raw);
      assert start == AnchorOf(p);
      var cs := TextChunks(p);
      SplitWellFormed(raw);
      DropEmptyKeepsWellFormed(cs);
      assert ParseDir(raw) == Some(Fold(start, cs));
      FoldBuilds(start, cs);
      ChunkStepsOfText(p);
      BuildOfSteps(p);
    }
  }

  /** The single-chunk cases of the directory parser's test suite. */
  lemma ParseDirExamples()
    ensures ParseDir("") == None
    ensures ParseDir("/") == Some(Root)
    ensures ParseDir(".") == Some(Current)
    ensures ParseDir("..") == Some(ParentIn(Current))
  {
    SplitName(".");
    SplitName("..");
  }

  lemma UsersUpText()
    ensures Description(ParentIn(DirIn(DirIn(Root, "Users"), "bkase"))) == "/Users/bkase/.."
  {
  }

  /** The absolute case of the directory parser's test suite. */
  lemma ParseDirUsersExample()
    ensures ParseDir("/Users/bkase/..") == Some(ParentIn(DirIn(DirIn(Root, "Users"), "bkase")))
  {
    UsersUpText();
    ParseDirRoundTrip(ParentIn(DirIn(DirIn(Root, "Users"), "bkase")));
  }

  // ---------------------------------------------------------------------------
  // File parser

  /** The file parser fails exactly on text made only of separators (the
      empty text included) and on text whose last chunk is `.` or `..`. */
  lemma ParseFileRejects(raw: string)
    ensures ParseFile(raw).None? <==> AllSlashes(raw) || EndsInDots(Split(raw))
  {
    SplitEmptyIff(raw);
  }

  /** A parsed file is a `FileIn` named by the last chunk, over a
      directory-shaped parent with valid names, absolute exactly when the
      text starts with `/`, whose components are those of the head chunks in
      REVERSED order. */
  lemma ParseFileShape(raw: string)
    requires ParseFile(raw).Some?
    ensures var r := ParseFile(raw).value;
      var cs := Split(raw);
      && FileShaped(r) && ValidNames(r)
      && r.name == cs[|cs| - 1]
      && (IsAbsolute(r) <==> raw[0] == '/')
      && Steps(r.parent) == Reverse(ChunkSteps(cs[..|cs| - 1]))
  {
    var cs := Split(raw);
    SplitWellFormed(raw);
    var head := cs[..|cs| - 1];
    assert WellFormedChunks(Reverse(head));
    DropEmptyKeepsWellFormed(Reverse(head));
    FoldWellFormed(StartOf(raw), Reverse(head));
    FoldBuilds(StartOf(raw), Reverse(head));
    StepsOfBuild(StartOf(raw), ChunkSteps(Reverse(head)));
    ChunkStepsReverse(head);
  }

  /** Parsing the text of a file path gives back the file over its parent's
      components in reversed order. */
  lemma ParseFileRoundTrip(p: Path)
    requires FileShaped(p) && ValidNames(p)
    ensures ParseFile(Description(p)) == Some(FileIn(Build(AnchorOf(p), Reverse(Steps(p.parent))), p.name))
  {
    var q, raw := p.parent, Description(p);
    DescriptionShape(p);
    SplitDescription(p);
    assert Split(raw) == TextChunks(q) + [p.name];
    assert Split(raw)[..|Split(raw)| - 1] == TextChunks(q);
    ParseFileShape(raw);
    ChunkStepsOfText(q);
    var r := ParseFile(raw).value;
    assert AnchorOf(r) == AnchorOf(p) by {
      assert IsAbsolute(r) <==> IsAbsolute(p);
    }
    StepsOfBuild(AnchorOf(p), Reverse(Steps(q)));
    SameAnchorAndSteps(r.parent, Build(AnchorOf(p), Reverse(Steps(q))));
  }

  /** The rejection and single-chunk cases of the file parser's test suite. */
  lemma ParseFileExamples()
    ensures ParseFile("") == None
    ensures ParseFile("/") == None
    ensures ParseFile(".") == None
    ensures ParseFile("..") == None
    ensures ParseFile("Hello.swift") == Some(FileIn(Current, "Hello.swift"))
  {
    SplitName(".");
    SplitName("..");
    SplitName("Hello.swift");
    SplitEmptyIff("/");
  }

  /** The text of the absolute example of the file parser's test suite. */
  lemma UsersExampleText()
    ensures Description(FileIn(DirIn(DirIn(Root, "Users"), "bkase"), "Hello.swift"))
      == "/Users/bkase/Hello.swift"
  {
  }

  /** As written, reparsing the text of a file under two directories swaps
      the directories. */
  lemma ParseFileSwapsTwoDirectories(outer: string, inner: string, name: string)
    requires ValidName(outer) && ValidName(inner) && ValidName(name)
    ensures ParseFile(Description(FileIn(DirIn(DirIn(Root, outer), inner), name)))
      == Some(FileIn(DirIn(DirIn(Root, inner), outer), name))
  {
    var q := DirIn(DirIn(Root, outer), inner);
    assert NoFileIn(q) && ValidNames(q);
    assert AnchorOf(DirIn(Root, outer)) == Root;
    assert AnchorOf(FileIn(q, name)) == Root;
    ParseFileRoundTrip(FileIn(q, name));
    assert Steps(DirIn(Root, outer)) == [DirStep(outer)];
    assert Steps(q) == [DirStep(outer), DirStep(inner)];
    var swapped := [DirStep(inner), DirStep(outer)];
    var rev := Reverse(Steps(q));
    assert |rev| == 2 && rev[0] == DirStep(inner) && rev[1] == DirStep(outer);
    assert rev == swapped;
    assert swapped[..1] == [DirStep(inner)];
    assert Build(Root, swapped[..1]) == DirIn(Root, inner);
    assert Build(Root, swapped) == DirIn(DirIn(Root, inner), outer);
  }

  /** As written, the absolute example of the file parser's test suite comes
      out with its two directories swapped, so serializing the parsed path
      does not give the text back. */
  lemma ParseFileSwapsDirectories()
    ensures ParseFile("/Users/bkase/Hello.swift")
      == Some(FileIn(DirIn(DirIn(Root, "bkase"), "Users"), "Hello.swift"))
    ensures ParseFile("/Users/bkase/Hello.swift")
      != Some(FileIn(DirIn(DirIn(Root, "Users"), "bkase"), "Hello.swift"))
    ensures Description(ParseFile("/Users/bkase/Hello.swift").value) == "/bkase/Users/Hello.swift"
  {
    UsersExampleText();
    ParseFileSwapsTwoDirectories("Users", "bkase", "Hello.swift");
    SwappedExampleText();
  }

  lemma SwappedExampleText()
    ensures Description(FileIn(DirIn(DirIn(Root, "bkase"), "Users"), "Hello.swift"))
      == "/bkase/Users/Hello.swift"
  {
  }
}
