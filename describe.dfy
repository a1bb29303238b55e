/** The serializer (`getDescription(first:)` and `description`, Pathy.swift
    lines 62-80) and what its output looks like. */
module Describe {
  import opened Paths
  import opened Chunks

  /** `getDescription(first:)`: `first` holds only for the outermost node. */
  function Describe(p: Path, first: bool): string {
    match p
    case Root => if first then "/" else ""
    case Current => "."
    case FileIn(q, n) => Describe(q, false) + "/" + n
    case DirIn(q, n) => Describe(q, false) + "/" + n
    case ParentIn(q) => Describe(q, false) + "/.."
  }

  /** `description`. */
  function Description(p: Path): string {
    Describe(p, true)
  }

  /** The textual components of a path, innermost first: `.` for a
      `Current` anchor, then one chunk per component. */
  function TextChunks(p: Path): seq<string> {
    match p
    case Root => []
    case Current => ["."]
    case FileIn(q, n) => TextChunks(q) + [n]
    case DirIn(q, n) => TextChunks(q) + [n]
    case ParentIn(q) => TextChunks(q) + [".."]
  }

  /** Only an outermost `Root` depends on `first`. */
  lemma DescribeFirstOnlyForRoot(p: Path)
    requires p != Root
    ensures Description(p) == Describe(p, false)
  {
  }

  lemma {:induction false} NestedDescriptionShape(p: Path)
    requires p != Root
    ensures |Describe(p, false)| > 0
    ensures Describe(p, false)[0] == if IsAbsolute(p) then '/' else '.'
  {
    if p != Current {
      var q := p.parent;
      assert AnchorOf(p) == AnchorOf(q);
      if q != Root {
        NestedDescriptionShape(q);
        assert Describe(p, false)[0] == Describe(q, false)[0];
      } else {
        assert Describe(p, false)[0] == '/';
      }
    }
  }

  /** The text is never empty; it starts with `/` exactly for absolute paths
      and with `.` exactly for relative ones. */
  lemma DescriptionShape(p: Path)
    ensures |Description(p)| > 0
    ensures Description(p)[0] == '/' <==> IsAbsolute(p)
    ensures Description(p)[0] == '.' <==> AnchorOf(p) == Current
  {
    if p != Root {
      NestedDescriptionShape(p);
    }
  }

  /** An outermost root renders as `/`, a nested one as nothing, `Current` always as `.`. */
  lemma AnchorTexts()
    ensures Description(Root) == "/" && Describe(Root, false) == ""
    ensures Description(Current) == "." && Describe(Current, false) == "."
    ensures Description(DirIn(Root, "Users")) == "/Users"
    ensures Description(ParentIn(Current)) == "./.."
  {
  }

  /** Splitting the text of a path with valid names gives back its textual components. */
  lemma {:induction false} SplitDescription(p: Path)
    requires ValidNames(p)
    ensures Split(Describe(p, false)) == TextChunks(p)
  {
    match p
    case Root =>
    case Current => SplitName(".");
    case FileIn(q, n) =>
      SplitDescription(q); SplitConcat(Describe(q, false), n); SplitName(n);
    case DirIn(q, n) =>
      SplitDescription(q); SplitConcat(Describe(q, false), n); SplitName(n);
    case ParentIn(q) =>
      SplitDescription(q); SplitConcat(Describe(q, false), ".."); SplitName("..");
      assert Describe(p, false) == Describe(q, false) + "/" + "..";
  }
}
