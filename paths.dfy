/** The recursive path tree (`_Path`, Pathy.swift lines 52-58), the shape
    facts that the phantom kind and file-type tags stand for, and the
    hand-written structural equality (lines 165-197). */
module Paths {

  /** A spine of components over an anchor: `Root` (absolute) or `Current` (relative). */
  datatype Path =
    | Root
    | Current
    | FileIn(parent: Path, name: string)
    | DirIn(parent: Path, name: string)
    | ParentIn(parent: Path)

  predicate IsAnchor(p: Path) {
    p.Root? || p.Current?
  }

  /** The anchor a path bottoms out at. */
  function AnchorOf(p: Path): (a: Path)
    ensures IsAnchor(a)
  {
    match p
    case Root => Root
    case Current => Current
    case FileIn(q, _) => AnchorOf(q)
    case DirIn(q, _) => AnchorOf(q)
    case ParentIn(q) => AnchorOf(q)
  }

  /** The `Absolute` kind tag: the path is anchored at `Root`. */
  predicate IsAbsolute(p: Path) {
    AnchorOf(p) == Root
  }

  /** Directory-shaped: no `FileIn` node anywhere (what the `Directory` tag promises). */
  predicate NoFileIn(p: Path) {
    match p
    case Root => true
    case Current => true
    case FileIn(_, _) => false
    case DirIn(q, _) => NoFileIn(q)
    case ParentIn(q) => NoFileIn(q)
  }

  /** The outermost node is a file. */
  predicate TopIsFile(p: Path) {
    p.FileIn?
  }

  /** File-shaped: a `FileIn` on top of a directory-shaped path (what the `File` tag promises). */
  predicate FileShaped(p: Path) {
    p.FileIn? && NoFileIn(p.parent)
  }

  /** A name that the parsers can produce and that serializes back to one chunk. */
  predicate ValidName(n: string) {
    n != "" && '/' !in n && n != "." && n != ".."
  }

  /** Every file and directory name in the path is valid. */
  predicate ValidNames(p: Path) {
    match p
    case Root => true
    case Current => true
    case FileIn(q, n) => ValidName(n) && ValidNames(q)
    case DirIn(q, n) => ValidName(n) && ValidNames(q)
    case ParentIn(q) => ValidNames(q)
  }

  // ---------------------------------------------------------------------------
  // A path is exactly its anchor plus the list of its components, innermost first.

  datatype Step = FileStep(name: string) | DirStep(name: string) | UpStep

  function Steps(p: Path): seq<Step> {
    match p
    case Root => []
    case Current => []
    case FileIn(q, n) => Steps(q) + [FileStep(n)]
    case DirIn(q, n) => Steps(q) + [DirStep(n)]
    case ParentIn(q) => Steps(q) + [UpStep]
  }

  /** Puts one component on top of a path. */
  function Extend(p: Path, s: Step): Path {
    match s
    case FileStep(n) => FileIn(p, n)
    case DirStep(n) => DirIn(p, n)
    case UpStep => ParentIn(p)
  }

  /** Stacks the components over an anchor, innermost first. */
  function Build(anchor: Path, steps: seq<Step>): Path
    requires IsAnchor(anchor)
    decreases |steps|
  {
    if steps == [] then anchor
    else Extend(Build(anchor, steps[..|steps| - 1]), steps[|steps| - 1])
  }

  lemma BuildAppend(anchor: Path, steps: seq<Step>, s: Step)
    requires IsAnchor(anchor)
    ensures Build(anchor, steps + [s]) == Extend(Build(anchor, steps), s)
  {
    assert (steps + [s])[..|steps|] == steps;
  }

  /** Rebuilding a path from its anchor and components gives the path back. */
  lemma {:induction false} BuildOfSteps(p: Path)
    ensures Build(AnchorOf(p), Steps(p)) == p
  {
    match p
    case Root =>
    case Current =>
    case FileIn(q, n) => BuildOfSteps(q); BuildAppend(AnchorOf(q), Steps(q), FileStep(n));
    case DirIn(q, n) => BuildOfSteps(q); BuildAppend(AnchorOf(q), Steps(q), DirStep(n));
    case ParentIn(q) => BuildOfSteps(q); BuildAppend(AnchorOf(q), Steps(q), UpStep);
  }

  /** A built path has the anchor and the components it was built from. */
  lemma {:induction false} StepsOfBuild(anchor: Path, steps: seq<Step>)
    requires IsAnchor(anchor)
    ensures AnchorOf(Build(anchor, steps)) == anchor
    ensures Steps(Build(anchor, steps)) == steps
    decreases |steps|
  {
    if steps != [] {
      var init := steps[..|steps| - 1];
      StepsOfBuild(anchor, init);
      assert steps == init + [steps[|steps| - 1]];
    }
  }

  /** Anchor and components determine a path. */
  lemma SameAnchorAndSteps(p: Path, q: Path)
    requires AnchorOf(p) == AnchorOf(q) && Steps(p) == Steps(q)
    ensures p == q
  {
    BuildOfSteps(p);
    BuildOfSteps(q);
  }

  /** Anchor and components determine a path, however the components are grouped. */
  lemma SameAnchorRegrouped(p: Path, q: Path, x: seq<Step>, y: seq<Step>, z: seq<Step>)
    requires AnchorOf(p) == AnchorOf(q)
    requires Steps(p) == x + (y + z) && Steps(q) == (x + y) + z
    ensures p == q
  {
    assert x + (y + z) == (x + y) + z;
    SameAnchorAndSteps(p, q);
  }

  /** No `FileIn` node is the same as no file component. */
  lemma {:induction false} NoFileInSteps(p: Path)
    ensures NoFileIn(p) <==> forall i | 0 <= i < |Steps(p)| :: !Steps(p)[i].FileStep?
  {
    match p
    case Root =>
    case Current =>
    case FileIn(q, n) =>
      assert Steps(p)[|Steps(p)| - 1].FileStep?;
    case DirIn(q, n) =>
      NoFileInSteps(q);
      assert Steps(p) == Steps(q) + [DirStep(n)];
      assert forall i | 0 <= i < |Steps(q)| :: Steps(p)[i] == Steps(q)[i];
      assert !Steps(p)[|Steps(q)|].FileStep?;
    case ParentIn(q) =>
      NoFileInSteps(q);
      assert Steps(p) == Steps(q) + [UpStep];
      assert forall i | 0 <= i < |Steps(q)| :: Steps(p)[i] == Steps(q)[i];
      assert !Steps(p)[|Steps(q)|].FileStep?;
  }

  // ---------------------------------------------------------------------------
  // Structural equality

  /** `_Path ==`: same variant at every level, equal names, equal parents. */
  function Equal(a: Path, b: Path): (r: bool)
    ensures r <==> a == b
  {
    match (a, b)
    case (Root, Root) => true
    case (Current, Current) => true
    case (FileIn(p1, n1), FileIn(p2, n2)) => Equal(p1, p2) && n1 == n2
    case (DirIn(p1, n1), DirIn(p2, n2)) => Equal(p1, p2) && n1 == n2
    case (ParentIn(p1), ParentIn(p2)) => Equal(p1, p2)
    // the twenty cross-variant pairs the source lists one by one
    case _ => false
  }

  /** Different variants never compare equal. */
  lemma EqualRejectsOtherVariants(a: Path, b: Path)
    requires a.Root? != b.Root? || a.Current? != b.Current? || a.FileIn? != b.FileIn?
             || a.DirIn? != b.DirIn? || a.ParentIn? != b.ParentIn?
    ensures !Equal(a, b)
  {
  }
}
