/** The narrowing "proofs": `proveKind` with `absolute`/`relative`
    (Pathy.swift lines 216-252) and `proveType` with its inner `loop` and
    `file`/`directory` (lines 277-336). In the source they re-tag every node
    with a phantom type; here the tags are the predicates of module Paths, so
    each proof returns the same tree on the side that its shape selects. */
module Narrow {
  import opened EitherType
  import opened Paths

  /** `proveKind`: walks to the anchor and rebuilds each node on the side the anchor selects. */
  function ProveKind(p: Path): (r: Either<Path, Path>)
    ensures r == if IsAbsolute(p) then Left(p) else Right(p)
  {
    match p
    case Current => Right(Current)
    case Root => Left(Root)
    case DirIn(p1, name) =>
      (match ProveKind(p1)
        case Left(absolute) => Left(DirIn(absolute, name))
        case Right(relative) => Right(DirIn(relative, name)))
    case FileIn(p1, name) =>
      (match ProveKind(p1)
        case Left(absolute) => Left(FileIn(absolute, name))
        case Right(relative) => Right(FileIn(relative, name)))
    case ParentIn(p1) =>
      (match ProveKind(p1)
        case Left(absolute) => Left(ParentIn(absolute))
        case Right(relative) => Right(ParentIn(relative)))
  }

  /** `absolute`: the path if it is anchored at `Root`. */
  function Absolute(p: Path): (r: Option<Path>)
    ensures r == if IsAbsolute(p) then Some(p) else None
  {
    ProveKind(p).AsLeft()
  }

  /** `relative`: the path if it is anchored at `Current`. */
  function Relative(p: Path): (r: Option<Path>)
    ensures r == if AnchorOf(p) == Current then Some(p) else None
  {
    ProveKind(p).AsRight()
  }

  /** Every path is exactly one of absolute and relative. */
  lemma KindIsDecided(p: Path)
    ensures Absolute(p).Some? != Relative(p).Some?
  {
  }

  /** `loop(isLeft:path:)`: rebuilds the tree on the side chosen up front. */
  function ProveTypeLoop(isLeft: bool, p: Path): (r: Either<Path, Path>)
    ensures r == if isLeft then Left(p) else Right(p)
  {
    match p
    case Current => if isLeft then Left(Current) else Right(Current)
    case Root => if isLeft then Left(Root) else Right(Root)
    case DirIn(p1, name) =>
      (match ProveTypeLoop(isLeft, p1)
        case Left(file) => Left(DirIn(file, name))
        case Right(dir) => Right(DirIn(dir, name)))
    case FileIn(p1, name) =>
      (match ProveTypeLoop(isLeft, p1)
        case Left(file) => Left(FileIn(file, name))
        case Right(dir) => Right(FileIn(dir, name)))
    case ParentIn(p1) =>
      (match ProveTypeLoop(isLeft, p1)
        case Left(file) => Left(ParentIn(file))
        case Right(dir) => Right(ParentIn(dir)))
  }

  /** `proveType`: a file exactly when the outermost node is `FileIn`. The
      source's `fatalError("Unreachable")` arms are the `assert false` arms:
      `loop` always answers on the side it was asked for. */
  function ProveType(p: Path): (r: Either<Path, Path>)
    ensures r == if TopIsFile(p) then Left(p) else Right(p)
  {
    match p
    case Current => Right(Current)
    case Root => Right(Root)
    case DirIn(p1, name) =>
      (match ProveTypeLoop(false, p1)
        case Left(_) => assert false; Right(p)
        case Right(dir) => Right(DirIn(dir, name)))
    case FileIn(p1, name) =>
      (match ProveTypeLoop(true, p1)
        case Left(file) => Left(FileIn(file, name))
        case Right(_) => assert false; Left(p))
    case ParentIn(p1) =>
      (match ProveTypeLoop(false, p1)
        case Left(_) => assert false; Right(p)
        case Right(dir) => Right(ParentIn(dir)))
  }

  /** `file`: the path if its outermost node is a file. */
  function AsFile(p: Path): (r: Option<Path>)
    ensures r == if TopIsFile(p) then Some(p) else None
  {
    ProveType(p).AsLeft()
  }

  /** `directory`: the path if its outermost node is not a file. */
  function AsDirectory(p: Path): (r: Option<Path>)
    ensures r == if TopIsFile(p) then None else Some(p)
  {
    ProveType(p).AsRight()
  }

  /** Every path is exactly one of file and directory; on what the parsers
      build, the narrowing agrees with the tag they return. */
  lemma TypeIsDecided(p: Path)
    ensures AsFile(p).Some? != AsDirectory(p).Some?
    ensures FileShaped(p) ==> AsFile(p) == Some(p)
    ensures NoFileIn(p) ==> AsDirectory(p) == Some(p)
  {
  }
}
