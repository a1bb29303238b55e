# Pathy: a verified model of typed POSIX paths

Pathy (`Sources/pathy/Pathy.swift`) represents a filesystem path as an
immutable recursive tree, `_Path`, with five variants: the anchors `_root`
(absolute) and `_current` (relative), and the components `fileIn(parent,
name)`, `dirIn(parent, name)` and `parentIn(parent)`. Phantom type tags say
whether a path is absolute or relative and whether it is a file or a
directory. On that tree the library defines:

- a serializer (`description`);
- a hand-written structural equality;
- two parsers from raw text, one for files and one for directories;
- two narrowing "proofs", `proveKind` and `proveType`, which recover the tags
  at run time, with the accessors `absolute`, `relative`, `file` and
  `directory`;
- `join`, which appends a relative path to a directory;
- the primitive paths `root`, `current`, `file(_:)`, `dir(_:)` and `parent`.

This project models all of it as Dafny datatypes and functions, and proves
what the code guarantees as lemmas. The modules are:

- `EitherType` (`either.dfy`): `Either` with `asLeft`/`asRight`, and `Option`.
- `Paths` (`paths.dfy`): the `Path` datatype and the structural equality.
  The phantom tags become predicates on the tree:
  - `IsAbsolute`: anchored at `Root`.
  - `NoFileIn`: the `Directory` tag, meaning no `FileIn` anywhere.
  - `FileShaped`: the `File` tag, meaning one `FileIn` on top of a directory.
  - `TopIsFile`: the outermost node is `FileIn`.

  A path is also viewed as its anchor plus its list of components
  (`AnchorOf`, `Steps`, `Build`), and the two views are proved to be in
  bijection. Most laws below are stated in that view.
- `Chunks` (`chunks.dfy`): Swift's `split(separator: "/")`, which omits empty
  chunks, plus the `filter` and `reversed()` steps of the parser pipelines.
- `Describe` (`describe.dfy`): the serializer.
- `Parse` (`parse.dfy`): `_path(rawFile:)` and `_path(rawDir:)`, with their
  rejection sets, result shapes and round trips through the serializer.
- `Narrow` (`narrow.dfy`): `proveKind`, `proveType` and the four accessors.
- `Joins` (`join.dfy`): the primitives and `join`, with its laws.
- `Corrected` (`corrected.dfy`): corrected versions of the file parser and of
  `join`. See Findings.

Parsing, serializing, narrowing and joining are pure functions in the source,
and they are pure functions here. Each `fatalError("Unreachable")` arm is
modelled in one of two ways:

- When a caller can reach it, it becomes a precondition. This applies to
  `join`, whose base must hold no file and whose suffix must be relative.
- When no input reaches it, it becomes an `assert false` arm that the
  verifier discharges. This applies to `proveType`.

The source's tests give the expected values for some inputs. Those appear
here as lemmas about those inputs.

## Model

| member | source | states |
|---|---|---|
| `EitherType.Either.AsLeft` | Sources/pathy/Pathy.swift:6-11 | yields a value exactly for a `left`, and that value is the left payload |
| `EitherType.Either.AsRight` | Sources/pathy/Pathy.swift:13-18 | yields a value exactly for a `right`, and that value is the right payload |
| `EitherType.ProjectionsPartition` | Sources/pathy/Pathy.swift:6-18 | exactly one of `asLeft` and `asRight` yields a value |
| `Paths.Equal` | Sources/pathy/Pathy.swift:165-197 | the hand-written `==` is true exactly when the two trees are identical: same variant at every level, equal names, equal parents |
| `Paths.EqualRejectsOtherVariants` | Sources/pathy/Pathy.swift:175-194 | two paths of different variants never compare equal |
| `Paths.BuildOfSteps` | Sources/pathy/Pathy.swift:52-58 | every path is its anchor with its components stacked on it in order |
| `Paths.StepsOfBuild` | Sources/pathy/Pathy.swift:52-58 | stacking components on an anchor gives a path with that anchor and exactly those components |
| `Paths.SameAnchorAndSteps` | Sources/pathy/Pathy.swift:52-58 | two paths with the same anchor and the same components are equal |
| `Paths.NoFileInSteps` | Sources/pathy/Pathy.swift:52-58 | a path has no `fileIn` node exactly when none of its components is a file |
| `Chunks.Split` | Sources/pathy/Pathy.swift:113 | no contract of its own; `SplitWellFormed`, `SplitConcat`, `SplitName` and `SplitEmptyIff` below state together what it yields |
| `Chunks.SplitWellFormed` | Sources/pathy/Pathy.swift:113 | every chunk of `split(separator: "/")` is non-empty and contains no `/` |
| `Chunks.SplitConcat` | Sources/pathy/Pathy.swift:113 | splitting `a + "/" + b` gives the chunks of `a` followed by the chunks of `b` |
| `Chunks.SplitName` | Sources/pathy/Pathy.swift:113 | a non-empty text without `/` splits into itself alone |
| `Chunks.SplitEmptyIff` | Sources/pathy/Pathy.swift:113-114 | the split has no chunk exactly when the text consists only of `/` characters, including the empty text |
| `Chunks.DropEmpty` | Sources/pathy/Pathy.swift:118 | a chunk is in the output of `filter { $0 != "" }` exactly when it is a non-empty chunk of the input, and the output is no longer than the input |
| `Chunks.DropEmptySingleton` | Sources/pathy/Pathy.swift:118 | the filter keeps a single chunk exactly when it is non-empty |
| `Chunks.DropEmptyAppend` | Sources/pathy/Pathy.swift:118 | the filter distributes over concatenation; with `DropEmptySingleton` this means it keeps the non-empty chunks in their order and with their multiplicity |
| `Chunks.DropEmptyKeepsWellFormed` | Sources/pathy/Pathy.swift:147 | the filter changes nothing on the output of `split`, so it is redundant in both parsers |
| `Chunks.Reverse` | Sources/pathy/Pathy.swift:117 | `reversed()` keeps the length, and position `i` holds the element from position `n-1-i` |
| `Chunks.ReverseAppend` | Sources/pathy/Pathy.swift:117 | reversing a concatenation reverses the two parts and swaps their order |
| `Chunks.ReverseReverse` | Sources/pathy/Pathy.swift:117 | reversing twice gives the sequence back |
| `Describe.Describe` | Sources/pathy/Pathy.swift:61-76 | no contract of its own; `DescribeFirstOnlyForRoot`, `NestedDescriptionShape`, `AnchorTexts` and `SplitDescription` below state what it renders |
| `Describe.Description` | Sources/pathy/Pathy.swift:77-79 | no contract of its own; `DescriptionShape` states its shape, and `ParseDirRoundTrip` and `Corrected.ParseFileInOrderRoundTrip` state that it loses nothing |
| `Describe.DescribeFirstOnlyForRoot` | Sources/pathy/Pathy.swift:64-67 | the `first` flag matters only for an outermost `_root` |
| `Describe.NestedDescriptionShape` | Sources/pathy/Pathy.swift:62-77 | a path other than `_root`, rendered as an inner node, is non-empty and starts with `/` if absolute or `.` if relative |
| `Describe.DescriptionShape` | Sources/pathy/Pathy.swift:62-80 | `description` is never empty; it starts with `/` exactly for absolute paths and with `.` exactly for relative ones |
| `Describe.AnchorTexts` | Sources/pathy/Pathy.swift:64-69 | an outermost root renders as `/` and a nested root as the empty string; `_current` renders as `.` whether outermost or nested |
| `Describe.SplitDescription` | Sources/pathy/Pathy.swift:62-80 | when every name is valid (non-empty, without `/`, and neither `.` nor `..`), splitting a path's text gives `.` for a relative anchor, then one chunk per component: its name, or `..` |
| `Parse.Consume` | Sources/pathy/Pathy.swift:119-128 | no contract of its own; `ConsumeSteps` below states what the `reduce` closure does |
| `Parse.ConsumeSteps` | Sources/pathy/Pathy.swift:119-128 | the `reduce` closure keeps the anchor and adds exactly the components the chunk stands for: none for `.`, a step up for `..`, otherwise a directory of that name |
| `Parse.Fold` | Sources/pathy/Pathy.swift:119-128 | no contract of its own; `FoldBuilds` and `FoldWellFormed` below state that `reduce` over an anchor keeps the anchor and adds exactly the components the chunks stand for, in order |
| `Parse.ParseFile` | Sources/pathy/Pathy.swift:108-131 | no contract of its own; `ParseFileRejects`, `ParseFileShape` and `ParseFileRoundTrip` below state when it fails and what it builds |
| `Parse.ParseDir` | Sources/pathy/Pathy.swift:140-158 | no contract of its own; `ParseDirFailsOnlyOnEmpty`, `ParseDirShape` and `ParseDirRoundTrip` below state when it fails and what it builds |
| `Parse.ChunkStepsAppend` | Sources/pathy/Pathy.swift:119-128 | the components that chunks stand for distribute over concatenation |
| `Parse.ChunkStepsReverse` | Sources/pathy/Pathy.swift:117-128 | reversing the chunks reverses the components they stand for |
| `Parse.FoldBuilds` | Sources/pathy/Pathy.swift:119-128 | the parsers' `reduce` over an anchor builds exactly the components the chunks stand for, in order: `.` adds nothing, `..` adds a step up, any other chunk adds a directory |
| `Parse.FoldWellFormed` | Sources/pathy/Pathy.swift:148-157 | folding well-formed chunks keeps the anchor and yields no file and only valid directory names |
| `Parse.ChunkStepsOfText` | Sources/pathy/Pathy.swift:62-80 | the chunks of a directory-shaped path with valid names stand for exactly its components |
| `Parse.TextChunksEmpty` | Sources/pathy/Pathy.swift:64-66 | only `_root` has no textual component |
| `Parse.ParseDirFailsOnlyOnEmpty` | Sources/pathy/Pathy.swift:141 | the directory parser fails on the empty string and on nothing else |
| `Parse.ParseDirShape` | Sources/pathy/Pathy.swift:140-158 | a parsed directory has no `fileIn` and only valid names; it is absolute exactly when the text starts with `/`; its components are the chunks' components in order |
| `Parse.ParseDirRoundTrip` | Sources/pathy/Pathy.swift:140-158 | parsing the text of any directory-shaped path with valid names gives back exactly that path |
| `Parse.ParseDirExamples` | Tests/pathyTests/pathyTests.swift:17-20 | `""` fails; `"/"` is root, `"."` is current, and `".."` is `parentIn(current)` |
| `Parse.ParseDirUsersExample` | Tests/pathyTests/pathyTests.swift:22 | `"/Users/bkase/.."` is `parentIn(dirIn(dirIn(root,"Users"),"bkase"))` |
| `Parse.ParseFileRejects` | Sources/pathy/Pathy.swift:111-114 | the file parser fails exactly when the text is only `/` characters (including the empty text) or its last chunk is `.` or `..` |
| `Parse.ParseFileShape` | Sources/pathy/Pathy.swift:116-129 | a parsed file is a `fileIn` named by the last chunk, over a directory-shaped parent with valid names; it is absolute exactly when the text starts with `/`; the parent's components are the head chunks' components in reversed order |
| `Parse.ParseFileRoundTrip` | Sources/pathy/Pathy.swift:108-131 | parsing the text of a file path with valid names gives the same file name and anchor, with the parent's components in reversed order |
| `Parse.ParseFileExamples` | Tests/pathyTests/pathyTests.swift:7-13 | `"Hello.swift"` gives `fileIn(current,"Hello.swift")`; `""`, `"/"`, `"."` and `".."` fail |
| `Parse.UsersExampleText` | Sources/pathy/Pathy.swift:62-80 | `fileIn(dirIn(dirIn(root,"Users"),"bkase"),"Hello.swift")` serializes to `/Users/bkase/Hello.swift` |
| `Parse.ParseFileSwapsTwoDirectories` | Sources/pathy/Pathy.swift:116-129 | reparsing the text of any file under two directories with valid names swaps the two directories |
| `Parse.SwappedExampleText` | Sources/pathy/Pathy.swift:62-80 | the swapped path serializes to `/bkase/Users/Hello.swift` |
| `Parse.ParseFileSwapsDirectories` | Sources/pathy/Pathy.swift:117 | `"/Users/bkase/Hello.swift"` parses to `fileIn(dirIn(dirIn(root,"bkase"),"Users"),"Hello.swift")`, not to what the test expects, and its text does not round-trip |
| `Narrow.ProveKind` | Sources/pathy/Pathy.swift:216-245 | total and shape-preserving: returns the path itself, on the left exactly when it is anchored at root |
| `Narrow.Absolute` | Sources/pathy/Pathy.swift:247-249 | `absolute` is the path itself exactly when it is root-anchored, and nothing otherwise |
| `Narrow.Relative` | Sources/pathy/Pathy.swift:250-252 | `relative` is the path itself exactly when it is current-anchored, and nothing otherwise |
| `Narrow.KindIsDecided` | Sources/pathy/Pathy.swift:247-252 | exactly one of `absolute` and `relative` yields a value |
| `Narrow.ProveTypeLoop` | Sources/pathy/Pathy.swift:278-306 | `loop` returns the path itself, on the left exactly when `isLeft` holds |
| `Narrow.ProveType` | Sources/pathy/Pathy.swift:307-328 | total and shape-preserving: returns the path itself, on the left exactly when the outermost node is `fileIn`; the three `fatalError` arms are never reached |
| `Narrow.AsFile` | Sources/pathy/Pathy.swift:330-332 | `file` is the path itself exactly when its outermost node is `fileIn` |
| `Narrow.AsDirectory` | Sources/pathy/Pathy.swift:334-336 | `directory` is the path itself exactly when its outermost node is not `fileIn` |
| `Narrow.TypeIsDecided` | Sources/pathy/Pathy.swift:330-336 | exactly one of `file` and `directory` yields a value; a file-shaped path narrows to `file`, a directory-shaped one to `directory` |
| `Joins.File` | Sources/pathy/Pathy.swift:379-381 | `file(name)` is a relative file path whose only component is that file |
| `Joins.Dir` | Sources/pathy/Pathy.swift:382-384 | `dir(name)` is a relative directory path whose only component is that directory |
| `Joins.Join` | Sources/pathy/Pathy.swift:344-372 | defined whenever the base has no file and the suffix is relative, which are the `fatalError` arms; keeps the base's anchor; puts the suffix's components beneath the base's; is directory-shaped exactly when the suffix is |
| `Joins.JoinCurrentRight` | Sources/pathy/Pathy.swift:347-354 | `join(b, current) == b` |
| `Joins.JoinCurrentLeft` | Sources/pathy/Pathy.swift:349-364 | `join(current, s) == s` |
| `Joins.JoinRootReanchors` | Sources/pathy/Pathy.swift:365-370 | `join(root, s)` is `s` re-anchored at root |
| `Joins.JoinAssociative` | Sources/pathy/Pathy.swift:344-372 | `join(join(a,b),c) == join(a, join(b,c))` when `a` and `b` hold no file and `b` and `c` are relative |
| `Joins.JoinTopNode` | Sources/pathy/Pathy.swift:351-354 | the join's outermost node is a file exactly when the suffix's is and the base is an anchor |
| `Joins.JoinPutsSuffixBeneath` | Sources/pathy/Pathy.swift:351-354 | `join(join(join(root, dir("Users")), dir("bkase")), file("Hello.txt"))` is `dirIn(dirIn(fileIn(root,"Hello.txt"),"bkase"),"Users")`; it serializes to `/Hello.txt/bkase/Users` and its outermost node is not a file |
| `Corrected.ParseFileInOrder` | Sources/pathy/Pathy.swift:108-131 | no contract of its own; it is the file parser without the `reversed()` of line 117, and `ParseFileInOrderShape`, `ParseFileInOrderAgrees` and `ParseFileInOrderRoundTrip` below state what it does |
| `Corrected.ParseFileInOrderShape` | Sources/pathy/Pathy.swift:116-129 | with the reversal removed, the parent's components are the head chunks' components in written order; everything else is as in `ParseFileShape` |
| `Corrected.ParseFileInOrderAgrees` | Sources/pathy/Pathy.swift:108-131 | the corrected parser rejects exactly the same texts and differs only in reversing the parent's components |
| `Corrected.ParseFileInOrderRoundTrip` | Sources/pathy/Pathy.swift:108-131 | parsing the text of any file path with valid names gives back exactly that path |
| `Corrected.UsersExampleReparsedInOrder` | Sources/pathy/Pathy.swift:116-129 | the serialized Users/bkase example reparses to itself |
| `Corrected.ParseFileInOrderUsersExample` | Tests/pathyTests/pathyTests.swift:8 | `"/Users/bkase/Hello.swift"` parses to `fileIn(dirIn(dirIn(root,"Users"),"bkase"),"Hello.swift")` |
| `Corrected.JoinOnTop` | Sources/pathy/Pathy.swift:344-372 | same preconditions as `join`; keeps the base's anchor; puts the suffix's components on top of the base's; is directory-shaped exactly when the suffix is |
| `Corrected.JoinOnTopKeepsType` | Sources/pathy/Pathy.swift:340 | the result has the suffix's type: its outermost node is a file exactly when the suffix's is, and a file-shaped suffix gives a file-shaped result |
| `Corrected.JoinOnTopIdentities` | Sources/pathy/Pathy.swift:347-350 | `current` is a right and a left identity |
| `Corrected.JoinOnTopAssociative` | Sources/pathy/Pathy.swift:344-372 | associative on directories and relative paths |
| `Corrected.JoinOnTopUsersExample` | Sources/pathy/Pathy.swift:344-372 | joining root, `dir("Users")`, `dir("bkase")` and `file("Hello.txt")` gives a file path that serializes to `/Users/bkase/Hello.txt` |

## Left out

- The `Path` wrapper struct (Sources/pathy/Pathy.swift:84-96) and the wrappers that forward to `_Path` (105-107, 137-139, 160-164, 199-214, 255-270, 339-343, 387-392): `path(rawFile:)`, `path(rawDir:)`, `Path`'s `==` and the rest. They add nothing to the tree functions.
- The `<%>` operator (394-397). It is `join` under another name.
- The phantom marker types (41-49). Their meaning is given by the predicates `IsAbsolute`, `NoFileIn`, `FileShaped` and `TopIsFile`. Because they are predicates, the model does not reject ill-tagged calls at compile time; `Join` states its two tag requirements as preconditions instead.
- `Either.fold` (20-25). Nothing in the library uses it.
- `init?(rawString:)` (399-403). It is unfinished: it ignores its input and always yields root.
- Swift string semantics. Strings are sequences of characters, so grapheme clusters, `count` and `characters.first` are those of `seq<char>`.
- `FileName` and `DirName` (28-39). They are plain strings here, so their `==` is string equality.
- The `root`, `current` and `parent` constants (377, 378, 385) have no contract of their own. They are the constructors `Root` and `Current` and the constant `Joins.Parent`.
- `Join` orders its match arms differently from the source's `switch`: the match on the suffix is nested inside the base's anchor cases. For every input the preconditions admit, it selects the same result.

## Findings

| source | as written | input that shows it | evidently intended | confidence | as-written member | corrected member |
|---|---|---|---|---|---|---|
| Sources/pathy/Pathy.swift:117 | The file parser reverses the head chunks before folding them. | `"/Users/bkase/Hello.swift"` parses to `fileIn(dirIn(dirIn(root,"bkase"),"Users"),"Hello.swift")`, which serializes to `/bkase/Users/Hello.swift`. | The chunks are applied in written order, as the test at Tests/pathyTests/pathyTests.swift:8 expects. | high; not executed | `Parse.ParseFileSwapsDirectories` | `Corrected.ParseFileInOrderRoundTrip` |
| Sources/pathy/Pathy.swift:351-354 | `join` walks down the base first, so the suffix ends up beneath the base's components. | `join(join(join(root, dir("Users")), dir("bkase")), file("Hello.txt"))` is `dirIn(dirIn(fileIn(root,"Hello.txt"),"bkase"),"Users")`. It serializes to `/Hello.txt/bkase/Users`, and its outermost node is a directory although the result is typed `File`. | The suffix is stacked on top of the base. The result then has the suffix's type and serializes to `/Users/bkase/Hello.txt`. | high; not executed | `Joins.JoinPutsSuffixBeneath` | `Corrected.JoinOnTopUsersExample` |
