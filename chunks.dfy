/** Splitting raw text on `/` the way Swift's `split(separator:)` does by
    default (empty subsequences omitted), the `filter` and `reversed` steps
    of the parser pipelines, and their algebra. */
module Chunks {

  /** Every chunk is non-empty and free of `/`. */
  predicate WellFormedChunks(cs: seq<string>) {
    forall i | 0 <= i < |cs| :: cs[i] != "" && '/' !in cs[i]
  }

  predicate AllSlashes(s: string) {
    forall i | 0 <= i < |s| :: s[i] == '/'
  }

  /** The chunk being collected, unless it is empty. */
  function Flush(cur: string): seq<string> {
    if cur == "" then [] else [cur]
  }

  /** Splits `s` with `cur` as the chunk collected so far. */
  function SplitFrom(s: string, cur: string): seq<string>
    decreases |s|
  {
    if s == "" then Flush(cur)
    else if s[0] == '/' then Flush(cur) + SplitFrom(s[1..], "")
    else SplitFrom(s[1..], cur + [s[0]])
  }

  /** `split(separator: "/")`: the maximal runs of non-`/` characters, in order. */
  function Split(s: string): seq<string> {
    SplitFrom(s, "")
  }

  lemma {:induction false} SplitFromWellFormed(s: string, cur: string)
    requires '/' !in cur
    ensures WellFormedChunks(SplitFrom(s, cur))
    decreases |s|
  {
    if s != "" {
      if s[0] == '/' {
        SplitFromWellFormed(s[1..], "");
      } else {
        SplitFromWellFormed(s[1..], cur + [s[0]]);
      }
    }
  }

  /** Split never yields an empty chunk or one holding a separator. */
  lemma SplitWellFormed(s: string)
    ensures WellFormedChunks(Split(s))
  {
    SplitFromWellFormed(s, "");
  }

  lemma {:induction false} SplitFromConcat(a: string, b: string, cur: string)
    ensures SplitFrom(a + "/" + b, cur) == SplitFrom(a, cur) + Split(b)
    decreases |a|
  {
    if a == "" {
      assert a + "/" + b == "/" + b;
      assert ("/" + b)[1..] == b;
    } else {
      assert (a + "/" + b)[0] == a[0];
      assert (a + "/" + b)[1..] == a[1..] + "/" + b;
      if a[0] == '/' {
        SplitFromConcat(a[1..], b, "");
      } else {
        SplitFromConcat(a[1..], b, cur + [a[0]]);
      }
    }
  }

  /** A separator between two texts separates their chunks. */
  lemma SplitConcat(a: string, b: string)
    ensures Split(a + "/" + b) == Split(a) + Split(b)
  {
    SplitFromConcat(a, b, "");
  }

  lemma {:induction false} SplitFromName(n: string, cur: string)
    requires '/' !in n && cur + n != ""
    ensures SplitFrom(n, cur) == [cur + n]
    decreases |n|
  {
    if n != "" {
      assert n[0] in n;
      assert cur + n == (cur + [n[0]]) + n[1..];
      SplitFromName(n[1..], cur + [n[0]]);
    } else {
      assert cur + n == cur;
    }
  }

  /** A non-empty text without separators is one chunk. */
  lemma SplitName(n: string)
    requires n != "" && '/' !in n
    ensures Split(n) == [n]
  {
    SplitFromName(n, "");
    assert "" + n == n;
  }

  lemma {:induction false} SplitFromEmpty(s: string, cur: string)
    ensures SplitFrom(s, cur) == [] <==> cur == "" && AllSlashes(s)
    decreases |s|
  {
    if s != "" {
      if s[0] == '/' {
        SplitFromEmpty(s[1..], "");
        assert AllSlashes(s) <==> AllSlashes(s[1..]) by {
          if AllSlashes(s[1..]) {
            forall i | 0 <= i < |s| ensures s[i] == '/' {
              if i > 0 { assert s[i] == s[1..][i - 1]; }
            }
          }
        }
      } else {
        SplitFromEmpty(s[1..], cur + [s[0]]);
      }
    }
  }

  /** Split yields no chunk exactly when the text holds nothing but separators. */
  lemma SplitEmptyIff(s: string)
    ensures Split(s) == [] <==> AllSlashes(s)
  {
    SplitFromEmpty(s, "");
  }

  /** The `filter { $0 != "" }` step of both parsers. */
  function DropEmpty(cs: seq<string>): (r: seq<string>)
    ensures forall c :: c in r <==> c in cs && c != ""
    ensures |r| <= |cs|
  {
    if cs == [] then []
    else if cs[0] == "" then DropEmpty(cs[1..])
    else [cs[0]] + DropEmpty(cs[1..])
  }

  /** The filter changes nothing on chunks that Split produced. */
  lemma {:induction false} DropEmptyKeepsWellFormed(cs: seq<string>)
    requires WellFormedChunks(cs)
    ensures DropEmpty(cs) == cs
  {
    if cs != [] {
      DropEmptyKeepsWellFormed(cs[1..]);
      assert cs == [cs[0]] + cs[1..];
    }
  }

  /** The filter keeps a single chunk exactly when it is non-empty. */
  lemma DropEmptySingleton(c: string)
    ensures DropEmpty([c]) == if c == "" then [] else [c]
  {
  }

  /** The filter works chunk by chunk: with `DropEmptySingleton` this fixes
      the order and the multiplicity of what it keeps. */
  lemma {:induction false} DropEmptyAppend(a: seq<string>, b: seq<string>)
    ensures DropEmpty(a + b) == DropEmpty(a) + DropEmpty(b)
  {
    if a == [] {
      assert a + b == b;
    } else {
      assert (a + b)[0] == a[0];
      assert (a + b)[1..] == a[1..] + b;
      DropEmptyAppend(a[1..], b);
    }
  }

  /** `reversed()`: the same elements in the opposite order. */
  function Reverse<T>(s: seq<T>): (r: seq<T>)
    ensures |r| == |s|
    ensures forall i | 0 <= i < |s| :: r[i] == s[|s| - 1 - i]
  {
    if s == [] then [] else Reverse(s[1..]) + [s[0]]
  }

  lemma ReverseAppend<T>(a: seq<T>, b: seq<T>)
    ensures Reverse(a + b) == Reverse(b) + Reverse(a)
  {
    assert forall i | 0 <= i < |a + b| :: Reverse(a + b)[i] == (Reverse(b) + Reverse(a))[i];
  }

  lemma ReverseReverse<T>(s: seq<T>)
    ensures Reverse(Reverse(s)) == s
  {
    assert forall i | 0 <= i < |s| :: Reverse(Reverse(s))[i] == s[i];
  }
}
