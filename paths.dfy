/**
 * POSIX path resolution as `path.resolve(root, p)` does it for an absolute
 * `root` and a relative `p`: join with `/`, then drop empty and `.`
 * segments and let `..` remove the segment before it (never above `/`).
 */
module Paths {
  import opened Strings

  /** A segment of a normalised absolute path. */
  predicate IsSegment(seg: string) {
    seg != "" && seg != "." && seg != ".." && '/' !in seg
  }

  predicate ValidSegments(segs: seq<string>) {
    forall i :: 0 <= i < |segs| ==> IsSegment(segs[i])
  }

  predicate NoSlashes(segs: seq<string>) {
    forall i :: 0 <= i < |segs| ==> '/' !in segs[i]
  }

  /** One segment of normalisation applied to the directories resolved so far. */
  function NormalizeStep(stack: seq<string>, seg: string): seq<string>
  {
    if seg == "" || seg == "." then stack
    else if seg == ".." then (if stack == [] then [] else stack[..|stack| - 1])
    else stack + [seg]
  }

  /** The directories after processing `segs` from left to right, starting from `stack`. */
  function Normalize(stack: seq<string>, segs: seq<string>): (r: seq<string>)
    ensures ValidSegments(stack) && NoSlashes(segs) ==> ValidSegments(r)
    decreases |segs|
  {
    if segs == [] then stack
    else
      assert NoSlashes(segs) ==> NoSlashes(segs[1..]) by {
        if NoSlashes(segs) {
          forall i | 0 <= i < |segs[1..]| ensures '/' !in segs[1..][i] { assert segs[1..][i] == segs[i + 1]; }
        }
      }
      Normalize(NormalizeStep(stack, segs[0]), segs[1..])
  }

  /** The absolute path whose segments are `segs`. */
  function Render(segs: seq<string>): (p: string)
    ensures |p| >= 1 && p[0] == '/'
  {
    "/" + Join(segs, '/')
  }

  /** `path.resolve(root, p)` for an absolute `root` and a `p` that does not start with `/`. */
  function PosixResolve(root: string, p: string): (r: string)
    requires |root| >= 1 && root[0] == '/'
    requires p == [] || p[0] != '/'
  {
    Render(Normalize([], Split(root + "/" + p + "/", '/')))
  }

  /** Normalising a concatenation is normalising the parts one after the other. */
  lemma {:induction false} NormalizeAppend(stack: seq<string>, a: seq<string>, b: seq<string>)
    ensures Normalize(stack, a + b) == Normalize(Normalize(stack, a), b)
    decreases |a|
  {
    if a != [] {
      assert (a + b)[0] == a[0] && (a + b)[1..] == a[1..] + b;
      NormalizeAppend(NormalizeStep(stack, a[0]), a[1..], b);
    } else {
      assert a + b == b;
    }
  }

  /** Plain segments are appended as they are. */
  lemma {:induction false} NormalizePlain(stack: seq<string>, segs: seq<string>)
    requires ValidSegments(segs)
    ensures Normalize(stack, segs) == stack + segs
    decreases |segs|
  {
    if segs != [] {
      assert IsSegment(segs[0]);
      assert ValidSegments(segs[1..]) by {
        forall i | 0 <= i < |segs[1..]| ensures IsSegment(segs[1..][i]) { assert segs[1..][i] == segs[i + 1]; }
      }
      NormalizePlain(stack + [segs[0]], segs[1..]);
      assert stack + [segs[0]] + segs[1..] == stack + segs;
    }
  }

  /** No piece is `..`. */
  predicate NoParent(segs: seq<string>) {
    forall i :: 0 <= i < |segs| ==> segs[i] != ".."
  }

  /** Without `..` segments nothing already resolved is removed. */
  lemma {:induction false} NormalizeExtends(stack: seq<string>, segs: seq<string>)
    requires NoParent(segs)
    ensures |Normalize(stack, segs)| >= |stack| && Normalize(stack, segs)[..|stack|] == stack
    decreases |segs|
  {
    if segs != [] {
      var next := NormalizeStep(stack, segs[0]);
      assert |next| >= |stack| && next[..|stack|] == stack;
      NormalizeExtends(next, segs[1..]);
      var r := Normalize(next, segs[1..]);
      assert r[..|stack|] == r[..|next|][..|stack|];
    }
  }

  /** The pieces of a rendered path: an empty one before the leading `/`, then the segments. */
  lemma SplitRender(segs: seq<string>)
    requires NoSlashes(segs)
    ensures Split(Render(segs), '/') == [""] + (if segs == [] then [""] else segs)
  {
    SplitAppend("", Join(segs, '/'), '/');
    assert Render(segs) == "" + ['/'] + Join(segs, '/');
    if segs != [] {
      SplitJoin(segs, '/');
    }
  }

  /** Resolving against a rendered root is normalising the relative part's pieces on top of the root's segments. */
  lemma ResolveUnderRoot(rootSegs: seq<string>, p: string)
    requires ValidSegments(rootSegs)
    requires p == [] || p[0] != '/'
    ensures PosixResolve(Render(rootSegs), p) == Render(Normalize(rootSegs, Split(p, '/')))
  {
    var root := Render(rootSegs);
    var whole := root + "/" + p + "/";
    assert whole == root + ['/'] + (p + ['/'] + "");
    SplitAppend(root, p + ['/'] + "", '/');
    SplitAppend(p, "", '/');
    SplitRender(rootSegs);
    var rootPieces := [""] + (if rootSegs == [] then [""] else rootSegs);
    var pieces := Split(p, '/');
    assert Split(whole, '/') == rootPieces + (pieces + [""]);
    NormalizeAppend([], rootPieces, pieces + [""]);
    NormalizeAppend(Normalize([], rootPieces), pieces, [""]);
    if rootSegs == [] {
      assert Normalize([], rootPieces) == [];
    } else {
      NormalizeAppend([], [""], rootSegs);
      NormalizePlain([], rootSegs);
      assert Normalize([], rootPieces) == rootSegs;
    }
    assert Normalize(Normalize(rootSegs, pieces), [""]) == Normalize(rootSegs, pieces);
  }

  lemma {:induction false} JoinNotShorterThanFirst(parts: seq<string>, sep: char)
    requires |parts| >= 1
    ensures |Join(parts, sep)| >= |parts[0]|
  {
  }

  /** Rendering extra segments below `segs` keeps `Render(segs)` as a string prefix. */
  lemma RenderExtends(segs: seq<string>, more: seq<string>)
    ensures StartsWith(Render(segs + more), Render(segs))
  {
    if segs == [] {
      assert Render(segs) == "/";
    } else if more == [] {
      assert segs + more == segs;
    } else {
      JoinAppend(segs, more, '/');
      assert Render(segs + more) == Render(segs) + ['/'] + Join(more, '/');
    }
  }

  /** Rendering a directory strictly above `segs` gives a shorter string, so not one with `Render(segs)` as prefix. */
  lemma RenderAncestorShorter(segs: seq<string>, k: nat)
    requires ValidSegments(segs) && k < |segs|
    ensures |Render(segs[..k])| < |Render(segs)|
    ensures !StartsWith(Render(segs[..k]), Render(segs))
  {
    assert IsSegment(segs[k]);
    if k == 0 {
      JoinNotShorterThanFirst(segs, '/');
      assert Render(segs[..0]) == "/";
    } else {
      JoinAppend(segs[..k], segs[k..], '/');
      assert segs[..k] + segs[k..] == segs;
      JoinNotShorterThanFirst(segs[k..], '/');
    }
  }

  /** `.` changes nothing and `..` drops the last directory, after which plain segments are appended. */
  lemma NormalizeUpThen(stack: seq<string>, segs: seq<string>)
    requires stack != [] && ValidSegments(segs)
    ensures Normalize(stack, [".", ".."] + segs) == stack[..|stack| - 1] + segs
  {
    var all := [".", ".."] + segs;
    assert all[0] == "." && all[1..][0] == ".." && all[1..][1..] == segs;
    NormalizePlain(stack[..|stack| - 1], segs);
  }

  /** Two directories side by side render with one as a string prefix of the other exactly when their names are. */
  lemma RenderSiblingIff(init: seq<string>, a: string, b: string)
    ensures StartsWith(Render(init + [b]), Render(init + [a])) <==> StartsWith(b, a)
  {
    RenderChild(init, a);
    RenderChild(init, b);
    var c := if init == [] then "/" else Render(init) + "/";
    assert Render(init + [a]) == c + a;
    assert Render(init + [b]) == c + b;
    if StartsWith(b, a) {
      StartsWithAfterCommon(c, b, a);
    }
    if StartsWith(c + b, c + a) {
      StartsWithDropCommon(c, b, a);
    }
  }

  /** Rendering one more segment appends `/` and the segment (or gives `/seg` at the file-system root). */
  lemma RenderChild(segs: seq<string>, seg: string)
    ensures Render(segs + [seg]) == if segs == [] then "/" + seg else Render(segs) + "/" + seg
  {
    if segs != [] {
      JoinAppend(segs, [seg], '/');
    } else {
      assert segs + [seg] == [seg];
    }
  }
}
