/** The path strings of opensand-conf: ids joined by '/'.
    `Render` is the canonical form that `getPath` builds; the functions below it
    follow the operations of Path.cpp, and the lemmas connect the two. */
module Paths {

  /** The longest prefix of `s` that contains no separator. */
  function Head(s: string): (h: string)
    ensures h <= s && '/' !in h
    ensures |h| < |s| ==> s[|h|] == '/'
  {
    if s == "" || s[0] == '/' then "" else [s[0]] + Head(s[1..])
  }

  /** The segments of a path: what `std::getline` on '/' yields, without the empty ones. */
  function Segments(s: string): seq<string>
    decreases |s|
  {
    if s == "" then []
    else if s[0] == '/' then Segments(s[1..])
    else
      [Head(s)] + Segments(s[|Head(s)|..])
  }

  /** The canonical path of a sequence of ids. */
  function Render(ids: seq<string>): string {
    if ids == [] then "" else "/" + ids[0] + Render(ids[1..])
  }

  /** An id that can appear as one segment of a path. */
  predicate Segment(id: string) {
    id != "" && '/' !in id
  }

  predicate AllSegments(ids: seq<string>) {
    forall i :: 0 <= i < |ids| ==> Segment(ids[i])
  }

  lemma {:induction false} HeadOf(id: string, rest: string)
    requires '/' !in id
    requires rest != "" ==> rest[0] == '/'
    ensures Head(id + rest) == id
  {
    if id == "" {
      assert id + rest == rest;
    } else {
      assert (id + rest)[1..] == id[1..] + rest;
      HeadOf(id[1..], rest);
    }
  }

  lemma {:induction false} RenderStart(ids: seq<string>)
    ensures Render(ids) != "" ==> Render(ids)[0] == '/'
    ensures Render(ids) == "" <==> ids == []
  {
  }

  /** Splitting undoes rendering. */
  lemma {:induction false} SegmentsRender(ids: seq<string>)
    requires AllSegments(ids)
    ensures Segments(Render(ids)) == ids
  {
    if ids != [] {
      var s := Render(ids);
      var rest := Render(ids[1..]);
      assert s[0] == '/' && s[1..] == ids[0] + rest;
      RenderStart(ids[1..]);
      HeadOf(ids[0], rest);
      assert (ids[0] + rest)[|ids[0]|..] == rest;
      SegmentsRender(ids[1..]);
    }
  }

  /** Every segment is non-empty and free of separators. */
  lemma {:induction false} SegmentsAreSegments(s: string)
    ensures AllSegments(Segments(s))
    decreases |s|
  {
    if s == "" {
    } else if s[0] == '/' {
      SegmentsAreSegments(s[1..]);
    } else {
      SegmentsAreSegments(s[|Head(s)|..]);
    }
  }

  lemma {:induction false} RenderConcat(a: seq<string>, b: seq<string>)
    ensures Render(a + b) == Render(a) + Render(b)
  {
    if a == [] {
      assert a + b == b;
    } else {
      assert (a + b)[1..] == a[1..] + b;
      RenderConcat(a[1..], b);
    }
  }

  lemma {:induction false} RenderSnoc(a: seq<string>, id: string)
    ensures Render(a + [id]) == Render(a) + "/" + id
  {
    RenderConcat(a, [id]);
  }

  lemma {:induction false} RenderInjective(a: seq<string>, b: seq<string>)
    requires AllSegments(a) && AllSegments(b)
    ensures Render(a) == Render(b) <==> a == b
  {
    SegmentsRender(a);
    SegmentsRender(b);
  }

  /** `splitPath`: repeated `getline`, keeping the non-empty items. */
  method SplitPath(path: string) returns (split: seq<string>)
    ensures split == Segments(path)
  {
    split := [];
    var pos := 0;
    while pos < |path|
      invariant 0 <= pos <= |path|
      invariant split + Segments(path[pos..]) == Segments(path)
    {
      var item := Head(path[pos..]);
      var next := pos + |item|;
      if item != "" {
        split := split + [item];
        assert path[pos..][|item|..] == path[next..];
      }
      if next < |path| {
        assert path[pos..][|item|] == '/';
        assert path[next..][1..] == path[next + 1..];
        next := next + 1;
      }
      pos := next;
    }
  }

  /** The common prefix of two segment sequences, up to the first difference. */
  function CommonPrefix(a: seq<string>, b: seq<string>): (c: seq<string>)
    ensures c <= a && c <= b
  {
    if a == [] || b == [] || a[0] != b[0] then [] else [a[0]] + CommonPrefix(a[1..], b[1..])
  }

  /** No common prefix is longer. */
  lemma {:induction false} CommonPrefixLongest(a: seq<string>, b: seq<string>, d: seq<string>)
    requires d <= a && d <= b
    ensures d <= CommonPrefix(a, b)
  {
    if d != [] {
      assert a[0] == d[0] == b[0];
      CommonPrefixLongest(a[1..], b[1..], d[1..]);
    }
  }

  function CommonPath(path1: string, path2: string): string {
    if path1 == path2 then path1 else Render(CommonPrefix(Segments(path1), Segments(path2)))
  }

  lemma {:induction false} CommonPrefixAt(a: seq<string>, b: seq<string>, i: nat)
    requires i <= |a| && i <= |b| && a[..i] == b[..i]
    requires i == |a| || i == |b| || a[i] != b[i]
    ensures CommonPrefix(a, b) == a[..i]
  {
    if i > 0 {
      assert a[0] == a[..i][0] == b[..i][0] == b[0];
      assert a[1..][..i - 1] == a[..i][1..] && b[1..][..i - 1] == b[..i][1..];
      CommonPrefixAt(a[1..], b[1..], i - 1);
    }
  }

  /** `getCommonPath`: grow the shared prefix segment by segment. */
  method GetCommonPath(path1: string, path2: string) returns (common: string)
    ensures common == CommonPath(path1, path2)
  {
    if path1 == path2 {
      return path1;
    }
    var split1 := SplitPath(path1);
    var split2 := SplitPath(path2);
    var n := if |split1| <= |split2| then |split1| else |split2|;
    common := "";
    var i := 0;
    while i < n && split1[i] == split2[i]
      invariant 0 <= i <= n
      invariant split1[..i] == split2[..i]
      invariant common == Render(split1[..i])
    {
      RenderSnoc(split1[..i], split1[i]);
      assert split1[..i] + [split1[i]] == split1[..i + 1];
      common := common + "/" + split1[i];
      i := i + 1;
    }
    CommonPrefixAt(split1, split2, i);
  }

  function StripSeparators(s: string): string {
    if s != "" && s[0] == '/' then StripSeparators(s[1..]) else s
  }

  function RelativePath(parentPath: string, path: string): string {
    if parentPath == "" || !(parentPath <= path) then path else StripSeparators(path[|parentPath|..])
  }

  /** `getRelativePath`: a string prefix is cut off, then the separators after it. */
  method GetRelativePath(parentPath: string, path: string) returns (relative: string)
    ensures relative == RelativePath(parentPath, path)
  {
    if parentPath == "" || !(parentPath <= path) {
      return path;
    }
    var pos := |parentPath|;
    while pos < |path| && path[pos] == '/'
      invariant |parentPath| <= pos <= |path|
      invariant StripSeparators(path[pos..]) == RelativePath(parentPath, path)
    {
      assert path[pos..][1..] == path[pos + 1..];
      pos := pos + 1;
    }
    relative := path[pos..];
  }

  lemma {:induction false} RenderTail(ids: seq<string>)
    requires AllSegments(ids) && ids != []
    ensures StripSeparators(Render(ids)) == Render(ids)[1..]
    ensures Render(ids)[1..] != ""
    ensures Segments(Render(ids)[1..]) == ids
  {
    var s := Render(ids);
    assert s[1..] == ids[0] + Render(ids[1..]);
    assert s[1..][0] == ids[0][0];
    SegmentsRender(ids);
    assert Segments(s) == Segments(s[1..]);
  }

  lemma {:induction false} RelativeShape(a: seq<string>, b: seq<string>)
    requires AllSegments(a) && AllSegments(b)
    ensures RelativePath(Render(a), Render(a + b)) ==
      if b == [] then "" else if a == [] then Render(b) else Render(b)[1..]
  {
    RenderConcat(a, b);
    RenderStart(a);
    if a == [] {
      assert a + b == b;
    } else {
      assert (Render(a) + Render(b))[|Render(a)|..] == Render(b);
      if b != [] {
        RenderTail(b);
      }
    }
  }

  /** On canonical paths the relative path names exactly the segments below the parent,
      and the parent path followed by it is the whole path again. */
  lemma {:induction false} RelativeOfRender(a: seq<string>, b: seq<string>)
    requires AllSegments(a) && AllSegments(b)
    ensures Segments(RelativePath(Render(a), Render(a + b))) == b
    ensures RelativePath(Render(a), Render(a + b)) == "" <==> b == []
    ensures a != [] && b != [] ==> Render(a) + "/" + RelativePath(Render(a), Render(a + b)) == Render(a + b)
  {
    RelativeShape(a, b);
    if b != [] {
      RenderTail(b);
      SegmentsRender(b);
      RebuildPath(a, b);
      assert Render(b) != "" && Render(b)[1..] != "";
    }
  }

  lemma {:induction false} RebuildPath(a: seq<string>, b: seq<string>)
    requires b != []
    ensures Render(b) != "" && Render(a) + "/" + Render(b)[1..] == Render(a + b)
  {
    RenderConcat(a, b);
    RenderStart(b);
    Glue(Render(a), Render(b));
  }

  lemma {:induction false} Glue<T>(x: seq<T>, y: seq<T>)
    requires y != []
    ensures x + [y[0]] + y[1..] == x + y
  {
    assert [y[0]] + y[1..] == y;
  }

  /** `getCommonPath` and `getRelativePath` split a canonical path at the deepest common ancestor. */
  lemma {:induction false} CommonThenRelative(a: seq<string>, b: seq<string>)
    requires AllSegments(a) && AllSegments(b)
    ensures CommonPath(Render(a), Render(b)) == Render(CommonPrefix(a, b))
    ensures Segments(RelativePath(CommonPath(Render(a), Render(b)), Render(b))) == b[|CommonPrefix(a, b)|..]
  {
    var c := CommonPrefix(a, b);
    SegmentsRender(a);
    SegmentsRender(b);
    RenderInjective(a, b);
    if a == b {
      CommonPrefixAt(a, b, |a|);
      assert a[..|a|] == a;
    }
    assert b == c + b[|c|..];
    RelativeOfRender(c, b[|c|..]);
  }

  /** The common path of `a` and `b` is `a` itself, and `b` continues with `star`, iff `b` lies
      below `a + [star]`. */
  lemma {:induction false} CommonBelow(a: seq<string>, b: seq<string>, star: string)
    requires AllSegments(a) && AllSegments(b)
    ensures CommonPath(Render(a), Render(b)) == Render(a) && [star] <= b[|CommonPrefix(a, b)|..]
            <==> a + [star] <= b
  {
    var c := CommonPrefix(a, b);
    CommonThenRelative(a, b);
    RenderInjective(c, a);
    if a + [star] <= b {
      assert b[..|a|] == a[..|a|] == a;
      CommonPrefixAt(a, b, |a|);
    }
  }

  function NonEmpty(ids: seq<string>): (r: seq<string>)
    ensures |r| <= |ids|
  {
    if ids == [] then []
    else (if ids[0] == "" then [] else [ids[0]]) + NonEmpty(ids[1..])
  }

  lemma {:induction false} NonEmptyCons(id: string, ids: seq<string>)
    ensures NonEmpty([id] + ids) == NonEmpty([id]) + NonEmpty(ids)
  {
    assert ([id] + ids)[1..] == ids;
    assert [id][1..] == [];
  }

  lemma {:induction false} NonEmptyAll(ids: seq<string>)
    ensures |NonEmpty(ids)| == |ids| <==> forall i :: 0 <= i < |ids| ==> ids[i] != ""
    ensures |NonEmpty(ids)| == |ids| ==> NonEmpty(ids) == ids
  {
    if ids != [] {
      NonEmptyAll(ids[1..]);
      assert ids == [ids[0]] + ids[1..];
      assert (forall i :: 0 <= i < |ids| ==> ids[i] != "") <==>
             (ids[0] != "" && forall i :: 0 <= i < |ids[1..]| ==> ids[1..][i] != "");
    }
  }

  /** Appending an id to a path appends one segment, or none when the id is empty. */
  lemma {:induction false} SegmentsSnoc(x: string, id: string)
    requires '/' !in id
    ensures Segments(x + "/" + id) == Segments(x) + NonEmpty([id])
    decreases |x|
  {
    var y := "/" + id;
    assert x + "/" + id == x + y;
    if x == "" {
      assert x + y == y && y[1..] == id;
      HeadOf(id, "");
      assert id + "" == id;
    } else if x[0] == '/' {
      assert (x + y)[1..] == x[1..] + y;
      assert x[1..] + y == x[1..] + "/" + id;
      SegmentsSnoc(x[1..], id);
    } else {
      var h := Head(x);
      var rest := x[|h|..];
      assert x + y == h + (rest + y);
      HeadOf(h, rest + y);
      assert (x + y)[|h|..] == rest + y == rest + "/" + id;
      SegmentsSnoc(rest, id);
    }
  }
}
