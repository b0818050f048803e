/**
 * The static-file half of the server: `safeResolveFile` maps a request URL
 * to a path under the served root, and the content type of a served file
 * comes from its extension.
 */
module StaticFiles {
  import opened Wrappers
  import opened Strings
  import opened Uri
  import opened Paths

  /** What `safeResolveFile` does with a URL. */
  datatype Resolution =
    | Resolved(path: string)
    | OutsideRoot     // `null`: the resolved path does not start with the root
    | MalformedUri    // `decodeURIComponent` throws, and nothing catches it

  /** The URL path without its query: everything before the first `?`. */
  function PathPart(url: string): (p: string)
    ensures '?' !in p
    ensures '?' !in url ==> p == url
  {
    Split(url, '?')[0]
  }

  /** The path `safeResolveFile` resolves for an already decoded URL path (`/` meaning `/index.html`). */
  function RelativeTarget(decoded: string): string
  {
    "." + (if decoded == "/" then "/index.html" else decoded)
  }

  /**
   * `safeResolveFile(url)` with the served root given by its segments
   * (the root is the working directory, an absolute normalised path).
   */
  function SafeResolveFile(rootSegs: seq<string>, url: string): (r: Resolution)
    requires ValidSegments(rootSegs)
    ensures r.MalformedUri? <==> DecodeUriComponent(PathPart(url)).None?
    ensures r.Resolved? ==> StartsWith(r.path, Render(rootSegs))
  {
    var root := Render(rootSegs);
    match DecodeUriComponent(PathPart(url))
    case None => MalformedUri
    case Some(decoded) =>
      var absolute := PosixResolve(root, RelativeTarget(decoded));
      if StartsWith(absolute, root) then Resolved(absolute) else OutsideRoot
  }

  /** The segments a decoded URL path resolves to below the root. */
  function TargetSegments(rootSegs: seq<string>, decoded: string): (r: seq<string>)
    requires ValidSegments(rootSegs)
    ensures ValidSegments(r)
  {
    Normalize(rootSegs, Split(RelativeTarget(decoded), '/'))
  }

  /** `SafeResolveFile` accepts the resolved target exactly when the rendered root is a string prefix of it. */
  lemma SafeResolveFileTarget(rootSegs: seq<string>, url: string, decoded: string)
    requires ValidSegments(rootSegs)
    requires DecodeUriComponent(PathPart(url)) == Some(decoded)
    ensures var target := Render(TargetSegments(rootSegs, decoded));
      SafeResolveFile(rootSegs, url) ==
        if StartsWith(target, Render(rootSegs)) then Resolved(target) else OutsideRoot
  {
    ResolveUnderRoot(rootSegs, RelativeTarget(decoded));
  }

  /** Everything from the first `?` on is ignored. */
  lemma QueryIgnored(rootSegs: seq<string>, path: string, query: string)
    requires ValidSegments(rootSegs)
    requires '?' !in path
    ensures SafeResolveFile(rootSegs, path + "?" + query) == SafeResolveFile(rootSegs, path)
  {
    SplitAppend(path, query, '?');
    SplitNoSeparator(path, '?');
    assert path + "?" + query == path + ['?'] + query;
  }

  /** `./index.html` is normalised onto the root as one more segment. */
  lemma NormalizeIndex(rootSegs: seq<string>)
    ensures Normalize(rootSegs, [".", "index.html"]) == rootSegs + ["index.html"]
  {
    NormalizeAppend(rootSegs, ["."], ["index.html"]);
    assert [".", "index.html"] == ["."] + ["index.html"];
  }

  /** `/` is read as `./index.html`, whose pieces are `.` and `index.html`. */
  lemma IndexPieces()
    ensures Split(RelativeTarget("/"), '/') == [".", "index.html"]
  {
    assert RelativeTarget("/") == "." + ['/'] + "index.html";
    SplitTwo(".", "index.html", '/');
  }

  /** `/` decodes to itself and its target is the root's `index.html`. */
  lemma IndexTargetSegments(rootSegs: seq<string>)
    requires ValidSegments(rootSegs)
    ensures DecodeUriComponent("/") == Some("/")
    ensures TargetSegments(rootSegs, "/") == rootSegs + ["index.html"]
  {
    IndexPieces();
    NormalizeIndex(rootSegs);
  }

  /** `/`, with or without a query, is the root's `index.html`. */
  lemma RootServesIndex(rootSegs: seq<string>, url: string)
    requires ValidSegments(rootSegs)
    requires PathPart(url) == "/"
    ensures SafeResolveFile(rootSegs, url) == Resolved(Render(rootSegs + ["index.html"]))
  {
    IndexTargetSegments(rootSegs);
    RenderExtends(rootSegs, ["index.html"]);
    SafeResolveFileTarget(rootSegs, url, "/");
  }

  /** A decoded path `/rest` other than `/` is read as `./rest`. */
  lemma RelativePieces(rest: string)
    requires rest != []
    ensures Split(RelativeTarget("/" + rest), '/') == ["."] + Split(rest, '/')
  {
    assert RelativeTarget("/" + rest) == "." + ['/'] + rest;
    SplitAppend(".", rest, '/');
    SplitNoSeparator(".", '/');
  }

  /** Without `..` among the pieces of `rest`, there is none among the pieces `/rest` is resolved from. */
  lemma NoParentPieces(rest: string)
    requires NoParent(Split(rest, '/'))
    ensures NoParent(Split(RelativeTarget("/" + rest), '/'))
  {
    var pieces := Split(RelativeTarget("/" + rest), '/');
    if rest == [] {
      assert pieces == [".", "index.html"] by {
        assert "/" + rest == "/";
        IndexPieces();
      }
    } else {
      var rs := Split(rest, '/');
      assert pieces == ["."] + rs by {
        RelativePieces(rest);
      }
      forall i | 0 <= i < |pieces| ensures pieces[i] != ".." {
        if i > 0 { assert pieces[i] == rs[i - 1]; }
      }
    }
  }

  /** Without `..`, the target lies at or below the root, segment by segment and so also as a string. */
  lemma NoParentTarget(rootSegs: seq<string>, rest: string)
    requires ValidSegments(rootSegs)
    requires NoParent(Split(rest, '/'))
    ensures var t := TargetSegments(rootSegs, "/" + rest);
      |t| >= |rootSegs| && t[..|rootSegs|] == rootSegs && StartsWith(Render(t), Render(rootSegs))
  {
    NoParentPieces(rest);
    NormalizeExtends(rootSegs, Split(RelativeTarget("/" + rest), '/'));
    var t := TargetSegments(rootSegs, "/" + rest);
    assert t == rootSegs + t[|rootSegs|..];
    RenderExtends(rootSegs, t[|rootSegs|..]);
  }

  /**
   * A decoded path `/rest` without any `..` segment resolves to a directory
   * at or below the root (segment by segment), so it is always accepted.
   */
  lemma NoParentSegmentAccepted(rootSegs: seq<string>, url: string, rest: string)
    requires ValidSegments(rootSegs)
    requires DecodeUriComponent(PathPart(url)) == Some("/" + rest)
    requires NoParent(Split(rest, '/'))
    ensures var t := TargetSegments(rootSegs, "/" + rest);
      |t| >= |rootSegs| && t[..|rootSegs|] == rootSegs &&
      SafeResolveFile(rootSegs, url) == Resolved(Render(t))
  {
    NoParentTarget(rootSegs, rest);
    SafeResolveFileTarget(rootSegs, url, "/" + rest);
  }

  /** A path that climbs above the root (its target is a proper ancestor of the root) is rejected. */
  lemma AncestorOfRootRejected(rootSegs: seq<string>, url: string, decoded: string, k: nat)
    requires ValidSegments(rootSegs)
    requires DecodeUriComponent(PathPart(url)) == Some(decoded)
    requires k < |rootSegs| && TargetSegments(rootSegs, decoded) == rootSegs[..k]
    ensures SafeResolveFile(rootSegs, url) == OutsideRoot
  {
    RenderAncestorShorter(rootSegs, k);
    SafeResolveFileTarget(rootSegs, url, decoded);
  }

  /** `/..` (and so `/../secret.txt`'s directory) is outside every root other than `/`. */
  lemma ParentOfRootRejected(rootSegs: seq<string>)
    requires ValidSegments(rootSegs) && rootSegs != []
    ensures SafeResolveFile(rootSegs, "/..") == OutsideRoot
  {
    var url := "/" + "..";
    assert url == "/..";
    assert '?' !in url && '%' !in url;
    RelativePieces("..");
    SplitNoSeparator("..", '/');
    assert Split(RelativeTarget(url), '/') == [".", ".."] + [];
    NormalizeUpThen(rootSegs, []);
    var k := |rootSegs| - 1;
    assert TargetSegments(rootSegs, url) == rootSegs[..k];
    AncestorOfRootRejected(rootSegs, url, url, k);
  }

  /** `/../name` has no query, needs no decoding, and is `/` followed by `../name`. */
  lemma ParentUrl(name: string)
    requires '%' !in name && '?' !in name
    ensures var url := "/../" + name;
      PathPart(url) == url && DecodeUriComponent(url) == Some(url) &&
      url == "/" + (".." + ['/'] + name)
  {
    var url := "/../" + name;
    assert '?' !in url && '%' !in url;
  }

  /** `/../name` goes up from the root, then down to `name`. */
  lemma ParentTargetSegments(rootSegs: seq<string>, name: string)
    requires ValidSegments(rootSegs) && rootSegs != [] && IsSegment(name)
    ensures TargetSegments(rootSegs, "/" + (".." + ['/'] + name)) == rootSegs[..|rootSegs| - 1] + [name]
  {
    var rest := ".." + ['/'] + name;
    RelativePieces(rest);
    SplitTwo("..", name, '/');
    assert Split(RelativeTarget("/" + rest), '/') == [".", ".."] + [name];
    assert ValidSegments([name]);
    NormalizeUpThen(rootSegs, [name]);
  }

  /**
   * `/../name` names the entry `name` beside the root. It is rejected unless
   * `name` extends the root's own name, in which case the string check lets it through.
   */
  lemma ParentTraversal(rootSegs: seq<string>, name: string)
    requires ValidSegments(rootSegs) && rootSegs != []
    requires IsSegment(name) && '%' !in name && '?' !in name
    ensures var last := rootSegs[|rootSegs| - 1];
      var target := rootSegs[..|rootSegs| - 1] + [name];
      SafeResolveFile(rootSegs, "/../" + name) ==
        if StartsWith(name, last) then Resolved(Render(target)) else OutsideRoot
  {
    var url := "/../" + name;
    var init := rootSegs[..|rootSegs| - 1];
    var last := rootSegs[|rootSegs| - 1];
    ParentUrl(name);
    ParentTargetSegments(rootSegs, name);
    assert init + [last] == rootSegs;
    RenderSiblingIff(init, last, name);
    SafeResolveFileTarget(rootSegs, url, url);
  }

  /** The pieces of `../sibling/file`. */
  lemma SiblingPieces(sibling: string, file: string)
    requires '/' !in sibling && '/' !in file
    ensures Split("../" + sibling + "/" + file, '/') == ["..", sibling, file]
  {
    assert "../" + sibling + "/" + file == ".." + ['/'] + (sibling + ['/'] + file);
    SplitAppend("..", sibling + ['/'] + file, '/');
    SplitNoSeparator("..", '/');
    SplitTwo(sibling, file, '/');
  }

  /** `/../sibling/file` has no query, needs no decoding, and is `/` followed by `../sibling/file`. */
  lemma SiblingUrl(sibling: string, file: string)
    requires '%' !in sibling && '?' !in sibling && '%' !in file && '?' !in file
    ensures var url := "/../" + sibling + "/" + file;
      PathPart(url) == url && DecodeUriComponent(url) == Some(url) &&
      url == "/" + ("../" + sibling + "/" + file)
  {
    var url := "/../" + sibling + "/" + file;
    assert '?' !in url && '%' !in url;
  }

  /** `/../sibling/file` is resolved from the pieces `.`, `..`, `sibling` and `file`. */
  lemma SiblingRelativePieces(sibling: string, file: string)
    requires '/' !in sibling && '/' !in file
    ensures var rest := "../" + sibling + "/" + file;
      Split(RelativeTarget("/" + rest), '/') == [".", ".."] + [sibling, file]
  {
    var rest := "../" + sibling + "/" + file;
    var rs := Split(rest, '/');
    assert Split(RelativeTarget("/" + rest), '/') == ["."] + rs by {
      assert rest != [];
      RelativePieces(rest);
    }
    assert rs == ["..", sibling, file] by {
      SiblingPieces(sibling, file);
    }
    assert ["."] + ["..", sibling, file] == [".", ".."] + [sibling, file];
  }

  /** `/../sibling/file` leaves the root's directory for `sibling`, then enters it. */
  lemma SiblingTargetSegments(rootSegs: seq<string>, sibling: string, file: string)
    requires ValidSegments(rootSegs) && rootSegs != []
    requires IsSegment(sibling) && IsSegment(file)
    ensures TargetSegments(rootSegs, "/" + ("../" + sibling + "/" + file)) ==
        rootSegs[..|rootSegs| - 1] + [sibling, file]
  {
    SiblingRelativePieces(sibling, file);
    assert ValidSegments([sibling, file]);
    NormalizeUpThen(rootSegs, [sibling, file]);
  }

  /** A sibling whose name extends the root's name renders to a string that starts with the rendered root. */
  lemma SiblingRendering(rootSegs: seq<string>, sibling: string, file: string)
    requires rootSegs != []
    requires StartsWith(sibling, rootSegs[|rootSegs| - 1]) && sibling != rootSegs[|rootSegs| - 1]
    ensures var target := rootSegs[..|rootSegs| - 1] + [sibling, file];
      StartsWith(Render(target), Render(rootSegs)) && !(rootSegs <= target)
  {
    var init := rootSegs[..|rootSegs| - 1];
    var target := init + [sibling, file];
    assert init + [rootSegs[|rootSegs| - 1]] == rootSegs;
    assert target == (init + [sibling]) + [file];
    RenderExtends(init + [sibling], [file]);
    RenderSiblingIff(init, rootSegs[|rootSegs| - 1], sibling);
    StartsWithTransitive(Render(target), Render(init + [sibling]), Render(rootSegs));
    assert target[|rootSegs| - 1] == sibling;
  }

  /**
   * The root check compares strings, not segments: `/../sibling/file`, where
   * the sibling directory's name extends the root's own name, is accepted
   * although it lies outside the root.
   */
  lemma SiblingOfRootAccepted(rootSegs: seq<string>, sibling: string, file: string)
    requires ValidSegments(rootSegs) && rootSegs != []
    requires IsSegment(sibling) && IsSegment(file)
    requires '%' !in sibling && '?' !in sibling && '%' !in file && '?' !in file
    requires StartsWith(sibling, rootSegs[|rootSegs| - 1]) && sibling != rootSegs[|rootSegs| - 1]
    ensures var target := rootSegs[..|rootSegs| - 1] + [sibling, file];
      SafeResolveFile(rootSegs, "/../" + sibling + "/" + file) == Resolved(Render(target)) &&
      !(rootSegs <= target)
  {
    var url := "/../" + sibling + "/" + file;
    SiblingUrl(sibling, file);
    SiblingTargetSegments(rootSegs, sibling, file);
    SiblingRendering(rootSegs, sibling, file);
    SafeResolveFileTarget(rootSegs, url, url);
  }

  /** The MIME table, keyed by lower-case extension. */
  function MimeType(ext: string): Option<string>
  {
    if ext == ".html" then Some("text/html; charset=utf-8")
    else if ext == ".js" then Some("application/javascript; charset=utf-8")
    else if ext == ".json" then Some("application/json; charset=utf-8")
    else if ext == ".css" then Some("text/css; charset=utf-8")
    else if ext == ".png" then Some("image/png")
    else if ext == ".jpg" then Some("image/jpeg")
    else if ext == ".jpeg" then Some("image/jpeg")
    else if ext == ".gif" then Some("image/gif")
    else if ext == ".svg" then Some("image/svg+xml")
    else if ext == ".ico" then Some("image/x-icon")
    else None
  }

  const OctetStream := "application/octet-stream"

  /** The final component of a path (the paths here never end in `/`, except `/` itself). */
  function Basename(path: string): (b: string)
    ensures '/' !in b
  {
    var pieces := Split(path, '/');
    pieces[|pieces| - 1]
  }

  /**
   * `path.extname` on a final path component: from the last `.` on, or ""
   * when there is no `.`, when the only `.` leads the name, or for `..`.
   */
  function ExtOfBasename(b: string): (ext: string)
    ensures ext == "" || (ext[0] == '.' && '.' !in ext[1..] && |ext| < |b| && b[|b| - |ext|..] == ext)
  {
    if b == ".." then ""
    else
      match LastIndexOf(b, '.')
      case None => ""
      case Some(d) =>
        if d == 0 then ""
        else
          assert b[d..][1..] == b[d + 1..];
          b[d..]
  }

  function Extname(path: string): string
  {
    ExtOfBasename(Basename(path))
  }

  function AsciiLowerChar(c: char): (r: char)
    ensures !('A' <= r <= 'Z')
    ensures !('A' <= c <= 'Z') ==> r == c
    ensures 'A' <= c <= 'Z' ==> r as int - c as int == 32
  {
    if 'A' <= c <= 'Z' then (c as int - 'A' as int + 'a' as int) as char else c
  }

  /** Lower-casing; the MIME keys are ASCII, so ASCII letters are all that matter for the lookup. */
  function AsciiLower(s: string): (r: string)
    ensures |r| == |s|
    ensures forall i :: 0 <= i < |s| ==> r[i] == AsciiLowerChar(s[i])
  {
    seq(|s|, i requires 0 <= i < |s| => AsciiLowerChar(s[i]))
  }

  /** The `Content-Type` of a served file: the MIME type of its lower-cased extension, or the generic binary type. */
  function ContentType(path: string): (r: string)
    ensures r == OctetStream <==> MimeType(AsciiLower(Extname(path))).None?
  {
    match MimeType(AsciiLower(Extname(path)))
    case Some(t) => t
    case None => OctetStream
  }

  /** The extension of `stem.ext` inside any directory is `.ext`. */
  lemma ExtnameOfFile(segs: seq<string>, stem: string, ext: string)
    requires stem != "" && stem != "." && '/' !in stem
    requires '.' !in ext && '/' !in ext
    ensures Extname(Render(segs + [stem + "." + ext])) == "." + ext
  {
    var name := stem + "." + ext;
    assert '/' !in name;
    RenderChild(segs, name);
    var path := Render(segs + [name]);
    if segs == [] {
      assert path == "" + ['/'] + name;
      SplitAppend("", name, '/');
    } else {
      assert path == Render(segs) + ['/'] + name;
      SplitAppend(Render(segs), name, '/');
    }
    SplitNoSeparator(name, '/');
    assert Basename(path) == name;
    assert name != "..";
    var d := |stem|;
    assert name[d] == '.' && name[d + 1..] == ext;
    LastIndexOfBefore(stem, '.', ext);
    assert name[d..] == "." + ext;
  }

  /** `index.html` is the stem `index` with the extension `html`, and `.html` is already lower case. */
  lemma IndexName()
    ensures "index" + "." + "html" == "index.html"
    ensures "." + "html" == ".html"
    ensures AsciiLower(".html") == ".html"
  {
  }

  /** The page `/` serves is HTML. */
  lemma IndexIsHtml(rootSegs: seq<string>)
    ensures ContentType(Render(rootSegs + ["index.html"])) == "text/html; charset=utf-8"
  {
    IndexName();
    ExtnameOfFile(rootSegs, "index", "html");
    var ext := Extname(Render(rootSegs + ["index.html"]));
    assert ext == ".html";
    assert MimeType(".html") == Some("text/html; charset=utf-8");
  }

  /** Lower-casing is done character by character, so the leading dot stays as it is. */
  lemma AsciiLowerDot(ext: string)
    ensures AsciiLower("." + ext) == "." + AsciiLower(ext)
  {
  }

  /** Lower-casing twice is lower-casing once. */
  lemma AsciiLowerIdempotent(s: string)
    ensures AsciiLower(AsciiLower(s)) == AsciiLower(s)
  {
  }

  /** Lower-casing keeps a string free of `.` and `/`. */
  lemma AsciiLowerKeepsPunctuation(ext: string)
    requires '.' !in ext && '/' !in ext
    ensures '.' !in AsciiLower(ext) && '/' !in AsciiLower(ext)
  {
    forall i | 0 <= i < |ext| ensures AsciiLower(ext)[i] != '.' && AsciiLower(ext)[i] != '/' {
      assert ext[i] != '.' && ext[i] != '/';
    }
  }

  /** Upper-case extensions get the same content type as lower-case ones. */
  lemma ContentTypeIgnoresCase(segs: seq<string>, stem: string, ext: string)
    requires stem != "" && stem != "." && '/' !in stem
    requires '.' !in ext && '/' !in ext
    ensures ContentType(Render(segs + [stem + "." + ext])) == ContentType(Render(segs + [stem + "." + AsciiLower(ext)]))
  {
    var lower := AsciiLower(ext);
    ExtnameOfFile(segs, stem, ext);
    AsciiLowerKeepsPunctuation(ext);
    ExtnameOfFile(segs, stem, lower);
    AsciiLowerDot(ext);
    AsciiLowerDot(lower);
    AsciiLowerIdempotent(ext);
  }
}
