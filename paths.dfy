/**
 * Content-addressed storage locations and upload classification
 * (lib/assetmanager.js, postAsset). A digest is the SHA-1 of the uploaded
 * bytes in hex; only its shape matters here. Node's `path.join` reduces to
 * joining with '/' because every segment is a non-empty run of hex digits.
 */
module Paths {
  import opened Js

  predicate IsHexChar(c: char) {
    '0' <= c <= '9' || 'a' <= c <= 'f'
  }

  /** What `hash.digest('hex')` hands back, as far as the paths depend on it. */
  predicate IsHexDigest(h: string) {
    |h| >= 4 && forall i | 0 <= i < |h| :: IsHexChar(h[i])
  }

  /** `path.join('assets', h.substr(0, 2), h.substr(2, 2))`: the shard directory. */
  function Directory(h: string): (d: string)
    requires IsHexDigest(h)
    ensures |d| == 12 && d[..7] == "assets/" && d[9] == '/'
    ensures Split(d, '/') == ["assets", h[..2], h[2..4]]
  {
    DirectoryParts(h);
    "assets/" + h[..2] + "/" + h[2..4]
  }

  /** The shard directory reads back as `assets` and the digest's first two
      pairs of digits. */
  lemma DirectoryParts(h: string)
    requires IsHexDigest(h)
    ensures Split("assets/" + h[..2] + "/" + h[2..4], '/') == ["assets", h[..2], h[2..4]]
  {
    assert forall i | 0 <= i < |h| :: h[i] != '/';
    assert '/' !in h[..2] && '/' !in h[2..4];
    assert "assets/" + h[..2] + "/" + h[2..4] == "assets" + ['/'] + (h[..2] + ['/'] + h[2..4]);
    SplitNone(h[2..4], '/');
    SplitCons(h[..2], h[2..4], '/');
    SplitCons("assets", h[..2] + ['/'] + h[2..4], '/');
  }

  /** `h + path.extname(name)`: the stored file's name. */
  function Filename(h: string, ext: string): string {
    h + ext
  }

  /** `path.join(directory, h) + ext`: where a plain upload is stored. Read
      back as a path, it is the four components `assets`, the first two
      digits, the next two, and the stored file's name. */
  function FilePath(h: string, ext: string): (p: string)
    requires IsHexDigest(h)
    ensures '/' !in ext ==> Split(p, '/') == ["assets", h[..2], h[2..4], Filename(h, ext)]
  {
    ShardParts(h, ext);
    Directory(h) + "/" + h + ext
  }

  /** `path.join('assets', h.substr(0, 2), h.substr(2, 2), h)`: where an
      extracted package is placed; its components are those of a plain
      file's path, with the bare digest last. */
  function PackageFolder(h: string): (p: string)
    requires IsHexDigest(h)
    ensures Split(p, '/') == ["assets", h[..2], h[2..4], h]
  {
    ShardParts(h, "");
    assert Directory(h) + "/" + h + "" == Directory(h) + "/" + h && h + "" == h;
    Directory(h) + "/" + h
  }

  /** The digest and a slash-free extension under the shard directory split
      into the shard's three components and the file's name. */
  lemma ShardParts(h: string, ext: string)
    requires IsHexDigest(h)
    ensures '/' !in ext ==> Split(Directory(h) + "/" + h + ext, '/') == ["assets", h[..2], h[2..4], h + ext]
  {
    if '/' !in ext {
      assert forall i | 0 <= i < |h| :: h[i] != '/';
      var name := h + ext;
      assert '/' !in h[..2] && '/' !in h[2..4] && '/' !in name;
      var p := Directory(h) + "/" + h + ext;
      assert p == "assets" + ['/'] + (h[..2] + ['/'] + (h[2..4] + ['/'] + name));
      SplitNone(name, '/');
      SplitCons(h[2..4], name, '/');
      SplitCons(h[..2], h[2..4] + ['/'] + name, '/');
      SplitCons("assets", h[..2] + ['/'] + (h[2..4] + ['/'] + name), '/');
    }
  }

  /** The shape `path.extname` gives: empty, or a dot followed by no further dot. */
  predicate IsExtension(e: string) {
    e == "" || (e[0] == '.' && '.' !in e[1..] && '/' !in e)
  }

  /** Node's POSIX `path.extname`: trailing slashes are ignored; of the last path
      component, the text from its last '.' on, unless that '.' is the
      component's first character or the component is "..". */
  function Extname(name: string): (e: string)
    ensures IsExtension(e)
    ensures '/' !in name ==> e == DotSuffix(name)
  {
    NoSlashName(name);
    var base := Last(Split(TrimTrailingSlashes(name), '/'));
    LastPiece(TrimTrailingSlashes(name), '/');
    ExtOfBase(base)
  }

  /** A name with no slash is its own last component. */
  lemma NoSlashName(name: string)
    ensures '/' !in name ==> TrimTrailingSlashes(name) == name && Last(Split(name, '/')) == name
  {
    if '/' !in name {
      SplitNone(name, '/');
    }
  }

  function TrimTrailingSlashes(p: string): string {
    if p != [] && p[|p| - 1] == '/' then TrimTrailingSlashes(p[..|p| - 1]) else p
  }

  /** The extension of one path component, from its last '.': nothing when
      there is no dot, when the only dot opens the name, or for "..". */
  function DotSuffix(base: string): string {
    var dot := LastIndex(base, '.');
    if dot > 0 && base != ".." then base[dot..] else ""
  }

  function ExtOfBase(base: string): (e: string)
    requires '/' !in base
    ensures IsExtension(e)
    ensures e != "" ==> |e| < |base| && e == base[|base| - |e|..]
    ensures e == DotSuffix(base)
  {
    if '.' !in base then ""
    else
      LastPiece(base, '.');
      var tail := Last(Split(base, '.'));
      var dot := |base| - |tail| - 1;
      LastDot(base, dot);
      if dot == 0 || base == ".." then ""
      else
        assert base[dot..] == "." + tail;
        "." + tail
  }

  /** A dot with no dot after it is the last one. */
  lemma LastDot(base: string, dot: int)
    requires 0 <= dot < |base| && base[dot] == '.' && '.' !in base[dot + 1..]
    ensures LastIndex(base, '.') == dot
  {
  }

  /** `path.extname('report.pdf')` is ".pdf". */
  lemma ExtnameOfReport()
    ensures Extname("report.pdf") == ".pdf"
  {
    var n := "report.pdf";
    assert '/' !in n;
    LastDot(n, 6);
  }

  /** `file.name.split('.').pop() === 'oam'`: the upload is an animation package. */
  predicate IsPackageName(name: string) {
    Last(Split(name, '.')) == "oam"
  }

  /** The package test reads as: the name is "oam" itself or ends in ".oam".
      So "course.oam" and "a.b.oam" are packages; "coursexoam" and "course.oam.zip" are not. */
  lemma PackageIff(name: string)
    ensures IsPackageName(name) <==> name == "oam" || (|name| >= 4 && name[|name| - 4..] == ".oam")
  {
    LastPiece(name, '.');
    var l := Last(Split(name, '.'));
    var n := |name|;
    if name == "oam" {
      assert l == "oam";
    } else if n >= 4 && name[n - 4..] == ".oam" {
      assert name[n - 4] == '.';
      assert l == name[n - 3..];
    }
  }

  /** Deduplication by construction, in both directions: two plain uploads share a
      storage path exactly when their digests and extensions agree. */
  lemma FilePathInjective(h1: string, e1: string, h2: string, e2: string)
    requires IsHexDigest(h1) && IsHexDigest(h2)
    requires IsExtension(e1) && IsExtension(e2)
    ensures FilePath(h1, e1) == FilePath(h2, e2) <==> h1 == h2 && e1 == e2
  {
    if FilePath(h1, e1) == FilePath(h2, e2) {
      var p := FilePath(h1, e1);
      assert p == Directory(h1) + "/" + (h1 + e1);
      assert p == Directory(h2) + "/" + (h2 + e2);
      assert p[13..] == h1 + e1 == h2 + e2;
      SameStem(h1, e1, h2, e2);
    }
  }

  lemma SameStem(h1: string, e1: string, h2: string, e2: string)
    requires IsHexDigest(h1) && IsHexDigest(h2)
    requires IsExtension(e1) && IsExtension(e2)
    requires h1 + e1 == h2 + e2
    ensures h1 == h2 && e1 == e2
  {
    HexRunOf(h1, e1);
    HexRunOf(h2, e2);
    var s := h1 + e1;
    assert h1 == s[..|h1|] == h2;
  }

  /** The number of hex digits a string starts with. */
  function HexRun(s: string): nat {
    if s != [] && IsHexChar(s[0]) then 1 + HexRun(s[1..]) else 0
  }

  /** A digest followed by an extension: the digest is exactly the leading run
      of hex digits, since an extension starts with '.'. */
  lemma {:induction false} HexRunOf(h: string, e: string)
    requires forall i | 0 <= i < |h| :: IsHexChar(h[i])
    requires IsExtension(e)
    ensures HexRun(h + e) == |h|
  {
    if h == [] {
      assert h + e == e;
    } else {
      assert (h + e)[1..] == h[1..] + e;
      HexRunOf(h[1..], e);
    }
  }

  /** A package folder is the plain-file path with no extension, so it never
      coincides with a stored file that has one. */
  lemma FolderIsExtensionless(h: string, h': string, e: string)
    requires IsHexDigest(h) && IsHexDigest(h') && IsExtension(e) && e != ""
    ensures PackageFolder(h) == FilePath(h, "")
    ensures PackageFolder(h) != FilePath(h', e)
  {
    assert PackageFolder(h) == FilePath(h, "");
    FilePathInjective(h, "", h', e);
  }
}
