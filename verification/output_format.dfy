/** How the enhancement service chooses the encoder parameters for the
    file it writes: the extension of the output path, as `os.path.splitext`
    cuts it and lower-cased, selects JPEG quality 95, PNG compression 9,
    WebP quality 100, or the encoder's defaults. */
module OutputFormat {

  /** The platform decides which characters separate path components. */
  datatype Platform = Posix | Windows

  function Seps(pl: Platform): (cs: set<char>)
    ensures '.' !in cs && '/' in cs
  {
    match pl
    case Posix => {'/'}
    case Windows => {'\\', '/'}
  }

  /** The encoder parameters handed to the image writer. */
  datatype WriteParams = JpegQuality(quality: int) | PngCompression(level: int) | WebpQuality(quality: int) | EncoderDefaults

  /** The index of the last character of s that lies in cs, or -1 when there is none. */
  function LastIndexIn(s: string, cs: set<char>): (r: int)
    ensures -1 <= r < |s|
    ensures r >= 0 ==> s[r] in cs
    ensures forall k | r < k < |s| :: s[k] !in cs
  {
    LastBefore(s, cs, |s|)
  }

  /** The index of the last character of s[..n] that lies in cs, or -1. */
  function LastBefore(s: string, cs: set<char>, n: int): (r: int)
    requires 0 <= n <= |s|
    ensures -1 <= r < n
    ensures r >= 0 ==> s[r] in cs
    ensures forall k | r < k < n :: s[k] !in cs
  {
    if n == 0 then -1
    else if s[n - 1] in cs then n - 1
    else LastBefore(s, cs, n - 1)
  }

  /** Some character of s[lo..hi] is not a dot. */
  predicate NonDotBetween(s: string, lo: int, hi: int)
    requires 0 <= lo && hi <= |s|
  {
    exists k | lo <= k < hi :: s[k] != '.'
  }

  /** A dot followed by characters that are neither dots nor separators. */
  predicate IsExtension(ext: string, pl: Platform)
  {
    |ext| >= 1 && ext[0] == '.' && forall k | 1 <= k < |ext| :: ext[k] != '.' && ext[k] !in Seps(pl)
  }

  /** `os.path.splitext`: the extension runs from the last dot of the final
      path component to the end, unless every character of the component
      before that dot is a dot itself (a dot file such as `.png` has no
      extension). */
  function SplitExt(p: string, pl: Platform): (r: (string, string))
    ensures r.0 + r.1 == p
    ensures r.1 != "" ==> IsExtension(r.1, pl)
    ensures r.1 != "" ==> NonDotBetween(r.0, LastIndexIn(r.0, Seps(pl)) + 1, |r.0|)
  {
    var sepIndex := LastIndexIn(p, Seps(pl));
    var dotIndex := LastIndexIn(p, {'.'});
    if dotIndex > sepIndex && NonDotBetween(p, sepIndex + 1, dotIndex) then
      PrefixKeeps(p, dotIndex, Seps(pl), sepIndex + 1);
      assert p[..dotIndex] + p[dotIndex..] == p;
      (p[..dotIndex], p[dotIndex..])
    else
      (p, "")
  }

  /** Cutting p at n keeps the last separator before n and the non-dot
      character after it. */
  lemma {:induction false} PrefixKeeps(p: string, n: int, cs: set<char>, lo: int)
    requires 0 <= lo <= n <= |p| && lo == LastIndexIn(p, cs) + 1 && NonDotBetween(p, lo, n)
    ensures LastIndexIn(p[..n], cs) == lo - 1
    ensures NonDotBetween(p[..n], lo, n)
  {
    LastIndexUnique(p[..n], cs, lo - 1);
    var k :| lo <= k < n && p[k] != '.';
    assert p[..n][k] == p[k];
  }

  /** ASCII lower-casing of one character. */
  function LowerChar(c: char): (r: char)
    ensures !('A' <= r <= 'Z')
    ensures r == c || 'A' <= c <= 'Z'
  {
    if 'A' <= c <= 'Z' then (c as int + 32) as char else c
  }

  function Lower(s: string): (r: string)
    ensures |r| == |s|
    ensures forall k | 0 <= k < |s| :: r[k] == LowerChar(s[k])
  {
    seq(|s|, k requires 0 <= k < |s| => LowerChar(s[k]))
  }

  /** The if-chain on the lower-cased extension. */
  function ParamsFor(ext: string): (p: WriteParams)
  {
    if ext == ".jpg" || ext == ".jpeg" then JpegQuality(95)
    else if ext == ".png" then PngCompression(9)
    else if ext == ".webp" then WebpQuality(100)
    else EncoderDefaults
  }

  /** The parameters the service writes `path` with. Every parameter it
      chooses lies in the range the encoder accepts (JPEG and WebP quality
      0..100, PNG compression 0..9), and the encoder's defaults are used
      exactly when the lower-cased extension is none of the four known. */
  function Compression(path: string, pl: Platform): (p: WriteParams)
    ensures p.JpegQuality? ==> 0 <= p.quality <= 100
    ensures p.WebpQuality? ==> 0 <= p.quality <= 100
    ensures p.PngCompression? ==> 0 <= p.level <= 9
    ensures p == EncoderDefaults <==> Lower(SplitExt(path, pl).1) !in {".jpg", ".jpeg", ".png", ".webp"}
  {
    ParamsFor(Lower(SplitExt(path, pl).1))
  }

  /** Any index with the three defining properties is the last one. */
  lemma {:induction false} LastIndexUnique(s: string, cs: set<char>, r: int)
    requires -1 <= r < |s| && (r >= 0 ==> s[r] in cs) && forall k | r < k < |s| :: s[k] !in cs
    ensures LastIndexIn(s, cs) == r
  {
  }

  /** The converse of `SplitExt`'s contract: a stem whose final component is
      not all dots, followed by a dot and a tail without dots or
      separators, splits into exactly that stem and that extension. */
  lemma {:induction false} SplitNamed(stem: string, ext: string, pl: Platform)
    requires IsExtension(ext, pl)
    requires NonDotBetween(stem, LastIndexIn(stem, Seps(pl)) + 1, |stem|)
    ensures SplitExt(stem + ext, pl) == (stem, ext)
  {
    var p := stem + ext;
    var s := LastIndexIn(stem, Seps(pl));
    LastIndexUnique(p, {'.'}, |stem|);
    assert forall k | s < k < |p| :: p[k] !in Seps(pl) by {
      forall k | s < k < |p|
        ensures p[k] !in Seps(pl)
      {
        if k >= |stem| {
          assert p[k] == ext[k - |stem|];
        }
      }
    }
    LastIndexUnique(p, Seps(pl), s);
    var k :| s < k < |stem| && stem[k] != '.';
    assert p[k] == stem[k];
    assert p[..|stem|] == stem && p[|stem|..] == ext;
  }

  /** A final path component without a dot has no extension. */
  lemma {:induction false} SplitPlain(p: string, pl: Platform)
    requires forall k | LastIndexIn(p, Seps(pl)) < k < |p| :: p[k] != '.'
    ensures SplitExt(p, pl) == (p, "")
  {
  }

  /** A dot file whose whole name is the extension (`.png`) has none. */
  lemma {:induction false} SplitDotFile(dir: string, name: string, pl: Platform)
    requires |dir| >= 1 && dir[|dir| - 1] == '/'
    requires IsExtension(name, pl)
    ensures SplitExt(dir + name, pl) == (dir + name, "")
  {
    var p := dir + name;
    assert forall k | |dir| <= k < |p| :: p[k] == name[k - |dir|];
    LastIndexUnique(p, Seps(pl), |dir| - 1);
    LastIndexUnique(p, {'.'}, |dir|);
    assert p[|dir|..|dir|] == [];
  }

  /** Lower-casing twice is lower-casing once. */
  lemma {:induction false} LowerIdempotent(s: string)
    ensures Lower(Lower(s)) == Lower(s)
  {
    var l := Lower(s);
    forall k | 0 <= k < |s|
      ensures Lower(l)[k] == l[k]
    {
      assert !('A' <= l[k] <= 'Z');
    }
  }

  /** Lower-casing turns no character into a dot or a separator. */
  lemma {:induction false} LowerKeepsPunctuation(c: char, pl: Platform)
    requires c != '.' && c !in Seps(pl)
    ensures LowerChar(c) != '.' && LowerChar(c) !in Seps(pl)
  {
    if 'A' <= c <= 'Z' {
      assert 'a' <= LowerChar(c) <= 'z';
      match pl
      case Posix =>
      case Windows =>
    }
  }

  /** The choice depends on the extension alone and ignores its case: a
      named file written with any spelling of an extension gets the
      parameters of its lower-case spelling. */
  lemma {:induction false} CompressionOfNamed(stem: string, ext: string, pl: Platform)
    requires IsExtension(ext, pl)
    requires NonDotBetween(stem, LastIndexIn(stem, Seps(pl)) + 1, |stem|)
    ensures Compression(stem + ext, pl) == ParamsFor(Lower(ext))
    ensures Compression(stem + ext, pl) == Compression(stem + Lower(ext), pl)
  {
    SplitNamed(stem, ext, pl);
    var lx := Lower(ext);
    forall k | 1 <= k < |lx|
      ensures lx[k] != '.' && lx[k] !in Seps(pl)
    {
      LowerKeepsPunctuation(ext[k], pl);
    }
    SplitNamed(stem, lx, pl);
    LowerIdempotent(ext);
  }

  /** Lower(s) is t when t spells s character by character in lower case. */
  lemma {:induction false} LowerIs(s: string, t: string)
    requires |s| == |t| && forall k | 0 <= k < |s| :: LowerChar(s[k]) == t[k]
    ensures Lower(s) == t
  {
  }

  /** `photo.JPG` is written as JPEG at quality 95. */
  lemma {:induction false} UpperCaseJpeg(pl: Platform)
    ensures Compression("photo.JPG", pl) == JpegQuality(95)
  {
    var stem := "photo";
    LastIndexUnique(stem, Seps(pl), -1);
    assert stem[0] != '.';
    assert stem + ".JPG" == "photo.JPG";
    forall k | 1 <= k < 4
      ensures ".JPG"[k] != '.' && ".JPG"[k] !in Seps(pl)
    {
      if k == 1 {} else if k == 2 {} else {}
    }
    assert IsExtension(".JPG", pl);
    assert NonDotBetween(stem, LastIndexIn(stem, Seps(pl)) + 1, |stem|);
    CompressionOfNamed(stem, ".JPG", pl);
    forall k | 0 <= k < 4
      ensures LowerChar(".JPG"[k]) == ".jpg"[k]
    {
      if k == 0 {} else if k == 1 {} else if k == 2 {} else {}
    }
    LowerIs(".JPG", ".jpg");
  }

  /** A hidden file named `.png` is written with the encoder's defaults. */
  lemma {:induction false} DotFileDefaults(pl: Platform)
    ensures Compression("out/.png", pl) == EncoderDefaults
  {
    assert "out/" + ".png" == "out/.png";
    SplitDotFile("out/", ".png", pl);
  }

  /** On POSIX a backslash is an ordinary character: `x\.png` is a PNG file
      whose name starts with `x\`. */
  lemma {:induction false} BackslashOnPosix()
    ensures Compression("x\\.png", Posix) == PngCompression(9)
  {
    var stem := "x\\";
    LastIndexUnique(stem, Seps(Posix), -1);
    assert stem[0] != '.';
    assert stem + ".png" == "x\\.png";
    forall k | 1 <= k < 4
      ensures ".png"[k] != '.' && ".png"[k] !in Seps(Posix)
    {
      if k == 1 {} else if k == 2 {} else {}
    }
    assert IsExtension(".png", Posix);
    assert NonDotBetween(stem, LastIndexIn(stem, Seps(Posix)) + 1, |stem|);
    CompressionOfNamed(stem, ".png", Posix);
    forall k | 0 <= k < 4
      ensures LowerChar(".png"[k]) == ".png"[k]
    {
      if k == 0 {} else if k == 1 {} else if k == 2 {} else {}
    }
    LowerIs(".png", ".png");
  }

  /** On Windows a backslash separates components: `x\.png` is the dot
      file `.png` in directory `x`, written with the encoder's defaults. */
  lemma {:induction false} BackslashOnWindows()
    ensures Compression("x\\.png", Windows) == EncoderDefaults
  {
    var p := "x\\.png";
    LastIndexUnique(p, Seps(Windows), 1);
    LastIndexUnique(p, {'.'}, 2);
    assert !NonDotBetween(p, 2, 2);
  }
}
