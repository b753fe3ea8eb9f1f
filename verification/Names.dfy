/** Object keys, titles and download names (web/upload.go, web/replace.go, web/share.go,
    ingest/poller.go), with the three path functions of the Go library they rest on. */
module Names {

  /** `path.Ext`, and `filepath.Ext` on Linux: from the last dot of the last element on. */
  function Ext(p: string): string {
    if p == "" || p[|p| - 1] == '/' then ""
    else if p[|p| - 1] == '.' then "."
    else
      var e := Ext(p[..|p| - 1]);
      if e == "" then "" else e + [p[|p| - 1]]
  }

  function StripSlashes(p: string): string {
    if p != "" && p[|p| - 1] == '/' then StripSlashes(p[..|p| - 1]) else p
  }

  function LastElement(p: string): string {
    if p == "" || p[|p| - 1] == '/' then "" else LastElement(p[..|p| - 1]) + [p[|p| - 1]]
  }

  /** `path.Base` */
  function Base(p: string): string {
    if p == "" then "."
    else
      var e := LastElement(StripSlashes(p));
      if e == "" then "/" else e
  }

  predicate HasSuffix(s: string, suffix: string) {
    |suffix| <= |s| && s[|s| - |suffix|..] == suffix
  }

  /** The key of an upload or of a replacement. */
  function ObjectKey(slug: string, filename: string): string {
    slug + Ext(filename)
  }

  /** The title of an upload: what was typed, else the file's name, else the slug. */
  function UploadTitle(title: string, filename: string, slug: string): string {
    if title != "" then title else if filename != "" then filename else slug
  }

  /** `downloadFilename`; `lower` is `strings.ToLower`. */
  function DownloadFilename(title: string, key: string, lower: string -> string): string {
    var ext := Ext(key);
    if ext == "" || HasSuffix(lower(title), lower(ext)) then title else title + ext
  }

  /** No dot and no slash: true of every generated slug. */
  predicate Plain(s: string) {
    '.' !in s && '/' !in s
  }

  /** What is used of `strings.ToLower`. It maps a text rune by rune, and a dot always
      begins a rune, so lowering a text is lowering what precedes a dot and what follows. */
  ghost predicate LowersAroundDot(lower: string -> string) {
    forall a: string, b: string :: b != "" && b[0] == '.' ==> lower(a + b) == lower(a) + lower(b)
  }

  function AsciiLower(s: string): string {
    seq(|s|, i requires 0 <= i < |s| => if 'A' <= s[i] <= 'Z' then ((s[i] as int) + 32) as char else s[i])
  }

  /** `LowersAroundDot` is a condition a real lowering meets. */
  lemma AsciiLowerQualifies()
    ensures LowersAroundDot(AsciiLower)
  {
  }

  /** An extension is empty, or a dot followed by a text without dots and slashes. */
  ghost predicate IsExt(e: string) {
    e == "" || (e[0] == '.' && Plain(e[1..]))
  }

  lemma LongerExt(q: string, e: string, c: char)
    requires IsExt(e) && e != "" && HasSuffix(q, e) && c != '.' && c != '/'
    ensures IsExt(e + [c]) && HasSuffix(q + [c], e + [c])
  {
  }

  lemma {:induction false} ExtShape(p: string)
    ensures IsExt(Ext(p)) && HasSuffix(p, Ext(p))
  {
    if p != "" && p[|p| - 1] != '/' && p[|p| - 1] != '.' {
      var q := p[..|p| - 1];
      ExtShape(q);
      if Ext(q) != "" {
        LongerExt(q, Ext(q), p[|p| - 1]);
        assert p == q + [p[|p| - 1]];
      }
    }
  }

  /** Reading the extension of what ends in an extension gives that extension back. */
  lemma {:induction false} ExtOfConcat(stem: string, e: string)
    requires IsExt(e) && (e == "" ==> Plain(stem))
    ensures Ext(stem + e) == e
    decreases |stem| + |e|
  {
    var p := stem + e;
    if e == "" {
      assert p == stem;
      if stem != "" {
        assert stem[|stem| - 1] in stem;
        ExtOfConcat(stem[..|stem| - 1], "");
        assert stem[..|stem| - 1] + "" == stem[..|stem| - 1];
      }
    } else if |e| > 1 {
      var last := e[|e| - 1];
      assert last == e[1..][|e| - 2] && last in e[1..];
      assert p[..|p| - 1] == stem + e[..|e| - 1];
      assert e[..|e| - 1][1..] == e[1..][..|e| - 2];
      ExtOfConcat(stem, e[..|e| - 1]);
      assert e == e[..|e| - 1] + [last];
    }
  }

  /** Only a dot in the last element makes an extension. */
  lemma {:induction false} ExtEmptyIff(p: string)
    ensures Ext(p) == "" <==> '.' !in LastElement(p)
  {
    if p != "" && p[|p| - 1] != '/' {
      ExtEmptyIff(p[..|p| - 1]);
    }
  }

  lemma {:induction false} LastElementOf(dir: string, name: string)
    requires '/' !in name && (dir == "" || dir[|dir| - 1] == '/')
    ensures LastElement(dir + name) == name
  {
    if name == "" {
      assert dir + name == dir;
    } else {
      var n := |name| - 1;
      assert name[n] in name && (dir + name)[..|dir + name| - 1] == dir + name[..n];
      LastElementOf(dir, name[..n]);
    }
  }

  lemma {:induction false} SlashesStripped(p: string, slashes: string)
    requires forall i :: 0 <= i < |slashes| ==> slashes[i] == '/'
    ensures StripSlashes(p + slashes) == StripSlashes(p)
  {
    if slashes == "" {
      assert p + slashes == p;
    } else {
      var n := |slashes| - 1;
      assert (p + slashes)[..|p + slashes| - 1] == p + slashes[..n];
      SlashesStripped(p, slashes[..n]);
    }
  }

  /** The title of a discovered file is the last element of its key, whatever directories
      come before it and however many slashes after it. */
  lemma BaseIsLastElement(dir: string, name: string, slashes: string)
    requires name != "" && '/' !in name && (dir == "" || dir[|dir| - 1] == '/')
    requires forall i :: 0 <= i < |slashes| ==> slashes[i] == '/'
    ensures Base(dir + name + slashes) == name
  {
    var p := dir + name;
    SlashesStripped(p, slashes);
    assert p[|p| - 1] == name[|name| - 1] && name[|name| - 1] in name;
    LastElementOf(dir, name);
  }

  /** The key of an upload determines the extension of the file... */
  lemma KeyKeepsExtension(slug: string, filename: string)
    requires Plain(slug)
    ensures Ext(ObjectKey(slug, filename)) == Ext(filename)
  {
    ExtShape(filename);
    ExtOfConcat(slug, Ext(filename));
  }

  /** ...and the slug it was made for: what precedes the first dot. */
  function SlugOf(key: string): string {
    if key == "" || key[0] == '.' then "" else [key[0]] + SlugOf(key[1..])
  }

  lemma {:induction false} KeyKeepsSlug(slug: string, filename: string)
    requires Plain(slug)
    ensures SlugOf(ObjectKey(slug, filename)) == slug
  {
    ExtShape(filename);
    var key := ObjectKey(slug, filename);
    if slug != "" {
      assert slug[0] in slug;
      assert key[1..] == ObjectKey(slug[1..], filename);
      KeyKeepsSlug(slug[1..], filename);
    }
  }

  /** Keys made for different slugs, or for different extensions, are different. */
  lemma ObjectKeyInjective(slug1: string, file1: string, slug2: string, file2: string)
    requires Plain(slug1) && Plain(slug2)
    ensures ObjectKey(slug1, file1) == ObjectKey(slug2, file2) <==> slug1 == slug2 && Ext(file1) == Ext(file2)
  {
    KeyKeepsSlug(slug1, file1);
    KeyKeepsSlug(slug2, file2);
    KeyKeepsExtension(slug1, file1);
    KeyKeepsExtension(slug2, file2);
  }

  lemma LoweredSuffix(s: string, e: string, lower: string -> string)
    requires LowersAroundDot(lower) && HasSuffix(s, e) && e != "" && e[0] == '.'
    ensures HasSuffix(lower(s), lower(e))
  {
    var stem := s[..|s| - |e|];
    assert s == stem + e;
    assert lower(stem + e) == lower(stem) + lower(e);
  }

  /** A file uploaded without a title is downloaded under the name it had; with neither
      title nor name it is downloaded under its slug. */
  lemma UntitledUploadKeepsItsName(slug: string, filename: string, lower: string -> string)
    requires Plain(slug) && LowersAroundDot(lower)
    ensures DownloadFilename(UploadTitle("", filename, slug), ObjectKey(slug, filename), lower) ==
            if filename != "" then filename else slug
  {
    KeyKeepsExtension(slug, filename);
    ExtShape(filename);
    if Ext(filename) != "" {
      LoweredSuffix(filename, Ext(filename), lower);
    }
  }

  lemma {:induction false} LastElementEndsInExt(p: string)
    ensures HasSuffix(LastElement(p), Ext(p))
  {
    if p != "" && p[|p| - 1] != '/' && p[|p| - 1] != '.' {
      var q := p[..|p| - 1];
      LastElementEndsInExt(q);
      if Ext(q) != "" {
        assert LastElement(q)[|LastElement(q)| - |Ext(q)|..] == Ext(q);
      }
    }
  }

  /** A file dropped into the bucket is downloaded under the last element of its key,
      whatever the key. */
  lemma DiscoveredTrackKeepsItsName(key: string, lower: string -> string)
    requires LowersAroundDot(lower)
    ensures DownloadFilename(Base(key), key, lower) == Base(key)
  {
    ExtShape(key);
    if Ext(key) != "" {
      assert StripSlashes(key) == key;
      LastElementEndsInExt(key);
      LoweredSuffix(Base(key), Ext(key), lower);
    }
  }

  /** The download name carries the key's extension, and taking it as the title changes nothing. */
  lemma DownloadNameIsStable(title: string, key: string, lower: string -> string)
    requires LowersAroundDot(lower)
    ensures var name := DownloadFilename(title, key, lower);
            && (Ext(key) != "" ==> HasSuffix(lower(name), lower(Ext(key))))
            && DownloadFilename(name, key, lower) == name
  {
    ExtShape(key);
    if Ext(key) != "" && !HasSuffix(lower(title), lower(Ext(key))) {
      var name := title + Ext(key);
      assert name[|name| - |Ext(key)|..] == Ext(key);
      LoweredSuffix(name, Ext(key), lower);
    }
  }

  /** What a title and a key should give: the title, then nothing or the key's extension; and
      nothing exactly when the key has no extension or the title ends in it, up to case. */
  ghost predicate IsDownloadName(name: string, title: string, key: string, lower: string -> string) {
    && |title| <= |name| && name[..|title|] == title
    && (name[|title|..] == "" || name[|title|..] == Ext(key))
    && (name[|title|..] == "" <==>
          Ext(key) == "" || exists i :: 0 <= i <= |lower(title)| && lower(title)[i..] == lower(Ext(key)))
  }

  /** The download name of every track is that. */
  lemma DownloadNameKeepsTitle(title: string, key: string, lower: string -> string)
    ensures IsDownloadName(DownloadFilename(title, key, lower), title, key, lower)
  {
    var ext := Ext(key);
    if HasSuffix(lower(title), lower(ext)) {
      var i := |lower(title)| - |lower(ext)|;
      assert lower(title)[i..] == lower(ext);
    }
  }

  /** An extension starts at the last dot of the last element, whatever precedes the dot. */
  lemma ExtFromLastDot(stem: string, suffix: string)
    requires Plain(suffix)
    ensures Ext(stem + ("." + suffix)) == "." + suffix
  {
    assert ("." + suffix)[1..] == suffix;
    ExtOfConcat(stem, "." + suffix);
  }

  /** The title of a key made of slashes only, and of the empty key. */
  lemma {:induction false} BaseOfNothing(slashes: string)
    requires forall i :: 0 <= i < |slashes| ==> slashes[i] == '/'
    ensures Base(slashes) == if slashes == "" then "." else "/"
  {
    if slashes != "" {
      SlashesStripped("", slashes);
      assert "" + slashes == slashes;
    }
  }
}
