/**
 * Object-key derivation of the upload endpoint (bin/web.js): the sanitised
 * `?directory` query parameter, the sanitised original file name, the key
 * `@v3/<dir>/<timestamp>-<name>`, the key a variant is stored under and the
 * public URL of a stored object.
 */
module Keys {
  import opened Common
  import opened Text

  /** Characters the directory filter `/[^\w-/]/g` leaves in place. */
  predicate IsDirChar(c: char) { IsWordChar(c) || c == '-' || c == '/' }

  /** Characters the file-name filter `/[^\w-.]/g` leaves in place. */
  predicate IsNameChar(c: char) { IsWordChar(c) || c == '-' || c == '.' }

  /** A `//` starts at index `i` of `s`. */
  predicate SlashPairAt(s: string, i: int)
  {
    0 <= i < |s| - 1 && s[i] == '/' && s[i + 1] == '/'
  }

  /** Where the search for the string pattern `//` stops: its first occurrence, if there is one. */
  function FirstDoubleSlash(s: string): (k: Option<nat>)
    ensures k.Some? ==> SlashPairAt(s, k.value) && forall j :: 0 <= j < k.value ==> !SlashPairAt(s, j)
    ensures k.None? ==> forall j :: !SlashPairAt(s, j)
    decreases |s|
  {
    if |s| < 2 then None
    else if s[0] == '/' && s[1] == '/' then Some(0)
    else
      var k := FirstDoubleSlash(s[1..]);
      assert forall j :: 1 <= j ==> (SlashPairAt(s, j) <==> SlashPairAt(s[1..], j - 1));
      if k.None? then None else Some(k.value + 1)
  }

  /** `s.replace('//', '')`: a string pattern, so only its first occurrence is deleted. */
  function DropFirstDoubleSlash(s: string): (r: string)
    ensures |r| <= |s|
    ensures FirstDoubleSlash(s).None? ==> r == s
    ensures FirstDoubleSlash(s).Some? ==>
      var k := FirstDoubleSlash(s).value; r == s[..k] + s[k + 2..]
    decreases |s|
  {
    if |s| < 2 then s
    else if s[0] == '/' && s[1] == '/' then s[2..]
    else
      var rest := DropFirstDoubleSlash(s[1..]);
      var k := FirstDoubleSlash(s[1..]);
      // Both branches give the same string; the first only adds the slicing fact.
      if k.Some? then
        DeleteAfterHead(s, k.value);
        [s[0]] + rest
      else
        [s[0]] + rest
  }

  lemma DeleteAfterHead(s: string, k: nat)
    requires k + 3 <= |s|
    ensures [s[0]] + (s[1..][..k] + s[1..][k + 2..]) == s[..k + 1] + s[k + 3..]
  {
    assert s[1..][..k] == s[1..k + 1] && s[1..][k + 2..] == s[k + 3..];
    assert [s[0]] + s[1..k + 1] == s[..k + 1];
  }

  /** Deleting a `//` keeps only characters of the string. */
  lemma DropKeepsChars(s: string, allowed: char -> bool)
    requires forall i :: 0 <= i < |s| ==> allowed(s[i])
    ensures var r := DropFirstDoubleSlash(s); forall i :: 0 <= i < |r| ==> allowed(r[i])
  {
    var k := FirstDoubleSlash(s);
    if k.Some? {
      var r := DropFirstDoubleSlash(s);
      forall i | 0 <= i < |r|
        ensures allowed(r[i])
      {
        if i >= k.value {
          assert r[i] == s[i + 2];
        }
      }
    }
  }

  /** `dir.replace(/[^\w-/]/g, '').replace('//', '')`: the filter, then its first `//` deleted. */
  function SanitizedDirectory(dir: string): (r: string)
    ensures |r| <= |dir|
    ensures forall i :: 0 <= i < |r| ==> IsDirChar(r[i])
    ensures var kept := Keep(dir, IsDirChar); var k := FirstDoubleSlash(kept);
      && (k.None? ==> r == kept)
      && (k.Some? ==> r == kept[..k.value] + kept[k.value + 2..])
  {
    DropKeepsChars(Keep(dir, IsDirChar), IsDirChar);
    DropFirstDoubleSlash(Keep(dir, IsDirChar))
  }

  /**
   * What `?directory=` adds to the key: nothing unless the parameter is a
   * string starting with `/`; then its first character is dropped, every
   * character outside `[A-Za-z0-9_/-]` is removed, the first `//` is deleted,
   * and a non-empty remainder is added lower-cased and followed by `/`.
   */
  function DirectoryPart(directory: Option<string>): (r: string)
    ensures r == [] || r[|r| - 1] == '/'
    ensures forall i :: 0 <= i < |r| ==> IsDirChar(r[i]) && !IsUpper(r[i]) && r[i] != '.'
    ensures r != [] ==> directory.Some? && directory.value != [] && directory.value[0] == '/'
    ensures r != [] ==> |r| <= |directory.value|
  {
    if directory.Some? && directory.value != [] && directory.value[0] == '/' then
      var d := SanitizedDirectory(directory.value[1..]);
      if d == [] then [] else LowerCase(d) + "/"
    else []
  }

  /** The original file name with every character outside `[A-Za-z0-9_.-]` removed, lower-cased. */
  function SanitizedName(name: string): (r: string)
    ensures |r| <= |name|
    ensures forall i :: 0 <= i < |r| ==> IsNameChar(r[i]) && !IsUpper(r[i])
  {
    LowerCase(Keep(name, IsNameChar))
  }

  const KeyPrefix: string := "@v3/"

  /** `<timestamp>-<name>`: the last path segment of an upload's key. */
  function FilePart(timestamp: nat, name: string): (r: string)
    ensures r != [] && IsDigit(r[0])
    ensures forall i :: 0 <= i < |r| ==> r[i] != '/' && IsNameChar(r[i]) && !IsUpper(r[i])
  {
    var t := Decimal(timestamp);
    var n := SanitizedName(name);
    var r := t + "-" + n;
    assert forall i :: 0 <= i < |r| ==> r[i] != '/' && IsNameChar(r[i]) && !IsUpper(r[i]) by {
      forall i | 0 <= i < |r|
        ensures r[i] != '/' && IsNameChar(r[i]) && !IsUpper(r[i])
      {
        if i < |t| {
          assert r[i] == t[i];
        } else if i > |t| {
          assert r[i] == n[i - |t| - 1];
        }
      }
    }
    r
  }

  /** The unique object key of an upload: `@v3/` + directory part + `<timestamp>-<name>`. */
  function ObjectKey(directory: Option<string>, timestamp: nat, name: string): string
  {
    KeyPrefix + DirectoryPart(directory) + FilePart(timestamp, name)
  }

  /** Every `/` of a path is followed by something other than `.` and the path does not start with one. */
  predicate NoDotSegment(s: string)
  {
    && (s != [] ==> s[0] != '.')
    && forall i :: 0 <= i < |s| - 1 && s[i] == '/' ==> s[i + 1] != '.'
  }

  /**
   * An upload key starts with `@v3/`, has no path segment starting with `.`
   * (so none is `.` or `..`), holds only `[a-z0-9_./-]` after the prefix, and
   * its last segment is the file part.
   */
  lemma ObjectKeyShape(directory: Option<string>, timestamp: nat, name: string)
    ensures var key := ObjectKey(directory, timestamp, name);
      && key[..4] == KeyPrefix
      && NoDotSegment(key)
      && (forall i :: 4 <= i < |key| ==> (IsNameChar(key[i]) || key[i] == '/') && !IsUpper(key[i]))
      && key[|key| - |FilePart(timestamp, name)|..] == FilePart(timestamp, name)
  {
    KeyJoin(DirectoryPart(directory), FilePart(timestamp, name));
  }

  /** The shape of `@v3/` + a directory part + a file part, from the two parts' own guarantees. */
  lemma KeyJoin(dir: string, tail: string)
    requires dir == [] || dir[|dir| - 1] == '/'
    requires forall i :: 0 <= i < |dir| ==> IsDirChar(dir[i]) && !IsUpper(dir[i]) && dir[i] != '.'
    requires tail != [] && IsDigit(tail[0])
    requires forall i :: 0 <= i < |tail| ==> tail[i] != '/' && IsNameChar(tail[i]) && !IsUpper(tail[i])
    ensures var key := KeyPrefix + dir + tail;
      && key[..4] == KeyPrefix
      && NoDotSegment(key)
      && (forall i :: 4 <= i < |key| ==> (IsNameChar(key[i]) || key[i] == '/') && !IsUpper(key[i]))
      && key[|key| - |tail|..] == tail
  {
    var key := KeyPrefix + dir + tail;
    assert key[|key| - |tail|..] == tail;
    forall i | 0 <= i < |key| - 1 && key[i] == '/'
      ensures key[i + 1] != '.'
    {
      if i + 1 < 4 + |dir| {
        assert key[i + 1] == dir[i + 1 - 4];
      } else {
        assert key[i + 1] == tail[i + 1 - 4 - |dir|];
      }
    }
    forall i | 4 <= i < |key|
      ensures (IsNameChar(key[i]) || key[i] == '/') && !IsUpper(key[i])
    {
      if i < 4 + |dir| {
        assert key[i] == dir[i - 4];
      } else {
        assert key[i] == tail[i - 4 - |dir|];
      }
    }
  }

  /** The key an object is stored under: the tenant's store id, `/`, then the object key. */
  function StoredKey(storeId: nat, key: string): string
  {
    Decimal(storeId) + "/" + key
  }

  /** A stored key is the object key behind a leading run of digits (the store id) and one `/`. */
  lemma StoredKeyShape(storeId: nat, key: string)
    ensures var r := StoredKey(storeId, key);
      && |r| > |key| + 1 && r[|r| - |key|..] == key
      && LeadingDigitCount(r) == |r| - |key| - 1 && r[|r| - |key| - 1] == '/'
  {
    var d := Decimal(storeId);
    LeadingDigitsBeforeSeparator(d, '/', key);
    assert (d + "/" + key)[|d| + 1..] == key;
  }

  /** `cdnHost || host`: the configured CDN host unless it is empty. */
  function BaseHost(cdnHost: string, host: string): (r: string)
    ensures cdnHost != [] ==> r == cdnHost
    ensures cdnHost == [] ==> r == host
  {
    if cdnHost != [] then cdnHost else host
  }

  /** `mountUri`: the public URL of a key, which points exactly at the stored object. */
  function MountUri(baseHost: string, storeId: nat, key: string): (r: string)
    ensures r == "https://" + baseHost + "/" + StoredKey(storeId, key)
  {
    "https://" + baseHost + "/" + Decimal(storeId) + "/" + key
  }

  /** `imgs/<sizeLabel>/<key>` with the extension of the variant's encoding. */
  function VariantKey(sizeLabel: string, key: string, avif: bool): (r: string)
    ensures |r| == |sizeLabel| + |key| + 11
    ensures r[..5] == "imgs/" && r[5..5 + |sizeLabel|] == sizeLabel && r[5 + |sizeLabel|] == '/'
    ensures avif ==> r[|r| - 5..] == ".avif"
    ensures !avif ==> r[|r| - 5..] == ".webp"
    ensures r[6 + |sizeLabel|..|r| - 5] == key
  {
    "imgs/" + sizeLabel + "/" + key + (if avif then ".avif" else ".webp")
  }

  /** The content type a variant is stored with. */
  function VariantContentType(avif: bool): string
  {
    if avif then "image/avif" else "image/webp"
  }

  lemma {:induction false} KeepConcat(a: string, b: string, allowed: char -> bool)
    ensures Keep(a + b, allowed) == Keep(a, allowed) + Keep(b, allowed)
    decreases |a|
  {
    if a == [] {
      assert a + b == b;
    } else {
      assert (a + b)[0] == a[0] && (a + b)[1..] == a[1..] + b;
      KeepConcat(a[1..], b, allowed);
    }
  }

  /** The filter removes the dots of a `..` between two runs of kept characters and nothing else. */
  lemma KeepRemovesDotDot(a: string, b: string)
    requires forall i :: 0 <= i < |a| ==> IsDirChar(a[i])
    requires forall i :: 0 <= i < |b| ==> IsDirChar(b[i])
    ensures Keep(a + ".." + b, IsDirChar) == a + b
  {
    KeepConcat(a + "..", b, IsDirChar);
    KeepConcat(a, "..", IsDirChar);
    KeepTwoDots();
    assert Keep(a + "..", IsDirChar) == a;
  }

  lemma KeepTwoDots()
    ensures Keep("..", IsDirChar) == []
  {
    assert ".."[1..] == ".";
    assert "."[1..] == [];
    assert !IsDirChar('.');
  }

  lemma LowerCaseLower(s: string)
    requires forall i :: 0 <= i < |s| ==> !IsUpper(s[i])
    ensures LowerCase(s) == s
  {
  }

  /**
   * A clean directory parameter (only `[A-Za-z0-9_/-]`, no `//`, something
   * after the leading `/`) is kept whole, lower-cased and closed with `/`.
   */
  lemma CleanDirectoryKept(d: string)
    requires d != []
    requires forall i :: 0 <= i < |d| ==> IsDirChar(d[i])
    requires forall j :: !SlashPairAt(d, j)
    ensures DirectoryPart(Some("/" + d)) == LowerCase(d) + "/"
  {
    assert ("/" + d)[1..] == d;
  }

  /** A path segment as it survives the filter: kept characters other than `/`, none upper-case. */
  predicate PlainSegment(s: string)
  {
    forall i :: 0 <= i < |s| ==> IsDirChar(s[i]) && s[i] != '/' && !IsUpper(s[i])
  }

  /**
   * `..` segments do not vanish: for `/a/../b/../c` their dots are removed,
   * only the first `//` left behind is deleted, and the later one stays in
   * the key.
   */
  lemma DotDotSegments(a: string, b: string, c: string)
    requires PlainSegment(a) && PlainSegment(b) && PlainSegment(c)
    ensures DirectoryPart(Some("/" + (a + "/../" + b + "/../" + c))) == a + b + "//" + c + "/"
  {
    var rest := b + "//" + c;
    DotDotKept(a, b, c);
    DotDotDropped(a, rest);
    PlainSegmentsLower(a, b, c);
    JoinAround(a, b, c);
    DirectoryFromSteps(a + "/../" + b + "/../" + c, a + "//" + rest, a + rest);
  }

  lemma JoinAround(a: string, b: string, c: string)
    ensures a + "//" + b + "//" + c == a + "//" + (b + "//" + c)
    ensures a + (b + "//" + c) == a + b + "//" + c
  {
  }

  /** Three plain segments joined by a `//` hold no upper-case letter. */
  lemma PlainSegmentsLower(a: string, b: string, c: string)
    requires PlainSegment(a) && PlainSegment(b) && PlainSegment(c)
    ensures var r := a + (b + "//" + c); r != [] && forall i :: 0 <= i < |r| ==> !IsUpper(r[i])
  {
    var r := a + (b + "//" + c);
    forall i | 0 <= i < |r|
      ensures !IsUpper(r[i])
    {
      if i < |a| {
        assert r[i] == a[i];
      } else if i < |a| + |b| {
        assert r[i] == b[i - |a|];
      } else if i >= |a| + |b| + 2 {
        assert r[i] == c[i - |a| - |b| - 2];
      }
    }
  }

  lemma DotDotKept(a: string, b: string, c: string)
    requires PlainSegment(a) && PlainSegment(b) && PlainSegment(c)
    ensures Keep(a + "/../" + b + "/../" + c, IsDirChar) == a + "//" + b + "//" + c
  {
    var x, y, z := a + "/", "/" + b + "/", "/" + c;
    SlashedSegment([], a, "/");
    SlashedSegment("/", b, "/");
    SlashedSegment("/", c, []);
    KeepRemovesDotDot(x, y);
    KeepRemovesDotDot([], z);
    DotDotSplit(a, b, c);
    KeepConcat(x + ".." + y, [] + ".." + z, IsDirChar);
  }

  /** A plain segment between slashes holds only kept characters. */
  lemma SlashedSegment(pre: string, s: string, post: string)
    requires PlainSegment(s)
    requires pre == [] || pre == "/"
    requires post == [] || post == "/"
    ensures var r := pre + s + post; forall i :: 0 <= i < |r| ==> IsDirChar(r[i])
  {
    var r := pre + s + post;
    forall i | 0 <= i < |r|
      ensures IsDirChar(r[i])
    {
      if |pre| <= i < |pre| + |s| {
        assert r[i] == s[i - |pre|];
      }
    }
  }

  lemma DotDotSplit(a: string, b: string, c: string)
    ensures a + "/../" + b + "/../" + c == ((a + "/") + ".." + ("/" + b + "/")) + ([] + ".." + ("/" + c))
    ensures ((a + "/") + ("/" + b + "/")) + ([] + ("/" + c)) == a + "//" + b + "//" + c
  {
  }

  /** The first `//` after a segment without `/` is the one deleted. */
  lemma DotDotDropped(a: string, rest: string)
    requires PlainSegment(a)
    ensures DropFirstDoubleSlash(a + "//" + rest) == a + rest
  {
    var kept := a + "//" + rest;
    assert SlashPairAt(kept, |a|);
    forall j | 0 <= j < |a|
      ensures !SlashPairAt(kept, j)
    {
      assert kept[j] == a[j];
    }
    assert FirstDoubleSlash(kept) == Some(|a|);
    assert kept[..|a|] == a && kept[|a| + 2..] == rest;
  }

  /** The directory part assembled from the filter's output and the deletion's output. */
  lemma DirectoryFromSteps(d: string, kept: string, dropped: string)
    requires Keep(d, IsDirChar) == kept && DropFirstDoubleSlash(kept) == dropped
    requires dropped != [] && forall i :: 0 <= i < |dropped| ==> !IsUpper(dropped[i])
    ensures DirectoryPart(Some("/" + d)) == dropped + "/"
  {
    DirectoryBehindSlash(d);
    LowerCaseLower(dropped);
  }

  /** A parameter starting with `/` contributes its sanitised remainder, lower-cased and closed with `/`, or nothing when none remains. */
  lemma DirectoryBehindSlash(d: string)
    ensures DirectoryPart(Some("/" + d))
      == if SanitizedDirectory(d) == [] then [] else LowerCase(SanitizedDirectory(d)) + "/"
  {
    assert ("/" + d)[1..] == d;
  }
}
