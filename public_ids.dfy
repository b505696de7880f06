/** The media service's storage-id derivations (`image.service.ts`): the
    profile picture id from an email, and the id of a stored image from its
    URL (`split('/')`, `slice(-2)`, `join('/')`, `replace(/\.[^.]+$/, '')`). */
module PublicIds {
  import opened Wrappers

  /** `email.replace(/[@.]/g, '_')`. */
  function ProfilePublicId(email: string): (id: string)
    ensures |id| == |email|
    ensures forall i :: 0 <= i < |email| ==>
      id[i] == if email[i] == '@' || email[i] == '.' then '_' else email[i]
  {
    seq(|email|, i requires 0 <= i < |email| => if email[i] == '@' || email[i] == '.' then '_' else email[i])
  }

  /** The profile id never holds an `@` or a `.`. */
  lemma ProfilePublicIdClean(email: string)
    ensures '@' !in ProfilePublicId(email) && '.' !in ProfilePublicId(email)
  {
    var id := ProfilePublicId(email);
    forall i | 0 <= i < |id| ensures id[i] != '@' && id[i] != '.' {
    }
  }

  /** `s.split(sep)`: the pieces between separators; the empty string gives
      one empty piece. */
  function Split(s: string, sep: char): (parts: seq<string>)
    ensures |parts| >= 1
  {
    if |s| == 0 then [""]
    else
      var rest := Split(s[1..], sep);
      if s[0] == sep then [""] + rest
      else [[s[0]] + rest[0]] + rest[1..]
  }

  /** `parts.join(sep)`: pieces free of the separator split back into
      themselves. */
  function Join(parts: seq<string>, sep: char): (r: string)
    ensures |parts| >= 1 && (forall p :: p in parts ==> sep !in p) ==> Split(r, sep) == parts
  {
    if |parts| == 0 then ""
    else if |parts| == 1 then
      if sep !in parts[0] then SplitWithoutSeparator(parts[0], sep); parts[0] else parts[0]
    else
      var rest := Join(parts[1..], sep);
      SplitConcat(parts[0], rest, sep);
      assert parts == [parts[0]] + parts[1..];
      if sep !in parts[0] then SplitWithoutSeparator(parts[0], sep); parts[0] + [sep] + rest
      else parts[0] + [sep] + rest
  }

  /** Joining two non-empty lists of pieces puts one separator between their
      joins. */
  lemma {:induction false} JoinAppend(a: seq<string>, b: seq<string>, sep: char)
    requires |a| >= 1 && |b| >= 1
    ensures Join(a + b, sep) == Join(a, sep) + [sep] + Join(b, sep)
  {
    assert (a + b)[1..] == a[1..] + b;
    if |a| > 1 {
      JoinAppend(a[1..], b, sep);
    }
  }

  /** No piece of a split holds the separator. */
  lemma {:induction false} SplitPiecesClean(s: string, sep: char)
    ensures forall p :: p in Split(s, sep) ==> sep !in p
  {
    if |s| > 0 {
      SplitPiecesClean(s[1..], sep);
      var rest := Split(s[1..], sep);
      if s[0] != sep {
        assert rest[0] in rest;
        forall p | p in Split(s, sep) ensures sep !in p {
          if p != [s[0]] + rest[0] {
            assert p in rest[1..];
          }
        }
      }
    }
  }

  /** Joining the pieces of a split gives the string back. */
  lemma {:induction false} JoinSplit(s: string, sep: char)
    ensures Join(Split(s, sep), sep) == s
  {
    if |s| > 0 {
      JoinSplit(s[1..], sep);
      var rest := Split(s[1..], sep);
      if s[0] == sep {
        assert ([""] + rest)[1..] == rest;
      } else if |rest| == 1 {
        assert Join(rest, sep) == rest[0];
      } else {
        var parts := [[s[0]] + rest[0]] + rest[1..];
        assert parts[1..] == rest[1..];
        assert Join(rest, sep) == rest[0] + [sep] + Join(rest[1..], sep);
        assert s == [s[0]] + s[1..];
      }
    }
  }

  /** A string without the separator is one piece. */
  lemma {:induction false} SplitWithoutSeparator(s: string, sep: char)
    requires sep !in s
    ensures Split(s, sep) == [s]
  {
    if |s| > 0 {
      SplitWithoutSeparator(s[1..], sep);
      assert s == [s[0]] + s[1..];
    }
  }

  /** A separator between two strings splits between their pieces. */
  lemma {:induction false} SplitConcat(a: string, b: string, sep: char)
    ensures Split(a + [sep] + b, sep) == Split(a, sep) + Split(b, sep)
  {
    if |a| == 0 {
      assert a + [sep] + b == [sep] + b;
      assert ([sep] + b)[1..] == b;
    } else {
      assert (a + [sep] + b)[1..] == a[1..] + [sep] + b;
      SplitConcat(a[1..], b, sep);
    }
  }

  /** `slice(-2)`: the last two elements, or all of them when fewer. */
  function LastTwo(parts: seq<string>): (r: seq<string>)
    ensures |r| == if |parts| < 2 then |parts| else 2
    ensures r == parts[|parts| - |r|..]
  {
    if |parts| < 2 then parts else parts[|parts| - 2..]
  }

  /** The position of the last `c` in `s`. */
  function LastIndexOf(s: string, c: char): (r: Option<nat>)
    ensures r.Some? ==> r.value < |s| && s[r.value] == c && forall j :: r.value < j < |s| ==> s[j] != c
    ensures r.None? ==> forall j :: 0 <= j < |s| ==> s[j] != c
  {
    if |s| == 0 then None
    else if s[|s| - 1] == c then Some(|s| - 1)
    else LastIndexOf(s[..|s| - 1], c)
  }

  /** Where `/\.[^.]+$/` matches: a `.` followed by at least one character,
      none of them a `.`, up to the end. */
  predicate ExtensionAt(s: string, k: int) {
    0 <= k < |s| - 1 && s[k] == '.' && forall j :: k < j < |s| ==> s[j] != '.'
  }

  /** `s.replace(/\.[^.]+$/, '')`: cut at the last `.` when a character
      follows it. */
  function StripExtension(s: string): (r: string)
    ensures |r| <= |s| && r == s[..|r|]
  {
    match LastIndexOf(s, '.')
    case Some(k) => if k < |s| - 1 then s[..k] else s
    case None => s
  }

  /** The cut is where the pattern matches, and nothing is cut when it
      matches nowhere. */
  lemma StripExtensionIsRegex(s: string)
    ensures forall k :: ExtensionAt(s, k) ==> StripExtension(s) == s[..k]
    ensures (forall k :: !ExtensionAt(s, k)) ==> StripExtension(s) == s
  {
    var last := LastIndexOf(s, '.');
    forall k | ExtensionAt(s, k) ensures StripExtension(s) == s[..k] {
      assert last.Some? && last.value == k;
    }
    if last.Some? && last.value < |s| - 1 {
      assert ExtensionAt(s, last.value);
    }
  }

  /** `url.split('/').slice(-2).join('/')`: a suffix of the URL, the whole
      URL when it has at most one slash. */
  function PathTail(url: string): (t: string)
    ensures |t| <= |url| && url[|url| - |t|..] == t
    ensures '/' !in url ==> t == url
  {
    var parts := Split(url, '/');
    JoinSplit(url, '/');
    if |parts| > 2 then
      var a, b := parts[..|parts| - 2], parts[|parts| - 2..];
      assert parts == a + b;
      JoinAppend(a, b, '/');
      assert url == (Join(a, '/') + ['/']) + Join(LastTwo(parts), '/');
      Join(LastTwo(parts), '/')
    else if '/' !in url then
      SplitWithoutSeparator(url, '/');
      Join(LastTwo(parts), '/')
    else
      Join(LastTwo(parts), '/')
  }

  /** The storage id of an image URL: the last two path segments, joined,
      without their extension. The id is a prefix of the URL's tail, and a
      URL of one segment gives that segment without its extension. */
  function UrlPublicId(url: string): (id: string)
    ensures id <= PathTail(url)
    ensures '/' !in url ==> id == StripExtension(url)
  {
    StripExtension(PathTail(url))
  }

  /** A file name made of slash-free parts holds no slash. */
  lemma FileNameHasNoSlash(name: string, ext: string)
    requires '/' !in name && '/' !in ext
    ensures '/' !in name + "." + ext
  {
    var file := name + "." + ext;
    forall i | 0 <= i < |file| ensures file[i] != '/' {
      if i < |name| { assert file[i] == name[i]; }
      else if i > |name| { assert file[i] == ext[i - |name| - 1]; }
    }
  }

  /** The pattern matches at the dot before a dot-free, non-empty extension,
      and the cut leaves the part before it. */
  lemma StripsExtension(base: string, ext: string)
    requires ext != "" && '.' !in ext
    ensures StripExtension(base + "." + ext) == base
  {
    var s := base + "." + ext;
    var k := |base|;
    assert ExtensionAt(s, k) by {
      forall j | k < j < |s| ensures s[j] != '.' {
        assert s[j] == ext[j - k - 1];
      }
    }
    StripExtensionIsRegex(s);
    assert s[..k] == base;
  }

  /** For a URL of the form `<prefix>/<folder>/<name>.<ext>` the id is
      `<folder>/<name>`, whatever the prefix and extension. */
  lemma UrlPublicIdOfStoredImage(prefix: string, folder: string, name: string, ext: string)
    requires '/' !in folder && '/' !in name && '/' !in ext
    requires ext != "" && '.' !in ext
    ensures UrlPublicId(prefix + "/" + folder + "/" + name + "." + ext) == folder + "/" + name
  {
    var file := name + "." + ext;
    FileNameHasNoSlash(name, ext);
    var tail := folder + "/" + file;
    var url := prefix + "/" + folder + "/" + name + "." + ext;
    assert url == prefix + ['/'] + tail;
    assert tail == folder + ['/'] + file;
    SplitConcat(prefix, tail, '/');
    SplitConcat(folder, file, '/');
    SplitWithoutSeparator(folder, '/');
    SplitWithoutSeparator(file, '/');
    var parts := Split(prefix, '/') + [folder, file];
    assert Split(url, '/') == parts;
    assert LastTwo(parts) == [folder, file];
    assert Join([folder, file], '/') == (folder + "/" + name) + "." + ext;
    StripsExtension(folder + "/" + name, ext);
  }

  /** A URL of one segment `<name>.<ext>` keeps that segment and loses its
      extension. */
  lemma UrlPublicIdOfOneSegment(name: string, ext: string)
    requires '/' !in name && '/' !in ext
    requires ext != "" && '.' !in ext
    ensures UrlPublicId(name + "." + ext) == name
  {
    var file := name + "." + ext;
    FileNameHasNoSlash(name, ext);
    SplitWithoutSeparator(file, '/');
    assert LastTwo([file]) == [file];
    StripsExtension(name, ext);
  }

  /** A final dot with nothing after it is kept: `<folder>/<name>.` is its
      own id. */
  lemma UrlPublicIdKeepsTrailingDot(folder: string, name: string)
    requires '/' !in folder && '/' !in name
    ensures UrlPublicId(folder + "/" + name + ".") == folder + "/" + name + "."
  {
    var last := name + ".";
    assert '/' !in last by {
      forall i | 0 <= i < |last| ensures last[i] != '/' {
        if i < |name| { assert last[i] == name[i]; }
      }
    }
    var url := folder + "/" + name + ".";
    assert url == folder + ['/'] + last;
    SplitConcat(folder, last, '/');
    SplitWithoutSeparator(folder, '/');
    SplitWithoutSeparator(last, '/');
    assert Split(url, '/') == [folder, last];
    assert LastTwo([folder, last]) == [folder, last];
    assert Join([folder, last], '/') == url;
    assert url[|url| - 1] == '.';
  }
}
