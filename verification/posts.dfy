/**
 * Posts as the site's API returns them, and the per-post helpers of
 * ckutils.py: the cleaned title, the ordered list of a post's files and a
 * file's absolute URL.
 */
module Posts {
  import opened Wrappers

  /** The fixed part of a `CKUtils` object: host name and service. */
  datatype Site = Site(host: string, service: string)

  /** A file descriptor as a post carries it. */
  datatype FileDesc = FileDesc(name: string, path: string)

  /**
   * A post. `added` and `published` are timestamps on an abstract ordered
   * scale. `file` is None when the API sends an empty object (falsy in Python).
   */
  datatype Post = Post(
    id: string,
    title: string,
    content: string,
    added: int,
    published: int,
    file: Option<FileDesc>,
    attachments: seq<FileDesc>)

  // ---------------------------------------------------------------- titles

  /**
   * The characters the regular expression class `[^A-Za-z0-9 '-_]` does NOT
   * delete: letters, digits, space, and the range from `'` (0x27) to `_`
   * (0x5F), which already holds the digits, the upper-case letters and
   * punctuation such as `:`, `(`, `?`, `@` and `[`.
   */
  predicate KeptInTitle(c: char) {
    ('A' <= c <= 'Z') || ('a' <= c <= 'z') || ('0' <= c <= '9') || c == ' ' || ('\'' <= c <= '_')
  }

  /** `re.sub("/", "-", s)`. */
  function SlashesToDashes(s: string): (r: string)
    ensures |r| == |s|
    ensures forall i :: 0 <= i < |s| ==> r[i] == (if s[i] == '/' then '-' else s[i])
  {
    seq(|s|, i requires 0 <= i < |s| => if s[i] == '/' then '-' else s[i])
  }

  /** `re.sub("[^A-Za-z0-9 '-_]+", '', s)`: deletes every character not kept. */
  function StripDisallowed(s: string): (r: string)
    decreases |s|
  {
    if s == [] then []
    else if KeptInTitle(s[0]) then [s[0]] + StripDisallowed(s[1..])
    else StripDisallowed(s[1..])
  }

  /** The two substitutions of `__get_post_title`, in the source's order. */
  function SanitizeTitle(s: string): string {
    StripDisallowed(SlashesToDashes(s))
  }

  /** `__get_post_title`: the cleaned title, or the post id when nothing is left. */
  function PostTitle(p: Post): (r: string)
    ensures r == p.id || (r != [] && forall c :: c in r ==> KeptInTitle(c) && c != '/')
    ensures r == p.id <== SanitizeTitle(p.title) == []
    ensures SanitizeTitle(p.title) != [] ==> r == SanitizeTitle(p.title)
  {
    SanitizeTitleKeepsOnlyAllowed(p.title);
    var t := SanitizeTitle(p.title);
    if t == "" then p.id else t
  }

  lemma {:induction false} StripKeepsOnlyAllowed(s: string)
    ensures forall c :: c in StripDisallowed(s) ==> KeptInTitle(c) && c in s
    decreases |s|
  {
    if s != [] {
      StripKeepsOnlyAllowed(s[1..]);
    }
  }

  /** The cleaned title holds only kept characters and no slash. */
  lemma SanitizeTitleKeepsOnlyAllowed(s: string)
    ensures forall c :: c in SanitizeTitle(s) ==> KeptInTitle(c) && c != '/'
  {
    StripKeepsOnlyAllowed(SlashesToDashes(s));
  }

  lemma {:induction false} StripConcat(a: string, b: string)
    ensures StripDisallowed(a + b) == StripDisallowed(a) + StripDisallowed(b)
    decreases |a|
  {
    if a == [] {
      assert a + b == b;
    } else {
      assert (a + b)[1..] == a[1..] + b;
      StripConcat(a[1..], b);
    }
  }

  /**
   * Character by character: the cleaning works on each character alone, a
   * slash becomes a dash, a kept character stays and any other goes. With
   * the lemma below, this determines `SanitizeTitle` completely.
   */
  lemma SanitizeTitleChar(c: char)
    ensures c == '/' ==> SanitizeTitle([c]) == "-"
    ensures c != '/' && KeptInTitle(c) ==> SanitizeTitle([c]) == [c]
    ensures !KeptInTitle(c) ==> SanitizeTitle([c]) == []
  {
    var d := if c == '/' then '-' else c;
    assert SlashesToDashes([c]) == [d];
    assert [d][1..] == [];
    assert StripDisallowed([d]) == (if KeptInTitle(d) then [d] else []) + StripDisallowed([]);
  }

  lemma SanitizeTitleConcat(a: string, b: string)
    ensures SanitizeTitle(a + b) == SanitizeTitle(a) + SanitizeTitle(b)
  {
    assert SlashesToDashes(a + b) == SlashesToDashes(a) + SlashesToDashes(b);
    StripConcat(SlashesToDashes(a), SlashesToDashes(b));
  }

  lemma {:induction false} StripFixedPoint(s: string)
    ensures StripDisallowed(s) == s <==> forall c :: c in s ==> KeptInTitle(c)
    decreases |s|
  {
    if s != [] {
      StripFixedPoint(s[1..]);
      StripKeepsOnlyAllowed(s[1..]);
      if !KeptInTitle(s[0]) {
        assert |StripDisallowed(s[1..])| <= |s[1..]| by { StripShorter(s[1..]); }
      }
    }
  }

  lemma {:induction false} StripShorter(s: string)
    ensures |StripDisallowed(s)| <= |s|
    decreases |s|
  {
    if s != [] {
      StripShorter(s[1..]);
    }
  }

  /** A title is left as it is exactly when it already holds only kept
    * characters and no slash; in particular cleaning twice changes nothing. */
  lemma SanitizeTitleFixedPoint(s: string)
    ensures SanitizeTitle(s) == s <==> forall c :: c in s ==> KeptInTitle(c) && c != '/'
  {
    var m := SlashesToDashes(s);
    StripFixedPoint(m);
    if forall c :: c in s ==> KeptInTitle(c) && c != '/' {
      forall i | 0 <= i < |s| ensures s[i] != '/' {
        assert s[i] in s;
      }
      assert m == s;
    } else if SanitizeTitle(s) == s {
      SanitizeTitleKeepsOnlyAllowed(s);
    }
  }

  lemma SanitizeTitleIdempotent(s: string)
    ensures SanitizeTitle(SanitizeTitle(s)) == SanitizeTitle(s)
  {
    SanitizeTitleKeepsOnlyAllowed(s);
    SanitizeTitleFixedPoint(SanitizeTitle(s));
  }

  /** "A/B:!" becomes "A-B:": the slash turns into a dash, the colon lies
    * in the kept range and the exclamation mark (0x21) does not. */
  lemma SanitizeTitleExample(title: string)
    requires title == "A/B:!"
    ensures SanitizeTitle(title) == "A-B:"
  {
    var kept, bang, clean := "A/B:", "!", "A-B:";
    assert title == kept + bang;
    SanitizeTitleConcat(kept, bang);
    SanitizeTitleChar('!');
    assert SlashesToDashes(kept) == clean;
    assert forall c :: c in clean ==> KeptInTitle(c);
    StripFixedPoint(clean);
    assert SanitizeTitle(title) == clean + [];
  }

  // ----------------------------------------------------------------- files

  /** `__get_post_files`: the post's own file first, then its attachments. */
  function PostFiles(p: Post): (r: seq<FileDesc>)
    ensures |r| == |p.attachments| + (if p.file.Some? then 1 else 0)
    ensures p.file.Some? ==> r[0] == p.file.value
    ensures forall i :: 0 <= i < |p.attachments| ==> r[|r| - |p.attachments| + i] == p.attachments[i]
  {
    (if p.file.Some? then [p.file.value] else []) + p.attachments
  }

  const UrlScheme := "https://"
  const DataRoot := "/data"

  /** `__get_file_full_path`. */
  function FullPath(site: Site, f: FileDesc): string {
    UrlScheme + site.host + DataRoot + f.path
  }

  /** The path back from an absolute URL of the site's data area. */
  function DataPath(site: Site, url: string): Option<string> {
    var prefix := UrlScheme + site.host + DataRoot;
    if |prefix| <= |url| && url[..|prefix|] == prefix then Some(url[|prefix|..]) else None
  }

  /** The URL gives back the file's path, so on one site two files share a
    * URL exactly when they share a path. */
  lemma FullPathRoundTrip(site: Site, f: FileDesc)
    ensures DataPath(site, FullPath(site, f)) == Some(f.path)
  {
    var prefix := UrlScheme + site.host + DataRoot;
    assert FullPath(site, f) == prefix + f.path;
  }

  lemma FullPathInjective(site: Site, f: FileDesc, g: FileDesc)
    ensures FullPath(site, f) == FullPath(site, g) <==> f.path == g.path
  {
    FullPathRoundTrip(site, f);
    FullPathRoundTrip(site, g);
  }
}
