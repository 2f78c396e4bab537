/**
 * The `File_type` enumeration of ckutils.py and the classification of a
 * file name by its extension.
 */
module FileTypes {
  import opened Wrappers
  import opened Strings

  datatype FileType = Video | Image | Archive | Document | Other

  /** The members in declaration order, the order Python iterates an `Enum` in. */
  const Members: seq<FileType> := [Video, Image, Archive, Document, Other]

  /** `str(t)`: the member's `type` label. */
  function Label(t: FileType): string {
    match t
    case Video => "video"
    case Image => "image"
    case Archive => "archive"
    case Document => "document"
    case Other => "other"
  }

  /** The member's `extensions` list. */
  function Extensions(t: FileType): seq<string> {
    match t
    case Video => [".m4v", ".mp4"]
    case Image => [".jpg", ".jpeg", ".png", ".gif"]
    case Archive => [".rar", ".zip", ".7z"]
    case Document => [".pdf"]
    case Other => []
  }

  /** `File_type.list()`: the labels in declaration order. */
  function List(): (r: seq<string>)
    ensures |r| == |Members|
    ensures forall i :: 0 <= i < |Members| ==> r[i] == Label(Members[i])
  {
    ["video", "image", "archive", "document", "other"]
  }

  /** What `File_type.from_str` returns: the member with that label, or the
    * label itself when no member has it. */
  datatype Parsed = Member(t: FileType) | Unmatched(text: string)

  /** The first of `ts` whose label is `text`. */
  function FindLabel(ts: seq<FileType>, text: string): (r: Option<FileType>)
    ensures r.Some? ==> r.value in ts && Label(r.value) == text
    ensures r.None? ==> forall t :: t in ts ==> Label(t) != text
  {
    if ts == [] then None
    else if Label(ts[0]) == text then Some(ts[0])
    else FindLabel(ts[1..], text)
  }

  function FromStr(text: string): Parsed {
    match FindLabel(Members, text)
    case Some(t) => Member(t)
    case None => Unmatched(text)
  }

  /** `from_str(str(t)) == t` for every member. */
  lemma FromStrLabel(t: FileType)
    ensures FromStr(Label(t)) == Member(t)
  {
  }

  /** `from_str` recognises exactly the labels that `list()` yields. */
  lemma FromStrRecognisesList(text: string)
    ensures FromStr(text).Member? <==> text in List()
    ensures FromStr(text).Unmatched? ==> FromStr(text).text == text
  {
  }

  /** The first of `ts` whose extension list holds `ext`: the scan over the
    * members that `__get_file_type` performs. */
  function FindExtension(ts: seq<FileType>, ext: string): (r: Option<FileType>)
    ensures r.Some? ==> r.value in ts && ext in Extensions(r.value)
    ensures r.None? ==> forall t :: t in ts ==> ext !in Extensions(t)
  {
    if ts == [] then None
    else if ext in Extensions(ts[0]) then Some(ts[0])
    else FindExtension(ts[1..], ext)
  }

  /** The type `__get_file_type` gives an (already lower-cased) extension,
    * written as the unrolled scan over the members in declaration order. */
  function TypeOfExtension(ext: string): FileType {
    if ext in Extensions(Video) then Video
    else if ext in Extensions(Image) then Image
    else if ext in Extensions(Archive) then Archive
    else if ext in Extensions(Document) then Document
    else Other
  }

  /** The unrolled form is the scan over `Members`, falling back to OTHER. */
  lemma TypeOfExtensionScansMembers(ext: string)
    ensures TypeOfExtension(ext) == FindExtension(Members, ext).GetOr(Other)
  {
    assert Members[1..] == [Image, Archive, Document, Other];
    assert Members[1..][1..] == [Archive, Document, Other];
    assert Members[1..][1..][1..] == [Document, Other];
    assert Members[1..][1..][1..][1..] == [Other];
    assert Members[1..][1..][1..][1..][1..] == [];
  }

  /** The extension table, in both directions. */
  lemma ExtensionTable(ext: string)
    ensures TypeOfExtension(ext) == Video <==> ext in [".m4v", ".mp4"]
    ensures TypeOfExtension(ext) == Image <==> ext in [".jpg", ".jpeg", ".png", ".gif"]
    ensures TypeOfExtension(ext) == Archive <==> ext in [".rar", ".zip", ".7z"]
    ensures TypeOfExtension(ext) == Document <==> ext == ".pdf"
    ensures TypeOfExtension(ext) == Other <==>
      ext !in [".m4v", ".mp4", ".jpg", ".jpeg", ".png", ".gif", ".rar", ".zip", ".7z", ".pdf"]
  {
  }

  /** Index of the last `c` in `s`, or -1 (Python's `str.rfind`). */
  function RFind(s: string, c: char): (r: int)
    ensures -1 <= r < |s|
    ensures r >= 0 ==> s[r] == c
    decreases |s|
  {
    if s == [] then -1
    else if s[|s| - 1] == c then |s| - 1
    else RFind(s[..|s| - 1], c)
  }

  /** No `c` follows the index `RFind` returns. */
  lemma {:induction false} RFindIsLast(s: string, c: char)
    ensures forall k :: RFind(s, c) < k < |s| ==> s[k] != c
    decreases |s|
  {
    if s != [] && s[|s| - 1] != c {
      RFindIsLast(s[..|s| - 1], c);
    }
  }

  /** A `c` at index `i` with none after it is what `RFind` returns. */
  lemma {:induction false} RFindAt(s: string, c: char, i: int)
    requires 0 <= i < |s| && s[i] == c
    requires forall k :: i < k < |s| ==> s[k] != c
    ensures RFind(s, c) == i
    decreases |s|
  {
    if i < |s| - 1 {
      RFindAt(s[..|s| - 1], c, i);
    }
  }

  /** No `c` at all: `RFind` returns -1. */
  lemma {:induction false} RFindAbsent(s: string, c: char)
    requires forall k :: 0 <= k < |s| ==> s[k] != c
    ensures RFind(s, c) == -1
    decreases |s|
  {
    if s != [] {
      RFindAbsent(s[..|s| - 1], c);
    }
  }

  /** Index of the last character below `n` that is not a dot, or -1. */
  function LastNonDot(s: string, n: nat): (r: int)
    requires n <= |s|
    ensures -1 <= r < n
    ensures r >= 0 ==> s[r] != '.'
    decreases n
  {
    if n == 0 then -1
    else if s[n - 1] != '.' then n - 1
    else LastNonDot(s, n - 1)
  }

  /** Characters after `LastNonDot` and below `n` are dots. */
  lemma {:induction false} LastNonDotIsLast(s: string, n: nat)
    requires n <= |s|
    ensures forall k :: LastNonDot(s, n) < k < n ==> s[k] == '.'
    decreases n
  {
    if n > 0 && s[n - 1] == '.' {
      LastNonDotIsLast(s, n - 1);
    }
  }

  /** A non-dot at `i` puts `LastNonDot` at or after `i`. */
  lemma {:induction false} LastNonDotAtLeast(s: string, n: nat, i: nat)
    requires i < n <= |s| && s[i] != '.'
    ensures LastNonDot(s, n) >= i
    decreases n
  {
    if s[n - 1] == '.' {
      LastNonDotAtLeast(s, n - 1, i);
    }
  }

  /**
   * The extension part of `os.path.splitext(p)` on POSIX: from the last dot,
   * when that dot lies in the last path component and is not part of the
   * leading dots of that component; otherwise empty.
   */
  function SplitExt(p: string): string {
    var sep := RFind(p, '/');
    var dot := RFind(p, '.');
    if dot > sep && LastNonDot(p, dot) > sep then p[dot..] else ""
  }

  /** What `splitext` returns: empty, or a suffix of `p` made of one dot and no
    * further dot or slash. */
  lemma SplitExtShape(p: string)
    ensures var e := SplitExt(p);
      e == "" || (e[0] == '.' && '.' !in e[1..] && '/' !in e && e == p[|p| - |e|..])
  {
    var e := SplitExt(p);
    if e != "" {
      var dot := RFind(p, '.');
      RFindIsLast(p, '.');
      RFindIsLast(p, '/');
      assert e == p[dot..];
      forall k | 0 <= k < |e| ensures e[k] != '/' {
        assert e[k] == p[dot + k];
      }
      forall k | 1 <= k < |e| ensures e[k] != '.' {
        assert e[k] == p[dot + k];
      }
    }
  }

  /** The usual case, stated without `rfind`: after a directory part that is
    * empty or ends in a slash, a base name with some character other than a
    * dot, then a dot and a final part with no dot or slash, has that final
    * part (with its dot) as extension. */
  lemma SplitExtOfName(dir: string, stem: string, ext: string)
    requires dir == "" || dir[|dir| - 1] == '/'
    requires '/' !in stem && '/' !in ext && '.' !in ext
    requires exists k :: 0 <= k < |stem| && stem[k] != '.'
    ensures SplitExt(dir + stem + "." + ext) == "." + ext
  {
    var p := dir + stem + "." + ext;
    var sep := |dir| - 1;
    var dot := |dir| + |stem|;
    assert p[dot] == '.';
    forall k | sep < k < |p| ensures p[k] != '/' {
      if k < dot { assert p[k] == stem[k - sep - 1]; }
      else if k > dot { assert p[k] == ext[k - dot - 1]; }
    }
    if dir != "" {
      assert p[sep] == '/';
      RFindAt(p, '/', sep);
    } else {
      RFindAbsent(p, '/');
    }
    forall k | dot < k < |p| ensures p[k] != '.' {
      assert p[k] == ext[k - dot - 1];
    }
    RFindAt(p, '.', dot);
    var k :| 0 <= k < |stem| && stem[k] != '.';
    assert p[sep + 1 + k] == stem[k];
    LastNonDotAtLeast(p, dot, sep + 1 + k);
    assert p[dot..] == "." + ext;
  }

  /** A name made only of dots before its last dot, such as ".mp4" or "..jpg",
    * has no extension. */
  lemma LeadingDotsNoExtension(dots: string, ext: string)
    requires forall k :: 0 <= k < |dots| ==> dots[k] == '.'
    requires '.' !in ext && '/' !in ext
    ensures SplitExt(dots + "." + ext) == ""
  {
    var p := dots + "." + ext;
    var dot := |dots|;
    forall k | dot < k < |p| ensures p[k] != '.' {
      assert p[k] == ext[k - dot - 1];
    }
    assert p[dot] == '.';
    RFindAt(p, '.', dot);
    forall k | 0 <= k < dot ensures p[k] == '.' {
      assert p[k] == dots[k];
    }
    LastNonDotNone(p, dot);
  }

  /** Only dots below `n`: `LastNonDot` returns -1. */
  lemma {:induction false} LastNonDotNone(s: string, n: nat)
    requires n <= |s|
    requires forall k :: 0 <= k < n ==> s[k] == '.'
    ensures LastNonDot(s, n) == -1
    decreases n
  {
    if n > 0 {
      LastNonDotNone(s, n - 1);
    }
  }

  /** `__get_file_type`: the type of the lower-cased extension of the name. */
  function FileTypeOf(name: string): FileType {
    TypeOfExtension(SplitExt(Lower(name)))
  }

  lemma LowerConcat(a: string, b: string)
    ensures Lower(a + b) == Lower(a) + Lower(b)
  {
  }

  /** Lower-casing neither creates nor removes dots and slashes. */
  lemma LowerKeepsPunctuation(s: string)
    ensures forall i :: 0 <= i < |s| ==> (s[i] == '.' <==> Lower(s)[i] == '.')
    ensures forall i :: 0 <= i < |s| ==> (s[i] == '/' <==> Lower(s)[i] == '/')
  {
  }

  /** Classification depends only on the lower-cased text after the last dot. */
  lemma FileTypeByExtension(dir: string, stem: string, ext: string)
    requires dir == "" || dir[|dir| - 1] == '/'
    requires '/' !in stem && '/' !in ext && '.' !in ext
    requires exists k :: 0 <= k < |stem| && stem[k] != '.'
    ensures FileTypeOf(dir + stem + "." + ext) == TypeOfExtension("." + Lower(ext))
  {
    LowerConcat(dir + stem, "." + ext);
    LowerConcat(dir, stem);
    LowerConcat(".", ext);
    assert Lower(".") == ".";
    LowerKeepsPunctuation(dir);
    LowerKeepsPunctuation(stem);
    LowerKeepsPunctuation(ext);
    var k :| 0 <= k < |stem| && stem[k] != '.';
    assert Lower(stem)[k] != '.';
    assert '/' !in Lower(stem) by {
      forall c | c in Lower(stem) ensures c != '/' {
        var i :| 0 <= i < |stem| && Lower(stem)[i] == c;
        assert stem[i] in stem;
      }
    }
    assert '/' !in Lower(ext) && '.' !in Lower(ext) by {
      forall c | c in Lower(ext) ensures c != '/' && c != '.' {
        var i :| 0 <= i < |ext| && Lower(ext)[i] == c;
        assert ext[i] in ext;
      }
    }
    SplitExtOfName(Lower(dir), Lower(stem), Lower(ext));
    assert Lower(dir + stem + "." + ext) == Lower(dir) + Lower(stem) + "." + Lower(ext);
  }

  /** Classification ignores case. */
  lemma FileTypeIgnoresCase(name: string)
    ensures FileTypeOf(Lower(name)) == FileTypeOf(name)
  {
    LowerIdempotent(name);
  }

  /** An upper-case extension is classified as its lower-case form (the name
    * is a parameter so that the solver does not evaluate the definitions on
    * a literal). */
  lemma UpperCaseExample(name: string)
    requires name == "clip.MP4"
    ensures FileTypeOf(name) == Video
  {
    NameExample(name, "clip", "MP4");
    assert Lower("MP4") == "mp4" && "." + "mp4" == ".mp4";
  }

  lemma NameExample(name: string, stem: string, ext: string)
    requires name == stem + "." + ext
    requires |stem| > 0 && stem[0] != '.' && '/' !in stem
    requires '/' !in ext && '.' !in ext
    ensures FileTypeOf(name) == TypeOfExtension("." + Lower(ext))
  {
    var dir: string := "";
    assert dir + stem == stem;
    assert exists k :: 0 <= k < |stem| && stem[k] != '.';
    FileTypeByExtension(dir, stem, ext);
  }

  /** A lone extension such as ".MP4" is a hidden file name with no extension. */
  lemma HiddenNameIsOther(name: string)
    requires name == ".MP4"
    ensures FileTypeOf(name) == Other
  {
    assert Lower(name) == "" + "." + "mp4";
    LeadingDotsNoExtension("", "mp4");
  }
}
