/**
 * `__get_user_files`: turns the listed posts into file records, keeps the
 * requested type only, and drops every record whose absolute URL an earlier
 * record of the same run already has.
 */
module FileList {
  import opened Wrappers
  import opened FileTypes
  import opened Posts
  import opened Paginator

  /** The `file_info` dictionary (without the optional size). */
  datatype FileRecord = FileRecord(
    name: string,
    fullPath: string,
    fileType: FileType,
    postId: string,
    postTitle: string,
    added: int,
    published: int)

  function RecordOf(site: Site, post: Post, file: FileDesc): FileRecord {
    FileRecord(file.name, FullPath(site, file), FileTypeOf(file.name), post.id,
               PostTitle(post), post.added, post.published)
  }

  /** `file_type` is None (all types) or equal to the file's type. */
  predicate Wanted(fileType: Option<FileType>, t: FileType) {
    fileType.None? || fileType.value == t
  }

  /** The records of `files` (files of `post`) that the type filter lets through, in order. */
  function PostRecords(site: Site, post: Post, files: seq<FileDesc>, fileType: Option<FileType>): seq<FileRecord>
    decreases |files|
  {
    if files == [] then []
    else
      var r := RecordOf(site, post, files[|files| - 1]);
      PostRecords(site, post, files[..|files| - 1], fileType) + (if Wanted(fileType, r.fileType) then [r] else [])
  }

  /** The records of all listed posts, post after post, before duplicates are dropped. */
  function Candidates(site: Site, posts: seq<Post>, fileType: Option<FileType>): seq<FileRecord>
    decreases |posts|
  {
    if posts == [] then []
    else
      var p := posts[|posts| - 1];
      Candidates(site, posts[..|posts| - 1], fileType) + PostRecords(site, p, PostFiles(p), fileType)
  }

  function Paths(rs: seq<FileRecord>): (r: seq<string>)
    ensures |r| == |rs| && forall i :: 0 <= i < |rs| ==> r[i] == rs[i].fullPath
  {
    seq(|rs|, i requires 0 <= i < |rs| => rs[i].fullPath)
  }

  /** What the `file_full_path_list` check keeps: a record is added unless
    * one already kept has its URL. */
  function Dedup(rs: seq<FileRecord>): seq<FileRecord>
    decreases |rs|
  {
    if rs == [] then []
    else
      var kept := Dedup(rs[..|rs| - 1]);
      var r := rs[|rs| - 1];
      if r.fullPath in Paths(kept) then kept else kept + [r]
  }

  /** The outer loop of `__get_user_files`, over the listed posts. */
  method BuildFileList(site: Site, posts: seq<Post>, fileType: Option<FileType>)
    returns (files: seq<FileRecord>)
    ensures files == Dedup(Candidates(site, posts, fileType))
  {
    files := [];
    var fullPaths: seq<string> := [];
    var i := 0;
    while i < |posts|
      invariant 0 <= i <= |posts|
      invariant files == Dedup(Candidates(site, posts[..i], fileType))
      invariant fullPaths == Paths(files)
    {
      CandidatesSnoc(site, posts, i, fileType);
      files, fullPaths := AddPostFiles(site, posts[i], fileType, files, fullPaths,
                                       Candidates(site, posts[..i], fileType));
      i := i + 1;
    }
    assert posts[..|posts|] == posts;
  }

  /**
   * The inner loop of `__get_user_files`, over the files of one post:
   * `files0` is the list so far, the deduplication of the records `before`.
   */
  method AddPostFiles(site: Site, post: Post, fileType: Option<FileType>,
                      files0: seq<FileRecord>, fullPaths0: seq<string>, ghost before: seq<FileRecord>)
    returns (files: seq<FileRecord>, fullPaths: seq<string>)
    requires files0 == Dedup(before) && fullPaths0 == Paths(files0)
    ensures files == Dedup(before + PostRecords(site, post, PostFiles(post), fileType))
    ensures fullPaths == Paths(files)
  {
    files, fullPaths := files0, fullPaths0;
    var postTitle := PostTitle(post);
    var postFiles := PostFiles(post);
    ghost var seen := before;
    assert postFiles[..0] == [];
    assert before + [] == before;
    var j := 0;
    while j < |postFiles|
      invariant 0 <= j <= |postFiles|
      invariant seen == before + PostRecords(site, post, postFiles[..j], fileType)
      invariant files == Dedup(seen)
      invariant fullPaths == Paths(files)
    {
      ghost var r := RecordOf(site, post, postFiles[j]);
      ghost var step := if Wanted(fileType, r.fileType) then [r] else [];
      PostRecordsSnoc(site, post, postFiles, j, fileType);
      AppendAssoc(before, PostRecords(site, post, postFiles[..j], fileType), step);
      files, fullPaths := AddFile(site, post, postTitle, postFiles[j], fileType, files, fullPaths, seen);
      seen := seen + step;
      j := j + 1;
    }
    assert postFiles[..|postFiles|] == postFiles;
  }

  /** One pass of the inner loop: the type filter, then the duplicate check. */
  method AddFile(site: Site, post: Post, postTitle: string, file: FileDesc, fileType: Option<FileType>,
                 files0: seq<FileRecord>, fullPaths0: seq<string>, ghost seen: seq<FileRecord>)
    returns (files: seq<FileRecord>, fullPaths: seq<string>)
    requires postTitle == PostTitle(post)
    requires files0 == Dedup(seen) && fullPaths0 == Paths(files0)
    ensures var r := RecordOf(site, post, file);
      files == Dedup(seen + if Wanted(fileType, r.fileType) then [r] else [])
    ensures fullPaths == Paths(files)
  {
    files, fullPaths := files0, fullPaths0;
    var postFileType := FileTypeOf(file.name);

    // Skip files of another type.
    if fileType.Some? && fileType.value != postFileType {
      assert seen + [] == seen;
      return;
    }

    var info := FileRecord(file.name, FullPath(site, file), postFileType, post.id,
                           postTitle, post.added, post.published);
    DedupSnoc(seen, info);

    // Avoid duplicates.
    if info.fullPath !in fullPaths {
      files := files + [info];
      fullPaths := fullPaths + [info.fullPath];
    }
  }

  lemma CandidatesSnoc(site: Site, posts: seq<Post>, i: nat, fileType: Option<FileType>)
    requires i < |posts|
    ensures Candidates(site, posts[..i + 1], fileType)
      == Candidates(site, posts[..i], fileType) + PostRecords(site, posts[i], PostFiles(posts[i]), fileType)
  {
    assert posts[..i + 1][..i] == posts[..i];
  }

  lemma PostRecordsSnoc(site: Site, post: Post, files: seq<FileDesc>, j: nat, fileType: Option<FileType>)
    requires j < |files|
    ensures var r := RecordOf(site, post, files[j]);
      PostRecords(site, post, files[..j + 1], fileType)
      == PostRecords(site, post, files[..j], fileType) + (if Wanted(fileType, r.fileType) then [r] else [])
  {
    assert files[..j + 1][..j] == files[..j];
  }

  lemma DedupSnoc(rs: seq<FileRecord>, r: FileRecord)
    ensures Dedup(rs + [r]) == if r.fullPath in Paths(Dedup(rs)) then Dedup(rs) else Dedup(rs) + [r]
    ensures Paths(Dedup(rs) + [r]) == Paths(Dedup(rs)) + [r.fullPath]
  {
    assert (rs + [r])[..|rs|] == rs;
  }

  /** `__get_user_files`: lists the posts, then builds the file list. */
  method GetUserFiles(site: Site, userId: string, fileType: Option<FileType>, f: Filter,
                      reverseOrder: bool, feed: seq<seq<Post>>)
    returns (files: seq<FileRecord>)
    ensures files == Dedup(Candidates(site, Listing(userId, f, reverseOrder, feed), fileType))
  {
    var posts, _ := GetUserPosts(userId, f, reverseOrder, feed);
    files := BuildFileList(site, posts, fileType);
  }

  // ------------------------------------------------------- properties

  /** `rs[i]` is the first record with its URL. */
  ghost predicate FirstWithPath(rs: seq<FileRecord>, i: int)
    requires 0 <= i < |rs|
  {
    forall m :: 0 <= m < i ==> rs[m].fullPath != rs[i].fullPath
  }

  /** The records that are the first with their URL, in order: an independent
    * statement of "first occurrence wins". */
  ghost function FirstOccurrences(rs: seq<FileRecord>): seq<FileRecord>
    decreases |rs|
  {
    if rs == [] then []
    else FirstOccurrences(rs[..|rs| - 1]) + (if FirstWithPath(rs, |rs| - 1) then [rs[|rs| - 1]] else [])
  }

  /** The kept records come from the input and cover every URL of it. */
  lemma {:induction false} DedupSamePaths(rs: seq<FileRecord>)
    ensures forall r :: r in Dedup(rs) ==> r in rs
    ensures forall i :: 0 <= i < |rs| ==> rs[i].fullPath in Paths(Dedup(rs))
    decreases |rs|
  {
    if rs != [] {
      var pre := rs[..|rs| - 1];
      DedupSamePaths(pre);
      var kept := Dedup(pre);
      forall i | 0 <= i < |rs| ensures rs[i].fullPath in Paths(Dedup(rs)) {
        if i < |rs| - 1 {
          assert rs[i] == pre[i];
          var k :| 0 <= k < |kept| && Paths(kept)[k] == rs[i].fullPath;
          if rs[|rs| - 1].fullPath !in Paths(kept) {
            assert Paths(kept + [rs[|rs| - 1]])[k] == rs[i].fullPath;
          }
        } else if rs[|rs| - 1].fullPath !in Paths(kept) {
          assert Paths(kept + [rs[|rs| - 1]])[|kept|] == rs[i].fullPath;
        }
      }
    }
  }

  /** No two kept records share a URL. */
  lemma {:induction false} DedupUnique(rs: seq<FileRecord>)
    ensures forall i, j :: 0 <= i < j < |Dedup(rs)| ==> Dedup(rs)[i].fullPath != Dedup(rs)[j].fullPath
    decreases |rs|
  {
    if rs != [] {
      var pre := rs[..|rs| - 1];
      DedupUnique(pre);
      var kept := Dedup(pre);
      var r := rs[|rs| - 1];
      if r.fullPath !in Paths(kept) {
        forall i | 0 <= i < |kept| ensures kept[i].fullPath != r.fullPath {
          assert Paths(kept)[i] == kept[i].fullPath;
        }
      }
    }
  }

  /** A record's URL was already kept exactly when an earlier record has it. */
  lemma SeenIffNotFirst(rs: seq<FileRecord>, n: nat)
    requires n < |rs|
    ensures rs[n].fullPath in Paths(Dedup(rs[..n])) <==> !FirstWithPath(rs, n)
  {
    var pre := rs[..n];
    var kept := Dedup(pre);
    DedupSamePaths(pre);
    if rs[n].fullPath in Paths(kept) {
      var k :| 0 <= k < |kept| && Paths(kept)[k] == rs[n].fullPath;
      assert kept[k] in pre;
      var m :| 0 <= m < n && pre[m] == kept[k];
      assert rs[m].fullPath == rs[n].fullPath;
    } else {
      forall m | 0 <= m < n ensures rs[m].fullPath != rs[n].fullPath {
        assert rs[m] == pre[m];
      }
    }
  }

  /** The run keeps exactly the first record of each URL, in input order. */
  lemma {:induction false} DedupIsFirstOccurrences(rs: seq<FileRecord>)
    ensures Dedup(rs) == FirstOccurrences(rs)
    decreases |rs|
  {
    if rs != [] {
      var n := |rs| - 1;
      DedupIsFirstOccurrences(rs[..n]);
      SeenIffNotFirst(rs, n);
    }
  }

  /** Every record has the requested type, when one is requested. */
  lemma {:induction false} CandidatesHaveType(site: Site, posts: seq<Post>, fileType: Option<FileType>)
    ensures forall r :: r in Candidates(site, posts, fileType) ==> Wanted(fileType, r.fileType)
    decreases |posts|
  {
    if posts != [] {
      CandidatesHaveType(site, posts[..|posts| - 1], fileType);
      var p := posts[|posts| - 1];
      PostRecordsHaveType(site, p, PostFiles(p), fileType);
    }
  }

  lemma {:induction false} PostRecordsHaveType(site: Site, post: Post, files: seq<FileDesc>, fileType: Option<FileType>)
    ensures forall r :: r in PostRecords(site, post, files, fileType) ==>
      Wanted(fileType, r.fileType) && r.postId == post.id && r.published == post.published
    decreases |files|
  {
    if files != [] {
      PostRecordsHaveType(site, post, files[..|files| - 1], fileType);
    }
  }

  /** The file list has no duplicate URL and only records of the requested type. */
  lemma FileListProperties(site: Site, posts: seq<Post>, fileType: Option<FileType>)
    ensures var files := Dedup(Candidates(site, posts, fileType));
      && (forall i, j :: 0 <= i < j < |files| ==> files[i].fullPath != files[j].fullPath)
      && (forall r :: r in files ==> Wanted(fileType, r.fileType))
  {
    var cs := Candidates(site, posts, fileType);
    DedupUnique(cs);
    DedupSamePaths(cs);
    CandidatesHaveType(site, posts, fileType);
  }

  /** Records follow the posts: those of later posts come after those of
    * earlier ones (deduplication then runs across all of them). */
  lemma {:induction false} CandidatesConcat(site: Site, a: seq<Post>, b: seq<Post>, fileType: Option<FileType>)
    ensures Candidates(site, a + b, fileType) == Candidates(site, a, fileType) + Candidates(site, b, fileType)
    decreases |b|
  {
    if b == [] {
      assert a + b == a;
    } else {
      var b' := b[..|b| - 1];
      var p := b[|b| - 1];
      assert (a + b)[..|a + b| - 1] == a + b';
      assert (a + b)[|a + b| - 1] == p;
      CandidatesConcat(site, a, b', fileType);
      AppendAssoc(Candidates(site, a, fileType), Candidates(site, b', fileType), PostRecords(site, p, PostFiles(p), fileType));
    }
  }

  /** Within a post, its own file comes before its attachments. */
  lemma {:induction false} PostRecordsConcat(site: Site, post: Post, a: seq<FileDesc>, b: seq<FileDesc>, fileType: Option<FileType>)
    ensures PostRecords(site, post, a + b, fileType) == PostRecords(site, post, a, fileType) + PostRecords(site, post, b, fileType)
    decreases |b|
  {
    if b == [] {
      assert a + b == a;
    } else {
      var b' := b[..|b| - 1];
      var r := RecordOf(site, post, b[|b| - 1]);
      var step := if Wanted(fileType, r.fileType) then [r] else [];
      assert (a + b)[..|a + b| - 1] == a + b';
      assert (a + b)[|a + b| - 1] == b[|b| - 1];
      PostRecordsConcat(site, post, a, b', fileType);
      AppendAssoc(PostRecords(site, post, a, fileType), PostRecords(site, post, b', fileType), step);
    }
  }

  lemma PostFileFirst(site: Site, post: Post)
    requires post.file.Some?
    ensures PostRecords(site, post, PostFiles(post), None)
            == [RecordOf(site, post, post.file.value)] + PostRecords(site, post, post.attachments, None)
  {
    PostRecordsConcat(site, post, [post.file.value], post.attachments, None);
    assert PostRecords(site, post, [post.file.value], None) == [RecordOf(site, post, post.file.value)];
  }
}
