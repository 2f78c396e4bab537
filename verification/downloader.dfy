/**
 * `download_user_files`: for every record of the file list, either skip it
 * (the file or an `.ignore` marker is already on disk) or fetch it into a
 * `.tmp` file, resuming a partial one with a `Range` request, and rename the
 * `.tmp` file once it is at least as long as the server announced.
 *
 * The filesystem is a value threaded through the methods, and the server is
 * a pair of total functions answering HEAD and GET.
 */
module Downloader {
  import opened Wrappers
  import opened FileTypes
  import opened Paginator
  import opened FileList

  type Bytes = seq<bv8>

  /**
   * The part of the filesystem the download touches: regular files with
   * their contents, the modification times set through `os.utime`, and the
   * directories created by `os.makedirs`.
   */
  datatype Disk = Disk(files: map<string, Bytes>, times: map<string, int>, dirs: set<string>)

  /** A HEAD answer: `content-length` (absent reads as 0), a connection error, or another request error. */
  datatype HeadReply = HeadOk(contentLength: Option<nat>) | HeadConnectionError | HeadFailed

  /** A GET answer: the request itself fails, or a body is streamed, possibly broken off by an error. */
  datatype GetReply = GetFailed | Streamed(data: Bytes, broken: bool)

  /** The server, answering a HEAD of a URL and a GET of a URL with an optional `Range: bytes=N-`. */
  datatype Server = Server(head: string -> HeadReply, get: (string, Option<nat>) -> GetReply)

  datatype NetRequest = Head(url: string) | Get(url: string, range: Option<nat>)

  /** What happened to one record; `Exit` ends the whole program with that status. */
  datatype Outcome = SkippedExisting | SkippedIgnored | Downloaded | Abandoned | Exit(code: int)

  /** One record's effect: the new disk, its outcome, and the requests sent for it. */
  datatype Step = Step(disk: Disk, outcome: Outcome, sent: seq<NetRequest>)

  const ShortDownloadExit := 3
  const RequestErrorExit := 4
  const MaxRetries := 100
  const TmpSuffix := ".tmp"
  const IgnoreSuffix := ".ignore"

  /** `<user>/<post title>`, with the user id already percent-decoded. */
  function DirectoryName(userDir: string, rec: FileRecord): string {
    userDir + "/" + rec.postTitle
  }

  function TargetName(userDir: string, rec: FileRecord): string {
    DirectoryName(userDir, rec) + "/" + rec.name
  }

  /** `os.makedirs(directory_name, exist_ok = True)`. */
  function MakeDirs(disk: Disk, userDir: string, dir: string): (d: Disk)
    ensures d.files == disk.files && d.times == disk.times
    ensures d.dirs == disk.dirs + {userDir, dir}
  {
    disk.(dirs := disk.dirs + {userDir, dir})
  }

  /** The bytes an attempt starts from: the partial `.tmp` file when there is one. */
  function Resume(disk: Disk, tmp: string): Bytes {
    if tmp in disk.files then disk.files[tmp] else []
  }

  /** The `Range` start sent with the GET: the size of the partial `.tmp` file, if any. */
  function RangeFrom(disk: Disk, tmp: string): Option<nat> {
    if tmp in disk.files then Some(|disk.files[tmp]|) else None
  }

  /**
   * One pass of the retry loop on `target`: HEAD for the announced size, GET
   * (resuming from the `.tmp` file), the append or write, the completeness
   * check, then the rename and the two `os.utime` calls.
   */
  function Fetch(disk: Disk, server: Server, url: string, target: string, dir: string, published: int): Step {
    var tmp := target + TmpSuffix;
    var base := Resume(disk, tmp);
    var range := RangeFrom(disk, tmp);
    match server.head(url)
    case HeadConnectionError => Step(disk, Abandoned, [Head(url)])
    case HeadFailed => Step(disk, Exit(RequestErrorExit), [Head(url)])
    case HeadOk(len) =>
      var sent := [Head(url), Get(url, range)];
      match server.get(url, range)
      case GetFailed => Step(disk, Exit(RequestErrorExit), sent)
      case Streamed(data, broken) =>
        var written := disk.(files := disk.files[tmp := base + data], times := disk.times - {tmp});
        if broken then Step(written, Exit(RequestErrorExit), sent)
        else if |base + data| < len.GetOr(0) then Step(written, Exit(ShortDownloadExit), sent)
        else
          var files := (disk.files - {tmp})[target := base + data];
          var times := (disk.times - {tmp})[target := published][dir := published];
          Step(Disk(files, times, disk.dirs), Downloaded, sent)
  }

  /** The body of the loop over the file list, for one record. */
  function FileStep(disk: Disk, server: Server, userDir: string, rec: FileRecord, overwrite: bool): Step {
    var dir := DirectoryName(userDir, rec);
    var target := dir + "/" + rec.name;
    var d := MakeDirs(disk, userDir, dir);
    if !overwrite && target in d.files then
      Step(d.(times := d.times[target := rec.published][dir := rec.published]), SkippedExisting, [])
    else if target + IgnoreSuffix in d.files then
      Step(d.(times := d.times[dir := rec.published]), SkippedIgnored, [])
    else
      Fetch(d, server, rec.fullPath, target, dir, rec.published)
  }

  /**
   * The retry loop of `download_user_files` for one file. Every pass ends
   * in a completed download, in giving up (the retry count is set to its
   * maximum), or in an exit, so the loop makes one pass.
   */
  method DownloadFile(disk0: Disk, server: Server, url: string, target: string, dir: string, published: int)
    returns (disk: Disk, outcome: Outcome, sent: seq<NetRequest>)
    ensures Step(disk, outcome, sent) == Fetch(disk0, server, url, target, dir, published)
  {
    disk, outcome, sent := disk0, Abandoned, [];
    var tmp := target + TmpSuffix;
    var retries := 0;
    var completed := false;
    while retries < MaxRetries && !completed
      invariant retries == 0 || retries == MaxRetries
      invariant !completed && retries == 0 ==> disk == disk0 && sent == []
      invariant retries == MaxRetries ==>
        !completed && Fetch(disk0, server, url, target, dir, published) == Step(disk, Abandoned, sent)
      invariant completed ==>
        retries == 0 && tmp !in disk.files &&
        Fetch(disk0, server, url, target, dir, published)
          == Step(disk.(times := disk.times[target := published][dir := published]), Downloaded, sent)
      decreases MaxRetries - retries, if completed then 0 else 1
    {
      var base: Bytes;
      var range: Option<nat>;
      if tmp in disk.files {
        base, range := disk.files[tmp], Some(|disk.files[tmp]|);
      } else {
        base, range := [], None;
      }

      sent := sent + [Head(url)];
      var head := server.head(url);
      if head.HeadConnectionError? {
        retries := MaxRetries;
        continue;
      } else if head.HeadFailed? {
        outcome := Exit(RequestErrorExit);
        return;
      }
      var totalSize := head.contentLength.GetOr(0);

      sent := sent + [Get(url, range)];
      var reply := server.get(url, range);
      if reply.GetFailed? {
        outcome := Exit(RequestErrorExit);
        return;
      }
      disk := disk.(files := disk.files[tmp := base + reply.data], times := disk.times - {tmp});
      if reply.broken {
        outcome := Exit(RequestErrorExit);
        return;
      }

      var alreadyDownloaded := |disk.files[tmp]|;
      if alreadyDownloaded < totalSize {
        outcome := Exit(ShortDownloadExit);
        return;
      }
      completed := true;
      disk := disk.(files := (disk.files - {tmp})[target := base + reply.data]);
    }

    if completed {
      disk := disk.(times := disk.times[target := published][dir := published]);
      outcome := Downloaded;
    } else {
      outcome := Abandoned;
    }
  }

  /** One record: `os.makedirs`, then skip-existing, skip-ignored or download. */
  method DownloadRecord(disk0: Disk, server: Server, userDir: string, rec: FileRecord, overwrite: bool)
    returns (disk: Disk, outcome: Outcome, sent: seq<NetRequest>)
    ensures Step(disk, outcome, sent) == FileStep(disk0, server, userDir, rec, overwrite)
  {
    var directoryName := userDir + "/" + rec.postTitle;
    disk := disk0.(dirs := disk0.dirs + {userDir, directoryName});
    var fileName := directoryName + "/" + rec.name;

    if !overwrite && fileName in disk.files {
      disk := disk.(times := disk.times[fileName := rec.published][directoryName := rec.published]);
      outcome, sent := SkippedExisting, [];
    } else if fileName + IgnoreSuffix in disk.files {
      disk := disk.(times := disk.times[directoryName := rec.published]);
      outcome, sent := SkippedIgnored, [];
    } else {
      disk, outcome, sent := DownloadFile(disk, server, rec.fullPath, fileName, directoryName, rec.published);
    }
  }

  /** The records the run reached: the disk after them, their outcomes and the requests sent. */
  datatype RunResult = RunResult(disk: Disk, outcomes: seq<Outcome>, sent: seq<NetRequest>)

  /** The effect of the loop over the records: record after record, stopping at the first exit. */
  function Run(disk: Disk, server: Server, userDir: string, recs: seq<FileRecord>, overwrite: bool): RunResult
    decreases |recs|
  {
    if recs == [] then RunResult(disk, [], [])
    else
      var st := FileStep(disk, server, userDir, recs[0], overwrite);
      if st.outcome.Exit? then RunResult(st.disk, [st.outcome], st.sent)
      else After([st.outcome], st.sent, Run(st.disk, server, userDir, recs[1..], overwrite))
  }

  /** `r` preceded by the outcomes and requests of earlier records. */
  function After(outcomes: seq<Outcome>, sent: seq<NetRequest>, r: RunResult): RunResult {
    RunResult(r.disk, outcomes + r.outcomes, sent + r.sent)
  }

  /**
   * `download_user_files`: builds the file list, then handles its records in
   * order; `exit` is the status the program ended with, if one did.
   */
  method DownloadUserFiles(disk0: Disk, server: Server, site: Posts.Site, userId: string, userDir: string,
                           fileType: Option<FileType>, f: Filter, overwrite: bool, reverseOrder: bool,
                           feed: seq<seq<Posts.Post>>)
    returns (disk: Disk, outcomes: seq<Outcome>, sent: seq<NetRequest>, exit: Option<int>)
    ensures var recs := Dedup(Candidates(site, Listing(userId, f, reverseOrder, feed), fileType));
      RunResult(disk, outcomes, sent) == Run(disk0, server, userDir, recs, overwrite)
    ensures exit.Some? <==> outcomes != [] && outcomes[|outcomes| - 1].Exit?
    ensures exit.Some? ==> exit.value == outcomes[|outcomes| - 1].code
  {
    var fileList := GetUserFiles(site, userId, fileType, f, reverseOrder, feed);
    disk, outcomes, sent, exit := DownloadRecords(disk0, server, userDir, fileList, overwrite);
  }

  /** The loop of `download_user_files` over the file list. */
  method DownloadRecords(disk0: Disk, server: Server, userDir: string, fileList: seq<FileRecord>, overwrite: bool)
    returns (disk: Disk, outcomes: seq<Outcome>, sent: seq<NetRequest>, exit: Option<int>)
    ensures RunResult(disk, outcomes, sent) == Run(disk0, server, userDir, fileList, overwrite)
    ensures exit.Some? <==> outcomes != [] && outcomes[|outcomes| - 1].Exit?
    ensures exit.Some? ==> exit.value == outcomes[|outcomes| - 1].code
  {
    disk, outcomes, sent, exit := disk0, [], [], None;
    var i := 0;
    while i < |fileList|
      invariant 0 <= i <= |fileList|
      invariant forall k :: 0 <= k < |outcomes| ==> !outcomes[k].Exit?
      invariant Run(disk0, server, userDir, fileList, overwrite)
        == After(outcomes, sent, Run(disk, server, userDir, fileList[i..], overwrite))
    {
      var outcome, more;
      disk, outcome, more := NextRecord(disk, server, userDir, fileList[i..], overwrite);
      assert fileList[i..][1..] == fileList[i + 1..];
      var rest := Run(disk, server, userDir, fileList[i + 1..], overwrite);
      AppendAssoc(sent, more, rest.sent);
      AppendAssoc(outcomes, [outcome], rest.outcomes);
      outcomes := outcomes + [outcome];
      sent := sent + more;
      if outcome.Exit? {
        exit := Some(outcome.code);
        return;
      }
      i := i + 1;
    }
    assert fileList[i..] == [];
    assert outcomes + [] == outcomes;
    assert sent + [] == sent;
  }

  /** The first of the remaining records, and how the rest of the run continues from it. */
  method NextRecord(disk0: Disk, server: Server, userDir: string, recs: seq<FileRecord>, overwrite: bool)
    returns (disk: Disk, outcome: Outcome, sent: seq<NetRequest>)
    requires recs != []
    ensures Run(disk0, server, userDir, recs, overwrite)
      == if outcome.Exit? then RunResult(disk, [outcome], sent)
         else After([outcome], sent, Run(disk, server, userDir, recs[1..], overwrite))
  {
    disk, outcome, sent := DownloadRecord(disk0, server, userDir, recs[0], overwrite);
  }

  // ------------------------------------------------------- properties

  /** Neither skipped branch is taken: the record goes to the retry loop. */
  predicate Fetches(disk: Disk, userDir: string, rec: FileRecord, overwrite: bool) {
    var target := TargetName(userDir, rec);
    (overwrite || target !in disk.files) && target + IgnoreSuffix !in disk.files
  }

  /** An existing file is not fetched again unless overwriting; the file's and
    * the directory's times are set to the publication time. */
  lemma SkipExistingNeverFetches(disk: Disk, server: Server, userDir: string, rec: FileRecord, overwrite: bool)
    requires !overwrite && TargetName(userDir, rec) in disk.files
    ensures var st := FileStep(disk, server, userDir, rec, overwrite);
      && st.outcome == SkippedExisting && st.sent == [] && st.disk.files == disk.files
      && st.disk.times == disk.times[TargetName(userDir, rec) := rec.published][DirectoryName(userDir, rec) := rec.published]
  {
  }

  /** A `.ignore` marker stops the download; only the directory's time is set. */
  lemma IgnoredNeverFetches(disk: Disk, server: Server, userDir: string, rec: FileRecord, overwrite: bool)
    requires overwrite || TargetName(userDir, rec) !in disk.files
    requires TargetName(userDir, rec) + IgnoreSuffix in disk.files
    ensures var st := FileStep(disk, server, userDir, rec, overwrite);
      && st.outcome == SkippedIgnored && st.sent == [] && st.disk.files == disk.files
      && st.disk.times == disk.times[DirectoryName(userDir, rec) := rec.published]
  {
  }

  /** A fetched record starts with a HEAD of its URL; the GET that may follow
    * carries `Range: bytes=N-` exactly when a `.tmp` file of size N exists. */
  lemma ResumeRequest(disk: Disk, server: Server, userDir: string, rec: FileRecord, overwrite: bool)
    requires Fetches(disk, userDir, rec, overwrite)
    ensures var st := FileStep(disk, server, userDir, rec, overwrite);
      var tmp := TargetName(userDir, rec) + TmpSuffix;
      && 1 <= |st.sent| <= 2 && st.sent[0] == Head(rec.fullPath)
      && (|st.sent| == 2 <==> server.head(rec.fullPath).HeadOk?)
      && (|st.sent| == 2 ==>
            && st.sent[1].url == rec.fullPath
            && (st.sent[1].range.Some? <==> tmp in disk.files)
            && (tmp in disk.files ==> st.sent[1].range.value == |disk.files[tmp]|))
  {
  }

  /** What the GET streams is appended to the partial file, or written to a new one. */
  lemma AppendOrWrite(disk: Disk, server: Server, userDir: string, rec: FileRecord, overwrite: bool)
    requires Fetches(disk, userDir, rec, overwrite)
    requires server.head(rec.fullPath).HeadOk?
    requires server.get(rec.fullPath, RangeFrom(disk, TargetName(userDir, rec) + TmpSuffix)).Streamed?
    ensures var st := FileStep(disk, server, userDir, rec, overwrite);
      var target := TargetName(userDir, rec);
      var tmp := target + TmpSuffix;
      var data := server.get(rec.fullPath, RangeFrom(disk, tmp)).data;
      var written := if st.outcome == Downloaded then target else tmp;
      && written in st.disk.files
      && st.disk.files[written] == (if tmp in disk.files then disk.files[tmp] else []) + data
  {
  }

  /** The `.tmp` file becomes the target only when it is at least as long as
    * the HEAD's `content-length`, and then both times are set. */
  lemma RenameOnlyWhenComplete(disk: Disk, server: Server, userDir: string, rec: FileRecord, overwrite: bool)
    ensures var st := FileStep(disk, server, userDir, rec, overwrite);
      var target := TargetName(userDir, rec);
      var tmp := target + TmpSuffix;
      var head := server.head(rec.fullPath);
      var get := server.get(rec.fullPath, RangeFrom(disk, tmp));
      st.outcome == Downloaded <==>
        && Fetches(disk, userDir, rec, overwrite)
        && head.HeadOk? && get.Streamed? && !get.broken
        && |Resume(disk, tmp) + get.data| >= head.contentLength.GetOr(0)
  {
  }

  lemma DownloadedState(disk: Disk, server: Server, userDir: string, rec: FileRecord, overwrite: bool)
    requires FileStep(disk, server, userDir, rec, overwrite).outcome == Downloaded
    ensures var st := FileStep(disk, server, userDir, rec, overwrite);
      var target := TargetName(userDir, rec);
      var dir := DirectoryName(userDir, rec);
      && target in st.disk.files && target + TmpSuffix !in st.disk.files
      && |st.disk.files[target]| >= server.head(rec.fullPath).contentLength.GetOr(0)
      && target in st.disk.times && st.disk.times[target] == rec.published
      && dir in st.disk.times && st.disk.times[dir] == rec.published
  {
    RenameOnlyWhenComplete(disk, server, userDir, rec, overwrite);
  }

  /** A short download ends the program with status 3, keeping the partial
    * `.tmp` file for the next run and leaving the target alone. */
  lemma ShortDownloadExits(disk: Disk, server: Server, userDir: string, rec: FileRecord, overwrite: bool)
    requires Fetches(disk, userDir, rec, overwrite)
    requires server.head(rec.fullPath).HeadOk?
    requires var get := server.get(rec.fullPath, RangeFrom(disk, TargetName(userDir, rec) + TmpSuffix));
      && get.Streamed? && !get.broken
      && |Resume(disk, TargetName(userDir, rec) + TmpSuffix) + get.data| < server.head(rec.fullPath).contentLength.GetOr(0)
    ensures var st := FileStep(disk, server, userDir, rec, overwrite);
      var target := TargetName(userDir, rec);
      var tmp := target + TmpSuffix;
      && st.outcome == Exit(ShortDownloadExit)
      && tmp in st.disk.files
      && |st.disk.files[tmp]| < server.head(rec.fullPath).contentLength.GetOr(0)
      && (target in st.disk.files <==> target in disk.files)
      && (target in disk.files ==> st.disk.files[target] == disk.files[target])
  {
    var target := TargetName(userDir, rec);
    assert |target + TmpSuffix| != |target|;
  }

  /** A connection error on the HEAD abandons the file: nothing is written,
    * renamed or touched, and the next record is handled. */
  lemma HeadConnectionErrorAbandons(disk: Disk, server: Server, userDir: string, rec: FileRecord, overwrite: bool)
    requires Fetches(disk, userDir, rec, overwrite)
    requires server.head(rec.fullPath) == HeadConnectionError
    ensures var st := FileStep(disk, server, userDir, rec, overwrite);
      && st.outcome == Abandoned && st.sent == [Head(rec.fullPath)]
      && st.disk == MakeDirs(disk, userDir, DirectoryName(userDir, rec))
  {
  }

  /** Any other request error ends the program with status 4 and never renames. */
  lemma RequestErrorExits(disk: Disk, server: Server, userDir: string, rec: FileRecord, overwrite: bool)
    requires Fetches(disk, userDir, rec, overwrite)
    requires var get := server.get(rec.fullPath, RangeFrom(disk, TargetName(userDir, rec) + TmpSuffix));
      || server.head(rec.fullPath).HeadFailed?
      || (server.head(rec.fullPath).HeadOk? && (get.GetFailed? || get.broken))
    ensures var st := FileStep(disk, server, userDir, rec, overwrite);
      var target := TargetName(userDir, rec);
      && st.outcome == Exit(RequestErrorExit)
      && (target in st.disk.files <==> target in disk.files)
      && (target in disk.files ==> st.disk.files[target] == disk.files[target])
  {
    var target := TargetName(userDir, rec);
    assert |target + TmpSuffix| != |target|;
  }

  /** A record changes no file other than its target and its `.tmp` file, and
    * no time other than theirs and its directory's. */
  lemma FileStepFrame(disk: Disk, server: Server, userDir: string, rec: FileRecord, overwrite: bool, p: string)
    requires p != TargetName(userDir, rec) && p != TargetName(userDir, rec) + TmpSuffix
    ensures var st := FileStep(disk, server, userDir, rec, overwrite);
      && (p in st.disk.files <==> p in disk.files)
      && (p in disk.files ==> st.disk.files[p] == disk.files[p])
      && (p != DirectoryName(userDir, rec) ==>
            (p in st.disk.times <==> p in disk.times) && (p in disk.times ==> st.disk.times[p] == disk.times[p]))
  {
  }

  /**
   * Resuming is lossless against a server that honours `Range`: when the
   * `.tmp` file holds a prefix of the content and the server sends the rest,
   * the target ends up holding exactly the content.
   */
  lemma ResumeReconstructs(disk: Disk, server: Server, userDir: string, rec: FileRecord, overwrite: bool, content: Bytes)
    requires Fetches(disk, userDir, rec, overwrite)
    requires var tmp := TargetName(userDir, rec) + TmpSuffix;
      && Resume(disk, tmp) <= content
      && server.head(rec.fullPath) == HeadOk(Some(|content|))
      && server.get(rec.fullPath, RangeFrom(disk, tmp)) == Streamed(content[|Resume(disk, tmp)|..], false)
    ensures var st := FileStep(disk, server, userDir, rec, overwrite);
      var target := TargetName(userDir, rec);
      && st.outcome == Downloaded
      && target in st.disk.files && st.disk.files[target] == content
  {
    var tmp := TargetName(userDir, rec) + TmpSuffix;
    var base := Resume(disk, tmp);
    assert base + content[|base|..] == content;
  }

  /**
   * The completeness check only compares sizes: a server that ignores
   * `Range` and sends the whole content again gets it appended to the
   * partial file, and the longer result is accepted as the target.
   */
  lemma IgnoredRangeKeepsPrefix(disk: Disk, server: Server, userDir: string, rec: FileRecord, overwrite: bool, content: Bytes)
    requires Fetches(disk, userDir, rec, overwrite)
    requires var tmp := TargetName(userDir, rec) + TmpSuffix;
      && server.head(rec.fullPath) == HeadOk(Some(|content|))
      && server.get(rec.fullPath, RangeFrom(disk, tmp)) == Streamed(content, false)
    ensures var st := FileStep(disk, server, userDir, rec, overwrite);
      var target := TargetName(userDir, rec);
      var tmp := target + TmpSuffix;
      && st.outcome == Downloaded
      && target in st.disk.files && st.disk.files[target] == Resume(disk, tmp) + content
      && (tmp in disk.files && disk.files[tmp] != [] ==> st.disk.files[target] != content)
  {
  }

  /** After a download, handling the same record again without overwriting skips it. */
  lemma DownloadedThenSkipped(disk: Disk, server: Server, server': Server, userDir: string, rec: FileRecord, overwrite: bool)
    requires FileStep(disk, server, userDir, rec, overwrite).outcome == Downloaded
    ensures var d := FileStep(disk, server, userDir, rec, overwrite).disk;
      var again := FileStep(d, server', userDir, rec, false);
      again.outcome == SkippedExisting && again.sent == [] && again.disk.files == d.files
  {
    DownloadedState(disk, server, userDir, rec, overwrite);
  }

  /** Only the last outcome of a run can be an exit; a run without one handles every record. */
  lemma {:induction false} RunExitIsLast(disk: Disk, server: Server, userDir: string, recs: seq<FileRecord>, overwrite: bool)
    ensures var r := Run(disk, server, userDir, recs, overwrite);
      && |r.outcomes| <= |recs|
      && (forall k :: 0 <= k < |r.outcomes| - 1 ==> !r.outcomes[k].Exit?)
      && (|r.outcomes| < |recs| ==> r.outcomes != [] && r.outcomes[|r.outcomes| - 1].Exit?)
    decreases |recs|
  {
    if recs != [] {
      var st := FileStep(disk, server, userDir, recs[0], overwrite);
      if !st.outcome.Exit? {
        RunExitIsLast(st.disk, server, userDir, recs[1..], overwrite);
        var rest := Run(st.disk, server, userDir, recs[1..], overwrite);
        var r := Run(disk, server, userDir, recs, overwrite);
        assert r.outcomes == [st.outcome] + rest.outcomes;
        forall k | 0 <= k < |r.outcomes| - 1 ensures !r.outcomes[k].Exit? {
          if k > 0 {
            assert r.outcomes[k] == rest.outcomes[k - 1];
          }
        }
      }
    }
  }

  /** A second run without overwriting, after every target is on disk, sends
    * no request and changes no file. */
  lemma {:induction false} RerunFetchesNothing(disk: Disk, server: Server, userDir: string, recs: seq<FileRecord>)
    requires forall k :: 0 <= k < |recs| ==> TargetName(userDir, recs[k]) in disk.files
    ensures var r := Run(disk, server, userDir, recs, false);
      && r.sent == [] && r.disk.files == disk.files
      && |r.outcomes| == |recs|
      && (forall k :: 0 <= k < |r.outcomes| ==> r.outcomes[k] == SkippedExisting)
    decreases |recs|
  {
    if recs != [] {
      SkipExistingNeverFetches(disk, server, userDir, recs[0], false);
      var st := FileStep(disk, server, userDir, recs[0], false);
      forall k | 0 <= k < |recs[1..]| ensures TargetName(userDir, recs[1..][k]) in st.disk.files {
        assert recs[1..][k] == recs[k + 1];
      }
      RerunFetchesNothing(st.disk, server, userDir, recs[1..]);
      var rest := Run(st.disk, server, userDir, recs[1..], false);
      assert Run(disk, server, userDir, recs, false).outcomes == [SkippedExisting] + rest.outcomes;
      assert st.sent + rest.sent == [];
    }
  }
}
