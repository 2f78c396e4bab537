# ckutils: a verified model of the listing and download core

`ckutils.py` is a command-line client for a content-aggregation site. It walks
a user's post feed page by page, or the account's favourites, and keeps the
posts between optional start and end bounds. It turns their files into a
deduplicated file list, which it then prints or downloads. Downloads are
resumable: a `.tmp` file is continued with a `Range` request. The client also
extracts collaborator handles and links from post bodies, and probes whether
each collaborator's profile exists.

The Dafny modules follow the program's pieces:

| module | file | models |
|---|---|---|
| `Wrappers` | wrappers.dfy | `Option` |
| `Strings` | strings.dfy | ASCII `str.lower`, Python string order, `sorted(set(xs))` |
| `FileTypes` | file_types.dfy | the `File_type` enum, `os.path.splitext`, `__get_file_type` |
| `Posts` | posts.dfy | posts, `__get_post_title`, `__get_post_files`, `__get_file_full_path` |
| `Paginator` | paginator.dfy | `__get_user_posts` |
| `FileList` | file_list.dfy | `__get_user_files` |
| `Downloader` | downloader.dfy | `download_user_files` |
| `Scanner` | scanner.dfy | `display_user_collabs`, `display_user_links`, `__check_user_exists` |

Pure helpers are Dafny functions. The loops of the listing, file-list,
download, collab, link and probe code are methods with `while` loops, each
proved equal to a specification function. The properties are then proved
about that function. The short searches of `File_type` (ckutils.py:82-84 and
95-97) are the recursive functions `FindLabel` and `FindExtension`. The loop
of `__get_post_files` (ckutils.py:124-125) is the function `PostFiles`.

The model's inputs stand for the program's environment:

- Pages are an input `feed: seq<seq<Post>>`. Page `k` is the server's answer
  for offset `50 * k`.
- The filesystem is a value `Disk`: file contents, times set by `os.utime`,
  and the directories created. The download methods take a disk and return
  the new one.
- The download server is a pair of total functions answering HEAD and GET.
- The profile probe's HTTP status is a function of the URL and the attempt
  number.
- Dates are integers.

Where the code and its documentation differ, the model follows the code:

- The title filter `[^A-Za-z0-9 '-_]` holds the range `'`..`_`. So `:`, `?`,
  `@` and `[` survive, and `"A/B: test!"` becomes `"A-B: test"`, not
  `"A-B test"`. `Posts.SanitizeTitleExample` shows the three cases on
  `"A/B:!"`, which becomes `"A-B:"`.
- The profile-URL pattern is fixed to `https://onlyfans.com/`, and its
  unescaped `.` matches any character except a newline.
- `collab[1:]` drops the first character of every token. For a URL token
  that character is the `h` of `https` (`Scanner.UrlCollabLosesH`), so
  `https://onlyfans.com/alice` is listed as `ttps://onlyfans.com/alice`, not
  `alice`.
- Download failures are not retried:
  - A short download ends the program with status 3.
  - Any other request error ends it with status 4.
  - A HEAD connection error abandons the file and moves on.
  - The retry loop therefore makes exactly one pass.
- A download is accepted when the `.tmp` file is at least, not exactly, the
  announced size (`Downloader.IgnoredRangeKeepsPrefix`).
- Deduplication is by absolute URL only, over the whole file list. No
  deduplication of posts by id takes place.

## Model

| member | source | states |
|---|---|---|
| FileTypes.Label | ckutils.py:65-66 | definition of `str(t)`; its properties are in `FromStrLabel` and `List` |
| FileTypes.FromStr | ckutils.py:81-86 | definition of `from_str`; its properties are in `FindLabel`, `FromStrLabel` and `FromStrRecognisesList` |
| FileTypes.List | ckutils.py:76-78 | `list()` gives the five labels, in declaration order |
| FileTypes.FindLabel | ckutils.py:81-86 | the member found carries the label; when none is found, no member carries it |
| FileTypes.FromStrLabel | ckutils.py:81-86 | `from_str(str(t)) == t` for every member |
| FileTypes.FromStrRecognisesList | ckutils.py:81-86 | `from_str` returns a member exactly for the labels `list()` yields; otherwise it returns its argument unchanged |
| FileTypes.FindExtension | ckutils.py:95-97 | the member found lists the extension; when none is found, no member lists it |
| FileTypes.ExtensionTable | ckutils.py:58-99 | the extension table, in both directions, for each of the five types; anything else is OTHER |
| FileTypes.TypeOfExtensionScansMembers | ckutils.py:95-99 | the table lookup is the scan of the members in declaration order: the first member listing the extension, or OTHER |
| FileTypes.RFind | ckutils.py:93 | the index found holds the character, or it is -1 |
| FileTypes.RFindIsLast | ckutils.py:93 | no occurrence of the character follows the index found, so it is the last one, and -1 means the character is absent |
| FileTypes.LastNonDot | ckutils.py:93 | the index found, below the bound, holds a character other than a dot, or it is -1 |
| FileTypes.LastNonDotIsLast | ckutils.py:93 | every character after that index and below the bound is a dot: the leading dots of a name are recognised |
| FileTypes.SplitExt | ckutils.py:93 | definition of `os.path.splitext(...)[1]`; its properties are in `SplitExtShape`, `SplitExtOfName` and `LeadingDotsNoExtension` |
| FileTypes.SplitExtShape | ckutils.py:93 | the extension is empty, or a suffix of the name holding exactly one dot, at its start, and no slash |
| FileTypes.SplitExtOfName | ckutils.py:93 | a name `dir/stem.ext` with a real stem has extension `.ext` |
| FileTypes.LeadingDotsNoExtension | ckutils.py:93 | a name made of dots and then one extension, such as `.mp4`, has no extension |
| FileTypes.LowerKeepsPunctuation | ckutils.py:93 | lower-casing neither creates nor removes a dot or a slash |
| FileTypes.FileTypeOf | ckutils.py:92-99 | definition of `__get_file_type`; its properties are in `FileTypeByExtension`, `FileTypeIgnoresCase`, `UpperCaseExample` and `HiddenNameIsOther` |
| FileTypes.FileTypeByExtension | ckutils.py:92-99 | the type of `dir/stem.ext` is the table's entry for `.` plus the lower-cased `ext` |
| FileTypes.FileTypeIgnoresCase | ckutils.py:92-99 | classification does not depend on letter case |
| FileTypes.UpperCaseExample | ckutils.py:92-99 | `clip.MP4` is a VIDEO |
| FileTypes.HiddenNameIsOther | ckutils.py:92-99 | `.MP4` has no extension and is OTHER |
| Posts.SlashesToDashes | ckutils.py:110 | every `/` becomes `-`; every other character is kept in place |
| Posts.SanitizeTitle | ckutils.py:110 | definition of the two `re.sub` calls; its properties are in `SanitizeTitleKeepsOnlyAllowed`, `SanitizeTitleChar`, `SanitizeTitleConcat`, `SanitizeTitleFixedPoint`, `SanitizeTitleIdempotent` and `SanitizeTitleExample` |
| Posts.PostTitle | ckutils.py:106-116 | the title is the sanitised title when that is not empty, and the post id otherwise; so it holds only allowed characters and no `/`, or it is the id |
| Posts.StripKeepsOnlyAllowed | ckutils.py:110 | the filter keeps only allowed characters of its input |
| Posts.SanitizeTitleKeepsOnlyAllowed | ckutils.py:110 | a sanitised title holds only allowed characters and no `/` |
| Posts.StripConcat | ckutils.py:110 | the filter works character by character: it distributes over concatenation |
| Posts.SanitizeTitleChar | ckutils.py:110 | a single `/` becomes `-`, an allowed character stays, any other character is deleted |
| Posts.SanitizeTitleConcat | ckutils.py:110 | sanitisation distributes over concatenation |
| Posts.StripFixedPoint | ckutils.py:110 | the filter changes nothing exactly when every character is allowed |
| Posts.StripShorter | ckutils.py:110 | the filter never lengthens its input |
| Posts.SanitizeTitleFixedPoint | ckutils.py:110 | sanitising changes nothing exactly when every character is allowed and none is `/` |
| Posts.SanitizeTitleIdempotent | ckutils.py:110 | sanitising twice is sanitising once |
| Posts.SanitizeTitleExample | ckutils.py:110 | `"A/B:!"` becomes `"A-B:"`: the slash becomes a dash, the colon is kept, the `!` is deleted |
| Posts.PostFiles | ckutils.py:119-127 | the post's file, if present, comes first, followed by all attachments in order |
| Posts.FullPath | ckutils.py:102-103 | definition of `__get_file_full_path`; its properties are in `FullPathRoundTrip` and `FullPathInjective` |
| Posts.FullPathRoundTrip | ckutils.py:102-103 | removing `https://<site>/data` from a full path gives back the file's path |
| Posts.FullPathInjective | ckutils.py:102-103 | two files have the same full path exactly when they have the same path |
| Paginator.Select | ckutils.py:158-177 | definition of the posts the inner loop keeps; its properties are in `SelectStep`, `SelectWindow`, `SelectExcludesEnd`, `SelectStartsAtGate` and `SelectNoFilter` |
| Paginator.Listing | ckutils.py:136-180 | definition of the result of `__get_user_posts`; `GetUserPosts` is proved to return it, and `ReversedAt` relates its two orders |
| Paginator.SelectStep | ckutils.py:158-177 | one post of the loop: it is skipped at the gate, stops the listing, or is kept and opens the gate |
| Paginator.GetUserPosts | ckutils.py:136-180 | the posts are the selection of the feed stream, reversed for `reverse_order`; the requests are offsets 0, 50, 100, …, or the single favourites request; every request but the last got a non-empty page; no post on the pages before the last request meets an end bound, and for a user the last page is empty or holds the post that ends the listing |
| Paginator.Walk | ckutils.py:158-177 | definition of the gate state the loop carries, `None` once an end bound is met; its properties are in `WalkConcat`, `WalkOpenedStopsAt` and `WalkStopsAt` |
| Paginator.Walked | ckutils.py:143-156 | definition of the posts of the pages the first k turns read; its properties are in `StreamSplit` |
| Paginator.StopsAtEnd | ckutils.py:143-177 | definition of where the requests stop, relative to the listing's end; `WalkedUpToEnd` proves it of the loop |
| Paginator.WalkConcat | ckutils.py:158-177 | walking two runs of posts is walking the first, then the second from the gate state the first left |
| Paginator.StreamSplit | ckutils.py:143-156 | while no page was empty, the stream is the pages walked so far followed by the rest |
| Paginator.EndIndex | ckutils.py:163-168 | the post that ends the listing lies at or after the gate post and meets an end bound, unless there is none |
| Paginator.WalkOpenedStopsAt | ckutils.py:167-172 | once the gate is open, the walk over a prefix stops exactly when the first end post lies in it |
| Paginator.WalkStopsAt | ckutils.py:158-177 | the loop walks a prefix of the stream without stopping exactly when the listing's end lies at or beyond the prefix |
| Paginator.WalkedUpToEnd | ckutils.py:143-177 | when the loop returns after k+1 turns, the pages before the last hold no end post, and the last page is empty or holds it |
| Paginator.Finished | ckutils.py:143-180 | the loop's state at its `return` gives the listing, the request log and where the requests stop |
| Paginator.RequestsShape | ckutils.py:143-152 | the first k requests of a user listing ask for offsets 0, 50, …, 50·(k−1); the favourites are asked for once |
| Paginator.Turn | ckutils.py:143-177 | one turn of the outer loop sends the next request; an empty page ends the listing, otherwise the page's selection is added and the walk goes on from the page after it; the turn returns exactly when the page is empty or the walk stopped in it |
| Paginator.ScanPage | ckutils.py:158-177 | scanning one page adds its selected posts, appended or prepended; it stops exactly when the walk over the page meets an end bound, and otherwise leaves the gate state the walk gives |
| Paginator.ScanPost | ckutils.py:158-177 | one post of the inner loop: the listing so far grows by exactly what the selection keeps of this post, at the end or at the front; the walk stops exactly at an end bound |
| Paginator.FetchPage | ckutils.py:145-152 | the page for offset `50 * k` is the feed's page `k`; the favourites are fetched at offset 0 only |
| Paginator.ReversedSnoc | ckutils.py:174-177 | prepending a post to a reversed list reverses the list with the post appended |
| Paginator.ReversedAt | ckutils.py:174-177 | with `reverse_order`, the i-th post is the mirror of the i-th post of the forward listing |
| Paginator.ReversedConcat | ckutils.py:174-177 | reversal turns the order of two concatenated runs around |
| Paginator.GateIndex | ckutils.py:163-165 | the first post through the start gate: every post before it is skipped |
| Paginator.StopIndex | ckutils.py:167-168 | the first post that meets an end bound |
| Paginator.SelectOpened | ckutils.py:171-172 | once the gate is open, posts are kept up to the first end post |
| Paginator.SelectWindow | ckutils.py:158-177 | the forward listing is one contiguous run of the stream, from the gate post to just before the next end post |
| Paginator.SelectExcludesEnd | ckutils.py:167-168 | no listed post has id `to_post_id` or was added before `to_date` |
| Paginator.SelectStartsAtGate | ckutils.py:163-172 | a non-empty listing starts with the `from_post_id` post, added no later than `from_date` |
| Paginator.SelectNoFilter | ckutils.py:136-180 | without bounds every post of the stream is listed |
| Paginator.StreamAllPages | ckutils.py:143-156 | for a user, the stream is the concatenation of the pages, while no page is empty |
| Paginator.StreamStopsAtEmptyPage | ckutils.py:154-156 | pages after the first empty page are never read |
| Paginator.StreamFavorites | ckutils.py:147-152 | the favourites stream is the single favourites page |
| FileList.RecordOf | ckutils.py:211-218 | definition of the dictionary built for one file; its properties are in `PostRecordsHaveType` |
| FileList.Candidates | ckutils.py:200-218 | definition of the records of all posts before deduplication; its properties are in `CandidatesSnoc`, `CandidatesConcat` and `CandidatesHaveType` |
| FileList.Dedup | ckutils.py:226-229 | definition of the duplicate check over the whole list; its properties are in `DedupSnoc`, `DedupSamePaths`, `DedupUnique` and `DedupIsFirstOccurrences` |
| FileList.BuildFileList | ckutils.py:200-231 | the file list deduplicates the records of all posts, post after post |
| FileList.CandidatesSnoc | ckutils.py:200-218 | one more post appends its records after those of the posts before it |
| FileList.AddPostFiles | ckutils.py:204-229 | the records of one post's files are added, with the type filter and the duplicate check |
| FileList.AddFile | ckutils.py:205-229 | a file of another type is skipped; a file whose URL is already listed is dropped |
| FileList.GetUserFiles | ckutils.py:192-231 | the file list is built from the post listing of `__get_user_posts` |
| FileList.PostRecordsSnoc | ckutils.py:204-218 | one more file adds its record when its type is wanted |
| FileList.DedupSnoc | ckutils.py:226-229 | one more record is kept exactly when its URL is not yet listed |
| FileList.SeenIffNotFirst | ckutils.py:226-229 | a record's URL is already listed exactly when an earlier record has the same URL |
| FileList.DedupSamePaths | ckutils.py:226-229 | kept records come from the input, and every input URL is listed |
| FileList.DedupUnique | ckutils.py:226-229 | no two kept records share a URL |
| FileList.DedupIsFirstOccurrences | ckutils.py:226-229 | exactly the first record of each URL is kept, in input order, across all posts |
| FileList.CandidatesHaveType | ckutils.py:207-208 | every record has the requested type, when a type is given |
| FileList.PostRecordsHaveType | ckutils.py:207-218 | the records of a post have the wanted type, its id and its publication time |
| FileList.FileListProperties | ckutils.py:192-231 | the file list has unique URLs and only records of the requested type |
| FileList.CandidatesConcat | ckutils.py:200-204 | records follow post order |
| FileList.PostRecordsConcat | ckutils.py:204-218 | records follow the post's file order |
| FileList.PostFileFirst | ckutils.py:119-127 | within a post, the record of its file comes before those of its attachments |
| Downloader.Fetch | ckutils.py:308-367 | definition of one pass of the retry loop; its properties are in `ResumeRequest`, `AppendOrWrite`, `RenameOnlyWhenComplete`, `DownloadedState`, `ShortDownloadExits`, `HeadConnectionErrorAbandons`, `RequestErrorExits`, `ResumeReconstructs` and `IgnoredRangeKeepsPrefix` |
| Downloader.FileStep | ckutils.py:289-367 | definition of the loop body for one record; its properties are in `DownloadRecord`, `SkipExistingNeverFetches`, `IgnoredNeverFetches`, `FileStepFrame` and `DownloadedThenSkipped` |
| Downloader.Run | ckutils.py:289-367 | definition of the loop over the file list; its properties are in `DownloadRecords`, `NextRecord`, `RunExitIsLast` and `RerunFetchesNothing` |
| Downloader.MakeDirs | ckutils.py:291-292 | `makedirs` adds the user and post directories and changes no file or time |
| Downloader.DownloadFile | ckutils.py:308-367 | the retry loop does what one pass specifies: HEAD, GET with the resume range, write, check size, rename, set times |
| Downloader.DownloadRecord | ckutils.py:289-367 | one record: skip existing, skip ignored, or download |
| Downloader.DownloadUserFiles | ckutils.py:285-367 | the records of the file list are handled in order until the first exit; the exit status is the last outcome's |
| Downloader.DownloadRecords | ckutils.py:289-367 | the loop over the file list gives the run's disk, outcomes and requests; the exit status is set exactly when the last outcome is an exit, and is its code |
| Downloader.NextRecord | ckutils.py:289-367 | the run continues from the record just handled, unless that record exited |
| Downloader.SkipExistingNeverFetches | ckutils.py:296-301 | an existing file is not fetched unless overwriting; the file's and the directory's times become the publication time |
| Downloader.IgnoredNeverFetches | ckutils.py:303-306 | a `.ignore` marker stops the download; only the directory's time is set |
| Downloader.ResumeRequest | ckutils.py:314-331 | a HEAD of the URL comes first; the GET carries `Range: bytes=N-` exactly when a `.tmp` file of size N exists |
| Downloader.AppendOrWrite | ckutils.py:314-343 | the streamed data is appended to the partial `.tmp` file, or written to a fresh one |
| Downloader.RenameOnlyWhenComplete | ckutils.py:345-351 | a file is downloaded exactly when HEAD and GET succeed and the `.tmp` file reaches the announced size |
| Downloader.DownloadedState | ckutils.py:345-367 | after a download the target exists with at least the announced size, the `.tmp` file is gone, and both times are set |
| Downloader.ShortDownloadExits | ckutils.py:346-348 | a short file ends the program with status 3; the `.tmp` file is kept and the target is untouched |
| Downloader.HeadConnectionErrorAbandons | ckutils.py:323-329 | a HEAD connection error abandons the file: nothing is written, renamed or timed |
| Downloader.RequestErrorExits | ckutils.py:353-356 | other request errors end the program with status 4 without renaming |
| Downloader.FileStepFrame | ckutils.py:289-367 | a record changes no file but its target and `.tmp` file, and no time but theirs and its directory's |
| Downloader.ResumeReconstructs | ckutils.py:312-351 | with a server that honours `Range`, resuming a prefix yields exactly the content |
| Downloader.IgnoredRangeKeepsPrefix | ckutils.py:312-351 | with a server that ignores `Range`, the partial file plus the whole content is accepted |
| Downloader.DownloadedThenSkipped | ckutils.py:296-301 | handling a downloaded record again without overwriting skips it |
| Downloader.RunExitIsLast | ckutils.py:289-367 | only the last outcome of a run can be an exit; a run without an exit handles every record |
| Downloader.RerunFetchesNothing | ckutils.py:296-301 | when every target exists, a run without overwriting sends no request and changes no file |
| Scanner.RunLength | ckutils.py:381-382 | the greedy `*` stays within the text |
| Scanner.RunLengthIsRun | ckutils.py:381-382 | the greedy `*` takes class characters only, and stops at the end of the text or at a character outside the class: it is the longest run |
| Scanner.MatchLen | ckutils.py:381-382 | a match covers at least the fixed part and stays within the text; there is no match exactly when the fixed part is absent |
| Scanner.MatchLenIsToken | ckutils.py:381-382 | a match is a whole token of the pattern, followed by the end of the text or a character outside the class |
| Scanner.TokenAt | ckutils.py:381-382 | the fixed part at a position followed by class characters is a whole token of the pattern |
| Scanner.Scan | ckutils.py:381-382 | definition of `re.findall`, scanning left to right; its properties are in `ScanTokens`, `ScanMaximal` and `ScanCut` |
| Scanner.ScanTokens | ckutils.py:381-382 | every string `findall` returns is a whole match of its pattern |
| Scanner.FindAll | ckutils.py:415 | every link is `https://` followed by characters other than space, `<` and `"` |
| Scanner.ScanMaximal | ckutils.py:381-382 | every match returned occurs in the text, followed by its end or a character outside the class |
| Scanner.FindAllMaximal | ckutils.py:381-382 | the same for the `findall` of each pattern, links included |
| Scanner.NoLeadAcrossDrop | ckutils.py:381-382 | dropping a prefix of the text keeps the fixed part off the separator |
| Scanner.LeadsAtDrop | ckutils.py:381-382 | the fixed part occurs in a suffix where it occurs in the whole text |
| Scanner.MatchLenCut | ckutils.py:381-382 | a separator no match can cover ends the match before it, as if the text stopped there |
| Scanner.RunLengthCut | ckutils.py:381-382 | a character outside the class ends every run that reaches it |
| Scanner.ScanCut | ckutils.py:381-382 | across such a separator, the matches are those of the text before it followed by those of the text after it |
| Scanner.FindAllSplit | ckutils.py:381-382 | the same for `findall`: no match is lost or merged across the separator, and text order is kept |
| Scanner.LinksSplitAtSeparator | ckutils.py:415 | links split at any space, `<` or `"` |
| Scanner.MentionsSplitAtSeparator | ckutils.py:381 | mentions split at any character outside their class other than `@` |
| Scanner.ProfileUrlsSplitAtSeparator | ckutils.py:382 | profile URLs split at any character outside their class other than `:`, unless the text before ends with `https://onlyfans` |
| Scanner.PostCollabTokensMaximal | ckutils.py:381-382 | every collab token of a post is a mention or profile URL occurring in it that cannot be extended |
| Scanner.PostCollabTokensSplit | ckutils.py:381-382 | across a separator of both patterns, the mentions of each part come first, then the profile URLs of each part |
| Scanner.Normalize | ckutils.py:385-388 | the token is lower-cased and loses one trailing `.` or `-`, and only then |
| Scanner.NormalizeAll | ckutils.py:384-389 | each token of a post is normalised, in order |
| Scanner.PostCollabTokens | ckutils.py:381-382 | a post's collab tokens are mentions or profile URLs; where they occur and in which order is in `PostCollabTokensMaximal` and `PostCollabTokensSplit` |
| Scanner.CollectCollabs | ckutils.py:377-389 | `collabs` holds the normalised tokens of all posts, post after post |
| Scanner.AddCollabs | ckutils.py:384-389 | one post's normalised tokens are appended |
| Scanner.ProbeFrom | ckutils.py:238-253 | at most three attempts; found on the first 200, not found on the first 404 or after three other statuses |
| Scanner.Probe | ckutils.py:234-253 | definition of the answer of `__check_user_exists`; its properties are in `ProbeFrom` and `CheckUserExists` |
| Scanner.CheckUserExists | ckutils.py:234-253 | the `nbTries` loop gives the probe's answer and number of attempts |
| Scanner.CollabReport | ckutils.py:391-400 | one line per sorted token |
| Scanner.CollabName | ckutils.py:392 | definition of `collab[1:]`; its properties are in `MentionCollabName` and `UrlCollabLosesH` |
| Scanner.ReportCollab | ckutils.py:392-400 | the line is the name, ` : `, and the user page when the profile was found |
| Scanner.ReportCollabs | ckutils.py:391-400 | the printed lines follow the sorted tokens |
| Scanner.DisplayUserCollabs | ckutils.py:372-400 | the lines report the sorted distinct collab tokens of the unfiltered listing |
| Scanner.CollectLinks | ckutils.py:412-417 | `links` holds the links of all posts, post after post |
| Scanner.DisplayUserLinks | ckutils.py:407-420 | the lines are the sorted distinct links of the unfiltered listing |
| Scanner.TokenScansToItself | ckutils.py:381-382 | a token scanned on its own is found once, whole |
| Scanner.NoLeadNoToken | ckutils.py:381-382 | where the fixed part of a pattern never occurs, nothing is found |
| Scanner.NoAtNoMention | ckutils.py:381 | a text without `@` mentions nobody |
| Scanner.MentionCollabName | ckutils.py:385-392 | a normalised mention is `@` followed by its name, in lower case |
| Scanner.UrlCollabLosesH | ckutils.py:382-392 | a normalised profile URL keeps `https://onlyfans`, so its name starts `ttps://onlyfans` |
| Scanner.NormalizedTokenShape | ckutils.py:381-388 | a normalised mention or profile URL is lower case and starts with `@` or `https://onlyfans` |
| Scanner.PostCollabShape | ckutils.py:381-389 | every normalised token of one post has that shape |
| Scanner.CollabTokensShape | ckutils.py:378-389 | every collab token is lower case and starts with `@` or `https://onlyfans` |
| Scanner.LinkTokensAreLinks | ckutils.py:413-417 | every collected link matches the link pattern |
| Scanner.LinkListing | ckutils.py:407-420 | the link lines are strictly sorted, hold exactly the links found, and are all links |
| Scanner.CollabListing | ckutils.py:391-400 | one line per distinct token, in sorted order; each line holds the name, and the user page exactly when the probe found it |
| Strings.LowerIdempotent | ckutils.py:93 | lower-casing twice is lower-casing once |
| Strings.LexLessTransitive | ckutils.py:391 | Python's string order is transitive |
| Strings.LexLessTotal | ckutils.py:391 | any two different strings are ordered one way |
| Strings.LexLessAsymmetric | ckutils.py:391 | no two strings are ordered both ways |
| Strings.LexLessIrreflexive | ckutils.py:391 | no string is ordered before itself |
| Strings.Insert | ckutils.py:391 | inserting into a strictly sorted list keeps it strictly sorted and adds exactly the element |
| Strings.SortedSet | ckutils.py:391 | `sorted(set(xs))`: strictly sorted, with exactly the elements of `xs` |
| Strings.SortedListingUnique | ckutils.py:391 | there is only one strictly sorted listing of a set of strings |

## Left out

- HTTP, JSON decoding, date parsing and `.timestamp()` are not modelled. Pages, HEAD and GET answers and probe statuses are inputs, and dates are integers.
- Printing, `quiet`, `tqdm` progress bars, `time.sleep` and the SIGINT handler are not modelled, because they do not affect the state.
- Login and the session cookie regex are left out, because they are network-bound.
- `get_API_version` and the command-line dispatch are left out, as they are program glue.
- While paging, a `requests` exception or a `json.loads` failure (ckutils.py:146, 150) ends the program with a traceback. So does a `requests` exception in `__check_user_exists` (ckutils.py:240-241, with no `try`). The model's feed and status inputs cannot fail, so these paths are not modelled.
- The `get_size` HEAD lookup in `__get_user_files` is left out, and so is `display_user_files` with its size total, because both are I/O only.
- `requests.utils.unquote` is not modelled: the decoded user id is an input (`userDir`).
- Strings.LowerChar: only ASCII letters are lower-cased, not Unicode `str.lower`. Every mention token is ASCII. A profile URL's `.` position may hold any character, and that character keeps its case in the model.
- Modification times caused by writes and renames are not modelled, because they come from the clock. `Disk.times` holds only the times set by `os.utime`, and writing a file drops its entry.
- `os.makedirs` creating intermediate directories for a user id that contains `/` is not modelled. Neither is its failure when a plain file is in the way.
- A `.tmp` path that is a directory, or an open or rename that fails, is left out. These raise uncaught `OSError`s.
- A non-integer or negative `content-length` is left out. The model takes a natural number or none, and none counts as 0.
- The retry bookkeeping after `sys.exit(4)` (ckutils.py:358-360) is left out, because it can never run.
- The text of the `Range` header and of the API URLs with `?o=<offset>` is not modelled. The model keeps the offset and range as numbers.
- `__get_user_posts` calls `__get_post_title` on every post and discards the result; the model drops that call.
- The module-level `ckutils` instance used at ckutils.py:146 and 150 is taken to be `self`.
