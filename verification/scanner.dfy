/**
 * `display_user_collabs`, `display_user_links` and `__check_user_exists`:
 * the tokens `re.findall` extracts from post contents, the normalisation of
 * collab tokens, the sorted and deduplicated listings, and the bounded
 * profile probe.
 */
module Scanner {
  import opened Wrappers
  import opened Strings
  import opened Posts
  import opened Paginator

  /**
   * The three regular expressions:
   * `@[a-zA-Z0-9_\-\.]*`, `https://onlyfans.com/[/a-zA-Z0-9_\-\.]*`
   * (whose unescaped `.` matches any character but a newline) and
   * `https://[^ <"]*`.
   */
  datatype Pattern = Mention | ProfileUrl | Link

  const Https := "https://"
  const OnlyfansPrefix := "https://onlyfans"
  const ComPath := "com/"

  predicate IsAlnum(c: char) {
    'a' <= c <= 'z' || 'A' <= c <= 'Z' || '0' <= c <= '9'
  }

  /** The character class each pattern repeats with `*`. */
  predicate InClass(p: Pattern, c: char) {
    match p
    case Mention => IsAlnum(c) || c == '_' || c == '-' || c == '.'
    case ProfileUrl => IsAlnum(c) || c == '_' || c == '-' || c == '.' || c == '/'
    case Link => c != ' ' && c != '<' && c != '"'
  }

  /** The length of the fixed part each pattern starts with. */
  function Lead(p: Pattern): nat {
    match p
    case Mention => 1
    case ProfileUrl => |OnlyfansPrefix| + 1 + |ComPath|
    case Link => |Https|
  }

  /** The fixed part of `p` occurs at `i`. */
  predicate LeadsAt(p: Pattern, s: string, i: nat)
    requires i + Lead(p) <= |s|
  {
    match p
    case Mention => s[i] == '@'
    case ProfileUrl =>
      && s[i..i + |OnlyfansPrefix|] == OnlyfansPrefix
      && s[i + |OnlyfansPrefix|] != '\n'
      && s[i + |OnlyfansPrefix| + 1..i + Lead(p)] == ComPath
    case Link => s[i..i + |Https|] == Https
  }

  /** A whole match of `p`: the fixed part, then characters of the class only. */
  predicate IsToken(p: Pattern, t: string) {
    && Lead(p) <= |t| && LeadsAt(p, t, 0)
    && forall k :: Lead(p) <= k < |t| ==> InClass(p, t[k])
  }

  /** The greedy `*`: the length of the longest run of class characters
    * starting at `i`. */
  function RunLength(p: Pattern, s: string, i: nat): (n: nat)
    requires i <= |s|
    ensures i + n <= |s|
    decreases |s| - i
  {
    if i == |s| || !InClass(p, s[i]) then 0 else 1 + RunLength(p, s, i + 1)
  }

  /** The run holds class characters only and cannot be extended. */
  lemma {:induction false} RunLengthIsRun(p: Pattern, s: string, i: nat)
    requires i <= |s|
    ensures forall k :: i <= k < i + RunLength(p, s, i) ==> InClass(p, s[k])
    ensures i + RunLength(p, s, i) == |s| || !InClass(p, s[i + RunLength(p, s, i)])
    decreases |s| - i
  {
    if i < |s| && InClass(p, s[i]) {
      RunLengthIsRun(p, s, i + 1);
    }
  }

  /** The length of the match of `p` at `i`, if there is one: the fixed part
    * followed by the greedy run of the class. */
  function MatchLen(p: Pattern, s: string, i: nat): (r: Option<nat>)
    requires i <= |s|
    ensures r.Some? ==> Lead(p) <= r.value && i + r.value <= |s|
    ensures r.None? <==> !(i + Lead(p) <= |s| && LeadsAt(p, s, i))
  {
    if i + Lead(p) <= |s| && LeadsAt(p, s, i) then
      Some(Lead(p) + RunLength(p, s, i + Lead(p)))
    else None
  }

  /** A match is a whole token of its pattern, and the text cannot extend it. */
  lemma MatchLenIsToken(p: Pattern, s: string, i: nat)
    requires i <= |s| && MatchLen(p, s, i).Some?
    ensures IsToken(p, s[i..i + MatchLen(p, s, i).value])
    ensures var e := i + MatchLen(p, s, i).value; e == |s| || !InClass(p, s[e])
  {
    var n := MatchLen(p, s, i).value;
    assert i + Lead(p) <= |s| && LeadsAt(p, s, i);
    assert n == Lead(p) + RunLength(p, s, i + Lead(p));
    RunLengthIsRun(p, s, i + Lead(p));
    TokenAt(p, s, i, n);
  }

  /** The fixed part at `i` and a run of class characters after it make a token. */
  lemma TokenAt(p: Pattern, s: string, i: nat, n: nat)
    requires i + Lead(p) <= |s| && LeadsAt(p, s, i)
    requires Lead(p) <= n && i + n <= |s|
    requires forall k :: i + Lead(p) <= k < i + n ==> InClass(p, s[k])
    ensures IsToken(p, s[i..i + n])
  {
    var t := s[i..i + n];
    LeadsAtSlice(p, s, i, n);
    forall k | Lead(p) <= k < |t| ensures InClass(p, t[k]) {
      assert t[k] == s[i + k];
    }
  }

  lemma LeadsAtSlice(p: Pattern, s: string, i: nat, n: nat)
    requires i + Lead(p) <= |s| && LeadsAt(p, s, i)
    requires Lead(p) <= n && i + n <= |s|
    ensures LeadsAt(p, s[i..i + n], 0)
  {
    assert s[i..i + n][0..Lead(p)] == s[i..i + Lead(p)];
    LeadsAtLocal(p, s, i, s[i..i + n], 0);
  }

  /**
   * `re.findall`: matches are taken left to right and scanning resumes after
   * each one. `s` is the text not yet scanned: a match at its start is taken
   * whole, otherwise scanning moves on by one character.
   */
  function Scan(p: Pattern, s: string): seq<string>
    decreases |s|
  {
    if s == [] then []
    else
      match MatchLen(p, s, 0)
      case Some(n) => [s[..n]] + Scan(p, s[n..])
      case None => Scan(p, s[1..])
  }

  /** Every string the scan returns is a whole match of its pattern. */
  lemma {:induction false} ScanTokens(p: Pattern, s: string)
    ensures forall k :: 0 <= k < |Scan(p, s)| ==> IsToken(p, Scan(p, s)[k])
    decreases |s|
  {
    if s != [] {
      var m := MatchLen(p, s, 0);
      if m.Some? {
        MatchLenIsToken(p, s, 0);
        assert s[0..m.value] == s[..m.value];
        ScanTokens(p, s[m.value..]);
      } else {
        ScanTokens(p, s[1..]);
      }
    }
  }

  function FindAll(p: Pattern, s: string): (r: seq<string>)
    ensures forall k :: 0 <= k < |r| ==> IsToken(p, r[k])
  {
    ScanTokens(p, s);
    Scan(p, s)
  }

  // ------------------------------------------------------- collabs

  /** `collab.lower()`, then drop one trailing `.` or `-`. */
  function Normalize(t: string): (r: string)
    requires t != []
    ensures r <= Lower(t) && |t| - 1 <= |r|
    ensures |r| < |t| <==> Lower(t)[|t| - 1] in {'.', '-'}
  {
    var l := Lower(t);
    if l[|l| - 1] == '.' || l[|l| - 1] == '-' then l[..|l| - 1] else l
  }

  function NormalizeAll(ts: seq<string>): (r: seq<string>)
    requires forall k :: 0 <= k < |ts| ==> ts[k] != []
    ensures |r| == |ts| && forall k :: 0 <= k < |ts| ==> r[k] == Normalize(ts[k])
  {
    seq(|ts|, k requires 0 <= k < |ts| => Normalize(ts[k]))
  }

  /** The collab tokens of one post: the mentions, then the profile URLs. */
  function PostCollabTokens(content: string): (r: seq<string>)
    ensures forall k :: 0 <= k < |r| ==> IsToken(Mention, r[k]) || IsToken(ProfileUrl, r[k])
  {
    var mentions := FindAll(Mention, content);
    var urls := FindAll(ProfileUrl, content);
    var r := mentions + urls;
    assert forall k :: 0 <= k < |r| ==> r[k] == if k < |mentions| then mentions[k] else urls[k - |mentions|];
    r
  }

  /** The normalised collab tokens of all posts, post after post. */
  function CollabTokens(posts: seq<Post>): seq<string>
    decreases |posts|
  {
    if posts == [] then []
    else
      var ts := PostCollabTokens(posts[|posts| - 1].content);
      CollabTokens(posts[..|posts| - 1]) + NormalizeAll(ts)
  }

  /** The loop filling `collabs` in `display_user_collabs`. */
  method CollectCollabs(posts: seq<Post>) returns (collabs: seq<string>)
    ensures collabs == CollabTokens(posts)
  {
    collabs := [];
    var i := 0;
    while i < |posts|
      invariant 0 <= i <= |posts|
      invariant collabs == CollabTokens(posts[..i])
    {
      collabs := AddCollabs(collabs, PostCollabTokens(posts[i].content));
      assert posts[..i + 1][..i] == posts[..i];
      i := i + 1;
    }
    assert posts[..i] == posts;
  }

  /** The inner loop of `display_user_collabs`, over the tokens of one post. */
  method AddCollabs(collabs0: seq<string>, postCollabs: seq<string>) returns (collabs: seq<string>)
    requires forall k :: 0 <= k < |postCollabs| ==> postCollabs[k] != []
    ensures collabs == collabs0 + NormalizeAll(postCollabs)
  {
    collabs := collabs0;
    var j := 0;
    while j < |postCollabs|
      invariant 0 <= j <= |postCollabs|
      invariant collabs == collabs0 + NormalizeAll(postCollabs[..j])
    {
      var collab := Normalize(postCollabs[j]);
      assert NormalizeAll(postCollabs[..j + 1]) == NormalizeAll(postCollabs[..j]) + [collab];
      collabs := collabs + [collab];
      j := j + 1;
    }
    assert postCollabs[..j] == postCollabs;
  }

  /** Python's `collab[1:]`. */
  function CollabName(c: string): string {
    if c == [] then [] else c[1..]
  }

  function ProfileApiUrl(site: Site, user: string): string {
    Https + site.host + "/api/v1/" + site.service + "/user/" + user + "/profile"
  }

  function UserPageUrl(site: Site, user: string): string {
    Https + site.host + "/" + site.service + "/user/" + user
  }

  // ------------------------------------------------------- probe

  const MaxTries := 3
  const StatusOk := 200
  const StatusNotFound := 404

  datatype ProbeResult = ProbeResult(found: bool, attempts: nat)

  /**
   * The probe from attempt `k` on; `status(url, j)` is the status of the
   * GET of attempt `j`. It stops at the first 200 (found) or 404 (not
   * found) and gives up after three attempts.
   */
  function ProbeFrom(url: string, status: (string, nat) -> int, k: nat): (r: ProbeResult)
    requires k <= MaxTries
    ensures k <= r.attempts <= MaxTries
    ensures k < MaxTries ==> k < r.attempts
    ensures forall j :: k <= j < r.attempts - 1 ==> status(url, j) != StatusOk && status(url, j) != StatusNotFound
    ensures r.found <==> k < r.attempts && status(url, r.attempts - 1) == StatusOk
    ensures k < r.attempts < MaxTries ==>
      status(url, r.attempts - 1) == StatusOk || status(url, r.attempts - 1) == StatusNotFound
    decreases MaxTries - k
  {
    if k == MaxTries then ProbeResult(false, k)
    else if status(url, k) == StatusOk then ProbeResult(true, k + 1)
    else if status(url, k) == StatusNotFound then ProbeResult(false, k + 1)
    else ProbeFrom(url, status, k + 1)
  }

  function Probe(site: Site, user: string, status: (string, nat) -> int): ProbeResult {
    ProbeFrom(ProfileApiUrl(site, user), status, 0)
  }

  /** `__check_user_exists`: the `nbTries` loop. */
  method CheckUserExists(site: Site, user: string, status: (string, nat) -> int)
    returns (found: bool, attempts: nat)
    ensures ProbeResult(found, attempts) == Probe(site, user, status)
  {
    var requestUrl := Https + site.host + "/api/v1/" + site.service + "/user/" + user + "/profile";
    var nbTries := 0;
    while nbTries < MaxTries
      invariant 0 <= nbTries <= MaxTries
      invariant ProbeFrom(requestUrl, status, nbTries) == Probe(site, user, status)
    {
      var code := status(requestUrl, nbTries);
      if code == StatusOk {
        return true, nbTries + 1;
      } else if code == StatusNotFound {
        return false, nbTries + 1;
      } else {
        nbTries := nbTries + 1;
      }
    }
    return false, nbTries;
  }

  /** The line printed for one sorted collab token. */
  function CollabLine(site: Site, status: (string, nat) -> int, c: string): string {
    var name := CollabName(c);
    name + " : " + (if Probe(site, name, status).found then UserPageUrl(site, name) else "")
  }

  function CollabReport(site: Site, status: (string, nat) -> int, sorted: seq<string>): (r: seq<string>)
    ensures |r| == |sorted| && forall k :: 0 <= k < |r| ==> r[k] == CollabLine(site, status, sorted[k])
  {
    seq(|sorted|, k requires 0 <= k < |sorted| => CollabLine(site, status, sorted[k]))
  }

  /** The body of the printing loop: drop the first character, probe, format. */
  method ReportCollab(site: Site, status: (string, nat) -> int, c: string) returns (line: string)
    ensures line == CollabLine(site, status, c)
  {
    var collab := CollabName(c);
    var found, _ := CheckUserExists(site, collab, status);
    var result := if found then Https + site.host + "/" + site.service + "/user/" + collab else "";
    line := collab + " : " + result;
  }

  /** `display_user_collabs`: the printed lines, one per distinct token, in sorted order. */
  method DisplayUserCollabs(site: Site, userId: string, feed: seq<seq<Post>>, status: (string, nat) -> int)
    returns (lines: seq<string>)
    ensures lines == CollabReport(site, status, SortedSet(CollabTokens(Listing(userId, NoFilter, false, feed))))
  {
    var postList, _ := GetUserPosts(userId, NoFilter, false, feed);
    var collabs := CollectCollabs(postList);
    lines := ReportCollabs(site, status, SortedSet(collabs));
  }

  /** The printing loop of `display_user_collabs`, over the sorted tokens. */
  method ReportCollabs(site: Site, status: (string, nat) -> int, sorted: seq<string>) returns (lines: seq<string>)
    ensures lines == CollabReport(site, status, sorted)
  {
    lines := [];
    var i := 0;
    while i < |sorted|
      invariant 0 <= i <= |sorted|
      invariant lines == CollabReport(site, status, sorted[..i])
    {
      var line := ReportCollab(site, status, sorted[i]);
      assert CollabReport(site, status, sorted[..i + 1]) == CollabReport(site, status, sorted[..i]) + [line];
      lines := lines + [line];
      i := i + 1;
    }
    assert sorted[..i] == sorted;
  }

  // ------------------------------------------------------- links

  function LinkTokens(posts: seq<Post>): seq<string>
    decreases |posts|
  {
    if posts == [] then []
    else LinkTokens(posts[..|posts| - 1]) + FindAll(Link, posts[|posts| - 1].content)
  }

  /** The loop filling `links` in `display_user_links`. */
  method CollectLinks(posts: seq<Post>) returns (links: seq<string>)
    ensures links == LinkTokens(posts)
  {
    links := [];
    var i := 0;
    while i < |posts|
      invariant 0 <= i <= |posts|
      invariant links == LinkTokens(posts[..i])
    {
      var postLinks := FindAll(Link, posts[i].content);
      ghost var before := links;
      var j := 0;
      while j < |postLinks|
        invariant 0 <= j <= |postLinks|
        invariant links == before + postLinks[..j]
      {
        assert postLinks[..j + 1] == postLinks[..j] + [postLinks[j]];
        links := links + [postLinks[j]];
        j := j + 1;
      }
      assert postLinks[..j] == postLinks;
      assert posts[..i + 1][..i] == posts[..i];
      i := i + 1;
    }
    assert posts[..i] == posts;
  }

  /** `display_user_links`: the printed lines. */
  method DisplayUserLinks(userId: string, feed: seq<seq<Post>>) returns (lines: seq<string>)
    ensures lines == SortedSet(LinkTokens(Listing(userId, NoFilter, false, feed)))
  {
    var postList, _ := GetUserPosts(userId, NoFilter, false, feed);
    var links := CollectLinks(postList);
    lines := SortedSet(links);
  }

  // ------------------------------------------------------- properties

  lemma {:induction false} RunLengthToEnd(p: Pattern, s: string, i: nat)
    requires i <= |s|
    requires forall k :: i <= k < |s| ==> InClass(p, s[k])
    ensures RunLength(p, s, i) == |s| - i
    decreases |s| - i
  {
    if i < |s| {
      RunLengthToEnd(p, s, i + 1);
    }
  }

  /** A token scanned on its own is found whole, once: the scanner and
    * `IsToken` agree. */
  lemma TokenScansToItself(p: Pattern, t: string)
    requires IsToken(p, t)
    ensures FindAll(p, t) == [t]
  {
    RunLengthToEnd(p, t, Lead(p));
    assert MatchLen(p, t, 0) == Some(|t|);
    assert t[..|t|] == t && t[|t|..] == [];
    assert Scan(p, t) == [t] + Scan(p, []);
  }

  lemma LeadsAtDrop(p: Pattern, s: string, n: nat, i: nat)
    requires n + i + Lead(p) <= |s|
    ensures LeadsAt(p, s[n..], i) == LeadsAt(p, s, n + i)
  {
    assert s[n..][i..i + Lead(p)] == s[n + i..n + i + Lead(p)];
    LeadsAtLocal(p, s[n..], i, s, n + i);
  }

  /** Where the fixed part of `p` never occurs, nothing is found. */
  lemma {:induction false} NoLeadNoToken(p: Pattern, s: string)
    requires forall k: nat :: k + Lead(p) <= |s| ==> !LeadsAt(p, s, k)
    ensures FindAll(p, s) == []
    decreases |s|
  {
    if s != [] {
      forall k: nat | k + Lead(p) <= |s[1..]| ensures !LeadsAt(p, s[1..], k) {
        LeadsAtDrop(p, s, 1, k);
      }
      NoLeadNoToken(p, s[1..]);
    }
  }

  /** A text without `@` mentions nobody. */
  lemma NoAtNoMention(s: string)
    requires forall k :: 0 <= k < |s| ==> s[k] != '@'
    ensures FindAll(Mention, s) == []
  {
    NoLeadNoToken(Mention, s);
  }

  /** `t` occurs in `s` at `j` and the greedy run of `p` ends with it: the end
    * of `s` or a character outside the class follows. */
  predicate MaximalAt(p: Pattern, s: string, j: nat, t: string) {
    && j + |t| <= |s| && s[j..j + |t|] == t
    && (j + |t| == |s| || !InClass(p, s[j + |t|]))
  }

  /** `t` occurs somewhere in `s` as a run that cannot be extended. */
  ghost predicate OccursMaximal(p: Pattern, s: string, t: string) {
    exists j: nat :: MaximalAt(p, s, j, t)
  }

  /** Whether the fixed part occurs at a position depends only on the
    * characters it covers. */
  lemma LeadsAtLocal(p: Pattern, s: string, i: nat, t: string, j: nat)
    requires i + Lead(p) <= |s| && j + Lead(p) <= |t|
    requires s[i..i + Lead(p)] == t[j..j + Lead(p)]
    ensures LeadsAt(p, s, i) == LeadsAt(p, t, j)
  {
    var u := s[i..i + Lead(p)];
    match p
    case Mention =>
      assert s[i] == u[0] == t[j];
    case ProfileUrl =>
      var m := |OnlyfansPrefix|;
      assert s[i..i + m] == u[..m] == t[j..j + m];
      assert s[i + m] == u[m] == t[j + m];
      assert s[i + m + 1..i + Lead(p)] == u[m + 1..] == t[j + m + 1..j + Lead(p)];
    case Link =>
      assert s[i..i + |Https|] == u == t[j..j + |Https|];
  }

  /** Every match the scan returns occurs in the text and runs to the end of
    * its run of class characters. */
  lemma {:induction false} ScanMaximal(p: Pattern, s: string)
    ensures forall k :: 0 <= k < |Scan(p, s)| ==> OccursMaximal(p, s, Scan(p, s)[k])
    decreases |s|
  {
    if s != [] {
      var r := Scan(p, s);
      var m := MatchLen(p, s, 0);
      var n := if m.Some? then m.value else 1;
      var rest := Scan(p, s[n..]);
      ScanMaximal(p, s[n..]);
      forall k | 0 <= k < |r| ensures OccursMaximal(p, s, r[k]) {
        if m.Some? && k == 0 {
          MatchLenIsToken(p, s, 0);
          assert r[0] == s[..n] == s[0..n];
          assert MaximalAt(p, s, 0, r[0]);
        } else {
          var k' := if m.Some? then k - 1 else k;
          assert r[k] == rest[k'];
          var j: nat :| MaximalAt(p, s[n..], j, rest[k']);
          MaximalAtDrop(p, s, n, j, rest[k']);
        }
      }
    }
  }

  lemma MaximalAtDrop(p: Pattern, s: string, n: nat, j: nat, t: string)
    requires n <= |s| && MaximalAt(p, s[n..], j, t)
    ensures MaximalAt(p, s, n + j, t)
  {
    assert s[n..][j..j + |t|] == s[n + j..n + j + |t|];
    if n + j + |t| < |s| {
      assert s[n..][j + |t|] == s[n + j + |t|];
    }
  }

  /** Every link or collab token found occurs in the post's text and cannot
    * be extended there. */
  lemma FindAllMaximal(p: Pattern, s: string)
    ensures forall k :: 0 <= k < |FindAll(p, s)| ==> OccursMaximal(p, s, FindAll(p, s)[k])
  {
    ScanMaximal(p, s);
  }

  /** A character outside the class ends every run that reaches it. */
  lemma {:induction false} RunLengthCut(p: Pattern, a: string, c: char, b: string, i: nat)
    requires i <= |a| && !InClass(p, c)
    ensures RunLength(p, a + [c] + b, i) == RunLength(p, a, i)
    decreases |a| - i
  {
    if i < |a| {
      assert (a + [c] + b)[i] == a[i];
      RunLengthCut(p, a, c, b, i + 1);
    } else {
      assert (a + [c] + b)[i] == c;
    }
  }

  /** No occurrence of the fixed part of `p` in `s` covers position `m`. */
  predicate NoLeadAcross(p: Pattern, s: string, m: nat) {
    forall i: nat :: i <= m < i + Lead(p) && i + Lead(p) <= |s| ==> !LeadsAt(p, s, i)
  }

  lemma NoLeadAcrossDrop(p: Pattern, s: string, m: nat, n: nat)
    requires n <= m && n <= |s| && NoLeadAcross(p, s, m)
    ensures NoLeadAcross(p, s[n..], m - n)
  {
    forall i: nat | i <= m - n < i + Lead(p) && i + Lead(p) <= |s[n..]|
      ensures !LeadsAt(p, s[n..], i)
    {
      LeadsAtDrop(p, s, n, i);
    }
  }

  lemma MatchLenCut(p: Pattern, a: string, c: char, b: string)
    requires !InClass(p, c) && NoLeadAcross(p, a + [c] + b, |a|)
    ensures MatchLen(p, a + [c] + b, 0) == MatchLen(p, a, 0)
  {
    var s := a + [c] + b;
    if Lead(p) <= |a| {
      assert s[0..Lead(p)] == a[0..Lead(p)];
      LeadsAtLocal(p, s, 0, a, 0);
      RunLengthCut(p, a, c, b, Lead(p));
    }
  }

  /** Scanning stops at a separator `c` that no match can cover and resumes
    * after it. */
  lemma {:induction false} ScanCut(p: Pattern, a: string, c: char, b: string)
    requires !InClass(p, c) && NoLeadAcross(p, a + [c] + b, |a|)
    ensures Scan(p, a + [c] + b) == Scan(p, a) + Scan(p, b)
    decreases |a|
  {
    var s := a + [c] + b;
    MatchLenCut(p, a, c, b);
    if a == [] {
      assert s[1..] == b;
    } else {
      var m := MatchLen(p, a, 0);
      var n := if m.Some? then m.value else 1;
      assert s[n..] == a[n..] + [c] + b;
      NoLeadAcrossDrop(p, s, |a|, n);
      ScanCut(p, a[n..], c, b);
      if m.Some? {
        assert s[..n] == a[..n];
        AppendAssoc([a[..n]], Scan(p, a[n..]), Scan(p, b));
      }
    }
  }

  /**
   * `re.findall` finds every match, in text order: across a character `c`
   * that no match can run through (outside the class, and covered by no
   * occurrence of the fixed part), the matches are those of the text before
   * `c` followed by those of the text after it.
   */
  lemma FindAllSplit(p: Pattern, a: string, c: char, b: string)
    requires !InClass(p, c) && NoLeadAcross(p, a + [c] + b, |a|)
    ensures FindAll(p, a + [c] + b) == FindAll(p, a) + FindAll(p, b)
  {
    ScanCut(p, a, c, b);
  }

  /** Links are split by a space, `<` or `"`: none of these is in `https://`. */
  lemma LinksSplitAtSeparator(a: string, c: char, b: string)
    requires !InClass(Link, c)
    ensures FindAll(Link, a + [c] + b) == FindAll(Link, a) + FindAll(Link, b)
  {
    var s := a + [c] + b;
    assert forall k :: 0 <= k < |Https| ==> Https[k] != c;
    forall i: nat | i <= |a| < i + Lead(Link) && i + Lead(Link) <= |s|
      ensures !LeadsAt(Link, s, i)
    {
      assert s[i..i + |Https|][|a| - i] == c;
    }
    FindAllSplit(Link, a, c, b);
  }

  /** Mentions are split by any character outside their class other than `@`. */
  lemma MentionsSplitAtSeparator(a: string, c: char, b: string)
    requires !InClass(Mention, c) && c != '@'
    ensures FindAll(Mention, a + [c] + b) == FindAll(Mention, a) + FindAll(Mention, b)
  {
    assert (a + [c] + b)[|a|] == c;
    FindAllSplit(Mention, a, c, b);
  }

  /**
   * Profile URLs are split by a character outside their class other than `:`,
   * unless the text before it ends with `https://onlyfans`: the unescaped `.`
   * of the pattern would then match the separator itself.
   */
  lemma ProfileUrlsSplitAtSeparator(a: string, c: char, b: string)
    requires !InClass(ProfileUrl, c) && c != ':'
    requires |a| < |OnlyfansPrefix| || a[|a| - |OnlyfansPrefix|..] != OnlyfansPrefix
    ensures FindAll(ProfileUrl, a + [c] + b) == FindAll(ProfileUrl, a) + FindAll(ProfileUrl, b)
  {
    var s := a + [c] + b;
    var m := |OnlyfansPrefix|;
    var lead := Lead(ProfileUrl);
    assert forall k :: 0 <= k < m ==> OnlyfansPrefix[k] != c;
    assert forall k :: 0 <= k < |ComPath| ==> ComPath[k] != c;
    forall i: nat | i <= |a| < i + lead && i + lead <= |s|
      ensures !LeadsAt(ProfileUrl, s, i)
    {
      if |a| < i + m {
        assert s[i..i + m][|a| - i] == c;
      } else if |a| == i + m {
        assert s[i..i + m] == a[|a| - m..];
      } else {
        assert s[i + m + 1..i + lead][|a| - i - m - 1] == c;
      }
    }
    FindAllSplit(ProfileUrl, a, c, b);
  }

  /** Every collab token of a post is a mention or a profile URL that
    * occurs in the post and cannot be extended there. */
  lemma PostCollabTokensMaximal(content: string)
    ensures forall k :: 0 <= k < |PostCollabTokens(content)| ==>
      OccursMaximal(Mention, content, PostCollabTokens(content)[k])
      || OccursMaximal(ProfileUrl, content, PostCollabTokens(content)[k])
  {
    var mentions := FindAll(Mention, content);
    var urls := FindAll(ProfileUrl, content);
    FindAllMaximal(Mention, content);
    FindAllMaximal(ProfileUrl, content);
    assert PostCollabTokens(content) == mentions + urls;
  }

  /**
   * Across a separator of both patterns, a post's collab tokens are the
   * mentions of each part in turn, then the profile URLs of each part.
   */
  lemma PostCollabTokensSplit(a: string, c: char, b: string)
    requires !InClass(Mention, c) && c != '@' && !InClass(ProfileUrl, c) && c != ':'
    requires |a| < |OnlyfansPrefix| || a[|a| - |OnlyfansPrefix|..] != OnlyfansPrefix
    ensures PostCollabTokens(a + [c] + b)
            == FindAll(Mention, a) + FindAll(Mention, b) + FindAll(ProfileUrl, a) + FindAll(ProfileUrl, b)
  {
    MentionsSplitAtSeparator(a, c, b);
    ProfileUrlsSplitAtSeparator(a, c, b);
  }

  lemma LowerKeepsLowerPrefix(t: string)
    requires |OnlyfansPrefix| <= |t| && t[..|OnlyfansPrefix|] == OnlyfansPrefix
    ensures Lower(t)[..|OnlyfansPrefix|] == OnlyfansPrefix
  {
    forall k | 0 <= k < |OnlyfansPrefix| ensures Lower(t)[k] == OnlyfansPrefix[k] {
      assert t[k] == OnlyfansPrefix[k];
    }
  }

  /** A normalised mention is `@` followed by the collab's name, in lower case. */
  lemma MentionCollabName(t: string)
    requires IsToken(Mention, t)
    ensures var c := Normalize(t);
      && c != [] && c[0] == '@' && "@" + CollabName(c) == c
      && Lower(c) == c
  {
    var c := Normalize(t);
    assert Lower(t)[0] == '@';
    LowerIdempotent(t);
    assert c == Lower(t)[..|c|];
  }

  /** A normalised profile URL keeps its `https://onlyfans` prefix, so its
    * name, with the first character dropped, starts `ttps://onlyfans`. */
  lemma UrlCollabLosesH(t: string)
    requires IsToken(ProfileUrl, t)
    ensures var c := Normalize(t);
      && |c| >= |OnlyfansPrefix| && c[..|OnlyfansPrefix|] == OnlyfansPrefix
      && CollabName(c)[..|OnlyfansPrefix| - 1] == OnlyfansPrefix[1..]
  {
    var c := Normalize(t);
    LowerKeepsLowerPrefix(t);
    assert c[..|OnlyfansPrefix|] == Lower(t)[..|OnlyfansPrefix|];
  }

  /** In lower case and starting with `@` or `https://onlyfans`. */
  predicate CollabShaped(c: string) {
    && c != [] && Lower(c) == c
    && (c[0] == '@' || (|c| >= |OnlyfansPrefix| && c[..|OnlyfansPrefix|] == OnlyfansPrefix))
  }

  lemma NormalizedTokenShape(t: string)
    requires IsToken(Mention, t) || IsToken(ProfileUrl, t)
    ensures CollabShaped(Normalize(t))
  {
    var c := Normalize(t);
    LowerIdempotent(t);
    assert c == Lower(t)[..|c|];
    if IsToken(Mention, t) {
      MentionCollabName(t);
    } else {
      UrlCollabLosesH(t);
    }
  }

  lemma PostCollabShape(content: string)
    ensures forall c :: c in NormalizeAll(PostCollabTokens(content)) ==> CollabShaped(c)
  {
    var ts := PostCollabTokens(content);
    forall k | 0 <= k < |ts| ensures CollabShaped(NormalizeAll(ts)[k]) {
      NormalizedTokenShape(ts[k]);
    }
  }

  /** Every collab token is in lower case and starts with `@` or `https://onlyfans`. */
  lemma {:induction false} CollabTokensShape(posts: seq<Post>)
    ensures forall c :: c in CollabTokens(posts) ==>
      && c != [] && Lower(c) == c
      && (c[0] == '@' || (|c| >= |OnlyfansPrefix| && c[..|OnlyfansPrefix|] == OnlyfansPrefix))
    decreases |posts|
  {
    if posts != [] {
      var pre := posts[..|posts| - 1];
      var content := posts[|posts| - 1].content;
      CollabTokensShape(pre);
      PostCollabShape(content);
      assert CollabTokens(posts) == CollabTokens(pre) + NormalizeAll(PostCollabTokens(content));
      forall c | c in CollabTokens(posts) ensures CollabShaped(c) {
        if c !in CollabTokens(pre) {
          assert c in NormalizeAll(PostCollabTokens(content));
        }
      }
    }
  }

  /** Every link is `https://` followed by characters other than space, `<` and `"`. */
  lemma {:induction false} LinkTokensAreLinks(posts: seq<Post>)
    ensures forall l :: l in LinkTokens(posts) ==> IsToken(Link, l)
    decreases |posts|
  {
    if posts != [] {
      LinkTokensAreLinks(posts[..|posts| - 1]);
    }
  }

  /** The printed links: sorted, without repeats, exactly the links found in the posts. */
  lemma LinkListing(userId: string, feed: seq<seq<Post>>)
    ensures var tokens := LinkTokens(Listing(userId, NoFilter, false, feed));
      var lines := SortedSet(tokens);
      && StrictlySorted(lines)
      && (forall l :: l in lines <==> l in tokens)
      && (forall l :: l in lines ==> IsToken(Link, l))
  {
    var tokens := LinkTokens(Listing(userId, NoFilter, false, feed));
    LinkTokensAreLinks(Listing(userId, NoFilter, false, feed));
    assert forall l :: l in SortedSet(tokens) <==> l in Elems(tokens);
  }

  /** One line per distinct collab token, in sorted order; each line holds the
    * name, and the user page exactly when the probe found the profile. */
  lemma CollabListing(site: Site, status: (string, nat) -> int, posts: seq<Post>)
    ensures var sorted := SortedSet(CollabTokens(posts));
      var lines := CollabReport(site, status, sorted);
      && StrictlySorted(sorted)
      && (forall c :: c in sorted <==> c in CollabTokens(posts))
      && |lines| == |sorted|
      && forall k :: 0 <= k < |lines| ==>
        var name := CollabName(sorted[k]);
        && lines[k][..|name| + 3] == name + " : "
        && (Probe(site, name, status).found ==> lines[k][|name| + 3..] == UserPageUrl(site, name))
        && (!Probe(site, name, status).found ==> |lines[k]| == |name| + 3)
  {
    var sorted := SortedSet(CollabTokens(posts));
    assert forall c :: c in sorted <==> c in Elems(CollabTokens(posts));
  }
}
