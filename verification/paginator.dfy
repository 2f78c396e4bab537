/**
 * `__get_user_posts`: walks a user's post feed page by page (or the
 * favourites list in one request), skips posts until a start post or date is
 * reached, stops at an end post or date, and returns the posts in feed order
 * or reversed.
 */
module Paginator {
  import opened Wrappers
  import opened Posts

  /** The pseudo user id that selects the account's favourite posts. */
  const Favorites := "myFavoritePosts"

  /** The step of the `o=` offset parameter between two page requests. */
  const PageSize := 50

  /** The optional bounds of a listing. Post ids are strings; an empty
    * string is falsy in Python and so behaves as no bound. */
  datatype Filter = Filter(
    fromDate: Option<int>,
    toDate: Option<int>,
    fromPostId: Option<string>,
    toPostId: Option<string>)

  const NoFilter := Filter(None, None, None, None)

  predicate Truthy(id: Option<string>) {
    id.Some? && id.value != ""
  }

  /** The start gate is still closed for `p`. */
  predicate Skipped(f: Filter, p: Post) {
    || (Truthy(f.fromPostId) && f.fromPostId.value != p.id)
    || (f.fromDate.Some? && f.fromDate.value < p.added)
  }

  /** `p` ends the listing (it is not included). */
  predicate Stops(f: Filter, p: Post) {
    || (Truthy(f.toPostId) && f.toPostId.value == p.id)
    || (f.toDate.Some? && f.toDate.value > p.added)
  }

  /** The bounds once the gate has opened: both start bounds are cleared. */
  function Opened(f: Filter): Filter {
    f.(fromDate := None, fromPostId := None)
  }

  /** The posts of stream `s` that the listing keeps, in feed order. */
  function Select(s: seq<Post>, f: Filter): seq<Post>
    decreases |s|
  {
    if s == [] then []
    else if Skipped(f, s[0]) then Select(s[1..], f)
    else if Stops(f, s[0]) then []
    else [s[0]] + Select(s[1..], Opened(f))
  }

  lemma AppendAssoc<T>(a: seq<T>, b: seq<T>, c: seq<T>)
    ensures a + (b + c) == (a + b) + c
  {
  }

  /** One step of `Select`, as the loop takes it. */
  lemma SelectStep(s: seq<Post>, f: Filter)
    requires s != []
    ensures Skipped(f, s[0]) ==> Select(s, f) == Select(s[1..], f)
    ensures !Skipped(f, s[0]) && Stops(f, s[0]) ==> Select(s, f) == []
    ensures !Skipped(f, s[0]) && !Stops(f, s[0]) ==> Select(s, f) == [s[0]] + Select(s[1..], Opened(f))
  {
  }

  /** The start bounds left after walking `s` from bounds `f`, or `None`
    * once a post meets an end bound: the state the loop carries. */
  function Walk(s: seq<Post>, f: Filter): Option<Filter>
    decreases |s|
  {
    if s == [] then Some(f)
    else if Skipped(f, s[0]) then Walk(s[1..], f)
    else if Stops(f, s[0]) then None
    else Walk(s[1..], Opened(f))
  }

  /** Walking `a + b` is walking `a`, then `b` from where `a` left off. */
  lemma {:induction false} WalkConcat(a: seq<Post>, b: seq<Post>, f: Filter)
    ensures Walk(a + b, f) == if Walk(a, f).None? then None else Walk(b, Walk(a, f).value)
    decreases |a|
  {
    if a != [] {
      assert (a + b)[0] == a[0] && (a + b)[1..] == a[1..] + b;
      WalkConcat(a[1..], b, if Skipped(f, a[0]) then f else Opened(f));
    } else {
      assert a + b == b;
    }
  }

  // ------------------------------------------------------- the feed

  datatype Request = UserPage(offset: nat) | FavoritesList

  /**
   * The page the loop obtains at its `k`-th turn. `feed[k]` is the server's
   * answer for offset `50 * k` (pages past the end of `feed` are empty); for
   * the favourites user `feed[0]` is the answer to the single favourites
   * request and every later turn sees an empty page without asking.
   */
  function Fetched(userId: string, feed: seq<seq<Post>>, k: nat): seq<Post> {
    if userId != Favorites then (if k < |feed| then feed[k] else [])
    else if k == 0 && |feed| > 0 then feed[0] else []
  }

  /** The posts the loop walks through from turn `k` on: the pages up to the
    * first empty one. */
  function Stream(userId: string, feed: seq<seq<Post>>, k: nat): seq<Post>
    decreases |feed| - k
  {
    var page := Fetched(userId, feed, k);
    if page == [] then [] else page + Stream(userId, feed, k + 1)
  }

  /** The posts of the pages the first `k` turns of the loop walk through. */
  function Walked(userId: string, feed: seq<seq<Post>>, k: nat): seq<Post> {
    if k == 0 then [] else Walked(userId, feed, k - 1) + Fetched(userId, feed, k - 1)
  }

  /** While no page was empty, the stream is the pages walked so far followed
    * by the rest. */
  lemma {:induction false} StreamSplit(userId: string, feed: seq<seq<Post>>, k: nat)
    requires forall j :: 0 <= j < k ==> Fetched(userId, feed, j) != []
    ensures Stream(userId, feed, 0) == Walked(userId, feed, k) + Stream(userId, feed, k)
  {
    if k > 0 {
      StreamSplit(userId, feed, k - 1);
      AppendAssoc(Walked(userId, feed, k - 1), Fetched(userId, feed, k - 1), Stream(userId, feed, k));
    }
  }

  function Reversed<T>(s: seq<T>): seq<T>
    decreases |s|
  {
    if s == [] then [] else [s[|s| - 1]] + Reversed(s[..|s| - 1])
  }

  lemma ReversedSnoc<T>(s: seq<T>, x: T)
    ensures Reversed(s + [x]) == [x] + Reversed(s)
  {
    assert (s + [x])[..|s|] == s;
  }

  /** `insert(0, p)` at every step builds the mirror image of `append`. */
  lemma {:induction false} ReversedAt<T>(s: seq<T>, i: nat)
    requires i < |s|
    ensures |Reversed(s)| == |s| && Reversed(s)[i] == s[|s| - 1 - i]
    decreases |s|
  {
    if i > 0 {
      ReversedAt(s[..|s| - 1], i - 1);
    } else if |s| > 1 {
      ReversedAt(s[..|s| - 1], 0);
    }
  }

  /** What `__get_user_posts` returns for these arguments. */
  function Listing(userId: string, f: Filter, reverseOrder: bool, feed: seq<seq<Post>>): seq<Post> {
    var forward := Select(Stream(userId, feed, 0), f);
    if reverseOrder then Reversed(forward) else forward
  }

  /** The requests sent by the first `k` turns of the loop. */
  function Requests(userId: string, k: nat): seq<Request> {
    if userId == Favorites then (if k == 0 then [] else [FavoritesList])
    else if k == 0 then []
    else Requests(userId, k - 1) + [UserPage(PageSize * (k - 1))]
  }

  /** The loop sends page offsets 0, 50, 100, ..., or the favourites request once. */
  lemma {:induction false} RequestsShape(userId: string, k: nat)
    ensures userId != Favorites ==>
      |Requests(userId, k)| == k && forall j :: 0 <= j < k ==> Requests(userId, k)[j] == UserPage(PageSize * j)
    ensures userId == Favorites && k >= 1 ==> Requests(userId, k) == [FavoritesList]
  {
    if userId != Favorites && k > 0 {
      RequestsShape(userId, k - 1);
    }
  }

  /**
   * After `n` requests: no post of the pages before the last one meets an end
   * bound, and (for a user's feed) the last page is empty or holds the post
   * that ends the listing.
   */
  predicate StopsAtEnd(userId: string, f: Filter, feed: seq<seq<Post>>, n: nat)
    requires n >= 1
  {
    var end := EndIndex(Stream(userId, feed, 0), f);
    && |Walked(userId, feed, n - 1)| <= end
    && (userId != Favorites ==> Fetched(userId, feed, n - 1) == [] || end < |Walked(userId, feed, n)|)
  }

  /**
   * The loop of `__get_user_posts`. Returns the posts and the requests sent
   * (the page offsets asked for, or the one favourites request).
   */
  method GetUserPosts(userId: string, f: Filter, reverseOrder: bool, feed: seq<seq<Post>>)
    returns (posts: seq<Post>, requests: seq<Request>)
    ensures posts == Listing(userId, f, reverseOrder, feed)
    ensures userId != Favorites ==> |requests| >= 1 && requests == Requests(userId, |requests|)
    ensures userId == Favorites ==> requests == [FavoritesList]
    ensures forall j :: 0 <= j < |requests| - 1 ==> Fetched(userId, feed, j) != []
    ensures |requests| >= 1 && StopsAtEnd(userId, f, feed, |requests|)
  {
    var offset := 0;
    posts := [];
    requests := [];
    var fromDate, fromPostId := f.fromDate, f.fromPostId;
    ghost var k: nat := 0;
    ghost var taken: seq<Post> := [];
    ghost var whole := Stream(userId, feed, 0);
    while true
      invariant offset == PageSize * k && k <= |feed|
      invariant Select(whole, f) == taken + Select(Stream(userId, feed, k), Filter(fromDate, f.toDate, fromPostId, f.toPostId))
      invariant posts == if reverseOrder then Reversed(taken) else taken
      invariant requests == Requests(userId, k)
      invariant forall j :: 0 <= j < k ==> Fetched(userId, feed, j) != []
      invariant Walk(Walked(userId, feed, k), f) == Some(Filter(fromDate, f.toDate, fromPostId, f.toPostId))
      decreases |feed| - k
    {
      var done: bool;
      fromDate, fromPostId, posts, requests, done, taken :=
        Turn(userId, f, reverseOrder, feed, offset, fromDate, fromPostId, posts, requests, k, taken);
      if done {
        Finished(userId, f, reverseOrder, feed, k, taken, posts, requests);
        return;
      }
      forall j | 0 <= j < k + 1 ensures Fetched(userId, feed, j) != [] {
        if j == k {
        }
      }
      offset := offset + PageSize;
      k := k + 1;
    }
  }

  /** The loop's state when it returns after `k + 1` turns gives the listing
    * and the requests `GetUserPosts` promises. */
  lemma Finished(userId: string, f: Filter, reverseOrder: bool, feed: seq<seq<Post>>, k: nat,
                 taken: seq<Post>, posts: seq<Post>, requests: seq<Request>)
    requires Select(Stream(userId, feed, 0), f) == taken + []
    requires posts == if reverseOrder then Reversed(taken) else taken
    requires requests == Requests(userId, k + 1)
    requires forall j :: 0 <= j < k ==> Fetched(userId, feed, j) != []
    requires Walk(Walked(userId, feed, k), f).Some?
    requires Fetched(userId, feed, k) == [] || Walk(Walked(userId, feed, k + 1), f).None?
    ensures posts == Listing(userId, f, reverseOrder, feed)
    ensures userId != Favorites ==> |requests| >= 1 && requests == Requests(userId, |requests|)
    ensures userId == Favorites ==> requests == [FavoritesList]
    ensures forall j :: 0 <= j < |requests| - 1 ==> Fetched(userId, feed, j) != []
    ensures |requests| >= 1 && StopsAtEnd(userId, f, feed, |requests|)
  {
    assert taken + [] == taken;
    RequestsShape(userId, k + 1);
    if userId != Favorites {
      WalkedUpToEnd(userId, f, feed, k);
      assert |requests| == k + 1;
    } else {
      assert Walked(userId, feed, 0) == [];
    }
  }

  /** After `k + 1` turns the loop has walked, without meeting an end bound,
    * the pages before the last one, and the last one was empty or held the
    * end of the listing. */
  lemma WalkedUpToEnd(userId: string, f: Filter, feed: seq<seq<Post>>, k: nat)
    requires forall j :: 0 <= j < k ==> Fetched(userId, feed, j) != []
    requires Walk(Walked(userId, feed, k), f).Some?
    requires Fetched(userId, feed, k) == [] || Walk(Walked(userId, feed, k + 1), f).None?
    ensures StopsAtEnd(userId, f, feed, k + 1)
  {
    var whole := Stream(userId, feed, 0);
    var a := Walked(userId, feed, k);
    StreamSplit(userId, feed, k);
    assert whole[..|a|] == a;
    WalkStopsAt(whole, f, |a|);
    if Fetched(userId, feed, k) != [] {
      var b := Walked(userId, feed, k + 1);
      forall j | 0 <= j < k + 1 ensures Fetched(userId, feed, j) != [] {
        if j == k {
        }
      }
      StreamSplit(userId, feed, k + 1);
      assert whole[..|b|] == b;
      WalkStopsAt(whole, f, |b|);
    }
  }

  /**
   * One turn of the loop: fetch the page at `offset`; an empty page ends the
   * listing, otherwise `ScanPage` walks it. `done` is the loop's `return`.
   */
  method Turn(userId: string, f: Filter, reverseOrder: bool, feed: seq<seq<Post>>, offset: nat,
              fromDate0: Option<int>, fromPostId0: Option<string>, posts0: seq<Post>, requests0: seq<Request>,
              ghost k: nat, ghost taken0: seq<Post>)
    returns (fromDate: Option<int>, fromPostId: Option<string>, posts: seq<Post>, requests: seq<Request>,
             done: bool, ghost taken: seq<Post>)
    requires offset == PageSize * k && requests0 == Requests(userId, k)
    requires posts0 == if reverseOrder then Reversed(taken0) else taken0
    requires Walk(Walked(userId, feed, k), f) == Some(Filter(fromDate0, f.toDate, fromPostId0, f.toPostId))
    ensures requests == Requests(userId, k + 1)
    ensures posts == if reverseOrder then Reversed(taken) else taken
    ensures taken0 + Select(Stream(userId, feed, k), Filter(fromDate0, f.toDate, fromPostId0, f.toPostId))
            == taken + (if done then [] else Select(Stream(userId, feed, k + 1), Filter(fromDate, f.toDate, fromPostId, f.toPostId)))
    ensures !done ==> Fetched(userId, feed, k) != []
    ensures done ==> Fetched(userId, feed, k) == [] || Walk(Walked(userId, feed, k + 1), f).None?
    ensures !done ==> Walk(Walked(userId, feed, k + 1), f) == Some(Filter(fromDate, f.toDate, fromPostId, f.toPostId))
  {
    var page;
    page, requests := FetchPage(userId, offset, feed, requests0, k);

    // No more posts: the listing is complete.
    if |page| == 0 {
      fromDate, fromPostId, posts, done, taken := fromDate0, fromPostId0, posts0, true, taken0;
      assert taken0 + [] == taken0;
      return;
    }

    ghost var rest := Stream(userId, feed, k + 1);
    assert Stream(userId, feed, k) == page + rest;
    ghost var added: seq<Post>;
    fromDate, fromPostId, posts, done, added := ScanPage(page, f, fromDate0, fromPostId0, reverseOrder, posts0, rest);
    AppendAssoc(taken0, added, if done then [] else Select(rest, Filter(fromDate, f.toDate, fromPostId, f.toPostId)));
    ReversedConcat(taken0, added);
    taken := taken0 + added;
    WalkConcat(Walked(userId, feed, k), page, f);
  }

  /** One request of the loop: the page at `offset`, with the request sent
    * for it added to the log (the favourites are asked for once, at offset 0). */
  method FetchPage(userId: string, offset: nat, feed: seq<seq<Post>>, requests0: seq<Request>, ghost k: nat)
    returns (page: seq<Post>, requests: seq<Request>)
    requires offset == PageSize * k && requests0 == Requests(userId, k)
    ensures page == Fetched(userId, feed, k)
    ensures requests == Requests(userId, k + 1)
  {
    requests := requests0;
    if userId != Favorites {
      requests := requests + [UserPage(offset)];
      var index := offset / PageSize;
      page := if index < |feed| then feed[index] else [];
    } else if offset == 0 {
      requests := requests + [FavoritesList];
      page := if |feed| > 0 then feed[0] else [];
    } else {
      page := [];
    }
  }

  /**
   * The inner loop of `__get_user_posts`: walks one page, moving the start
   * gate and adding the posts it keeps (at the end, or at the front when
   * `reverseOrder`). `stopped` is the early `return` at an end bound.
   */
  method ScanPage(page: seq<Post>, f: Filter, fromDate0: Option<int>, fromPostId0: Option<string>,
                  reverseOrder: bool, posts0: seq<Post>, ghost rest: seq<Post>)
    returns (fromDate: Option<int>, fromPostId: Option<string>, posts: seq<Post>, stopped: bool, ghost added: seq<Post>)
    ensures Select(page + rest, Filter(fromDate0, f.toDate, fromPostId0, f.toPostId))
            == added + (if stopped then [] else Select(rest, Filter(fromDate, f.toDate, fromPostId, f.toPostId)))
    ensures posts == if reverseOrder then Reversed(added) + posts0 else posts0 + added
    ensures Walk(page, Filter(fromDate0, f.toDate, fromPostId0, f.toPostId))
            == if stopped then None else Some(Filter(fromDate, f.toDate, fromPostId, f.toPostId))
  {
    ghost var cur0 := Filter(fromDate0, f.toDate, fromPostId0, f.toPostId);
    fromDate, fromPostId, posts := fromDate0, fromPostId0, posts0;
    added := [];
    stopped := false;
    assert page[0..] == page;
    assert page[..0] == [];
    var i := 0;
    while i < |page|
      invariant 0 <= i <= |page|
      invariant Select(page + rest, Filter(fromDate0, f.toDate, fromPostId0, f.toPostId))
                == added + Select(page[i..] + rest, Filter(fromDate, f.toDate, fromPostId, f.toPostId))
      invariant posts == if reverseOrder then Reversed(added) + posts0 else posts0 + added
      invariant Walk(page[..i], cur0) == Some(Filter(fromDate, f.toDate, fromPostId, f.toPostId))
    {
      assert page[i..] + rest == [page[i]] + (page[i + 1..] + rest);
      ghost var cur := Filter(fromDate, f.toDate, fromPostId, f.toPostId);
      fromDate, fromPostId, posts, stopped, added :=
        ScanPost(page[i], f, fromDate, fromPostId, reverseOrder, posts, posts0, added, page[i + 1..] + rest);
      WalkConcat(page[..i], [page[i]], cur0);
      assert page[..i] + [page[i]] == page[..i + 1];
      if stopped {
        WalkConcat(page[..i + 1], page[i + 1..], cur0);
        assert page[..i + 1] + page[i + 1..] == page;
        return;
      }
      i := i + 1;
    }
    assert page[|page|..] + rest == rest;
    assert page[..|page|] == page;
  }

  /** One turn of the inner loop, on `post` followed by `tail`. */
  method ScanPost(post: Post, f: Filter, fromDate0: Option<int>, fromPostId0: Option<string>,
                  reverseOrder: bool, posts0: seq<Post>, ghost start: seq<Post>, ghost added0: seq<Post>,
                  ghost tail: seq<Post>)
    returns (fromDate: Option<int>, fromPostId: Option<string>, posts: seq<Post>, stopped: bool,
             ghost added: seq<Post>)
    requires posts0 == if reverseOrder then Reversed(added0) + start else start + added0
    ensures posts == if reverseOrder then Reversed(added) + start else start + added
    ensures added0 + Select([post] + tail, Filter(fromDate0, f.toDate, fromPostId0, f.toPostId))
            == added + (if stopped then [] else Select(tail, Filter(fromDate, f.toDate, fromPostId, f.toPostId)))
    ensures Walk([post], Filter(fromDate0, f.toDate, fromPostId0, f.toPostId))
            == if stopped then None else Some(Filter(fromDate, f.toDate, fromPostId, f.toPostId))
  {
    var cur := Filter(fromDate0, f.toDate, fromPostId0, f.toPostId);
    assert [post][0] == post && [post][1..] == [];
    fromDate, fromPostId, posts, stopped, added := fromDate0, fromPostId0, posts0, false, added0;
    assert ([post] + tail)[0] == post && ([post] + tail)[1..] == tail;
    SelectStep([post] + tail, cur);

    // Skip posts until the first one that matches the start bounds.
    if Skipped(cur, post) {
      return;
    }

    if Stops(cur, post) {
      stopped := true;
      assert added + [] == added;
      return;
    }

    // From now on every post passes the start gate.
    fromPostId := None;
    fromDate := None;

    if !reverseOrder {
      posts := posts + [post];
    } else {
      posts := [post] + posts;
    }
    Kept(start, added0, post, reverseOrder, Select(tail, Opened(cur)));
    added := added0 + [post];
  }

  /** A kept post joins `added`, and the list at its end (or at its front). */
  lemma Kept(posts0: seq<Post>, added: seq<Post>, post: Post, reverseOrder: bool, tail: seq<Post>)
    ensures added + ([post] + tail) == (added + [post]) + tail
    ensures (posts0 + added) + [post] == posts0 + (added + [post])
    ensures [post] + (Reversed(added) + posts0) == Reversed(added + [post]) + posts0
  {
    AppendAssoc(posts0, added, [post]);
    AppendAssoc([post], Reversed(added), posts0);
    ReversedSnoc(added, post);
    AppendAssoc(added, [post], tail);
  }

  lemma {:induction false} ReversedConcat<T>(a: seq<T>, b: seq<T>)
    ensures Reversed(a + b) == Reversed(b) + Reversed(a)
    decreases |b|
  {
    if b == [] {
      assert a + b == a;
    } else {
      var b' := b[..|b| - 1];
      assert a + b == (a + b') + [b[|b| - 1]];
      ReversedSnoc(a + b', b[|b| - 1]);
      ReversedConcat(a, b');
      ReversedSnoc(b', b[|b| - 1]);
      assert b' + [b[|b| - 1]] == b;
    }
  }

  // ------------------------------------------------------- properties

  /** The index of the first post that gets through the start gate. */
  function GateIndex(s: seq<Post>, f: Filter): (g: nat)
    ensures g <= |s|
    ensures forall k :: 0 <= k < g ==> Skipped(f, s[k])
    ensures g < |s| ==> !Skipped(f, s[g])
    decreases |s|
  {
    if s == [] || !Skipped(f, s[0]) then 0 else 1 + GateIndex(s[1..], f)
  }

  /** The index of the first post that ends the listing. */
  function StopIndex(s: seq<Post>, f: Filter): (e: nat)
    ensures e <= |s|
    ensures forall k :: 0 <= k < e ==> !Stops(f, s[k])
    ensures e < |s| ==> Stops(f, s[e])
    decreases |s|
  {
    if s == [] || Stops(f, s[0]) then 0 else 1 + StopIndex(s[1..], f)
  }

  /** The position in `s` of the post that ends the listing, `|s|` if none does. */
  function EndIndex(s: seq<Post>, f: Filter): (e: nat)
    ensures GateIndex(s, f) <= e <= |s|
    ensures e < |s| ==> Stops(f, s[e]) && !Skipped(f, s[GateIndex(s, f)])
  {
    var g := GateIndex(s, f);
    g + StopIndex(s[g..], f)
  }

  /** Once the gate is open, the walk stops exactly at the first end bound. */
  lemma {:induction false} WalkOpenedStopsAt(t: seq<Post>, f: Filter, i: nat)
    requires i <= |t|
    ensures Walk(t[..i], Opened(f)).None? <==> StopIndex(t, f) < i
    decreases i
  {
    if i > 0 {
      assert t[..i][0] == t[0] && t[..i][1..] == t[1..][..i - 1];
      assert Opened(Opened(f)) == Opened(f);
      if !Stops(f, t[0]) {
        WalkOpenedStopsAt(t[1..], f, i - 1);
      }
    }
  }

  /** The loop walks the first `i` posts of the stream without stopping exactly
    * when the listing's end lies at or beyond `i`. */
  lemma {:induction false} WalkStopsAt(s: seq<Post>, f: Filter, i: nat)
    requires i <= |s|
    ensures Walk(s[..i], f).None? <==> EndIndex(s, f) < i
    decreases i
  {
    if i > 0 {
      assert s[..i][0] == s[0] && s[..i][1..] == s[1..][..i - 1];
      if Skipped(f, s[0]) {
        WalkStopsAt(s[1..], f, i - 1);
        assert s[GateIndex(s, f)..] == s[1..][GateIndex(s[1..], f)..];
      } else {
        assert s[0..] == s;
        if !Stops(f, s[0]) {
          WalkOpenedStopsAt(s[1..], f, i - 1);
        }
      }
    }
  }

  lemma {:induction false} SelectOpened(t: seq<Post>, f: Filter)
    ensures Select(t, Opened(f)) == t[..StopIndex(t, f)]
    decreases |t|
  {
    if t != [] && !Stops(f, t[0]) {
      assert Opened(Opened(f)) == Opened(f);
      SelectOpened(t[1..], f);
      assert t[..StopIndex(t, f)] == [t[0]] + t[1..][..StopIndex(t[1..], f)];
    }
  }

  /**
   * The listing is one contiguous run of the stream: it starts at the first
   * post that passes the start gate (every earlier post is skipped, every
   * later one passes since the gate never closes again) and ends just
   * before the first post after it that meets an end bound.
   */
  lemma {:induction false} SelectWindow(s: seq<Post>, f: Filter)
    ensures var g := GateIndex(s, f);
      Select(s, f) == s[g..][..StopIndex(s[g..], f)]
    decreases |s|
  {
    if s != [] {
      if Skipped(f, s[0]) {
        SelectWindow(s[1..], f);
        assert s[GateIndex(s, f)..] == s[1..][GateIndex(s[1..], f)..];
      } else if !Stops(f, s[0]) {
        SelectOpened(s[1..], f);
        assert s[0..] == s;
        assert s[..StopIndex(s, f)] == [s[0]] + s[1..][..StopIndex(s[1..], f)];
      }
    }
  }

  /** No listed post meets an end bound: in particular none has the id
    * `to_post_id`, and none was added before `to_date`. */
  lemma SelectExcludesEnd(s: seq<Post>, f: Filter)
    ensures forall p :: p in Select(s, f) ==> !Stops(f, p)
    ensures Truthy(f.toPostId) ==> forall p :: p in Select(s, f) ==> p.id != f.toPostId.value
    ensures f.toDate.Some? ==> forall p :: p in Select(s, f) ==> p.added >= f.toDate.value
  {
    SelectWindow(s, f);
    var g := GateIndex(s, f);
    forall p | p in Select(s, f) ensures !Stops(f, p) {
      var k :| 0 <= k < |Select(s, f)| && Select(s, f)[k] == p;
      assert p == s[g..][k];
    }
  }

  /** The listing starts at the start post, and at or before the start date. */
  lemma SelectStartsAtGate(s: seq<Post>, f: Filter)
    requires Select(s, f) != []
    ensures GateIndex(s, f) < |s| && Select(s, f)[0] == s[GateIndex(s, f)]
    ensures Truthy(f.fromPostId) ==> Select(s, f)[0].id == f.fromPostId.value
    ensures f.fromDate.Some? ==> Select(s, f)[0].added <= f.fromDate.value
    ensures forall k :: 0 <= k < GateIndex(s, f) ==> Skipped(f, s[k])
  {
    SelectWindow(s, f);
  }

  /** Without bounds every post of the stream is listed. */
  lemma {:induction false} SelectNoFilter(s: seq<Post>)
    ensures Select(s, NoFilter) == s
    decreases |s|
  {
    if s != [] {
      assert Opened(NoFilter) == NoFilter;
      SelectNoFilter(s[1..]);
    }
  }

  function Concat(pages: seq<seq<Post>>): seq<Post>
    decreases |pages|
  {
    if pages == [] then [] else pages[0] + Concat(pages[1..])
  }

  /** For a user, the stream is the concatenation of the pages ... */
  lemma {:induction false} StreamAllPages(userId: string, feed: seq<seq<Post>>, k: nat)
    requires userId != Favorites && k <= |feed|
    requires forall j :: k <= j < |feed| ==> feed[j] != []
    ensures Stream(userId, feed, k) == Concat(feed[k..])
    decreases |feed| - k
  {
    if k < |feed| {
      StreamAllPages(userId, feed, k + 1);
      assert feed[k..][1..] == feed[k + 1..];
    }
  }

  /** ... and pages after the first empty one are never looked at. */
  lemma {:induction false} StreamStopsAtEmptyPage(userId: string, feed: seq<seq<Post>>, e: nat, k: nat)
    requires userId != Favorites && k <= e < |feed| && feed[e] == []
    ensures Stream(userId, feed, k) == Stream(userId, feed[..e], k)
    decreases e - k
  {
    if k < e {
      StreamStopsAtEmptyPage(userId, feed, e, k + 1);
    }
  }

  /** The favourites are the single answer to the favourites request. */
  lemma StreamFavorites(feed: seq<seq<Post>>)
    ensures Stream(Favorites, feed, 0) == if |feed| > 0 then feed[0] else []
  {
    assert Stream(Favorites, feed, 1) == [];
  }
}
