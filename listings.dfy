/**
 * The listing queries of the public and admin pages: app/blog/page.tsx (`getPublishedBlogs`,
 * story count and empty state), app/page.tsx (`getLatestPosts`), app/admin/dashboard/blog/page.tsx
 * (`getBlogs`, status labels, total and live counts) and app/admin/dashboard/page.tsx (`getStats`).
 * Each is a filter, a descending sort and possibly a limit over a scan of the collection.
 */
module Listings {
  import opened Validation
  import opened BlogModel

  /** The date a query sorts by. */
  datatype SortKey = ByPublishedAt | ByCreatedAt

  function Key(d: Doc, k: SortKey): int {
    match k
    case ByPublishedAt => d.publishedAt
    case ByCreatedAt => d.createdAt
  }

  /** Non-increasing in the key: `.sort({ key: -1 })`. */
  predicate SortedDesc(s: seq<Doc>, k: SortKey) {
    forall i, j :: 0 <= i < j < |s| ==> Key(s[i], k) >= Key(s[j], k)
  }

  /** Puts one document into a list sorted newest first, behind every document at least as new. */
  function InsertDesc(d: Doc, s: seq<Doc>, k: SortKey): (r: seq<Doc>)
    requires SortedDesc(s, k)
    ensures SortedDesc(r, k)
    ensures |r| == |s| + 1
    ensures forall x :: x in r <==> x == d || x in s
    ensures multiset(r) == multiset(s) + multiset{d}
  {
    if s == [] then [d]
    else if Key(d, k) >= Key(s[0], k) then [d] + s
    else
      var rest := InsertDesc(d, s[1..], k);
      assert s == [s[0]] + s[1..];
      BehindHead(d, s, rest, k);
      [s[0]] + rest
  }

  /** What is inserted behind the head of a sorted list stays sorted after it. */
  lemma BehindHead(d: Doc, s: seq<Doc>, rest: seq<Doc>, k: SortKey)
    requires SortedDesc(s, k) && s != [] && Key(d, k) < Key(s[0], k)
    requires SortedDesc(rest, k)
    requires forall x :: x in rest <==> x == d || x in s[1..]
    ensures SortedDesc([s[0]] + rest, k)
  {
    forall x | x in rest ensures Key(x, k) <= Key(s[0], k) {
      if x != d {
        var j :| 0 <= j < |s[1..]| && s[1..][j] == x;
        assert s[j + 1] == x;
      }
    }
    var r := [s[0]] + rest;
    forall i, j | 0 <= i < j < |r| ensures Key(r[i], k) >= Key(r[j], k) {
      assert r[j] == rest[j - 1];
      if i > 0 { assert r[i] == rest[i - 1]; }
    }
  }

  /** The query's ordering: a permutation of its input, newest first (ties in no particular order). */
  function SortDesc(s: seq<Doc>, k: SortKey): (r: seq<Doc>)
    ensures SortedDesc(r, k)
    ensures |r| == |s|
    ensures multiset(r) == multiset(s)
  {
    if s == [] then []
    else
      assert s == [s[0]] + s[1..];
      InsertDesc(s[0], SortDesc(s[1..], k), k)
  }

  /** `.find({ isPublished: true })`: the published documents, in scan order. */
  function Published(s: seq<Doc>): (r: seq<Doc>)
    ensures forall i :: 0 <= i < |r| ==> r[i].fields.isPublished
    ensures forall d :: d in r <==> d in s && d.fields.isPublished
    ensures multiset(r) <= multiset(s)
  {
    if s == [] then []
    else
      assert s == [s[0]] + s[1..];
      (if s[0].fields.isPublished then [s[0]] else []) + Published(s[1..])
  }

  /** `.limit(n)`. */
  function Take(s: seq<Doc>, n: nat): seq<Doc> {
    if |s| <= n then s else s[..n]
  }

  /** `getPublishedBlogs` (the journal page): every published post, newest publication first. */
  function PublishedBlogs(scan: seq<Doc>): seq<Doc> {
    SortDesc(Published(scan), ByPublishedAt)
  }

  /** The journal page lists exactly the published posts, each as often as it is stored, by publication date. */
  lemma PublishedBlogsAreThePublished(scan: seq<Doc>)
    ensures var r := PublishedBlogs(scan);
      && SortedDesc(r, ByPublishedAt)
      && multiset(r) == multiset(Published(scan))
      && (forall d :: d in r <==> d in scan && d.fields.isPublished)
  {
    var r := PublishedBlogs(scan);
    forall d ensures d in r <==> d in Published(scan) {
      assert d in r <==> d in multiset(r);
      assert d in Published(scan) <==> d in multiset(Published(scan));
    }
  }

  /** `getLatestPosts` (the home page): the three most recently published posts. */
  function LatestPosts(scan: seq<Doc>): seq<Doc> {
    Take(PublishedBlogs(scan), 3)
  }

  /** The first `n` of a list sorted newest first: as many as there are up to `n`, sorted, taken from the list. */
  lemma TakeOfSorted(all: seq<Doc>, n: nat, k: SortKey)
    requires SortedDesc(all, k)
    ensures var r := Take(all, n);
      && |r| == (if |all| < n then |all| else n)
      && r == all[..|r|]
      && SortedDesc(r, k)
      && (forall i :: 0 <= i < |r| ==> r[i] in all)
  {
  }

  /** Proof helper: a prefix holds each document at most as often as the whole list does. */
  lemma PrefixMultiset(s: seq<Doc>, n: nat)
    requires n <= |s|
    ensures multiset(s[..n]) <= multiset(s)
  {
    assert s == s[..n] + s[n..];
  }

  /** Nothing the first `n` leave out of a sorted list is newer than what they keep. */
  lemma TakeKeepsNewest(all: seq<Doc>, n: nat, k: SortKey)
    requires SortedDesc(all, k)
    ensures var r := Take(all, n);
      forall i, d :: 0 <= i < |r| && d in all && d !in r ==> Key(d, k) <= Key(r[i], k)
  {
    var r := Take(all, n);
    assert r == all[..|r|];
    assert forall j :: 0 <= j < |r| ==> all[j] in r by {
      forall j | 0 <= j < |r| ensures all[j] in r {
        assert all[j] == r[j];
      }
    }
    forall i, d | 0 <= i < |r| && d in all && d !in r
      ensures Key(d, k) <= Key(r[i], k)
    {
      var j :| 0 <= j < |all| && all[j] == d;
      assert Key(all[j], k) <= Key(all[i], k);
    }
  }

  /** The journal's list: sorted, as long as the published filter, and holding exactly the published posts. */
  lemma PublishedBlogsMembers(scan: seq<Doc>)
    ensures var r := PublishedBlogs(scan);
      && SortedDesc(r, ByPublishedAt)
      && |r| == |Published(scan)|
      && (forall d :: d in r <==> d in scan && d.fields.isPublished)
  {
    PublishedBlogsAreThePublished(scan);
  }

  /** The home page's posts are the head of the journal's list, each at most as often as it is stored. */
  lemma LatestPostsAreStored(scan: seq<Doc>)
    ensures var r := LatestPosts(scan);
      && r == PublishedBlogs(scan)[..|r|]
      && multiset(r) <= multiset(Published(scan))
  {
    var all := PublishedBlogs(scan);
    var r := LatestPosts(scan);
    assert r == all[..|r|];
    PrefixMultiset(all, |r|);
    PublishedBlogsAreThePublished(scan);
  }

  /**
   * At most three, all published, newest first, exactly three when three are published, and no
   * published post left out is newer than any shown.
   */
  lemma LatestPostsAreTheNewest(scan: seq<Doc>)
    ensures var r := LatestPosts(scan);
      && |r| == (if |Published(scan)| < 3 then |Published(scan)| else 3)
      && SortedDesc(r, ByPublishedAt)
      && (forall i :: 0 <= i < |r| ==> r[i].fields.isPublished)
      && (forall i, d :: 0 <= i < |r| && d in scan && d.fields.isPublished && d !in r ==>
            d.publishedAt <= r[i].publishedAt)
  {
    var all := PublishedBlogs(scan);
    var r := LatestPosts(scan);
    assert r == Take(all, 3);
    PublishedBlogsMembers(scan);
    TakeOfSorted(all, 3, ByPublishedAt);
    TakeKeepsNewest(all, 3, ByPublishedAt);
    forall i | 0 <= i < |r| ensures r[i].fields.isPublished {
      assert r[i] in all;
    }
    forall i, d | 0 <= i < |r| && d in scan && d.fields.isPublished && d !in r
      ensures d.publishedAt <= r[i].publishedAt
    {
      assert d in all;
      assert Key(d, ByPublishedAt) <= Key(r[i], ByPublishedAt);
    }
  }

  /**
   * `getBlogs` (the admin list): every post, published or not, newest creation first; the list is
   * empty, and the page shows its empty state, exactly when the collection is.
   */
  function AdminBlogs(scan: seq<Doc>): (r: seq<Doc>)
    ensures SortedDesc(r, ByCreatedAt)
    ensures multiset(r) == multiset(scan) && |r| == |scan|
    ensures forall d :: d in r <==> d in scan
    ensures r == [] <==> scan == []
  {
    var r := SortDesc(scan, ByCreatedAt);
    assert forall d :: d in r <==> d in scan by {
      forall d ensures d in r <==> d in scan {
        assert d in r <==> d in multiset(r);
        assert d in scan <==> d in multiset(scan);
      }
    }
    r
  }

  /** A row's status badge. */
  function StatusLabel(d: Doc): (badge: string)
    ensures badge == "Live" <==> d.fields.isPublished
    ensures badge == "Live" || badge == "Draft"
  {
    if d.fields.isPublished then "Live" else "Draft"
  }

  /** How many documents of a list are published. */
  function LiveCount(s: seq<Doc>): (n: nat)
    ensures n <= |s|
  {
    if s == [] then 0
    else (if s[0].fields.isPublished then 1 else 0) + LiveCount(s[1..])
  }

  /** The published filter keeps exactly the live ones. */
  lemma {:induction false} PublishedCount(s: seq<Doc>)
    ensures |Published(s)| == LiveCount(s)
  {
    if s != [] {
      PublishedCount(s[1..]);
    }
  }

  /** Inserting a document adds it to the count when it is live. */
  lemma {:induction false} LiveCountOfInsert(d: Doc, s: seq<Doc>, k: SortKey)
    requires SortedDesc(s, k)
    ensures LiveCount(InsertDesc(d, s, k)) == LiveCount(s) + (if d.fields.isPublished then 1 else 0)
  {
    var bonus := if d.fields.isPublished then 1 else 0;
    if s == [] {
      assert LiveCount([d]) == bonus + LiveCount([]);
    } else if Key(d, k) < Key(s[0], k) {
      var rest := InsertDesc(d, s[1..], k);
      var r := [s[0]] + rest;
      assert InsertDesc(d, s, k) == r;
      LiveCountOfInsert(d, s[1..], k);
      assert r[1..] == rest;
      assert r[0] == s[0];
      LiveCountUnfold(r);
      LiveCountUnfold(s);
    } else {
      var r := [d] + s;
      assert InsertDesc(d, s, k) == r;
      assert r[1..] == s;
      assert r[0] == d;
      LiveCountUnfold(r);
    }
  }

  lemma LiveCountUnfold(s: seq<Doc>)
    requires s != []
    ensures LiveCount(s) == (if s[0].fields.isPublished then 1 else 0) + LiveCount(s[1..])
  {
  }

  /** Sorting keeps the number of live documents. */
  lemma {:induction false} LiveCountOfSort(s: seq<Doc>, k: SortKey)
    ensures LiveCount(SortDesc(s, k)) == LiveCount(s)
  {
    if s != [] {
      LiveCountOfSort(s[1..], k);
      LiveCountOfInsert(s[0], SortDesc(s[1..], k), k);
    }
  }

  /** The admin list's footer: the total and the live count. */
  datatype Footer = Footer(total: nat, live: nat)

  function AdminFooter(blogs: seq<Doc>): (f: Footer)
    ensures f.total == |blogs|
    ensures f.live == LiveCount(blogs)
  {
    PublishedCount(blogs);
    Footer(|blogs|, |Published(blogs)|)
  }

  /** The footer of the sorted admin list counts the collection itself. */
  lemma AdminFooterCountsStore(scan: seq<Doc>)
    ensures AdminFooter(AdminBlogs(scan)) == Footer(|scan|, LiveCount(scan))
  {
    LiveCountOfSort(scan, ByCreatedAt);
  }

  /** What the journal page shows above and instead of the grid. */
  datatype JournalView = JournalView(storyCount: nat, emptyState: bool)

  function Journal(scan: seq<Doc>): (v: JournalView)
    ensures v.storyCount == LiveCount(scan)
    ensures v.emptyState <==> forall d :: d in scan ==> !d.fields.isPublished
  {
    var blogs := PublishedBlogs(scan);
    PublishedBlogsAreThePublished(scan);
    PublishedCount(scan);
    assert blogs == [] <==> forall d :: d in scan ==> !d.fields.isPublished by {
      if blogs != [] {
        assert blogs[0] in blogs;
      }
    }
    JournalView(|blogs|, |blogs| == 0)
  }

  /** `getStats` (the dashboard): the two counts, their difference, and the five newest posts. */
  datatype Stats = Stats(total: nat, live: nat, drafts: int, latest: seq<Doc>)

  function DashboardStats(scan: seq<Doc>): (st: Stats)
    ensures st.total == |scan| && st.live == LiveCount(scan)
    ensures 0 <= st.drafts <= st.total && st.drafts == st.total - st.live
    ensures |st.latest| == (if |scan| < 5 then |scan| else 5)
    ensures SortedDesc(st.latest, ByCreatedAt)
    ensures forall i :: 0 <= i < |st.latest| ==> st.latest[i] in scan
    ensures forall i, d :: 0 <= i < |st.latest| && d in scan && d !in st.latest ==>
      d.createdAt <= st.latest[i].createdAt
    ensures st.latest == AdminBlogs(scan)[..|st.latest|]
    ensures multiset(st.latest) <= multiset(scan)
  {
    var total := |scan|;
    var live := LiveCount(scan);
    var sorted := AdminBlogs(scan);
    var latest := Take(sorted, 5);
    TakeOfSorted(sorted, 5, ByCreatedAt);
    TakeKeepsNewest(sorted, 5, ByCreatedAt);
    PrefixMultiset(sorted, |latest|);
    Stats(total, live, total - live, latest)
  }
}
