/** Choosing the articles to show: a stable sort of the fetched list, newest
    first, then its first three entries. The sort works in place on the array,
    as `Array.prototype.sort` does; a functional insertion sort specifies it. */
module Selection {
  import opened Values

  /** How many articles a feed shows. */
  const MaxArticles: nat := 3

  function Min(a: nat, b: nat): nat
  {
    if a <= b then a else b
  }

  predicate NewestFirst(s: seq<Article>)
  {
    forall i, j :: 0 <= i < j < |s| ==> s[i].publishedAt >= s[j].publishedAt
  }

  /** Inserts `x` behind every entry of `t` at least as recent as `x`, scanning
      from the back: one step of a stable insertion sort. */
  function InsertStable(t: seq<Article>, x: Article): (r: seq<Article>)
    ensures |r| == |t| + 1
    decreases |t|
  {
    if |t| == 0 || t[|t| - 1].publishedAt >= x.publishedAt then t + [x]
    else InsertStable(t[..|t| - 1], x) + [t[|t| - 1]]
  }

  /** The stable descending sort of the comparator
      `(a, b) => b.publishedAt - a.publishedAt`: newest first, ties in fetch order. */
  function StableSortDesc(s: seq<Article>): (r: seq<Article>)
    ensures |r| == |s|
  {
    if |s| == 0 then []
    else InsertStable(StableSortDesc(s[..|s| - 1]), s[|s| - 1])
  }

  /** `articles.sort(...).slice(0, 3)` */
  function Select(s: seq<Article>): seq<Article>
  {
    StableSortDesc(s)[..Min(MaxArticles, |s|)]
  }

  /** `[a]` when `a` was published at time `k`, else nothing. */
  function AtTime(a: Article, k: int): seq<Article>
  {
    if a.publishedAt == k then [a] else []
  }

  /** The articles of `s` published at time `k`, in their order in `s`. */
  function PublishedAt(s: seq<Article>, k: int): seq<Article>
  {
    if |s| == 0 then [] else PublishedAt(s[..|s| - 1], k) + AtTime(s[|s| - 1], k)
  }

  lemma {:induction false} InsertStablePermutes(t: seq<Article>, x: Article)
    ensures multiset(InsertStable(t, x)) == multiset(t) + multiset{x}
    decreases |t|
  {
    if |t| > 0 && t[|t| - 1].publishedAt < x.publishedAt {
      var init := t[..|t| - 1];
      InsertStablePermutes(init, x);
      assert t == init + [t[|t| - 1]];
    }
  }

  /** The sort only reorders: the sorted list has the same articles, each as often. */
  lemma {:induction false} StableSortDescPermutes(s: seq<Article>)
    ensures multiset(StableSortDesc(s)) == multiset(s)
    decreases |s|
  {
    if |s| > 0 {
      var init := s[..|s| - 1];
      StableSortDescPermutes(init);
      InsertStablePermutes(StableSortDesc(init), s[|s| - 1]);
      assert s == init + [s[|s| - 1]];
    }
  }

  lemma {:induction false} InsertStableNewestFirst(t: seq<Article>, x: Article)
    requires NewestFirst(t)
    ensures NewestFirst(InsertStable(t, x))
    decreases |t|
  {
    if |t| == 0 || t[|t| - 1].publishedAt >= x.publishedAt {
      var r := t + [x];
      forall i, j | 0 <= i < j < |r| ensures r[i].publishedAt >= r[j].publishedAt {
        if j == |t| && i < |t| - 1 {
          assert t[i].publishedAt >= t[|t| - 1].publishedAt;
        }
      }
    } else {
      var init, last := t[..|t| - 1], t[|t| - 1];
      assert NewestFirst(init);
      InsertStableNewestFirst(init, x);
      InsertStablePermutes(init, x);
      var mid := InsertStable(init, x);
      var r := mid + [last];
      forall i | 0 <= i < |mid| ensures mid[i].publishedAt >= last.publishedAt {
        assert mid[i] in multiset(mid);
        if mid[i] != x {
          assert mid[i] in multiset(init);
          var k :| 0 <= k < |init| && init[k] == mid[i];
          assert t[k] == init[k];
        }
      }
      assert InsertStable(t, x) == r;
      forall i, j | 0 <= i < j < |r| ensures r[i].publishedAt >= r[j].publishedAt {
        if j == |mid| {
          assert r[i] == mid[i];
        } else {
          assert r[i] == mid[i] && r[j] == mid[j];
        }
      }
    }
  }

  /** The sort orders the whole list newest first. */
  lemma {:induction false} StableSortDescNewestFirst(s: seq<Article>)
    ensures NewestFirst(StableSortDesc(s))
    decreases |s|
  {
    if |s| > 0 {
      StableSortDescNewestFirst(s[..|s| - 1]);
      InsertStableNewestFirst(StableSortDesc(s[..|s| - 1]), s[|s| - 1]);
    }
  }

  lemma {:induction false} InsertStableKeepsTies(t: seq<Article>, x: Article, k: int)
    ensures PublishedAt(InsertStable(t, x), k) == PublishedAt(t, k) + AtTime(x, k)
    decreases |t|
  {
    if |t| == 0 || t[|t| - 1].publishedAt >= x.publishedAt {
      var r := t + [x];
      assert r[..|r| - 1] == t;
    } else {
      var init, last := t[..|t| - 1], t[|t| - 1];
      var mid := InsertStable(init, x);
      InsertStableKeepsTies(init, x, k);
      var r := mid + [last];
      assert r[..|r| - 1] == mid;
      assert AtTime(x, k) == [] || AtTime(last, k) == [];
    }
  }

  /** Stability: the articles sharing one timestamp keep their fetch order. */
  lemma {:induction false} StableSortDescKeepsTies(s: seq<Article>, k: int)
    ensures PublishedAt(StableSortDesc(s), k) == PublishedAt(s, k)
    decreases |s|
  {
    if |s| > 0 {
      StableSortDescKeepsTies(s[..|s| - 1], k);
      InsertStableKeepsTies(StableSortDesc(s[..|s| - 1]), s[|s| - 1], k);
    }
  }

  /** The feed shows min(3, n) articles, the front of the sorted list. */
  lemma SelectSize(s: seq<Article>)
    ensures |Select(s)| == Min(MaxArticles, |s|) <= MaxArticles
    ensures Select(s) == StableSortDesc(s)[..|Select(s)|]
  {
  }

  /** The shown articles are newest first. */
  lemma SelectNewestFirst(s: seq<Article>)
    ensures NewestFirst(Select(s))
  {
    var sorted, sel := StableSortDesc(s), Select(s);
    StableSortDescNewestFirst(s);
    assert forall i, j | 0 <= i < j < |sel| :: sel[i] == sorted[i] && sel[j] == sorted[j];
  }

  /** The shown articles are fetched ones, each shown at most as often as fetched. */
  lemma SelectFromFetched(s: seq<Article>)
    ensures multiset(Select(s)) <= multiset(s)
  {
    var sorted, sel := StableSortDesc(s), Select(s);
    StableSortDescPermutes(s);
    assert sorted == sel + sorted[|sel|..];
  }

  /** An article newer than a shown one is itself shown: the feed shows the
      newest articles. */
  lemma SelectKeepsNewer(s: seq<Article>)
    ensures forall a, i | a in s && 0 <= i < |Select(s)| && a.publishedAt > Select(s)[i].publishedAt ::
              a in Select(s)
  {
    var sorted, sel := StableSortDesc(s), Select(s);
    forall a: Article, i: int | a in s && 0 <= i < |sel| && a.publishedAt > sel[i].publishedAt
      ensures a in sel
    {
      assert a in multiset(sorted) by {
        StableSortDescPermutes(s);
        assert a in multiset(s);
      }
      var k :| 0 <= k < |sorted| && sorted[k] == a;
      assert k < |sel| by {
        StableSortDescNewestFirst(s);
        assert sorted[i] == sel[i];
      }
      assert sel[k] == a;
    }
  }

  /** The newest article leads the sorted list, and of the articles published
      at that time it is the first one fetched. */
  lemma NewestLeads(s: seq<Article>)
    requires |s| > 0
    ensures StableSortDesc(s)[0] in s
    ensures forall a | a in s :: a.publishedAt <= StableSortDesc(s)[0].publishedAt
    ensures |PublishedAt(s, StableSortDesc(s)[0].publishedAt)| > 0
    ensures StableSortDesc(s)[0] == PublishedAt(s, StableSortDesc(s)[0].publishedAt)[0]
  {
    var sorted := StableSortDesc(s);
    var top := sorted[0];
    StableSortDescNewestFirst(s);
    StableSortDescPermutes(s);
    assert top in multiset(s);
    forall a | a in s ensures a.publishedAt <= top.publishedAt {
      assert a in multiset(sorted);
      var k :| 0 <= k < |sorted| && sorted[k] == a;
    }
    StableSortDescKeepsTies(s, top.publishedAt);
    PublishedAtHead(sorted, top.publishedAt);
  }

  lemma {:induction false} PublishedAtHead(s: seq<Article>, k: int)
    requires |s| > 0 && s[0].publishedAt == k
    ensures |PublishedAt(s, k)| > 0 && PublishedAt(s, k)[0] == s[0]
    decreases |s|
  {
    if |s| > 1 {
      PublishedAtHead(s[..|s| - 1], k);
    }
  }

  /** Where the backward scan stops: behind every entry at least as recent as
      `x` and before the strictly older ones that follow. */
  lemma {:induction false} InsertStableAt(t: seq<Article>, x: Article, j: nat)
    requires j <= |t|
    requires j == 0 || t[j - 1].publishedAt >= x.publishedAt
    requires forall k :: j <= k < |t| ==> t[k].publishedAt < x.publishedAt
    ensures InsertStable(t, x) == t[..j] + [x] + t[j..]
    decreases |t|
  {
    if j < |t| {
      var init := t[..|t| - 1];
      assert init[..j] == t[..j];
      InsertStableAt(init, x, j);
      assert t[j..] == init[j..] + [t[|t| - 1]];
    } else {
      assert t[..j] == t;
    }
  }

  /** The scan stopped at `j` and `x` was written there. */
  lemma Placed(t: seq<Article>, x: Article, j: nat, r: seq<Article>)
    requires j <= |t| && |r| == |t| + 1
    requires forall k :: 0 <= k < j ==> r[k] == t[k]
    requires r[j] == x
    requires forall k :: j < k <= |t| ==> r[k] == t[k - 1]
    ensures r == t[..j] + [x] + t[j..]
  {
  }

  /** Moves `a[i]` back past every entry of the sorted prefix `a[..i]` that is
      strictly older, so that `a[..i + 1]` is that prefix with `a[i]` inserted
      stably. */
  method InsertIntoPrefix(a: array<Article>, i: nat)
    requires i < a.Length
    modifies a
    ensures a[..i + 1] == InsertStable(old(a[..i]), old(a[i]))
    ensures a[i + 1..] == old(a[i + 1..])
  {
    ghost var t := a[..i];
    var x := a[i];
    var j := i;
    while j > 0 && a[j - 1].publishedAt < x.publishedAt
      invariant 0 <= j <= i
      invariant forall k :: 0 <= k < j ==> a[k] == t[k]
      invariant forall k :: j < k <= i ==> a[k] == t[k - 1]
      invariant forall k :: i < k < a.Length ==> a[k] == old(a[k])
      invariant forall k :: j <= k < i ==> t[k].publishedAt < x.publishedAt
    {
      a[j] := a[j - 1];
      j := j - 1;
    }
    a[j] := x;
    InsertStableAt(t, x, j);
    Placed(t, x, j, a[..i + 1]);
  }

  /** Sorts the fetched articles in place, newest first, keeping ties in fetch
      order (insertion sort). */
  method SortNewestFirst(a: array<Article>)
    modifies a
    ensures a[..] == StableSortDesc(old(a[..]))
  {
    ghost var s := a[..];
    var i := 0;
    while i < a.Length
      invariant 0 <= i <= a.Length
      invariant a[..i] == StableSortDesc(s[..i])
      invariant a[i..] == s[i..]
    {
      InsertIntoPrefix(a, i);
      assert s[..i + 1][..i] == s[..i];
      i := i + 1;
    }
    assert a[..] == a[..i] && s == s[..i];
  }

  /** `data.articles.sort(...).slice(0, 3)`: sorts the array in place and
      returns its first three entries. */
  method SelectNewestInPlace(a: array<Article>) returns (sel: seq<Article>)
    modifies a
    ensures a[..] == StableSortDesc(old(a[..]))
    ensures sel == Select(old(a[..]))
  {
    SortNewestFirst(a);
    sel := a[..Min(MaxArticles, a.Length)];
  }
}
