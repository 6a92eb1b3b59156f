/**
 * The list-and-sort part of `task_3_python_version` in main.py: one
 * `(name, album count)` entry per artist, in query order, sorted by count
 * in descending order with Python's stable `list.sort(reverse=True, key=...)`,
 * of which the first five are printed.
 */
module Ranking {
  import opened Rows

  /** The tuple `(artist.Name, len(artist.album_collection))`. */
  datatype Entry = Entry(name: Name, count: nat)

  /** What `for i in range(5): print(lst[i])` gets to print, and whether `lst[i]` raised `IndexError`. */
  datatype Report = Report(printed: seq<Entry>, indexError: bool)

  /** Counts never increase from left to right. */
  predicate NonIncreasing(s: seq<Entry>)
  {
    forall i, j :: 0 <= i < j < |s| ==> s[i].count >= s[j].count
  }

  /** The entries of `s` with count `v`, in their order in `s`. */
  function WithCount(s: seq<Entry>, v: nat): seq<Entry>
  {
    if s == [] then []
    else (if s[0].count == v then [s[0]] else []) + WithCount(s[1..], v)
  }

  /** The tuple the loop appends for `artist`. */
  function EntryOf(artist: Artist): Entry
  {
    Entry(artist.name, |artist.albums|)
  }

  /** The artists' entries in query order. */
  function EntriesOf(artists: seq<Artist>): seq<Entry>
  {
    seq(|artists|, k requires 0 <= k < |artists| => EntryOf(artists[k]))
  }

  /** The loop that builds `lst`: one entry per artist, in query order. */
  method Entries(artists: seq<Artist>) returns (lst: seq<Entry>)
    ensures |lst| == |artists|
    ensures forall k :: 0 <= k < |artists| ==> lst[k] == EntryOf(artists[k])
    ensures lst == EntriesOf(artists)
  {
    lst := [];
    var i := 0;
    while i < |artists|
      invariant 0 <= i <= |artists|
      invariant |lst| == i
      invariant forall k :: 0 <= k < i ==> lst[k] == EntryOf(artists[k])
    {
      lst := lst + [EntryOf(artists[i])];
      i := i + 1;
    }
  }

  /**
   * Places `x` in front of `s`'s first entry whose count is not above
   * `x.count`: after every entry that outranks it, before every entry it
   * ties with.
   */
  function Insert(x: Entry, s: seq<Entry>): (r: seq<Entry>)
    ensures |r| == |s| + 1
    ensures multiset(r) == multiset(s) + multiset{x}
  {
    if s == [] || s[0].count <= x.count then [x] + s
    else
      assert s == [s[0]] + s[1..];
      [s[0]] + Insert(x, s[1..])
  }

  /** Every count is at most `b`. */
  predicate AtMost(s: seq<Entry>, b: nat)
  {
    forall i :: 0 <= i < |s| ==> s[i].count <= b
  }

  lemma {:induction false} InsertAtMost(x: Entry, s: seq<Entry>, b: nat)
    requires AtMost(s, b) && x.count <= b
    ensures AtMost(Insert(x, s), b)
  {
    if s != [] && s[0].count > x.count {
      InsertAtMost(x, s[1..], b);
    }
  }

  /** Inserting into a descending list keeps it descending. */
  lemma {:induction false} InsertSorted(x: Entry, s: seq<Entry>)
    requires NonIncreasing(s)
    ensures NonIncreasing(Insert(x, s))
  {
    var r := Insert(x, s);
    if s == [] || s[0].count <= x.count {
      forall i, j | 0 <= i < j < |r|
        ensures r[i].count >= r[j].count
      {
        if i == 0 && j > 1 {
          assert r[j] == s[j - 1];
        }
      }
    } else {
      var rest := Insert(x, s[1..]);
      InsertSorted(x, s[1..]);
      InsertAtMost(x, s[1..], s[0].count);
      assert r == [s[0]] + rest;
      forall i, j | 0 <= i < j < |r|
        ensures r[i].count >= r[j].count
      {
        assert r[j] == rest[j - 1];
        if i > 0 {
          assert r[i] == rest[i - 1];
        }
      }
    }
  }

  /**
   * Inserting `x` adds it to the front of its own count class and leaves
   * every other count class as it was, whatever the order of `s`.
   */
  lemma {:induction false} InsertKeepsClasses(x: Entry, s: seq<Entry>, v: nat)
    ensures WithCount(Insert(x, s), v) == WithCount([x] + s, v)
  {
    if s == [] || s[0].count <= x.count {
    } else {
      var r := Insert(x, s);
      InsertKeepsClasses(x, s[1..], v);
      assert r[1..] == Insert(x, s[1..]);
      assert ([x] + s)[1..] == s;
      assert ([x] + s[1..])[1..] == s[1..];
    }
  }

  /**
   * `lst.sort(reverse=True, key=lambda t: t[1])`: a permutation of `s`
   * whose counts never increase (stability is `SortKeepsClasses`).
   */
  function SortDescending(s: seq<Entry>): (r: seq<Entry>)
    ensures |r| == |s| && multiset(r) == multiset(s)
    ensures NonIncreasing(r)
  {
    if s == [] then []
    else
      var rest := SortDescending(s[1..]);
      InsertSorted(s[0], rest);
      assert s == [s[0]] + s[1..];
      Insert(s[0], rest)
  }

  /**
   * The sort is stable: for every count, the entries with that count appear
   * in the result in the order they had in `s`.
   */
  lemma {:induction false} SortKeepsClasses(s: seq<Entry>, v: nat)
    ensures WithCount(SortDescending(s), v) == WithCount(s, v)
  {
    if s != [] {
      var rest := SortDescending(s[1..]);
      SortKeepsClasses(s[1..], v);
      InsertKeepsClasses(s[0], rest, v);
      assert ([s[0]] + rest)[1..] == rest;
    }
  }

  /** A non-empty sequence has an entry of its first entry's count. */
  lemma FirstInClass(s: seq<Entry>)
    requires s != []
    ensures WithCount(s, s[0].count) != [] && WithCount(s, s[0].count)[0] == s[0]
  {
  }

  /** An entry of count `v` in `WithCount(s, v)` is an entry of `s`. */
  lemma {:induction false} ClassMembers(s: seq<Entry>, v: nat, e: Entry)
    requires e in WithCount(s, v)
    ensures e in s && e.count == v
  {
    if s != [] {
      if e != s[0] || s[0].count != v {
        ClassMembers(s[1..], v, e);
      }
    }
  }

  /** Dropping a head that heads its class removes it from that class only. */
  lemma DropHead(s: seq<Entry>, v: nat)
    requires s != []
    ensures WithCount(s[1..], v) == if s[0].count == v then WithCount(s, v)[1..] else WithCount(s, v)
  {
  }

  /**
   * The specification of a stable descending sort has one solution only:
   * two non-increasing sequences with the same count classes are equal.
   */
  lemma {:induction false} StableSortUnique(r: seq<Entry>, t: seq<Entry>)
    requires NonIncreasing(r) && NonIncreasing(t)
    requires forall v :: WithCount(r, v) == WithCount(t, v)
    ensures r == t
  {
    if r == [] && t == [] {
    } else if r == [] {
      FirstInClass(t);
      assert false;
    } else if t == [] {
      FirstInClass(r);
      assert false;
    } else {
      FirstInClass(r);
      FirstInClass(t);
      var m, n := r[0].count, t[0].count;
      ClassMembers(t, m, r[0]);
      ClassMembers(r, n, t[0]);
      assert n >= m && m >= n;
      assert r[0] == WithCount(r, m)[0] == WithCount(t, m)[0] == t[0];
      forall v
        ensures WithCount(r[1..], v) == WithCount(t[1..], v)
      {
        DropHead(r, v);
        DropHead(t, v);
      }
      StableSortUnique(r[1..], t[1..]);
      assert r == [r[0]] + r[1..] && t == [t[0]] + t[1..];
    }
  }

  /** Sorting a list that is already in descending order leaves it as it is. */
  lemma {:induction false} SortSorted(s: seq<Entry>)
    requires NonIncreasing(s)
    ensures SortDescending(s) == s
  {
    forall v
      ensures WithCount(SortDescending(s), v) == WithCount(s, v)
    {
      SortKeepsClasses(s, v);
    }
    StableSortUnique(SortDescending(s), s);
  }

  /** Sorting is idempotent. */
  lemma SortIdempotent(s: seq<Entry>)
    ensures SortDescending(SortDescending(s)) == SortDescending(s)
  {
    SortSorted(SortDescending(s));
  }

  /**
   * `for i in range(5): print(lst[i])`: prints `lst[0]`, ..., `lst[4]` in
   * order; when the list is shorter, `lst[len(lst)]` raises `IndexError`
   * after the entries before it were printed.
   */
  method PrintTopFive(lst: seq<Entry>) returns (r: Report)
    ensures r.indexError <==> |lst| < 5
    ensures |r.printed| == if |lst| < 5 then |lst| else 5
    ensures r.printed <= lst
  {
    var printed := [];
    var i := 0;
    while i < 5
      invariant 0 <= i <= 5 && i <= |lst|
      invariant printed == lst[..i]
    {
      if i >= |lst| {
        return Report(printed, true);
      }
      printed := printed + [lst[i]];
      i := i + 1;
    }
    r := Report(printed, false);
  }

  /** The sorted `lst`. */
  function Ranked(artists: seq<Artist>): seq<Entry>
  {
    SortDescending(EntriesOf(artists))
  }

  /**
   * `task_3_python_version` past its query: it prints the first entries of
   * the ranking, and raises `IndexError` exactly when there are fewer than
   * five artists.
   */
  method TopFive(artists: seq<Artist>) returns (r: Report)
    ensures r.indexError <==> |artists| < 5
    ensures |r.printed| == if |artists| < 5 then |artists| else 5
    ensures r.printed <= Ranked(artists)
  {
    var lst := Entries(artists);
    var sorted := SortDescending(lst);
    r := PrintTopFive(sorted);
  }

  /**
   * The first `n` entries of the ranking outrank every other artist's
   * entry: each entry left out, counted with multiplicity, has no more
   * albums than any entry kept.
   */
  lemma TopAreLargest(artists: seq<Artist>, n: nat)
    requires n <= |artists|
    ensures var top := Ranked(artists)[..n];
      forall p: Entry, e: Entry :: p in top && e in multiset(EntriesOf(artists)) - multiset(top) ==> e.count <= p.count
  {
    var sorted := Ranked(artists);
    RemovePrefix(EntriesOf(artists), sorted, n);
    forall p: Entry, e: Entry | p in sorted[..n] && e in multiset(sorted[n..])
      ensures e.count <= p.count
    {
      PrefixOutranks(sorted, n, p, e);
    }
  }

  /** Taking a prefix of a permutation of `s` out of `s` leaves the rest of the permutation. */
  lemma RemovePrefix(s: seq<Entry>, sorted: seq<Entry>, n: nat)
    requires multiset(s) == multiset(sorted) && n <= |sorted|
    ensures multiset(s) - multiset(sorted[..n]) == multiset(sorted[n..])
  {
    assert sorted == sorted[..n] + sorted[n..];
  }

  /** In a descending list, an entry in the first `n` outranks or ties every entry after them. */
  lemma PrefixOutranks(s: seq<Entry>, n: nat, p: Entry, e: Entry)
    requires NonIncreasing(s) && n <= |s| && p in s[..n] && e in s[n..]
    ensures e.count <= p.count
  {
    var i :| 0 <= i < n && s[..n][i] == p;
    var j :| 0 <= j < |s| - n && s[n..][j] == e;
    assert s[i] == p && s[n + j] == e;
  }
}
