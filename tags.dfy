/** Tags as the helper sees them: a name and the commit time of the commit they point at.
    GitPython lists a repository's tags sorted by ref path, that is by name in Python's
    string order, so the listing is a sequence strictly ordered by name. */
module Tags {
  import opened Outcomes

  datatype Tag = Tag(name: string, committed: int)

  /** Python's `a < b` on strings: code point by code point, a proper prefix first. */
  predicate Below(a: string, b: string)
  {
    if a == [] then b != []
    else if b == [] then false
    else if a[0] != b[0] then a[0] < b[0]
    else Below(a[1..], b[1..])
  }

  lemma {:induction false} BelowTransitive(a: string, b: string, c: string)
    requires Below(a, b) && Below(b, c)
    ensures Below(a, c)
  {
    if a != [] && a[0] == b[0] && b[0] == c[0] {
      BelowTransitive(a[1..], b[1..], c[1..]);
    }
  }

  lemma {:induction false} BelowTotal(a: string, b: string)
    requires a != b
    ensures Below(a, b) || Below(b, a)
  {
    if a != [] && b != [] && a[0] == b[0] {
      assert a == [a[0]] + a[1..] && b == [b[0]] + b[1..];
      BelowTotal(a[1..], b[1..]);
    }
  }

  /** The names in a listing. */
  function Names(tags: seq<Tag>): set<string>
  {
    if tags == [] then {} else {tags[0].name} + Names(tags[1..])
  }

  /** The order in which the repository lists its tags: strictly increasing names. */
  predicate ByName(tags: seq<Tag>)
  {
    forall i, j :: 0 <= i < j < |tags| ==> Below(tags[i].name, tags[j].name)
  }

  /** `create_tag`: the new tag takes its place in the name-ordered listing. */
  function InsertByName(tags: seq<Tag>, t: Tag): (r: seq<Tag>)
    ensures |r| == |tags| + 1
  {
    if tags == [] then [t]
    else if Below(t.name, tags[0].name) then [t] + tags
    else [tags[0]] + InsertByName(tags[1..], t)
  }

  /** Inserting by name adds exactly the new tag. */
  lemma {:induction false} InsertByNameContents(tags: seq<Tag>, t: Tag)
    ensures Names(InsertByName(tags, t)) == Names(tags) + {t.name}
    ensures multiset(InsertByName(tags, t)) == multiset(tags) + multiset{t}
  {
    if tags == [] {
    } else if Below(t.name, tags[0].name) {
      assert ([t] + tags)[1..] == tags;
    } else {
      assert tags == [tags[0]] + tags[1..];
      InsertByNameContents(tags[1..], t);
      assert ([tags[0]] + InsertByName(tags[1..], t))[1..] == InsertByName(tags[1..], t);
    }
  }

  /** Every entry of a name-ordered listing after the first sorts after the first. */
  lemma FirstIsBelowRest(tags: seq<Tag>, y: Tag)
    requires ByName(tags) && tags != [] && y in tags[1..]
    ensures Below(tags[0].name, y.name)
  {
    var i :| 0 <= i < |tags[1..]| && tags[1..][i] == y;
    assert tags[i + 1] == y;
  }

  /** Creating a tag whose name is new adds exactly that tag and keeps the listing order. */
  lemma {:induction false} InsertByNameKeepsListing(tags: seq<Tag>, t: Tag)
    requires ByName(tags) && t.name !in Names(tags)
    ensures ByName(InsertByName(tags, t))
    ensures Names(InsertByName(tags, t)) == Names(tags) + {t.name}
    ensures multiset(InsertByName(tags, t)) == multiset(tags) + multiset{t}
  {
    InsertByNameContents(tags, t);
    if tags == [] {
    } else if Below(t.name, tags[0].name) {
      var r := [t] + tags;
      forall i, j | 0 <= i < j < |r| ensures Below(r[i].name, r[j].name) {
        if i == 0 && j > 1 {
          BelowTransitive(t.name, tags[0].name, tags[j - 1].name);
        }
      }
    } else {
      var head, tail := tags[0], tags[1..];
      assert tags == [head] + tail;
      assert head.name in Names(tags);
      BelowTotal(t.name, head.name);
      assert ByName(tail) by {
        forall i, j | 0 <= i < j < |tail| ensures Below(tail[i].name, tail[j].name) {
          assert tail[i] == tags[i + 1] && tail[j] == tags[j + 1];
        }
      }
      InsertByNameKeepsListing(tail, t);
      var rest := InsertByName(tail, t);
      forall j | 0 <= j < |rest| ensures Below(head.name, rest[j].name) {
        var y := rest[j];
        assert y in multiset(rest);
        if y != t {
          assert y in multiset(tail);
          FirstIsBelowRest(tags, y);
        }
      }
      var r := [head] + rest;
      forall i, j | 0 <= i < j < |r| ensures Below(r[i].name, r[j].name) {
        assert r[j] == rest[j - 1];
        if i > 0 {
          assert r[i] == rest[i - 1];
        }
      }
    }
  }

  /** A listing's entries in non-decreasing commit time. */
  predicate ByTime(tags: seq<Tag>)
  {
    forall i, j :: 0 <= i < j < |tags| ==> tags[i].committed <= tags[j].committed
  }

  /** One step of Python's stable `sorted` by commit time: `t` goes after every entry of
      `sorted` whose time is not later than its own. */
  function InsertByTime(sorted: seq<Tag>, t: Tag): (r: seq<Tag>)
    ensures |r| == |sorted| + 1
  {
    if sorted == [] then [t]
    else if sorted[|sorted| - 1].committed <= t.committed then sorted + [t]
    else InsertByTime(sorted[..|sorted| - 1], t) + [sorted[|sorted| - 1]]
  }

  /** Python's stable `sorted` of the listing by commit time: entries with equal times keep
      their listing order. */
  function SortByTime(tags: seq<Tag>): (r: seq<Tag>)
    ensures |r| == |tags|
  {
    if tags == [] then [] else InsertByTime(SortByTime(tags[..|tags| - 1]), tags[|tags| - 1])
  }

  /** Inserting by time adds exactly the new entry. */
  lemma {:induction false} InsertByTimeContents(sorted: seq<Tag>, t: Tag)
    ensures multiset(InsertByTime(sorted, t)) == multiset(sorted) + multiset{t}
  {
    if sorted != [] {
      var init, last := sorted[..|sorted| - 1], sorted[|sorted| - 1];
      assert sorted == init + [last];
      InsertByTimeContents(init, t);
    }
  }

  /** In a time-ordered listing, no entry before the last is later than the last. */
  lemma NotLaterThanLast(sorted: seq<Tag>, y: Tag)
    requires ByTime(sorted) && sorted != [] && y in sorted[..|sorted| - 1]
    ensures y.committed <= sorted[|sorted| - 1].committed
  {
    var i :| 0 <= i < |sorted| - 1 && sorted[..|sorted| - 1][i] == y;
    assert sorted[i] == y;
  }

  lemma {:induction false} InsertByTimeSorts(sorted: seq<Tag>, t: Tag)
    requires ByTime(sorted)
    ensures ByTime(InsertByTime(sorted, t))
    ensures multiset(InsertByTime(sorted, t)) == multiset(sorted) + multiset{t}
  {
    InsertByTimeContents(sorted, t);
    if sorted != [] && t.committed < sorted[|sorted| - 1].committed {
      var init, last := sorted[..|sorted| - 1], sorted[|sorted| - 1];
      assert ByTime(init);
      InsertByTimeSorts(init, t);
      var rest := InsertByTime(init, t);
      InsertByTimeContents(init, t);
      forall j | 0 <= j < |rest| ensures rest[j].committed <= last.committed {
        var y := rest[j];
        assert y in multiset(rest);
        if y != t {
          assert y in multiset(init);
          NotLaterThanLast(sorted, y);
        }
      }
      var r := rest + [last];
      forall i, j | 0 <= i < j < |r| ensures r[i].committed <= r[j].committed {
        assert r[i] == rest[i];
        if j < |rest| {
          assert r[j] == rest[j];
        }
      }
    }
  }

  /** The stable sort by commit time is a sort: ordered by time, and a permutation. */
  lemma {:induction false} SortByTimeSorts(tags: seq<Tag>)
    ensures ByTime(SortByTime(tags))
    ensures multiset(SortByTime(tags)) == multiset(tags)
  {
    if tags != [] {
      var init := tags[..|tags| - 1];
      assert tags == init + [tags[|tags| - 1]];
      SortByTimeSorts(init);
      InsertByTimeSorts(SortByTime(init), tags[|tags| - 1]);
    }
  }

  /** `get_latest_prd_tag`: the last entry of the time-sorted listing, none for no tags.
      Every tag takes part, whatever its name. */
  function LatestTag(tags: seq<Tag>): (r: Option<string>)
    ensures r.None? <==> tags == []
    ensures r.Some? ==> exists k :: 0 <= k < |tags| && tags[k].name == r.value
  {
    if |tags| > 0 then
      var last := SortByTime(tags)[|tags| - 1];
      SortByTimeSorts(tags);
      assert last in multiset(tags);
      Some(last.name)
    else None
  }

  /** Entry `k` of the listing has the latest commit time, and every entry listed after it
      is strictly older: it is the last of the latest ones. */
  ghost predicate IsLatest(tags: seq<Tag>, k: int)
  {
    && 0 <= k < |tags|
    && (forall j :: 0 <= j < |tags| ==> tags[j].committed <= tags[k].committed)
    && (forall j :: k < j < |tags| ==> tags[j].committed < tags[k].committed)
  }

  /** At most one entry is the last of the latest ones. */
  lemma IsLatestIsUnique(tags: seq<Tag>, k1: int, k2: int)
    requires IsLatest(tags, k1) && IsLatest(tags, k2)
    ensures k1 == k2
  {
    assert tags[k1].committed == tags[k2].committed;
  }

  /** The last entry after inserting by time: the new entry, unless the old last is later. */
  lemma LastOfInsertByTime(sorted: seq<Tag>, t: Tag)
    requires sorted != []
    ensures InsertByTime(sorted, t)[|sorted|]
      == if sorted[|sorted| - 1].committed <= t.committed then t else sorted[|sorted| - 1]
  {
  }

  lemma {:induction false} LastOfSortIsLatest(tags: seq<Tag>) returns (k: nat)
    requires tags != []
    ensures IsLatest(tags, k) && SortByTime(tags)[|tags| - 1] == tags[k]
  {
    var n := |tags|;
    var init, x := tags[..n - 1], tags[n - 1];
    if init == [] {
      k := 0;
    } else {
      var k' := LastOfSortIsLatest(init);
      assert tags == init + [x];
      LastOfInsertByTime(SortByTime(init), x);
      k := if init[k'].committed <= x.committed then n - 1 else k';
      IsLatestExtends(init, x, k');
    }
  }

  /** Appending an entry: it is the last of the latest ones when it is not older than the
      previous one, else the previous one stays. */
  lemma IsLatestExtends(init: seq<Tag>, x: Tag, k: int)
    requires IsLatest(init, k)
    ensures IsLatest(init + [x], if init[k].committed <= x.committed then |init| else k)
  {
  }

  /** `get_latest_prd_tag` returns none exactly for an empty listing; otherwise it returns a
      listed tag whose commit time is at least every other tag's, and of several such tags
      the one listed last. */
  lemma LatestTagIsLastOfTheLatest(tags: seq<Tag>) returns (k: nat)
    ensures LatestTag(tags).None? <==> tags == []
    ensures tags != [] ==> IsLatest(tags, k) && LatestTag(tags) == Some(tags[k].name)
  {
    k := 0;
    if tags != [] {
      k := LastOfSortIsLatest(tags);
    }
  }

  /** In the repository's name-ordered listing, a tie on commit time goes to the tag
      whose name sorts last. */
  lemma TieGoesToGreatestName(tags: seq<Tag>, k: int, j: int)
    requires ByName(tags) && IsLatest(tags, k)
    requires 0 <= j < |tags| && j != k && tags[j].committed == tags[k].committed
    ensures Below(tags[j].name, tags[k].name)
  {
  }

  /** The name is never looked at: a tag without the `PRD_` prefix can be the latest one. */
  lemma LatestTagIgnoresThePrefix()
    ensures LatestTag([Tag("PRD_T1", 10), Tag("v2", 20)]) == Some("v2")
  {
    var k := LatestTagIsLastOfTheLatest([Tag("PRD_T1", 10), Tag("v2", 20)]);
  }
}
