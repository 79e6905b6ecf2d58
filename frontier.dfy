/** The crawl frontier: which URLs a batch schedules (`set(pending) - set(processed)`),
    how product URLs are built from listing matches, and how a batch's task
    results are fanned in. */
module Frontier {
  import opened Outcomes
  import opened Text

  /** Python's `set(s)`. */
  function AsSet(s: seq<string>): (r: set<string>)
    ensures forall u :: u in r <==> u in s
  {
    set u | u in s
  }

  /** Collapsing duplicates never makes a collection larger. */
  lemma {:induction false} AsSetSize(s: seq<string>)
    ensures |AsSet(s)| <= |s|
  {
    if s != [] {
      var init := s[..|s| - 1];
      AsSetSize(init);
      assert AsSet(s) == AsSet(init) + {s[|s| - 1]} by {
        assert s == init + [s[|s| - 1]];
      }
    }
  }

  /** No URL occurs twice. */
  predicate Distinct(s: seq<string>) {
    forall i, j :: 0 <= i < j < |s| ==> s[i] != s[j]
  }

  lemma DistinctSnoc(s: seq<string>, u: string)
    requires Distinct(s) && u !in s
    ensures Distinct(s + [u])
  {
  }

  /** A sequence without repetitions has as many elements as its set. */
  lemma {:induction false} DistinctCard(s: seq<string>)
    requires Distinct(s)
    ensures |AsSet(s)| == |s|
  {
    if s != [] {
      var init, u := s[..|s| - 1], s[|s| - 1];
      assert s == init + [u];
      assert Distinct(init);
      assert u !in init;
      DistinctCard(init);
      assert AsSet(s) == AsSet(init) + {u};
    }
  }

  /** The URLs a batch launches a task for: `set(pending) - set(processed)`. */
  function Schedule(pending: seq<string>, processed: set<string>): (r: set<string>)
    ensures forall u :: u in r <==> u in pending && u !in processed
    ensures |r| <= |pending|
  {
    AsSetSize(pending);
    AsSet(pending) - processed
  }

  /** Logging a listing page as processed removes it, and only it, from the
      next schedule over the same pending list. */
  lemma ScheduleAfterLogging(pending: seq<string>, log: string, page: string)
    requires LineTerminated(log) && CleanLine(page)
    ensures Schedule(pending, AsSet(ReadLines(log + page + "\n")))
         == Schedule(pending, AsSet(ReadLines(log))) - {page}
  {
    ReadAppendLine(log, page);
    AsSetAppend(ReadLines(log), [page]);
    assert AsSet([page]) == {page};
    ScheduleMore(pending, AsSet(ReadLines(log)), {page});
  }

  lemma AsSetAppend(a: seq<string>, b: seq<string>)
    ensures AsSet(a + b) == AsSet(a) + AsSet(b)
  {
  }

  /** Marking more URLs processed removes exactly those from the schedule. */
  lemma ScheduleMore(pending: seq<string>, a: set<string>, b: set<string>)
    ensures Schedule(pending, a + b) == Schedule(pending, a) - b
  {
  }

  /** A later batch over the same pending list skips exactly the pages logged
      in between, whether or not the log existed before. */
  lemma ResumeSkipsLogged(pending: seq<string>, log: Option<string>, logged: seq<string>)
    requires LineTerminated(log.GetOr(""))
    requires forall k :: 0 <= k < |logged| ==> CleanLine(logged[k])
    ensures Schedule(pending, AsSet(ReadLinesOrEmpty(AppendLines(log, logged))))
         == Schedule(pending, AsSet(ReadLinesOrEmpty(log))) - AsSet(logged)
  {
    AppendLinesReadBack(log, logged);
    var before := ReadLinesOrEmpty(log);
    AsSetAppend(before, logged);
    ScheduleMore(pending, AsSet(before), AsSet(logged));
  }

  /** The store's origin, `Scraper.BASE_URL`. */
  const BaseUrl: string := "https://store.igefa.de"

  const ItemPrefix: string := BaseUrl + "/p/"

  /** One `(id, slug)` capture of the `"mainVariant"` pattern in a listing page. */
  datatype Match = Match(id: string, slug: string)

  /** `f"{BASE_URL}/p/{slug}/{product_id}/"`. */
  function ItemUrl(m: Match): (r: string)
    ensures |r| > |ItemPrefix| && r[..|ItemPrefix|] == ItemPrefix && r[|r| - 1] == '/'
  {
    ItemPrefix + m.slug + "/" + m.id + "/"
  }

  /** Recovers the capture from a product URL: the slug runs to the first '/'
      after the prefix, the id from there to the closing '/'. */
  function ParseItemUrl(u: string): Option<Match> {
    if |u| > |ItemPrefix| && u[..|ItemPrefix|] == ItemPrefix && u[|u| - 1] == '/' then
      var rest := u[|ItemPrefix|..|u| - 1];
      if '/' in rest then
        var i := FirstIndex(rest, '/');
        Some(Match(rest[i + 1..], rest[..i]))
      else None
    else None
  }

  /** A product URL determines its capture, as long as the slug has no '/'. */
  lemma ItemUrlRoundTrip(m: Match)
    requires '/' !in m.slug
    ensures ParseItemUrl(ItemUrl(m)) == Some(m)
  {
    var u := ItemUrl(m);
    var rest := m.slug + "/" + m.id;
    assert u == ItemPrefix + rest + "/";
    assert u[..|ItemPrefix|] == ItemPrefix;
    assert u[|ItemPrefix|..|u| - 1] == rest;
    assert rest[..|m.slug|] == m.slug;
    FirstIndexUnique(rest, '/', |m.slug|);
    assert rest[|m.slug| + 1..] == m.id;
  }

  /** Different captures never yield the same product URL. */
  lemma ItemUrlInjective(m: Match, n: Match)
    requires '/' !in m.slug && '/' !in n.slug
    requires ItemUrl(m) == ItemUrl(n)
    ensures m == n
  {
    ItemUrlRoundTrip(m);
    ItemUrlRoundTrip(n);
  }

  /** `asyncio.gather(*tasks)`: each task's result, in the order they were
      launched, whatever order they completed in. */
  function Gather<T>(tasks: seq<string>, returned: map<string, T>): (r: seq<T>)
    requires forall i :: 0 <= i < |tasks| ==> tasks[i] in returned
    ensures |r| == |tasks|
    ensures forall i :: 0 <= i < |r| ==> r[i] == returned[tasks[i]]
  {
    seq(|tasks|, i requires 0 <= i < |tasks| => returned[tasks[i]])
  }

  /** What one task adds to the fan-in: a list result, or nothing for an exception
      (`isinstance(ls, list)`). */
  function Contribution(o: Outcome<seq<string>>): seq<string> {
    match o
    case Returned(ls) => ls
    case Raised => []
  }

  /** The summed length of the list results. */
  function ReturnedLength(results: seq<Outcome<seq<string>>>): nat {
    if results == [] then 0 else |Contribution(results[0])| + ReturnedLength(results[1..])
  }

  /** `[l for ls in results if isinstance(ls, list) for l in ls]`. */
  function Flatten(results: seq<Outcome<seq<string>>>): (r: seq<string>)
    ensures |r| == ReturnedLength(results)
    ensures results == [] ==> r == []
  {
    if results == [] then [] else Contribution(results[0]) + Flatten(results[1..])
  }

  /** Fan-in distributes over consecutive runs of tasks. */
  lemma {:induction false} FlattenAppend(a: seq<Outcome<seq<string>>>, b: seq<Outcome<seq<string>>>)
    ensures Flatten(a + b) == Flatten(a) + Flatten(b)
  {
    if a == [] {
      assert a + b == b;
    } else {
      assert (a + b)[1..] == a[1..] + b;
      FlattenAppend(a[1..], b);
    }
  }

  /** A URL comes out of the fan-in exactly when some task returned a list holding it. */
  lemma {:induction false} FlattenMembership(results: seq<Outcome<seq<string>>>, x: string)
    ensures x in Flatten(results)
        <==> exists i :: 0 <= i < |results| && results[i].Returned? && x in results[i].value
  {
    if results != [] {
      FlattenMembership(results[1..], x);
      if x in Flatten(results[1..]) {
        var i :| 0 <= i < |results[1..]| && results[1..][i].Returned? && x in results[1..][i].value;
        assert results[i + 1] == results[1..][i];
      }
      if exists i :: 0 <= i < |results| && results[i].Returned? && x in results[i].value {
        var i :| 0 <= i < |results| && results[i].Returned? && x in results[i].value;
        if i > 0 {
          assert results[1..][i - 1] == results[i];
        }
      }
    }
  }

  /** The fan-in of tasks that all raised is empty. */
  lemma {:induction false} FlattenAllRaised(results: seq<Outcome<seq<string>>>)
    requires forall i :: 0 <= i < |results| ==> results[i].Raised?
    ensures Flatten(results) == []
  {
    if results != [] {
      FlattenAllRaised(results[1..]);
    }
  }
}
