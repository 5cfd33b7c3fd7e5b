/**
 * Resolving a list of location strings (`getGeolocations`): drop repeated
 * strings, keeping first occurrences in order, then resolve each remaining
 * string in turn and append what it yields.
 */
module Batch {
  import opened Lookup

  predicate NoDuplicates(xs: seq<string>)
  {
    forall i, j :: 0 <= i < j < |xs| ==> xs[i] != xs[j]
  }

  /** The position of the first occurrence of `x` in `xs`, or `|xs|` when there is none. */
  function FirstIndex(xs: seq<string>, x: string): (k: nat)
    ensures k <= |xs|
    ensures k < |xs| <==> x in xs
    ensures k < |xs| ==> xs[k] == x
    ensures x !in xs[..k]
  {
    if xs == [] then 0
    else if xs[0] == x then 0
    else
      assert xs[1..][..FirstIndex(xs[1..], x)] == xs[1..1 + FirstIndex(xs[1..], x)];
      1 + FirstIndex(xs[1..], x)
  }

  /**
   * `[...new Set(xs)]`: a Set remembers insertion order, so its elements come
   * out in the order in which each was first met.
   */
  function Distinct(xs: seq<string>): (r: seq<string>)
    ensures NoDuplicates(r)
    ensures forall x :: x in r <==> x in xs
    ensures |r| <= |xs|
  {
    if xs == [] then []
    else
      var d := Distinct(xs[..|xs| - 1]);
      var last := xs[|xs| - 1];
      assert forall x :: x in xs <==> x in xs[..|xs| - 1] || x == last by {
        assert xs == xs[..|xs| - 1] + [last];
      }
      if last in d then d else d + [last]
  }

  /** The first occurrence of a value in a prefix is its first occurrence in the whole. */
  lemma {:induction false} FirstIndexPrefix(xs: seq<string>, n: nat, x: string)
    requires n <= |xs| && x in xs[..n]
    ensures FirstIndex(xs, x) == FirstIndex(xs[..n], x)
  {
    if xs[0] != x {
      assert xs[..n][1..] == xs[1..][..n - 1];
      assert x in xs[1..][..n - 1];
      FirstIndexPrefix(xs[1..], n - 1, x);
    }
  }

  /** The elements of `r` appear in the order of their first occurrences in `xs`. */
  predicate OrderedByFirstIndex(r: seq<string>, xs: seq<string>)
  {
    forall i, j :: 0 <= i < j < |r| ==> FirstIndex(xs, r[i]) < FirstIndex(xs, r[j])
  }

  /** Appending a string met later than everything before it keeps first-occurrence order. */
  lemma OrderedAppend(d: seq<string>, last: string, xs: seq<string>)
    requires OrderedByFirstIndex(d, xs)
    requires forall y :: y in d ==> FirstIndex(xs, y) < FirstIndex(xs, last)
    ensures OrderedByFirstIndex(d + [last], xs)
  {
    var r := d + [last];
    forall i, j | 0 <= i < j < |r|
      ensures FirstIndex(xs, r[i]) < FirstIndex(xs, r[j])
    {
      assert r[i] == d[i] && r[i] in d;
      if j < |d| {
        assert r[j] == d[j];
      }
    }
  }

  /**
   * `Distinct` lists the kept strings in the order of their first occurrences
   * in the input.
   */
  lemma {:induction false} DistinctOrder(xs: seq<string>)
    ensures OrderedByFirstIndex(Distinct(xs), xs)
  {
    if xs != [] {
      var n := |xs| - 1;
      var init := xs[..n];
      var d := Distinct(init);
      DistinctOrder(init);
      forall y | y in d
        ensures FirstIndex(xs, y) == FirstIndex(init, y) < n
      {
        FirstIndexPrefix(xs, n, y);
      }
      assert OrderedByFirstIndex(d, xs) by {
        forall i, j | 0 <= i < j < |d|
          ensures FirstIndex(xs, d[i]) < FirstIndex(xs, d[j])
        {
          assert d[i] in d && d[j] in d;
        }
      }
      if xs[n] !in d {
        assert FirstIndex(xs, xs[n]) == n by {
          assert xs[..n] == init;
        }
        OrderedAppend(d, xs[n], xs);
      }
    }
  }

  lemma HasNoElements(s: seq<string>)
    ensures (forall x :: x !in s) ==> s == []
  {
    if s != [] {
      assert s[0] in s;
    }
  }

  lemma OrderedTail(a: seq<string>, xs: seq<string>)
    requires a != [] && OrderedByFirstIndex(a, xs)
    ensures OrderedByFirstIndex(a[1..], xs)
    ensures forall x :: x in a <==> x == a[0] || x in a[1..]
    ensures a[0] !in a[1..]
  {
    assert a == [a[0]] + a[1..];
    forall i | 0 <= i < |a[1..]|
      ensures a[1..][i] != a[0]
    {
      assert a[1..][i] == a[i + 1];
    }
  }

  lemma OrderedSameHead(a: seq<string>, b: seq<string>, xs: seq<string>)
    requires a != [] && OrderedByFirstIndex(a, xs) && OrderedByFirstIndex(b, xs)
    requires forall x :: x in a <==> x in b
    ensures b != [] && a[0] == b[0]
  {
    assert a[0] in a;
    var m :| 0 <= m < |b| && b[m] == a[0];
    assert b[0] in a;
    var k :| 0 <= k < |a| && a[k] == b[0];
    assert k == 0 || m == 0;
  }

  /** Two lists with the same elements, both in first-occurrence order, are the same list. */
  lemma {:induction false} OrderedUnique(a: seq<string>, b: seq<string>, xs: seq<string>)
    requires OrderedByFirstIndex(a, xs) && OrderedByFirstIndex(b, xs)
    requires forall x :: x in a <==> x in b
    ensures a == b
  {
    if a == [] {
      HasNoElements(b);
    } else {
      OrderedSameHead(a, b, xs);
      OrderedTail(a, xs);
      OrderedTail(b, xs);
      OrderedUnique(a[1..], b[1..], xs);
      assert a == [a[0]] + a[1..] && b == [b[0]] + b[1..];
    }
  }

  /**
   * Deduplication keeps exactly the first occurrence of each string: any list
   * holding the same strings in first-occurrence order is `Distinct(xs)`.
   */
  lemma DistinctCharacterized(xs: seq<string>, r: seq<string>)
    requires forall x :: x in r <==> x in xs
    requires OrderedByFirstIndex(r, xs)
    ensures r == Distinct(xs)
  {
    DistinctOrder(xs);
    OrderedUnique(r, Distinct(xs), xs);
  }

  /** `idx` lists increasing positions of `xs` at which the elements of `r` stand. */
  ghost predicate PicksOut(idx: seq<nat>, r: seq<string>, xs: seq<string>)
  {
    && |idx| == |r|
    && (forall i :: 0 <= i < |idx| ==> idx[i] < |xs| && xs[idx[i]] == r[i])
    && (forall i, j :: 0 <= i < j < |idx| ==> idx[i] < idx[j])
  }

  /** The deduplicated list is a subsequence of the input: its first-occurrence positions pick it out. */
  lemma DistinctSubsequence(xs: seq<string>)
    ensures exists idx :: PicksOut(idx, Distinct(xs), xs)
  {
    var r := Distinct(xs);
    DistinctOrder(xs);
    var idx := seq(|r|, i requires 0 <= i < |r| => FirstIndex(xs, r[i]));
    forall i | 0 <= i < |idx|
      ensures idx[i] < |xs| && xs[idx[i]] == r[i]
    {
      assert r[i] in r;
    }
    assert PicksOut(idx, r, xs);
  }

  /** Removing duplicates from a list that has none changes nothing. */
  lemma {:induction false} DistinctOfNoDuplicates(xs: seq<string>)
    requires NoDuplicates(xs)
    ensures Distinct(xs) == xs
  {
    if xs != [] {
      var n := |xs| - 1;
      assert NoDuplicates(xs[..n]);
      DistinctOfNoDuplicates(xs[..n]);
      assert xs[n] !in xs[..n];
      assert xs[..n] + [xs[n]] == xs;
    }
  }

  /** Removing duplicates twice is the same as once. */
  lemma DistinctIdempotent(xs: seq<string>)
    ensures Distinct(Distinct(xs)) == Distinct(xs)
  {
    DistinctOfNoDuplicates(Distinct(xs));
  }

  /**
   * What `[...new Set(locations)]` computes, step by step: each string is added
   * to the set, and to the insertion order when the set did not hold it yet.
   */
  method Deduplicate(locations: seq<string>) returns (unique: seq<string>)
    ensures unique == Distinct(locations)
  {
    var seen: set<string> := {};
    unique := [];
    for i := 0 to |locations|
      invariant unique == Distinct(locations[..i])
      invariant forall x :: x in seen <==> x in unique
    {
      assert locations[..i + 1][..i] == locations[..i];
      if locations[i] !in seen {
        seen := seen + {locations[i]};
        unique := unique + [locations[i]];
      }
    }
    assert locations[..|locations|] == locations;
  }

  /** One resolution per string: `getGeolocation` against a fixed provider. */
  function Resolver(provider: Request -> Reply): string -> Settled
  {
    q => GetGeolocation(q, provider)
  }

  /**
   * The outcomes the loop appends for `queries`, in order: one per query whose
   * resolution is fulfilled; a rejected resolution is caught and appends nothing.
   */
  function Collect(queries: seq<string>, resolve: string -> Settled): (outcomes: seq<Outcome>)
    ensures |outcomes| <= |queries|
  {
    if queries == [] then []
    else
      var init := Collect(queries[..|queries| - 1], resolve);
      match resolve(queries[|queries| - 1])
      case Fulfilled(o) => init + [o]
      case Rejected => init
  }

  /** The loop's step: the outcome of the next query, if fulfilled, goes at the end. */
  lemma CollectStep(queries: seq<string>, n: nat, resolve: string -> Settled)
    requires n < |queries|
    ensures Collect(queries[..n + 1], resolve) ==
            match resolve(queries[n])
            case Fulfilled(o) => Collect(queries[..n], resolve) + [o]
            case Rejected => Collect(queries[..n], resolve)
  {
    assert queries[..n + 1][..n] == queries[..n];
  }

  /**
   * Resolving a list is resolving its parts one after the other: what happens
   * to an earlier query never affects the outcomes of later ones.
   */
  lemma {:induction false} CollectAppend(a: seq<string>, b: seq<string>, resolve: string -> Settled)
    ensures Collect(a + b, resolve) == Collect(a, resolve) + Collect(b, resolve)
  {
    if b == [] {
      assert a + b == a;
    } else {
      var n := |b| - 1;
      CollectAppend(a, b[..n], resolve);
      assert (a + b)[..|a + b| - 1] == a + b[..n];
      assert (a + b)[|a + b| - 1] == b[n];
    }
  }

  predicate AllFulfilled(queries: seq<string>, resolve: string -> Settled)
  {
    forall i :: 0 <= i < |queries| ==> resolve(queries[i]).Fulfilled?
  }

  /**
   * When no resolution is rejected there is exactly one outcome per query,
   * at the query's own position.
   */
  lemma {:induction false} CollectAllFulfilled(queries: seq<string>, resolve: string -> Settled)
    requires AllFulfilled(queries, resolve)
    ensures |Collect(queries, resolve)| == |queries|
    ensures forall i :: 0 <= i < |queries| ==> Collect(queries, resolve)[i] == resolve(queries[i]).outcome
  {
    if queries != [] {
      var n := |queries| - 1;
      assert AllFulfilled(queries[..n], resolve) by {
        forall i | 0 <= i < n ensures resolve(queries[..n][i]).Fulfilled? {
          assert queries[..n][i] == queries[i];
        }
      }
      CollectAllFulfilled(queries[..n], resolve);
      var init := Collect(queries[..n], resolve);
      var settled := resolve(queries[n]);
      assert settled.Fulfilled?;
      assert Collect(queries, resolve) == init + [settled.outcome];
      forall i | 0 <= i < |queries|
        ensures Collect(queries, resolve)[i] == resolve(queries[i]).outcome
      {
        if i < n {
          assert queries[..n][i] == queries[i];
        }
      }
    }
  }

  /** An outcome goes missing exactly when some resolution is rejected. */
  lemma {:induction false} CollectDropsOnlyRejected(queries: seq<string>, resolve: string -> Settled)
    ensures |Collect(queries, resolve)| == |queries| <==> AllFulfilled(queries, resolve)
  {
    if queries != [] {
      var n := |queries| - 1;
      var init := Collect(queries[..n], resolve);
      var settled := resolve(queries[n]);
      if AllFulfilled(queries, resolve) {
        CollectAllFulfilled(queries, resolve);
      } else if settled.Rejected? {
        assert Collect(queries, resolve) == init;
      } else {
        assert Collect(queries, resolve) == init + [settled.outcome];
        var i :| 0 <= i < |queries| && !resolve(queries[i]).Fulfilled?;
        assert i < n && queries[..n][i] == queries[i];
        assert !AllFulfilled(queries[..n], resolve);
        CollectDropsOnlyRejected(queries[..n], resolve);
      }
    }
  }

  /** What `getGeolocations` returns for `locations`. */
  function Resolve(locations: seq<string>, provider: Request -> Reply): seq<Outcome>
  {
    if locations == [] then [Message(NO_INPUT_MESSAGE)]
    else Collect(Distinct(locations), Resolver(provider))
  }

  /**
   * `getGeolocations`: deduplicate, answer an empty list with the no-input
   * message, otherwise resolve each distinct string in turn and append its outcome.
   */
  method GetGeolocations(locations: seq<string>, provider: Request -> Reply) returns (responses: seq<Outcome>)
    ensures responses == Resolve(locations, provider)
    ensures locations == [] ==> responses == [Message(NO_INPUT_MESSAGE)]
    ensures locations != [] ==> |responses| <= |Distinct(locations)|
  {
    var unique := Deduplicate(locations);
    if |unique| == 0 {
      responses := [Message(NO_INPUT_MESSAGE)];
      return;
    }
    responses := [];
    for i := 0 to |unique|
      invariant responses == Collect(unique[..i], Resolver(provider))
    {
      var settled := GetGeolocation(unique[i], provider);
      assert settled == Resolver(provider)(unique[i]);
      CollectStep(unique, i, Resolver(provider));
      match settled {
        case Fulfilled(outcome) =>
          responses := responses + [outcome];
        case Rejected =>
      }
    }
    assert unique[..|unique|] == unique;
  }

  /**
   * For a non-empty list whose resolutions are all fulfilled there is one outcome
   * per distinct string, in the order of first occurrence.
   */
  lemma ResolveOnePerDistinct(locations: seq<string>, provider: Request -> Reply)
    requires locations != [] && AllFulfilled(Distinct(locations), Resolver(provider))
    ensures |Resolve(locations, provider)| == |Distinct(locations)|
    ensures forall i :: 0 <= i < |Distinct(locations)| ==>
              Resolve(locations, provider)[i] == GetGeolocation(Distinct(locations)[i], provider).outcome
  {
    CollectAllFulfilled(Distinct(locations), Resolver(provider));
  }

  /**
   * The output is shorter than the deduplicated input only when the provider
   * threw `null` or `undefined` for one of the distinct strings.
   */
  lemma DroppedOnlyOnNullish(locations: seq<string>, provider: Request -> Reply)
    requires locations != []
    ensures |Resolve(locations, provider)| < |Distinct(locations)| <==>
            exists q :: q in locations && Classify(q).Send? && provider(Classify(q).request) == Failure(Nullish)
  {
    var unique := Distinct(locations);
    CollectDropsOnlyRejected(unique, Resolver(provider));
    if !AllFulfilled(unique, Resolver(provider)) {
      var i :| 0 <= i < |unique| && !Resolver(provider)(unique[i]).Fulfilled?;
      assert unique[i] in locations;
    }
    if exists q :: q in locations && Classify(q).Send? && provider(Classify(q).request) == Failure(Nullish) {
      var q :| q in locations && Classify(q).Send? && provider(Classify(q).request) == Failure(Nullish);
      assert q in unique;
      var i :| 0 <= i < |unique| && unique[i] == q;
      assert !Resolver(provider)(unique[i]).Fulfilled?;
    }
  }
}
