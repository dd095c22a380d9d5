/**
 * The dashboard's derived views over the listed records: the per-status
 * counts and the top-five ranking of owners by verified records.
 */
module Dashboard {
  import opened Wrappers
  import opened Json
  import opened Store
  import Sorting

  /** `records.filter(r => r.status === status).length`. */
  function CountStatus(rs: seq<Record>, status: Json): (n: nat)
    ensures n <= |rs|
    decreases |rs|
  {
    if |rs| == 0 then 0
    else CountStatus(rs[..|rs| - 1], status) + (if rs[|rs| - 1].status == status then 1 else 0)
  }

  predicate KnownStatus(r: Record) {
    r.status == Verified || r.status == Pending || r.status == Rejected
  }

  /** When every status is one of the three, the three counts add up to the list. */
  lemma {:induction false} StatusCountsAddUp(rs: seq<Record>)
    requires forall i :: 0 <= i < |rs| ==> KnownStatus(rs[i])
    ensures CountStatus(rs, Verified) + CountStatus(rs, Pending) + CountStatus(rs, Rejected) == |rs|
    decreases |rs|
  {
    if |rs| > 0 {
      StatusCountsAddUp(rs[..|rs| - 1]);
    }
  }

  /** Number of verified records whose `owner` property is `owner` (the reference count). */
  function VerifiedBy(rs: seq<Record>, owner: Field): nat
    decreases |rs|
  {
    if |rs| == 0 then 0
    else
      var last := rs[|rs| - 1];
      VerifiedBy(rs[..|rs| - 1], owner) + (if last.status == Verified && last.owner == owner then 1 else 0)
  }

  /** One `[owner, count]` entry of the tally map. */
  datatype Entry = Entry(owner: Field, count: nat)

  /** No owner appears in two entries. */
  predicate DistinctOwners(t: seq<Entry>) {
    forall i, j :: 0 <= i < j < |t| ==> t[i].owner != t[j].owner
  }

  predicate Positive(t: seq<Entry>) {
    forall i :: 0 <= i < |t| ==> t[i].count >= 1
  }

  /** Some entry holds `owner`. */
  predicate HasOwner(t: seq<Entry>, owner: Field) {
    exists i :: 0 <= i < |t| && t[i].owner == owner
  }

  /** `map.get(owner) || 0`. */
  function CountIn(t: seq<Entry>, owner: Field): nat
    decreases |t|
  {
    if |t| == 0 then 0
    else if t[0].owner == owner then t[0].count
    else CountIn(t[1..], owner)
  }

  /** In a map of distinct owners, each entry's count is the count looked up for its owner. */
  lemma {:induction false} CountInEntry(t: seq<Entry>, i: int)
    requires DistinctOwners(t) && 0 <= i < |t|
    ensures CountIn(t, t[i].owner) == t[i].count
    decreases |t|
  {
    if i > 0 {
      CountInEntry(t[1..], i - 1);
    }
  }

  /** `map.set(owner, (map.get(owner) || 0) + 1)`; a new owner goes last, as in a `Map`. */
  function Bump(t: seq<Entry>, owner: Field): (r: seq<Entry>)
    ensures forall x :: CountIn(r, x) == CountIn(t, x) + (if x == owner then 1 else 0)
    ensures Positive(t) ==> Positive(r)
    decreases |t|
  {
    if |t| == 0 then [Entry(owner, 1)]
    else if t[0].owner == owner then [Entry(owner, t[0].count + 1)] + t[1..]
    else
      var rest := Bump(t[1..], owner);
      var r := [t[0]] + rest;
      assert r[1..] == rest;
      r
  }

  lemma HasOwnerCons(e: Entry, t: seq<Entry>, x: Field)
    ensures HasOwner([e] + t, x) <==> e.owner == x || HasOwner(t, x)
  {
    var r := [e] + t;
    assert r[0].owner == e.owner;
    if HasOwner(t, x) {
      var i :| 0 <= i < |t| && t[i].owner == x;
      assert r[i + 1].owner == x;
    }
    if HasOwner(r, x) && e.owner != x {
      var i :| 0 <= i < |r| && r[i].owner == x;
      assert t[i - 1].owner == x;
    }
  }

  /** After a bump the owners are the old owners plus the bumped one. */
  lemma {:induction false} BumpOwners(t: seq<Entry>, owner: Field, x: Field)
    ensures HasOwner(Bump(t, owner), x) <==> x == owner || HasOwner(t, x)
    decreases |t|
  {
    if |t| == 0 {
      HasOwnerCons(Entry(owner, 1), [], x);
    } else {
      assert t == [t[0]] + t[1..];
      HasOwnerCons(t[0], t[1..], x);
      if t[0].owner == owner {
        HasOwnerCons(Entry(owner, t[0].count + 1), t[1..], x);
      } else {
        BumpOwners(t[1..], owner, x);
        HasOwnerCons(t[0], Bump(t[1..], owner), x);
      }
    }
  }

  /** A bump never makes an owner appear twice. */
  lemma {:induction false} BumpDistinct(t: seq<Entry>, owner: Field)
    requires DistinctOwners(t)
    ensures DistinctOwners(Bump(t, owner))
    decreases |t|
  {
    var r := Bump(t, owner);
    if |t| > 0 && t[0].owner != owner {
      var rest := Bump(t[1..], owner);
      BumpDistinct(t[1..], owner);
      assert r == [t[0]] + rest;
      BumpOwners(t[1..], owner, t[0].owner);
      forall i | 0 <= i < |t[1..]|
        ensures t[1..][i].owner != t[0].owner
      {
        assert t[1..][i] == t[i + 1];
      }
      assert !HasOwner(rest, t[0].owner);
      forall j | 0 < j < |r|
        ensures r[0].owner != r[j].owner
      {
        assert rest[j - 1] == r[j];
      }
    }
  }

  /** The `records.reduce` that builds the owner -> verified-count map. */
  function Tally(rs: seq<Record>): (t: seq<Entry>)
    ensures Positive(t)
    ensures forall x :: CountIn(t, x) == VerifiedBy(rs, x)
    decreases |rs|
  {
    if |rs| == 0 then []
    else
      var prev := Tally(rs[..|rs| - 1]);
      var last := rs[|rs| - 1];
      if last.status == Verified then Bump(prev, last.owner) else prev
  }

  /** The tally holds each owner with a verified record exactly once. */
  lemma {:induction false} TallyOwners(rs: seq<Record>)
    ensures DistinctOwners(Tally(rs))
    ensures forall x :: HasOwner(Tally(rs), x) <==> VerifiedBy(rs, x) > 0
    decreases |rs|
  {
    if |rs| > 0 {
      var init := rs[..|rs| - 1];
      var last := rs[|rs| - 1];
      TallyOwners(init);
      if last.status == Verified {
        BumpDistinct(Tally(init), last.owner);
        forall x
          ensures HasOwner(Tally(rs), x) <==> VerifiedBy(rs, x) > 0
        {
          BumpOwners(Tally(init), last.owner, x);
        }
      }
    }
  }

  /** Every entry of the tally counts its owner's verified records. */
  lemma TallyEntries(rs: seq<Record>, i: int)
    requires 0 <= i < |Tally(rs)|
    ensures Tally(rs)[i].count == VerifiedBy(rs, Tally(rs)[i].owner) >= 1
  {
    TallyOwners(rs);
    CountInEntry(Tally(rs), i);
  }

  function CountRank(e: Entry): Option<real> {
    Some(e.count as real)
  }

  function Take<T>(s: seq<T>, n: nat): (r: seq<T>)
    ensures |r| <= n && |r| <= |s| && r == s[..|r|]
    ensures |s| >= n ==> |r| == n
    ensures |s| <= n ==> r == s
  {
    if |s| <= n then s else s[..n]
  }

  /** `sort((a, b) => b[1] - a[1]).slice(0, 5)` over the tally. */
  function TopContributors(rs: seq<Record>): (top: seq<Entry>)
    ensures |top| <= 5
    ensures forall i, j :: 0 <= i < j < |top| ==> top[i].count >= top[j].count
  {
    var sorted := Sorting.SortBy(CountRank, Tally(rs));
    assert Sorting.Ranked(CountRank, Tally(rs));
    Take(sorted, 5)
  }

  /** Each listed contributor's count is their number of verified records. */
  lemma TopContributorsCountVerified(rs: seq<Record>)
    ensures forall i :: 0 <= i < |TopContributors(rs)| ==>
              TopContributors(rs)[i].count == VerifiedBy(rs, TopContributors(rs)[i].owner) >= 1
  {
    var t := Tally(rs);
    var sorted := Sorting.SortBy(CountRank, t);
    var top := TopContributors(rs);
    assert top == Take(sorted, 5);
    forall i | 0 <= i < |top|
      ensures top[i].count == VerifiedBy(rs, top[i].owner) >= 1
    {
      assert top[i] == sorted[i];
      assert sorted[i] in multiset(t);
      var j :| 0 <= j < |t| && t[j] == top[i];
      TallyEntries(rs, j);
    }
  }

  /**
   * An owner with verified records is left out only when five others are
   * listed, each with at least as many.
   */
  lemma TopContributorsAreTheTop(rs: seq<Record>, x: Field)
    requires VerifiedBy(rs, x) > 0 && !HasOwner(TopContributors(rs), x)
    ensures |TopContributors(rs)| == 5
    ensures forall i :: 0 <= i < 5 ==> TopContributors(rs)[i].count >= VerifiedBy(rs, x)
  {
    var t := Tally(rs);
    var sorted := Sorting.SortBy(CountRank, t);
    assert Sorting.Ranked(CountRank, t);
    var top := TopContributors(rs);
    assert top == Take(sorted, 5);
    TallyOwners(rs);
    var j :| 0 <= j < |t| && t[j].owner == x;
    TallyEntries(rs, j);
    assert t[j] in multiset(sorted);
    var k :| 0 <= k < |sorted| && sorted[k] == t[j];
    assert forall i :: 0 <= i < |top| ==> sorted[i] == top[i] && sorted[i].owner != x;
    assert k >= |top|;
    forall i | 0 <= i < |top|
      ensures top[i].count >= VerifiedBy(rs, x)
    {
      assert CountRank(sorted[i]).value >= CountRank(sorted[k]).value;
    }
  }
}
