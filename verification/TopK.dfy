/** Ranking candidates: by score, ties by rider id, the best few kept. */
module TopK {
  import opened Model

  /** What there is to choose from: each rider's score. */
  type Pool = map<Int64, int>

  predicate Before(a: Candidate, b: Candidate) {
    a.score < b.score || (a.score == b.score && a.riderId < b.riderId)
  }

  predicate Ranked(s: seq<Candidate>) {
    forall i, j :: 0 <= i < j < |s| ==> Before(s[i], s[j])
  }

  predicate InPool(pool: Pool, c: Candidate) {
    c.riderId in pool && pool[c.riderId] == c.score
  }

  /** The best `limit` of the pool, best first. */
  ghost predicate IsBest(best: seq<Candidate>, pool: Pool, limit: nat) {
    && Ranked(best) && |best| <= limit
    && (forall c :: c in best ==> InPool(pool, c))
    && (forall c :: InPool(pool, c) && c !in best ==> |best| == limit)
    && (forall b, c :: b in best && InPool(pool, c) && c !in best ==> Before(b, c))
  }

  lemma FallsBetween(s: seq<Candidate>, i: nat, c: Candidate)
    requires Ranked(s) && i < |s| && Before(c, s[i]) && forall j :: 0 <= j < i ==> Before(s[j], c)
    ensures c !in s && s[i] in s
  {
    forall j | 0 <= j < |s| ensures s[j] != c {
      if j > i { assert Before(s[i], s[j]); }
    }
  }

  lemma AgreeUpTo(a: seq<Candidate>, b: seq<Candidate>, pool: Pool, limit: nat, i: nat)
    requires IsBest(a, pool, limit) && IsBest(b, pool, limit)
    requires i < |a| && i < |b| && a[..i] == b[..i]
    ensures !Before(a[i], b[i])
  {
    assert a[i] in a;
    if Before(a[i], b[i]) {
      forall j | 0 <= j < i ensures Before(b[j], a[i]) {
        assert b[j] == b[..i][j] == a[..i][j] == a[j];
      }
      FallsBetween(b, i, a[i]);
    }
  }

  lemma ComesAfter(a: seq<Candidate>, b: seq<Candidate>)
    requires Ranked(b) && |a| < |b| && b[..|a|] == a
    ensures b[|a|] in b && b[|a|] !in a
  {
    forall j | 0 <= j < |a| ensures a[j] != b[|a|] {
      assert a[j] == b[j] && Before(b[j], b[|a|]);
    }
  }

  lemma SameLength(a: seq<Candidate>, b: seq<Candidate>, pool: Pool, limit: nat)
    requires IsBest(a, pool, limit) && IsBest(b, pool, limit) && |a| <= |b| && b[..|a|] == a
    ensures a == b
  {
    if |a| < |b| {
      ComesAfter(a, b);
    }
  }

  lemma {:induction false} PrefixesAgree(a: seq<Candidate>, b: seq<Candidate>, pool: Pool, limit: nat, i: nat)
    requires IsBest(a, pool, limit) && IsBest(b, pool, limit) && i <= |a| && i <= |b|
    ensures a[..i] == b[..i]
  {
    if i > 0 {
      PrefixesAgree(a, b, pool, limit, i - 1);
      AgreeUpTo(a, b, pool, limit, i - 1);
      AgreeUpTo(b, a, pool, limit, i - 1);
      assert a[..i] == a[..i - 1] + [a[i - 1]] && b[..i] == b[..i - 1] + [b[i - 1]];
    }
  }

  /** A pool has one best selection, so nothing depends on the order it was gathered in. */
  lemma BestIsUnique(a: seq<Candidate>, b: seq<Candidate>, pool: Pool, limit: nat)
    requires IsBest(a, pool, limit) && IsBest(b, pool, limit)
    ensures a == b
  {
    if |a| <= |b| {
      PrefixesAgree(a, b, pool, limit, |a|);
      SameLength(a, b, pool, limit);
    } else {
      PrefixesAgree(a, b, pool, limit, |b|);
      SameLength(b, a, pool, limit);
    }
  }

  lemma SomebodyIsBest(pool: Pool, limit: nat)
    requires pool != map[] && limit > 0
    ensures !IsBest([], pool, limit)
  {
    var u :| u in pool;
    assert InPool(pool, Candidate(u, pool[u]));
  }

  // ---------------------------------------------------------------------------------------------
  // Sorting
  // ---------------------------------------------------------------------------------------------

  lemma LeadsAll(s: seq<Candidate>, c: Candidate)
    requires Ranked(s) && |s| > 0 && Before(c, s[0])
    ensures Ranked([c] + s)
    ensures forall d :: d in [c] + s <==> d == c || d in s
  {
    var r := [c] + s;
    forall i, j | 0 <= i < j < |r| ensures Before(r[i], r[j]) {
      if i > 0 { assert Before(s[i - 1], s[j - 1]); }
      if i == 0 && j > 1 { assert Before(s[0], s[j - 1]); }
    }
  }

  lemma LeadsTail(s: seq<Candidate>)
    requires Ranked(s) && |s| > 0
    ensures Ranked(s[1..]) && forall d :: d in s[1..] ==> Before(s[0], d)
    ensures forall d :: d in s <==> d == s[0] || d in s[1..]
  {
    assert s == [s[0]] + s[1..];
    forall d | d in s[1..] ensures Before(s[0], d) {
      var j :| 0 <= j < |s[1..]| && s[1..][j] == d;
      assert s[j + 1] == d;
    }
  }

  function InsertRanked(s: seq<Candidate>, c: Candidate): (r: seq<Candidate>)
    requires Ranked(s) && forall d :: d in s ==> d.riderId != c.riderId
    ensures Ranked(r) && forall d :: d in r <==> d == c || d in s
  {
    if |s| == 0 then [c]
    else if Before(c, s[0]) then
      LeadsAll(s, c);
      [c] + s
    else
      LeadsTail(s);
      var rest := InsertRanked(s[1..], c);
      [s[0]] + rest
  }

  predicate OncePerRider(s: seq<Candidate>) {
    forall i, j :: 0 <= i < j < |s| ==> s[i].riderId != s[j].riderId
  }

  function SortRanked(s: seq<Candidate>): (r: seq<Candidate>)
    requires OncePerRider(s)
    ensures Ranked(r) && forall d :: d in r <==> d in s
  {
    if |s| == 0 then [] else
      var last := |s| - 1;
      assert s == s[..last] + [s[last]];
      InsertRanked(SortRanked(s[..last]), s[last])
  }

  /** The first `limit` of a ranked listing of the pool are its best. */
  lemma FirstAreBest(sorted: seq<Candidate>, pool: Pool, limit: nat)
    requires Ranked(sorted) && forall c :: c in sorted <==> InPool(pool, c)
    ensures IsBest(if |sorted| > limit then sorted[..limit] else sorted, pool, limit)
  {
    var best := if |sorted| > limit then sorted[..limit] else sorted;
    forall b, c | b in best && InPool(pool, c) && c !in best ensures Before(b, c) {
      var i :| 0 <= i < |best| && best[i] == b;
      var j :| 0 <= j < |sorted| && sorted[j] == c;
      assert j >= |best|;
      assert Before(sorted[i], sorted[j]);
    }
  }
}
