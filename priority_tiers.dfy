/**
  The wrapper (middleware) registry of the framework, as values: a map from an
  integer priority to the tier of wrappers registered at that priority, its
  listing in ascending priority order, and the proof that this listing is
  exactly the stable sort of the registrations by priority.
 */
module PriorityTiers {

  /** One registration: the wrapper and the priority it was registered at. */
  datatype Registration<W> = Registration(priority: int, wrapper: W)

  /** Appends `wrapper` to the tier `priority`, creating the tier when it is new. */
  function Append<W>(tiers: map<int, seq<W>>, priority: int, wrapper: W): (r: map<int, seq<W>>)
  {
    var tier := if priority in tiers then tiers[priority] else [];
    tiers[priority := tier + [wrapper]]
  }

  /** The tiers after registering `log` in order, starting from an empty registry. */
  function Build<W>(log: seq<Registration<W>>): (tiers: map<int, seq<W>>)
  {
    if log == [] then map[]
    else
      var last := log[|log| - 1];
      Append(Build(log[..|log| - 1]), last.priority, last.wrapper)
  }

  /** One more registration appends its wrapper to its tier: `Build` is the fold of `Append`. */
  lemma BuildSnoc<W>(log: seq<Registration<W>>, priority: int, wrapper: W)
    ensures Build(log + [Registration(priority, wrapper)]) == Append(Build(log), priority, wrapper)
  {
    assert (log + [Registration(priority, wrapper)])[..|log|] == log;
  }

  /** A non-empty set of priorities has an element. */
  lemma Pick(keys: set<int>) returns (x: int)
    requires keys != {}
    ensures x in keys
  {
    if forall k :: k !in keys {
      assert false;
    }
    x :| x in keys;
  }

  /** A non-empty set of priorities has a least element. */
  lemma {:induction false} LeastExists(keys: set<int>)
    requires keys != {}
    ensures exists m :: m in keys && forall k :: k in keys ==> m <= k
    decreases keys
  {
    var x := Pick(keys);
    if keys == {x} {
      assert forall k :: k in keys ==> x <= k;
    } else {
      var rest := keys - {x};
      LeastExists(rest);
      var y :| y in rest && forall k :: k in rest ==> y <= k;
      var m := if x < y then x else y;
      assert forall k :: k in keys ==> k == x || k in rest;
      assert m in keys && forall k :: k in keys ==> m <= k;
    }
  }

  /** The keys of a tier map in ascending order: what `ksort` gives the loop. */
  function SortedKeys(keys: set<int>): (ks: seq<int>)
    ensures forall i, j :: 0 <= i < j < |ks| ==> ks[i] < ks[j]
    ensures forall k :: k in ks <==> k in keys
    decreases keys
  {
    if keys == {} then []
    else
      LeastExists(keys);
      var m :| m in keys && forall k :: k in keys ==> m <= k;
      var above := SortedKeys(keys - {m});
      assert forall j :: 0 <= j < |above| ==> m < above[j];
      [m] + above
  }

  /** The tiers named by `ks`, concatenated in the order of `ks`. */
  function Concat<W>(tiers: map<int, seq<W>>, ks: seq<int>): (listing: seq<W>)
    requires forall i :: 0 <= i < |ks| ==> ks[i] in tiers
  {
    if ks == [] then []
    else Concat(tiers, ks[..|ks| - 1]) + tiers[ks[|ks| - 1]]
  }

  /** The listing of the registry: every tier, in ascending order of priority. */
  function Ordered<W>(tiers: map<int, seq<W>>): (listing: seq<W>)
  {
    Concat(tiers, SortedKeys(tiers.Keys))
  }

  // ---------------------------------------------------------------------
  // Reference definitions, independent of maps and sorting

  /** The wrappers registered at priority `p`, in registration order. */
  ghost function Tier<W>(log: seq<Registration<W>>, p: int): (tier: seq<W>)
  {
    if log == [] then []
    else
      var last := log[|log| - 1];
      Tier(log[..|log| - 1], p) + (if last.priority == p then [last.wrapper] else [])
  }

  /** How many registrations of `log` have a priority below `p`. */
  ghost function CountBelow<W>(log: seq<Registration<W>>, p: int): (n: nat)
  {
    if log == [] then 0
    else CountBelow(log[..|log| - 1], p) + (if log[|log| - 1].priority < p then 1 else 0)
  }

  /**
    Where the stable sort by priority puts registration `i`: after every
    registration of lower priority and after the earlier registrations of the
    same priority.
   */
  ghost function Rank<W>(log: seq<Registration<W>>, i: int): (pos: nat)
    requires 0 <= i < |log|
  {
    CountBelow(log, log[i].priority) + |Tier(log[..i], log[i].priority)|
  }

  // ---------------------------------------------------------------------
  // The registry holds exactly the tiers of the registrations

  lemma {:induction false} BuildIsTiers<W>(log: seq<Registration<W>>, p: int)
    ensures p in Build(log) <==> Tier(log, p) != []
    ensures p in Build(log) ==> Build(log)[p] == Tier(log, p)
  {
    if log != [] {
      BuildIsTiers(log[..|log| - 1], p);
    }
  }

  lemma {:induction false} TierOfPrefix<W>(log: seq<Registration<W>>, k: nat, p: int)
    requires k <= |log|
    ensures Tier(log[..k], p) <= Tier(log, p)
    decreases |log|
  {
    if k < |log| {
      var init := log[..|log| - 1];
      assert log[..k] == init[..k];
      TierOfPrefix(init, k, p);
    } else {
      assert log[..k] == log;
    }
  }

  /** Registration `i` sits in its tier right after the earlier ones of that tier. */
  lemma {:induction false} TierAt<W>(log: seq<Registration<W>>, i: int)
    requires 0 <= i < |log|
    ensures |Tier(log[..i], log[i].priority)| < |Tier(log, log[i].priority)|
    ensures Tier(log, log[i].priority)[|Tier(log[..i], log[i].priority)|] == log[i].wrapper
  {
    var p := log[i].priority;
    var pre := log[..i + 1];
    assert pre[..|pre| - 1] == log[..i];
    assert Tier(pre, p) == Tier(log[..i], p) + [log[i].wrapper];
    TierOfPrefix(log, i + 1, p);
  }

  /** Every priority registered is a key of the registry. */
  lemma PriorityIsKey<W>(log: seq<Registration<W>>, i: int)
    requires 0 <= i < |log|
    ensures log[i].priority in Build(log)
  {
    TierAt(log, i);
    BuildIsTiers(log, log[i].priority);
  }

  // ---------------------------------------------------------------------
  // Counting

  lemma {:induction false} CountBelowLeast<W>(log: seq<Registration<W>>, a: int)
    requires forall k :: 0 <= k < |log| ==> a <= log[k].priority
    ensures CountBelow(log, a) == 0
  {
    if log != [] {
      var init := log[..|log| - 1];
      assert forall k :: 0 <= k < |init| ==> init[k] == log[k];
      CountBelowLeast(init, a);
    }
  }

  lemma {:induction false} CountBelowGap<W>(log: seq<Registration<W>>, a: int, b: int)
    requires a < b
    requires forall k :: 0 <= k < |log| ==> !(a < log[k].priority < b)
    ensures CountBelow(log, b) == CountBelow(log, a) + |Tier(log, a)|
  {
    if log != [] {
      var init := log[..|log| - 1];
      assert forall k :: 0 <= k < |init| ==> init[k] == log[k];
      CountBelowGap(init, a, b);
    }
  }

  lemma {:induction false} CountBelowMono<W>(log: seq<Registration<W>>, a: int, b: int)
    requires a < b
    ensures CountBelow(log, a) + |Tier(log, a)| <= CountBelow(log, b)
  {
    if log != [] {
      CountBelowMono(log[..|log| - 1], a, b);
    }
  }

  lemma {:induction false} CountBelowAll<W>(log: seq<Registration<W>>, a: int)
    requires forall k :: 0 <= k < |log| ==> log[k].priority <= a
    ensures CountBelow(log, a) + |Tier(log, a)| == |log|
  {
    if log != [] {
      var init := log[..|log| - 1];
      assert forall k :: 0 <= k < |init| ==> init[k] == log[k];
      CountBelowAll(init, a);
    }
  }

  // ---------------------------------------------------------------------
  // Concatenation of the sorted tiers

  lemma {:induction false} ConcatSplit<W>(tiers: map<int, seq<W>>, a: seq<int>, b: seq<int>)
    requires forall i :: 0 <= i < |a| ==> a[i] in tiers
    requires forall i :: 0 <= i < |b| ==> b[i] in tiers
    ensures Concat(tiers, a + b) == Concat(tiers, a) + Concat(tiers, b)
    decreases |b|
  {
    if b == [] {
      assert a + b == a;
    } else {
      var b' := b[..|b| - 1];
      assert (a + b)[..|a + b| - 1] == a + b';
      ConcatSplit(tiers, a, b');
    }
  }

  /** The `j`-th wrapper of the `m`-th tier follows the tiers before it. */
  lemma ConcatAt<W>(tiers: map<int, seq<W>>, ks: seq<int>, m: nat, j: nat)
    requires forall i :: 0 <= i < |ks| ==> ks[i] in tiers
    requires m < |ks| && j < |tiers[ks[m]]|
    ensures |Concat(tiers, ks[..m])| + j < |Concat(tiers, ks)|
    ensures Concat(tiers, ks)[|Concat(tiers, ks[..m])| + j] == tiers[ks[m]][j]
  {
    assert ks == ks[..m + 1] + ks[m + 1..];
    ConcatSplit(tiers, ks[..m + 1], ks[m + 1..]);
    assert ks[..m + 1][..m] == ks[..m];
  }

  /** Every registered priority has a place in the sorted keys. */
  lemma KeyIndex<W>(log: seq<Registration<W>>, i: int) returns (m: nat)
    requires 0 <= i < |log|
    ensures m < |SortedKeys(Build(log).Keys)|
    ensures SortedKeys(Build(log).Keys)[m] == log[i].priority
  {
    var ks := SortedKeys(Build(log).Keys);
    PriorityIsKey(log, i);
    assert log[i].priority in ks;
    m :| 0 <= m < |ks| && ks[m] == log[i].priority;
  }

  /** The smallest key lies at or below every registered priority. */
  lemma FirstKeyIsLeast<W>(log: seq<Registration<W>>)
    requires |SortedKeys(Build(log).Keys)| > 0
    ensures forall k :: 0 <= k < |log| ==> SortedKeys(Build(log).Keys)[0] <= log[k].priority
  {
    var ks := SortedKeys(Build(log).Keys);
    forall k | 0 <= k < |log| ensures ks[0] <= log[k].priority {
      var j := KeyIndex(log, k);
      assert j == 0 || ks[0] < ks[j];
    }
  }

  /** The largest key lies at or above every registered priority. */
  lemma LastKeyIsGreatest<W>(log: seq<Registration<W>>)
    requires |SortedKeys(Build(log).Keys)| > 0
    ensures var ks := SortedKeys(Build(log).Keys);
      forall k :: 0 <= k < |log| ==> log[k].priority <= ks[|ks| - 1]
  {
    var ks := SortedKeys(Build(log).Keys);
    var n := |ks|;
    forall k | 0 <= k < |log| ensures log[k].priority <= ks[n - 1] {
      var j := KeyIndex(log, k);
      assert j == n - 1 || ks[j] < ks[n - 1];
    }
  }

  /** No registered priority lies strictly between two neighbouring keys. */
  lemma NoPriorityBetweenKeys<W>(log: seq<Registration<W>>, m: nat)
    requires 0 < m < |SortedKeys(Build(log).Keys)|
    ensures forall k :: 0 <= k < |log| ==>
      !(SortedKeys(Build(log).Keys)[m - 1] < log[k].priority < SortedKeys(Build(log).Keys)[m])
  {
    var ks := SortedKeys(Build(log).Keys);
    forall k | 0 <= k < |log| ensures !(ks[m - 1] < log[k].priority < ks[m]) {
      var j := KeyIndex(log, k);
      if j < m - 1 {
        assert ks[j] < ks[m - 1];
      } else if j > m {
        assert ks[m] < ks[j];
      }
    }
  }

  /**
    The tiers before the `m`-th key of an ascending key sequence hold exactly
    the registrations of lower priority, provided every tier is the tier of
    the registrations at its key and no registration falls below the first
    key or between two neighbouring keys.
   */
  lemma {:induction false} ConcatBelowIn<W>(log: seq<Registration<W>>, tiers: map<int, seq<W>>, ks: seq<int>, m: nat)
    requires m < |ks|
    requires forall i :: 0 <= i < |ks| ==> ks[i] in tiers && tiers[ks[i]] == Tier(log, ks[i])
    requires forall i :: 0 < i < |ks| ==> ks[i - 1] < ks[i]
    requires forall k :: 0 <= k < |log| ==> ks[0] <= log[k].priority
    requires forall i, k :: 0 < i < |ks| && 0 <= k < |log| ==> !(ks[i - 1] < log[k].priority < ks[i])
    ensures |Concat(tiers, ks[..m])| == CountBelow(log, ks[m])
  {
    if m == 0 {
      assert ks[..m] == [];
      CountBelowLeast(log, ks[0]);
    } else {
      ConcatBelowIn(log, tiers, ks, m - 1);
      assert ks[..m][..m - 1] == ks[..m - 1];
      CountBelowGap(log, ks[m - 1], ks[m]);
    }
  }

  /** The tiers before the `m`-th key hold exactly the registrations of lower priority. */
  lemma ConcatBelow<W>(log: seq<Registration<W>>, m: nat)
    requires m < |SortedKeys(Build(log).Keys)|
    ensures |Concat(Build(log), SortedKeys(Build(log).Keys)[..m])|
         == CountBelow(log, SortedKeys(Build(log).Keys)[m])
  {
    var tiers := Build(log);
    var ks := SortedKeys(tiers.Keys);
    forall i | 0 <= i < |ks| ensures ks[i] in tiers && tiers[ks[i]] == Tier(log, ks[i]) {
      BuildIsTiers(log, ks[i]);
    }
    FirstKeyIsLeast(log);
    forall i, k | 0 < i < |ks| && 0 <= k < |log| ensures !(ks[i - 1] < log[k].priority < ks[i]) {
      NoPriorityBetweenKeys(log, i);
    }
    ConcatBelowIn(log, tiers, ks, m);
  }

  // ---------------------------------------------------------------------
  // The listing is the stable sort of the registrations by priority

  /** Listing the registry neither adds nor drops a wrapper: one entry per registration. */
  lemma ListingLength<W>(log: seq<Registration<W>>)
    ensures |Ordered(Build(log))| == |log|
  {
    var tiers := Build(log);
    var ks := SortedKeys(tiers.Keys);
    if log == [] {
      assert ks == [];
    } else {
      var _ := KeyIndex(log, 0);
      ConcatBelow(log, |ks| - 1);
      BuildIsTiers(log, ks[|ks| - 1]);
      LastKeyIsGreatest(log);
      LengthIn(log, tiers, ks);
    }
  }

  lemma LengthIn<W>(log: seq<Registration<W>>, tiers: map<int, seq<W>>, ks: seq<int>)
    requires |ks| > 0
    requires forall k :: 0 <= k < |ks| ==> ks[k] in tiers
    requires tiers[ks[|ks| - 1]] == Tier(log, ks[|ks| - 1])
    requires |Concat(tiers, ks[..|ks| - 1])| == CountBelow(log, ks[|ks| - 1])
    requires forall k :: 0 <= k < |log| ==> log[k].priority <= ks[|ks| - 1]
    ensures |Concat(tiers, ks)| == |log|
  {
    CountBelowAll(log, ks[|ks| - 1]);
  }

  /** Registration `i` is listed at position `Rank(log, i)`. */
  lemma ListingPlacement<W>(log: seq<Registration<W>>, i: int)
    requires 0 <= i < |log|
    ensures Rank(log, i) < |Ordered(Build(log))| == |log|
    ensures Ordered(Build(log))[Rank(log, i)] == log[i].wrapper
  {
    var tiers := Build(log);
    var ks := SortedKeys(tiers.Keys);
    var p := log[i].priority;
    var m := KeyIndex(log, i);
    ConcatBelow(log, m);
    BuildIsTiers(log, p);
    TierAt(log, i);
    PlacementIn(log, i, tiers, ks, m);
    ListingLength(log);
  }

  lemma PlacementIn<W>(log: seq<Registration<W>>, i: int, tiers: map<int, seq<W>>, ks: seq<int>, m: nat)
    requires 0 <= i < |log|
    requires forall k :: 0 <= k < |ks| ==> ks[k] in tiers
    requires m < |ks| && ks[m] == log[i].priority
    requires tiers[ks[m]] == Tier(log, ks[m])
    requires |Concat(tiers, ks[..m])| == CountBelow(log, ks[m])
    requires |Tier(log[..i], ks[m])| < |Tier(log, ks[m])|
    requires Tier(log, ks[m])[|Tier(log[..i], ks[m])|] == log[i].wrapper
    ensures Rank(log, i) < |Concat(tiers, ks)|
    ensures Concat(tiers, ks)[Rank(log, i)] == log[i].wrapper
  {
    ConcatAt(tiers, ks, m, |Tier(log[..i], ks[m])|);
  }

  /**
    Ranks follow (priority, registration index): a wrapper registered at a
    lower priority is listed before one registered at a higher priority,
    whatever the registration order, and within a tier registration order is
    kept. Distinct registrations therefore get distinct positions.
   */
  lemma RankOrder<W>(log: seq<Registration<W>>, i: int, j: int)
    requires 0 <= i < |log| && 0 <= j < |log|
    requires log[i].priority < log[j].priority || (log[i].priority == log[j].priority && i < j)
    ensures Rank(log, i) < Rank(log, j)
  {
    var p, q := log[i].priority, log[j].priority;
    TierAt(log, i);
    if p < q {
      CountBelowMono(log, p, q);
    } else {
      var pre := log[..j];
      assert pre[..i] == log[..i] && pre[i] == log[i];
      TierAt(pre, i);
    }
  }

  /** Each position of the listing holds exactly one registration. */
  lemma RankIsBijection<W>(log: seq<Registration<W>>, i: int, j: int)
    requires 0 <= i < |log| && 0 <= j < |log| && i != j
    ensures Rank(log, i) != Rank(log, j)
    ensures Rank(log, i) < |log|
  {
    var p, q := log[i].priority, log[j].priority;
    if p < q || (p == q && i < j) {
      RankOrder(log, i, j);
    } else {
      RankOrder(log, j, i);
    }
    ListingPlacement(log, i);
  }
}
