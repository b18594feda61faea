/**
 The selection of a new batch: newest first over all mailboxes, ties in
 discovery order, each identity once, split into one queue per mailbox
 (src/mailhelp/mailbox/mailbox_run.py).
 */
module BatchSelection {
  import opened PyText
  import opened RunQueue

  /** A discovered mail; `index` is its place in the discovery. */
  datatype Candidate = Candidate(key: Key, received: int, index: nat)

  /** Newer, or equally new and discovered earlier. */
  predicate Before(a: Candidate, b: Candidate) {
    a.received > b.received || (a.received == b.received && a.index < b.index)
  }

  predicate InRank(s: seq<Candidate>) {
    forall i, j :: 0 <= i < j < |s| ==> Before(s[i], s[j])
  }

  predicate InDiscoveryOrder(s: seq<Candidate>) {
    forall i, j :: 0 <= i < j < |s| ==> s[i].index < s[j].index
  }

  // ---------------------------------------------------------- stable sorting

  /** Into its place in a list from newest to oldest, ahead of equal times. */
  function Place(c: Candidate, s: seq<Candidate>): seq<Candidate> {
    if s == [] || s[0].received <= c.received then [c] + s else [s[0]] + Place(c, s[1..])
  }

  /** `sort(key=received_at, reverse=True)`: only the times are compared. */
  function NewestFirst(s: seq<Candidate>): seq<Candidate> {
    if s == [] then [] else Place(s[0], NewestFirst(s[1..]))
  }

  lemma {:induction false} PlaceKeepsRank(c: Candidate, s: seq<Candidate>)
    requires InRank(s) && forall i :: 0 <= i < |s| ==> c.index < s[i].index
    ensures InRank(Place(c, s)) && multiset(Place(c, s)) == multiset{c} + multiset(s)
  {
    if s == [] || s[0].received <= c.received {
    } else {
      PlaceKeepsRank(c, s[1..]);
      var t := Place(c, s[1..]);
      assert s == [s[0]] + s[1..];
      forall j | 0 <= j < |t| ensures Before(s[0], t[j]) {
        assert t[j] in multiset(t);
        assert t[j] == c || t[j] in s[1..];
      }
      RankCons(s[0], t);
    }
  }

  lemma RankCons(c: Candidate, t: seq<Candidate>)
    requires InRank(t) && forall j :: 0 <= j < |t| ==> Before(c, t[j])
    ensures InRank([c] + t)
  {
  }

  /** The stable sort is exactly the ranking of the same candidates. */
  lemma {:induction false} SortedByRank(s: seq<Candidate>)
    requires InDiscoveryOrder(s)
    ensures InRank(NewestFirst(s)) && multiset(NewestFirst(s)) == multiset(s)
  {
    if s != [] {
      SortedByRank(s[1..]);
      assert s == [s[0]] + s[1..];
      var rest := NewestFirst(s[1..]);
      forall i | 0 <= i < |rest| ensures s[0].index < rest[i].index {
        assert rest[i] in multiset(rest);
        assert rest[i] in s[1..];
      }
      PlaceKeepsRank(s[0], rest);
    }
  }

  // ------------------------------------------------------------- selection

  /** The loop over the sorted candidates. */
  function Chosen(s: seq<Candidate>, waiting: set<Key>, limit: nat): seq<Key> {
    if s == [] then []
    else
      var u := Chosen(s[..|s| - 1], waiting, limit);
      var k := s[|s| - 1].key;
      if |u| == limit || k in waiting || k in u then u else u + [k]
  }

  function Batch(candidates: seq<Candidate>, waiting: set<Key>, limit: nat): seq<Key> {
    Chosen(NewestFirst(candidates), waiting, limit)
  }

  predicate Distinct(keys: seq<Key>) {
    forall i, j :: 0 <= i < j < |keys| ==> keys[i] != keys[j]
  }

  predicate HasKey(s: seq<Candidate>, k: Key) {
    exists i :: 0 <= i < |s| && s[i].key == k
  }

  /** Some candidate of `k` is ranked before `c`. */
  predicate Leads(s: seq<Candidate>, k: Key, c: Candidate) {
    exists i :: 0 <= i < |s| && s[i].key == k && Before(s[i], c)
  }

  /** The best candidate of `k` is ranked before every one of `other`. */
  predicate Outranks(s: seq<Candidate>, k: Key, other: Key) {
    forall i {:trigger Leads(s, k, s[i])} :: 0 <= i < |s| && s[i].key == other ==> Leads(s, k, s[i])
  }

  predicate OutrankedByAll(s: seq<Candidate>, u: seq<Key>, other: Key) {
    forall i {:trigger Outranks(s, u[i], other)} :: 0 <= i < |u| ==> Outranks(s, u[i], other)
  }

  /** The keys are the best `limit` of the candidates that do not wait, best first. */
  predicate IsBest(s: seq<Candidate>, waiting: set<Key>, limit: nat, u: seq<Key>) {
    && Distinct(u) && |u| <= limit
    && (forall k :: k in u ==> k !in waiting && HasKey(s, k))
    && (forall i, j {:trigger Outranks(s, u[i], u[j])} :: 0 <= i < j < |u| ==> Outranks(s, u[i], u[j]))
    && (forall i {:trigger OutrankedByAll(s, u, s[i].key)} :: 0 <= i < |s| && s[i].key !in waiting && s[i].key !in u ==>
          OutrankedByAll(s, u, s[i].key) && |u| == limit)
  }

  /** One more candidate behind all others changes no rank. */
  lemma OutranksLater(p: seq<Candidate>, c: Candidate, k: Key, other: Key)
    requires Outranks(p, k, other) && HasKey(p, k) && InRank(p + [c])
    ensures Outranks(p + [c], k, other)
  {
    var s := p + [c];
    forall i | 0 <= i < |s| && s[i].key == other ensures Leads(s, k, s[i]) {
      if i < |p| {
        assert Leads(p, k, p[i]);
        var j :| 0 <= j < |p| && p[j].key == k && Before(p[j], p[i]);
        assert s[j] == p[j];
      } else {
        var j :| 0 <= j < |p| && p[j].key == k;
        assert s[j] == p[j];
      }
    }
  }

  lemma {:induction false} ChosenIsBest(s: seq<Candidate>, waiting: set<Key>, limit: nat)
    requires InRank(s)
    ensures IsBest(s, waiting, limit, Chosen(s, waiting, limit))
  {
    if s == [] {
      return;
    }
    var n := |s| - 1;
    var p, c := s[..n], s[n];
    var u := Chosen(p, waiting, limit);
    ChosenIsBest(p, waiting, limit);
    assert s == p + [c];
    assert Distinct(Chosen(s, waiting, limit));
    forall i, other | 0 <= i < |u| && Outranks(p, u[i], other) ensures Outranks(s, u[i], other) {
      assert u[i] in u;
      OutranksLater(p, c, u[i], other);
    }
    forall k | k in u ensures HasKey(s, k) { StillThere(p, c, k); }
    assert s[n].key == c.key;
    if |u| == limit || c.key in waiting || c.key in u {
      ChosenStays(p, c, waiting, limit, u);
    } else {
      ChosenGrows(p, c, waiting, limit, u);
    }
  }

  lemma StillThere(p: seq<Candidate>, c: Candidate, k: Key)
    requires HasKey(p, k)
    ensures HasKey(p + [c], k)
  {
    var i :| 0 <= i < |p| && p[i].key == k;
    assert (p + [c])[i].key == k;
  }

  lemma ChosenStays(p: seq<Candidate>, c: Candidate, waiting: set<Key>, limit: nat, u: seq<Key>)
    requires InRank(p + [c]) && IsBest(p, waiting, limit, u)
    requires |u| == limit || c.key in waiting || c.key in u
    ensures IsBest(p + [c], waiting, limit, u)
  {
    var s := p + [c];
    forall k | k in u ensures HasKey(s, k) { StillThere(p, c, k); }
    forall i, j | 0 <= i < j < |u| ensures Outranks(s, u[i], u[j]) {
      assert u[i] in u;
      OutranksLater(p, c, u[i], u[j]);
    }
    forall i | 0 <= i < |s| && s[i].key !in waiting && s[i].key !in u
      ensures OutrankedByAll(s, u, s[i].key) && |u| == limit
    {
      if i < |p| { assert OutrankedByAll(p, u, p[i].key); }
      forall a | 0 <= a < |u| ensures Outranks(s, u[a], s[i].key) {
        assert u[a] in u;
        if HasKey(p, s[i].key) {
          var b :| 0 <= b < |p| && p[b].key == s[i].key;
          assert OutrankedByAll(p, u, p[b].key);
          assert Outranks(p, u[a], p[b].key);
        }
        OutranksLater(p, c, u[a], s[i].key);
      }
    }
  }

  lemma ChosenGrows(p: seq<Candidate>, c: Candidate, waiting: set<Key>, limit: nat, u: seq<Key>)
    requires InRank(p + [c]) && IsBest(p, waiting, limit, u)
    requires |u| != limit && c.key !in waiting && c.key !in u
    ensures IsBest(p + [c], waiting, limit, u + [c.key])
  {
    var s, v := p + [c], u + [c.key];
    assert s[|p|].key == c.key;
    forall k | k in v ensures k !in waiting && HasKey(s, k) {
      if k in u { StillThere(p, c, k); }
    }
    forall i | 0 <= i < |p| ensures p[i].key in waiting || p[i].key in u {
      var _ := OutrankedByAll(p, u, p[i].key);
    }
    assert !HasKey(p, c.key);
    forall i, j | 0 <= i < j < |v| ensures Outranks(s, v[i], v[j]) {
      assert v[i] in u;
      OutranksLater(p, c, v[i], v[j]);
    }
    forall i | 0 <= i < |s| ensures s[i].key in waiting || s[i].key in v {
      if i < |p| { assert s[i] == p[i]; } else { assert v[|u|] == c.key; }
    }
  }

  /** The selection written as the loop it is. */
  method SelectBatch(candidates: seq<Candidate>, waiting: set<Key>, remaining: Option<nat>, batchSize: nat)
    returns (unique: seq<Key>)
    ensures unique == Batch(candidates, waiting, if remaining.Some? then remaining.value else batchSize)
  {
    var sorted := NewestFirst(candidates);
    var limit := if remaining.Some? then remaining.value else batchSize;
    unique := [];
    var i := 0;
    while i < |sorted| && |unique| != limit
      invariant 0 <= i <= |sorted|
      invariant unique == Chosen(sorted[..i], waiting, limit)
    {
      assert sorted[..i + 1][..i] == sorted[..i];
      var k := sorted[i].key;
      if k !in waiting && k !in unique {
        unique := unique + [k];
      }
      i := i + 1;
    }
    if i < |sorted| {
      FullStays(sorted, i, waiting, limit);
    }
    assert sorted[..|sorted|] == sorted;
  }

  lemma {:induction false} FullStays(s: seq<Candidate>, i: nat, waiting: set<Key>, limit: nat)
    requires i <= |s| && |Chosen(s[..i], waiting, limit)| == limit
    ensures Chosen(s, waiting, limit) == Chosen(s[..i], waiting, limit)
    decreases |s|
  {
    if i == |s| {
      assert s[..i] == s;
    } else {
      assert s[..|s| - 1][..i] == s[..i];
      FullStays(s[..|s| - 1], i, waiting, limit);
    }
  }

  lemma SameRanks(s: seq<Candidate>, t: seq<Candidate>, k: Key, other: Key)
    requires forall x :: x in s <==> x in t
    ensures Outranks(s, k, other) ==> Outranks(t, k, other)
    ensures HasKey(s, k) ==> HasKey(t, k)
  {
    if HasKey(s, k) {
      var i :| 0 <= i < |s| && s[i].key == k;
      assert s[i] in t;
    }
    if Outranks(s, k, other) {
      forall j | 0 <= j < |t| && t[j].key == other ensures Leads(t, k, t[j]) {
        assert t[j] in s;
        var i :| 0 <= i < |s| && s[i] == t[j];
        assert Leads(s, k, s[i]);
        var a :| 0 <= a < |s| && s[a].key == k && Before(s[a], s[i]);
        assert s[a] in t;
      }
    }
  }

  lemma SameBest(s: seq<Candidate>, t: seq<Candidate>, waiting: set<Key>, limit: nat, u: seq<Key>)
    requires forall x :: x in s <==> x in t
    requires IsBest(s, waiting, limit, u)
    ensures IsBest(t, waiting, limit, u)
  {
    forall k | k in u ensures HasKey(t, k) { SameRanks(s, t, k, k); }
    forall i, j | 0 <= i < j < |u| ensures Outranks(t, u[i], u[j]) { SameRanks(s, t, u[i], u[j]); }
    forall i | 0 <= i < |t| && t[i].key !in waiting && t[i].key !in u
      ensures OutrankedByAll(t, u, t[i].key) && |u| == limit
    {
      assert t[i] in s;
      var j :| 0 <= j < |s| && s[j] == t[i];
      assert OutrankedByAll(s, u, s[j].key);
      forall a | 0 <= a < |u| ensures Outranks(t, u[a], t[i].key) { SameRanks(s, t, u[a], t[i].key); }
    }
  }

  /**
   A new batch: distinct mail that does not wait, best first and at most `limit`; any
   mail left out ranks behind everything chosen, which is then exactly `limit` mails.
   */
  lemma BatchIsNewest(candidates: seq<Candidate>, waiting: set<Key>, limit: nat)
    requires InDiscoveryOrder(candidates)
    ensures IsBest(candidates, waiting, limit, Batch(candidates, waiting, limit))
  {
    var s := NewestFirst(candidates);
    SortedByRank(candidates);
    ChosenIsBest(s, waiting, limit);
    forall x ensures x in s <==> x in candidates {
      assert x in multiset(s) <==> x in multiset(candidates);
    }
    SameBest(s, candidates, waiting, limit, Batch(candidates, waiting, limit));
  }

  lemma BestHasIt(s: seq<Candidate>, waiting: set<Key>, limit: nat, u: seq<Key>, v: seq<Key>, k: Key)
    requires InRank(s) && IsBest(s, waiting, limit, u) && IsBest(s, waiting, limit, v) && k in u
    ensures k in v
  {
    if k !in v {
      assert HasKey(s, k);
      var i :| 0 <= i < |s| && s[i].key == k;
      assert OutrankedByAll(s, v, s[i].key) && |v| == limit;
      if forall x :: x in v ==> x in u {
        DistinctBound(v, u);
        assert false;
      } else {
        var x :| x in v && x !in u;
        var j :| 0 <= j < |s| && s[j].key == x;
        assert OutrankedByAll(s, u, s[j].key);
        NotBoth(s, k, x, i);
      }
    }
  }

  lemma RankedBestIsUnique(s: seq<Candidate>, waiting: set<Key>, limit: nat, u: seq<Key>, v: seq<Key>)
    requires InRank(s) && IsBest(s, waiting, limit, u) && IsBest(s, waiting, limit, v)
    ensures u == v
  {
    forall k | k in u ensures k in v { BestHasIt(s, waiting, limit, u, v, k); }
    forall k | k in v ensures k in u { BestHasIt(s, waiting, limit, v, u, k); }
    DistinctBound(u, v);
    DistinctBound(v, u);
    SameOrder(s, u, v, |u|);
    assert u[..|u|] == u && v[..|u|] == v;
  }

  /** There is only one such selection of the candidates, in one order: the batch. */
  lemma BestIsUnique(candidates: seq<Candidate>, waiting: set<Key>, limit: nat, u: seq<Key>)
    requires InDiscoveryOrder(candidates)
    ensures IsBest(candidates, waiting, limit, u) <==> u == Batch(candidates, waiting, limit)
  {
    var s := NewestFirst(candidates);
    SortedByRank(candidates);
    BatchIsNewest(candidates, waiting, limit);
    forall x ensures x in s <==> x in candidates {
      assert x in multiset(s) <==> x in multiset(candidates);
    }
    if IsBest(candidates, waiting, limit, u) {
      SameBest(candidates, s, waiting, limit, u);
      ChosenIsBest(s, waiting, limit);
      RankedBestIsUnique(s, waiting, limit, u, Batch(candidates, waiting, limit));
    }
  }

  predicate Ranked(s: seq<Candidate>, u: seq<Key>) {
    && Distinct(u) && (forall k :: k in u ==> HasKey(s, k))
    && forall i, j {:trigger Outranks(s, u[i], u[j])} :: 0 <= i < j < |u| ==> Outranks(s, u[i], u[j])
  }

  /** Two ranked lists of the same keys agree from the front on. */
  lemma {:induction false} SameOrder(s: seq<Candidate>, u: seq<Key>, v: seq<Key>, n: nat)
    requires InRank(s) && Ranked(s, u) && Ranked(s, v) && |u| == |v| && n <= |u|
    requires (forall k :: k in u ==> k in v) && forall k :: k in v ==> k in u
    ensures u[..n] == v[..n]
  {
    if n > 0 {
      var m := n - 1;
      SameOrder(s, u, v, m);
      if u[m] != v[m] {
        var j := BehindPrefix(u, v, m);
        var l := BehindPrefix(v, u, m);
        assert Outranks(s, v[m], v[j]) && Outranks(s, u[m], u[l]);
        assert HasKey(s, u[m]);
        var i :| 0 <= i < |s| && s[i].key == u[m];
        NotBoth(s, u[m], v[m], i);
      }
      assert u[..n] == u[..m] + [u[m]] && v[..n] == v[..m] + [v[m]];
    }
  }

  /** Where the first differing key of one list stands in the other. */
  lemma BehindPrefix(u: seq<Key>, v: seq<Key>, m: nat) returns (j: nat)
    requires Distinct(u) && |u| == |v| && m < |u| && u[..m] == v[..m] && u[m] != v[m] && u[m] in v
    ensures m < j < |v| && v[j] == u[m]
  {
    forall x | 0 <= x < m ensures v[x] != u[m] {
      assert v[x] == v[..m][x] == u[..m][x] == u[x];
    }
    j :| 0 <= j < |v| && v[j] == u[m];
  }

  /** Two keys cannot outrank each other. */
  lemma {:induction false} NotBoth(s: seq<Candidate>, k: Key, x: Key, i: nat)
    requires Outranks(s, k, x) && Outranks(s, x, k) && i < |s| && s[i].key == k
    requires InRank(s)
    ensures false
    decreases i
  {
    assert Leads(s, x, s[i]);
    var a :| 0 <= a < |s| && s[a].key == x && Before(s[a], s[i]);
    assert Leads(s, k, s[a]);
    var b :| 0 <= b < |s| && s[b].key == k && Before(s[b], s[a]);
    RankIsIndex(s, a, i);
    RankIsIndex(s, b, a);
    NotBoth(s, k, x, b);
  }

  lemma RankIsIndex(s: seq<Candidate>, i: nat, j: nat)
    requires InRank(s) && i < |s| && j < |s| && Before(s[i], s[j])
    ensures i < j
  {
  }

  /** Distinct keys found in a list without `k` are fewer. */
  lemma DistinctBound(v: seq<Key>, u: seq<Key>)
    requires Distinct(v) && Distinct(u) && forall x :: x in v ==> x in u
    ensures |v| <= |u| && (|v| == |u| ==> forall x :: x in u ==> x in v)
  {
    var a, b := set x | x in v, set x | x in u;
    CardinalityOf(v, a);
    CardinalityOf(u, b);
    assert a <= b;
    SubsetSize(a, b);
    if |v| == |u| {
      forall x | x in u ensures x in v { assert x in b; }
    }
  }

  lemma {:induction false} CardinalityOf(v: seq<Key>, a: set<Key>)
    requires Distinct(v) && a == set x | x in v
    ensures |a| == |v|
  {
    if v != [] {
      var n := |v| - 1;
      var b := set x | x in v[..n];
      CardinalityOf(v[..n], b);
      assert a == b + {v[n]} && v[n] !in b;
    }
  }

  lemma SubsetSize(a: set<Key>, b: set<Key>)
    requires a <= b
    ensures |a| <= |b| && (|a| == |b| ==> a == b)
  {
    assert b == a + (b - a);
  }

  // ---------------------------------------------------- one queue per mailbox

  function OfAccount(keys: seq<Key>, account: string): seq<Key> {
    if keys == [] then []
    else (if keys[0].account == account then [keys[0]] else []) + OfAccount(keys[1..], account)
  }

  function QueuedEntries(keys: seq<Key>): seq<Entry> {
    seq(|keys|, i requires 0 <= i < |keys| => Entry(keys[i], Queued, None, false, None))
  }

  lemma {:induction false} OfAccountMembers(keys: seq<Key>, account: string)
    ensures forall k :: k in OfAccount(keys, account) <==> k in keys && k.account == account
  {
    if keys != [] { OfAccountMembers(keys[1..], account); }
  }

  lemma {:induction false} OfAccountDistinct(keys: seq<Key>, account: string)
    requires Distinct(keys)
    ensures Distinct(OfAccount(keys, account))
  {
    if keys != [] {
      OfAccountDistinct(keys[1..], account);
      OfAccountMembers(keys[1..], account);
      assert keys[0] !in keys[1..];
    }
  }

  /** How many positions the queues of these accounts have together. */
  function Positions(keys: seq<Key>, accounts: seq<string>): nat {
    if accounts == [] then 0 else |OfAccount(keys, accounts[0])| + Positions(keys, accounts[1..])
  }

  predicate DistinctAccounts(accounts: seq<string>) {
    forall i, j :: 0 <= i < j < |accounts| ==> accounts[i] != accounts[j]
  }

  lemma {:induction false} PositionsOfFirst(keys: seq<Key>, accounts: seq<string>)
    requires keys != [] && DistinctAccounts(accounts)
    ensures Positions(keys, accounts) == Positions(keys[1..], accounts) + (if keys[0].account in accounts then 1 else 0)
    decreases |accounts|
  {
    if accounts != [] {
      PositionsOfFirst(keys, accounts[1..]);
      assert forall i :: 1 <= i < |accounts| ==> accounts[0] != accounts[i];
      assert accounts[0] !in accounts[1..];
    }
  }

  /** The key stands at position `i` of the queue of account `a`. */
  predicate StandsAt(keys: seq<Key>, accounts: seq<string>, k: Key, a: nat, i: nat) {
    a < |accounts| && i < |OfAccount(keys, accounts[a])| && OfAccount(keys, accounts[a])[i] == k
  }

  lemma StandsSomewhere(keys: seq<Key>, accounts: seq<string>, k: Key) returns (a: nat, i: nat)
    requires k in keys && k.account in accounts
    ensures StandsAt(keys, accounts, k, a, i)
  {
    OfAccountMembers(keys, k.account);
    a :| 0 <= a < |accounts| && accounts[a] == k.account;
    i :| 0 <= i < |OfAccount(keys, k.account)| && OfAccount(keys, k.account)[i] == k;
  }

  lemma StandsOnce(keys: seq<Key>, accounts: seq<string>, k: Key, a: nat, i: nat, b: nat, j: nat)
    requires Distinct(keys) && DistinctAccounts(accounts)
    requires StandsAt(keys, accounts, k, a, i) && StandsAt(keys, accounts, k, b, j)
    ensures k in keys && a == b && i == j
  {
    var here, there := OfAccount(keys, accounts[a]), OfAccount(keys, accounts[b]);
    OfAccountMembers(keys, accounts[a]);
    OfAccountMembers(keys, accounts[b]);
    OfAccountDistinct(keys, accounts[a]);
    assert here[i] in here && there[j] in there;
  }

  /** Every chosen mail stands somewhere. */
  predicate AllStand(keys: seq<Key>, accounts: seq<string>) {
    forall k :: k in keys ==> exists a, i | 0 <= a < |accounts| && 0 <= i < |OfAccount(keys, accounts[a])| ::
      StandsAt(keys, accounts, k, a, i)
  }

  /** Every chosen mail has exactly one position over all queues, and there are no other positions. */
  lemma SplitKeepsAll(keys: seq<Key>, accounts: seq<string>)
    requires Distinct(keys) && DistinctAccounts(accounts)
    requires forall i :: 0 <= i < |keys| ==> keys[i].account in accounts
    ensures AllStand(keys, accounts)
    ensures forall k, a: nat, i: nat, b: nat, j: nat ::
      StandsAt(keys, accounts, k, a, i) && StandsAt(keys, accounts, k, b, j) ==> k in keys && a == b && i == j
    ensures Positions(keys, accounts) == |keys|
  {
    forall k | k in keys
      ensures exists a, i | 0 <= a < |accounts| && 0 <= i < |OfAccount(keys, accounts[a])| ::
        StandsAt(keys, accounts, k, a, i)
    {
      var a, i := StandsSomewhere(keys, accounts, k);
    }
    forall k, a: nat, i: nat, b: nat, j: nat
      | StandsAt(keys, accounts, k, a, i) && StandsAt(keys, accounts, k, b, j)
      ensures k in keys && a == b && i == j
    {
      StandsOnce(keys, accounts, k, a, i, b, j);
    }
    PositionsAreKeys(keys, accounts);
  }

  lemma {:induction false} PositionsAreKeys(keys: seq<Key>, accounts: seq<string>)
    requires DistinctAccounts(accounts)
    requires forall i :: 0 <= i < |keys| ==> keys[i].account in accounts
    ensures Positions(keys, accounts) == |keys|
    decreases |keys|
  {
    if keys == [] {
      NoPositions(accounts);
    } else {
      PositionsOfFirst(keys, accounts);
      PositionsAreKeys(keys[1..], accounts);
    }
  }

  lemma {:induction false} NoPositions(accounts: seq<string>)
    ensures Positions([], accounts) == 0
  {
    if accounts != [] { NoPositions(accounts[1..]); }
  }

  predicate RealKeys(keys: seq<Key>) {
    forall i :: 0 <= i < |keys| ==>
      keys[i].account != "" && keys[i].folder != "" && keys[i].uidvalidity >= 1 && keys[i].uid >= 1
  }

  function NewRun(keys: seq<Key>, account: string, remaining: Option<nat>): Run {
    var entries := QueuedEntries(OfAccount(keys, account));
    Run(remaining, entries, Histogram(entries))
  }

  /** A new queue can be stored unless the budget is used up: a run limit of 0 is refused by the stored model. */
  lemma NewRunStorable(keys: seq<Key>, account: string, remaining: Option<nat>)
    requires Distinct(keys) && RealKeys(keys)
    ensures ValidRun(NewRun(keys, account, remaining)) <==> remaining != Some(0)
  {
    OfAccountMembers(keys, account);
    OfAccountDistinct(keys, account);
    var mine := OfAccount(keys, account);
    forall i | 0 <= i < |mine| ensures ValidEntry(QueuedEntries(mine)[i]) {
      assert mine[i] in keys;
    }
    assert UniqueKeys(QueuedEntries(mine));
  }
}
