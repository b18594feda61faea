/** Finished UIDs of a folder as ranges (`_add_uid`, src/mailhelp/mailbox/mailbox_run.py). */
module UidRanges {

  datatype Range = Range(start: int, end: int)

  /** The set of UIDs the ranges stand for. */
  predicate Contains(ranges: seq<Range>, uid: int) {
    exists i :: 0 <= i < |ranges| && ranges[i].start <= uid <= ranges[i].end
  }

  /**
   Non-empty ranges in order above `low`, with more than `gap` UIDs from one end to
   the next start. The stored model demands gap 0; gap 1 also forbids touching ranges.
   */
  predicate Ordered(ranges: seq<Range>, low: int, gap: nat) {
    ranges == [] || (low < ranges[0].start <= ranges[0].end && Ordered(ranges[1..], ranges[0].end + gap, gap))
  }

  function Min(a: int, b: int): int { if a < b then a else b }
  function Max(a: int, b: int): int { if a < b then b else a }

  /** The ranges with start..end united into them; `start..end` is the range in hand. */
  function Insert(ranges: seq<Range>, start: int, end: int): (r: seq<Range>)
    ensures r != []
  {
    if ranges == [] then [Range(start, end)]
    else if ranges[0].end + 1 < start then [ranges[0]] + Insert(ranges[1..], start, end)
    else if end + 1 < ranges[0].start then [Range(start, end)] + Insert(ranges[1..], ranges[0].start, ranges[0].end)
    else Insert(ranges[1..], Min(start, ranges[0].start), Max(end, ranges[0].end))
  }

  function Added(ranges: seq<Range>, uid: int): seq<Range> {
    Insert(ranges, uid, uid)
  }

  /** `_add_uid`: the loop over the stored ranges. */
  method AddUid(ranges: seq<Range>, uid: int) returns (result: seq<Range>)
    ensures result == Added(ranges, uid)
  {
    result := [];
    var start, end := uid, uid;
    for i := 0 to |ranges|
      invariant result + Insert(ranges[i..], start, end) == Added(ranges, uid)
    {
      var current := ranges[i];
      InsertAt(ranges, i, start, end, result);
      if current.end + 1 < start {
        result := result + [current];
      } else if end + 1 < current.start {
        result := result + [Range(start, end)];
        start, end := current.start, current.end;
      } else {
        start, end := Min(start, current.start), Max(end, current.end);
      }
    }
    result := result + [Range(start, end)];
  }

  lemma InsertAt(ranges: seq<Range>, i: nat, start: int, end: int, done: seq<Range>)
    requires i < |ranges|
    ensures done + Insert(ranges[i..], start, end) ==
      var r, rest := ranges[i], ranges[i + 1..];
      if r.end + 1 < start then (done + [r]) + Insert(rest, start, end)
      else if end + 1 < r.start then (done + [Range(start, end)]) + Insert(rest, r.start, r.end)
      else done + Insert(rest, Min(start, r.start), Max(end, r.end))
  {
    assert ranges[i..][0] == ranges[i] && ranges[i..][1..] == ranges[i + 1..];
  }

  lemma {:induction false} OrderedLower(ranges: seq<Range>, low: int, gap: nat, lower: int)
    requires Ordered(ranges, low, gap) && lower <= low
    ensures Ordered(ranges, lower, gap)
  {
  }

  lemma {:induction false} InsertOrdered(ranges: seq<Range>, start: int, end: int, low: int, gap: nat)
    requires Ordered(ranges, low, gap) && gap <= 1 && low < start <= end
    ensures Ordered(Insert(ranges, start, end), low, gap)
  {
    if ranges != [] {
      var r, rest := ranges[0], ranges[1..];
      if r.end + 1 < start {
        InsertOrdered(rest, start, end, r.end + gap, gap);
      } else if end + 1 < r.start {
        OrderedLower(rest, r.end + gap, gap, end + gap);
        InsertOrdered(rest, r.start, r.end, end + gap, gap);
      } else {
        OrderedLower(rest, r.end + gap, gap, low);
        InsertOrdered(rest, Min(start, r.start), Max(end, r.end), low, gap);
      }
    }
  }

  lemma ContainsSplit(ranges: seq<Range>, uid: int)
    requires ranges != []
    ensures Contains(ranges, uid) <==> ranges[0].start <= uid <= ranges[0].end || Contains(ranges[1..], uid)
  {
    if Contains(ranges[1..], uid) {
      var i :| 0 <= i < |ranges[1..]| && ranges[1..][i].start <= uid <= ranges[1..][i].end;
      assert ranges[i + 1] == ranges[1..][i];
    }
    if Contains(ranges, uid) {
      var i :| 0 <= i < |ranges| && ranges[i].start <= uid <= ranges[i].end;
      assert i > 0 ==> ranges[1..][i - 1] == ranges[i];
    }
  }

  lemma {:induction false} InsertContains(ranges: seq<Range>, start: int, end: int, low: int, uid: int)
    requires Ordered(ranges, low, 0) && start <= end
    ensures Contains(Insert(ranges, start, end), uid) <==> Contains(ranges, uid) || start <= uid <= end
  {
    if ranges == [] {
      assert Insert(ranges, start, end)[0] == Range(start, end);
    } else {
      var r, rest := ranges[0], ranges[1..];
      ContainsSplit(ranges, uid);
      ContainsSplit(Insert(ranges, start, end), uid);
      if r.end + 1 < start {
        InsertContains(rest, start, end, r.end, uid);
      } else if end + 1 < r.start {
        InsertContains(rest, r.start, r.end, r.end, uid);
      } else {
        InsertContains(rest, Min(start, r.start), Max(end, r.end), r.end, uid);
      }
    }
  }

  /** Adding a UID adds exactly this UID, and keeps order, floor and separation. */
  lemma AddedIsExact(ranges: seq<Range>, uid: int, low: int, gap: nat)
    requires Ordered(ranges, low, gap) && gap <= 1 && low < uid
    ensures Ordered(Added(ranges, uid), low, gap)
    ensures forall u :: Contains(Added(ranges, uid), u) <==> Contains(ranges, u) || u == uid
  {
    InsertOrdered(ranges, uid, uid, low, gap);
    GapOneIsOrdered(ranges, low, gap);
    forall u ensures Contains(Added(ranges, uid), u) <==> Contains(ranges, u) || u == uid {
      InsertContains(ranges, uid, uid, low, u);
    }
  }

  lemma {:induction false} GapOneIsOrdered(ranges: seq<Range>, low: int, gap: nat)
    requires Ordered(ranges, low, gap)
    ensures Ordered(ranges, low, 0)
  {
    if ranges != [] {
      OrderedLower(ranges[1..], ranges[0].end + gap, gap, ranges[0].end);
      GapOneIsOrdered(ranges[1..], ranges[0].end, gap);
    }
  }

  lemma {:induction false} OrderedContainsAbove(ranges: seq<Range>, low: int, gap: nat)
    requires Ordered(ranges, low, gap)
    ensures forall u :: Contains(ranges, u) ==> low < u
  {
    if ranges != [] {
      OrderedContainsAbove(ranges[1..], ranges[0].end + gap, gap);
      forall u | Contains(ranges, u) ensures low < u { ContainsSplit(ranges, u); }
    }
  }

  /** Separated ranges are a canonical form: the set of UIDs determines them. */
  lemma {:induction false} Canonical(a: seq<Range>, b: seq<Range>, low: int)
    requires Ordered(a, low, 1) && Ordered(b, low, 1)
    requires forall u :: Contains(a, u) <==> Contains(b, u)
    ensures a == b
    decreases |a|
  {
    if a == [] {
      if b != [] { ContainsSplit(b, b[0].start); }
    } else {
      ContainsSplit(a, a[0].start);
      assert b != [];
      HeadsAgree(a, b, low);
      forall u ensures Contains(a[1..], u) <==> Contains(b[1..], u) {
        ContainsSplit(a, u);
        ContainsSplit(b, u);
        OrderedContainsAbove(a[1..], a[0].end + 1, 1);
        OrderedContainsAbove(b[1..], b[0].end + 1, 1);
      }
      Canonical(a[1..], b[1..], a[0].end + 1);
    }
  }

  lemma HeadsAgree(a: seq<Range>, b: seq<Range>, low: int)
    requires a != [] && b != [] && Ordered(a, low, 1) && Ordered(b, low, 1)
    requires forall u :: Contains(a, u) <==> Contains(b, u)
    ensures a[0] == b[0]
  {
    OrderedContainsAbove(a[1..], a[0].end + 1, 1);
    OrderedContainsAbove(b[1..], b[0].end + 1, 1);
    ContainsSplit(a, a[0].start);
    ContainsSplit(b, a[0].start);
    ContainsSplit(a, b[0].start);
    ContainsSplit(b, b[0].start);
    ContainsSplit(a, a[0].end + 1);
    ContainsSplit(b, a[0].end + 1);
    ContainsSplit(a, b[0].end + 1);
    ContainsSplit(b, b[0].end + 1);
  }

  /** The order in which mails finish leaves no trace in the checkpoint. */
  lemma AddingCommutes(ranges: seq<Range>, u: int, v: int, low: int)
    requires Ordered(ranges, low, 1) && low < u && low < v
    ensures Added(Added(ranges, u), v) == Added(Added(ranges, v), u)
    ensures Contains(ranges, u) ==> Added(ranges, u) == ranges
  {
    AddedIsExact(ranges, u, low, 1);
    AddedIsExact(ranges, v, low, 1);
    AddedIsExact(Added(ranges, u), v, low, 1);
    AddedIsExact(Added(ranges, v), u, low, 1);
    Canonical(Added(Added(ranges, u), v), Added(Added(ranges, v), u), low);
    if Contains(ranges, u) { Canonical(Added(ranges, u), ranges, low); }
  }
}
