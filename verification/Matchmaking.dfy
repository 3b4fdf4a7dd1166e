/** `server/matchmaker.py`: the waiting queue and its shape. */
module Matchmaking {
  import opened Pieces

  /** A participant as the queue sees it: who it is, and its rating. */
  datatype Seeker = Seeker(id: int, rating: int)

  datatype Entry = Entry(seeker: Seeker, rating: int, waited: int)

  datatype Answer = Matched(white: Seeker, black: Seeker) | Queued(seeker: Seeker) | AlreadyQueued

  function Gap(a: int, b: int): nat {
    if a < b then b - a else a - b
  }

  predicate Compatible(e: Entry, rating: int, tolerance: int) {
    Gap(e.rating, rating) <= tolerance
  }

  // ----- what the operations do -----------------------------------------------------------------------

  predicate Waits(q: seq<Entry>, id: int) {
    exists i :: 0 <= i < |q| && q[i].seeker.id == id
  }

  function Without(q: seq<Entry>, i: nat): seq<Entry>
    requires i < |q|
  {
    q[..i] + q[i + 1..]
  }

  function Aged(q: seq<Entry>, dt: int): (aged: seq<Entry>)
    ensures |aged| == |q|
    ensures forall i :: 0 <= i < |q| ==> aged[i] == q[i].(waited := q[i].waited + dt)
  {
    seq(|q|, i requires 0 <= i < |q| => q[i].(waited := q[i].waited + dt))
  }

  /** No two waiting seekers are compatible, nobody waits twice, and those in front have
      waited at least as long as those behind and not too long. */
  ghost predicate Geometry(q: seq<Entry>, tolerance: int, expiry: int) {
    && (forall i, j :: 0 <= i < j < |q| ==>
      && Gap(q[i].rating, q[j].rating) > tolerance
      && q[i].waited >= q[j].waited
      && q[i].seeker.id != q[j].seeker.id)
    && (forall i :: 0 <= i < |q| ==> 0 <= q[i].waited <= expiry)
  }

  /** Ageing the entries behind the first few keeps their shape, if they have not waited too
      long. */
  lemma AgedGeometry(q: seq<Entry>, tolerance: int, expiry: int, first: nat, dt: int)
    requires Geometry(q, tolerance, expiry) && first <= |q| && dt >= 0
    requires first < |q| ==> q[first].waited + dt <= expiry
    ensures Geometry(Aged(q[first..], dt), tolerance, expiry)
  {
    var aged := Aged(q[first..], dt);
    assert forall i :: 0 <= i < |aged| ==> aged[i] == q[first + i].(waited := q[first + i].waited + dt);
  }

  /** Those behind one who has not waited too long have not either. */
  lemma OthersWaitedLess(q: seq<Entry>, tolerance: int, expiry: int, i: nat, j: nat)
    requires Geometry(q, tolerance, expiry) && i <= j < |q|
    ensures q[j].waited <= q[i].waited
  {
  }

  class Matchmaker {
    const tolerance: int
    const expiry: int
    var entries: seq<Entry>

    constructor (tolerance: int, expirySeconds: int)
      ensures entries == [] && this.tolerance == tolerance && this.expiry == expirySeconds * 1000
      ensures Geometry(entries, tolerance, this.expiry)
    {
      this.tolerance := tolerance;
      this.expiry := expirySeconds * 1000;
      entries := [];
    }

    method FindEntry(id: int) returns (found: Option<nat>)
      ensures found.None? <==> !Waits(entries, id)
      ensures found.Some? ==> found.value < |entries| && entries[found.value].seeker.id == id
    {
      for i := 0 to |entries|
        invariant forall j :: 0 <= j < i ==> entries[j].seeker.id != id
      {
        if entries[i].seeker.id == id {
          return Some(i);
        }
      }
      return None;
    }

    method FindEarliestCompatible(rating: int) returns (found: Option<nat>)
      ensures found.None? ==> forall j :: 0 <= j < |entries| ==> !Compatible(entries[j], rating, tolerance)
      ensures found.Some? ==>
        && found.value < |entries| && Compatible(entries[found.value], rating, tolerance)
        && forall j :: 0 <= j < found.value ==> !Compatible(entries[j], rating, tolerance)
    {
      for i := 0 to |entries|
        invariant forall j :: 0 <= j < i ==> !Compatible(entries[j], rating, tolerance)
      {
        if Gap(entries[i].rating, rating) <= tolerance {
          return Some(i);
        }
      }
      return None;
    }

    /** A seeker plays black against the earliest waiter within the tolerance, or waits last. */
    method EnqueueOrMatch(seeker: Seeker) returns (answer: Answer)
      requires tolerance >= 0 && expiry >= 0 && Geometry(entries, tolerance, expiry)
      modifies this
      ensures Geometry(entries, tolerance, expiry)
      ensures answer.AlreadyQueued? <==> old(Waits(entries, seeker.id))
      ensures answer.AlreadyQueued? ==> entries == old(entries)
      ensures answer.Queued? ==>
        && answer.seeker == seeker && entries == old(entries) + [Entry(seeker, seeker.rating, 0)]
        && forall j :: 0 <= j < |old(entries)| ==> !Compatible(old(entries)[j], seeker.rating, tolerance)
      ensures answer.Matched? ==>
        exists i :: 0 <= i < |old(entries)| && entries == Without(old(entries), i)
          && answer == Matched(old(entries)[i].seeker, seeker)
          && Compatible(old(entries)[i], seeker.rating, tolerance)
          && forall j :: 0 <= j < |old(entries)| && j != i && Compatible(old(entries)[j], seeker.rating, tolerance) ==>
            i < j && old(entries)[i].waited >= old(entries)[j].waited
    {
      var queued := FindEntry(seeker.id);
      if queued.Some? {
        return AlreadyQueued;
      }
      var opponent := FindEarliestCompatible(seeker.rating);
      if opponent.Some? {
        var white := entries[opponent.value].seeker;
        entries := Without(entries, opponent.value);
        return Matched(white, seeker);
      }
      entries := entries + [Entry(seeker, seeker.rating, 0)];
      return Queued(seeker);
    }

    /** Ages every entry and drops those that have waited too long: always the first few. */
    method Tick(dt: int) returns (expired: seq<Seeker>)
      requires dt >= 0 && Geometry(entries, tolerance, expiry)
      modifies this
      ensures Geometry(entries, tolerance, expiry)
      ensures |expired| <= |old(entries)| && entries == Aged(old(entries)[|expired|..], dt)
      ensures forall i :: 0 <= i < |expired| ==>
        expired[i] == old(entries)[i].seeker && old(entries)[i].waited + dt > expiry
    {
      hide Geometry, Gap;
      ghost var was := entries;
      var aged: seq<Entry> := [];
      expired := [];
      for i := 0 to |entries|
        invariant entries == was
        invariant |expired| <= i && (|expired| < i ==> was[|expired|].waited + dt <= expiry)
        invariant forall k :: 0 <= k < |expired| ==> expired[k] == was[k].seeker && was[k].waited + dt > expiry
        invariant aged == Aged(was[|expired|..i], dt)
      {
        var entry := entries[i].(waited := entries[i].waited + dt);
        if |expired| < i { OthersWaitedLess(was, tolerance, expiry, |expired|, i); }
        if entry.waited > expiry {
          assert |expired| == i;
          expired := expired + [entry.seeker];
        } else {
          aged := aged + [entry];
        }
      }
      AgedGeometry(was, tolerance, expiry, |expired|, dt);
      assert was[|expired|..|was|] == was[|expired|..];
      entries := aged;
    }

    method CancelSearch(id: int)
      requires Geometry(entries, tolerance, expiry)
      modifies this
      ensures Geometry(entries, tolerance, expiry) && !Waits(entries, id)
      ensures !old(Waits(entries, id)) ==> entries == old(entries)
      ensures old(Waits(entries, id)) ==>
        exists i :: 0 <= i < |old(entries)| && old(entries)[i].seeker.id == id && entries == Without(old(entries), i)
    {
      var found := FindEntry(id);
      if found.Some? {
        entries := Without(entries, found.value);
      }
    }
  }

  /** Compatible are ratings at most the tolerance apart, on either side. */
  lemma CompatibleMeans(e: Entry, rating: int, tolerance: int)
    ensures Compatible(e, rating, tolerance) <==> rating - tolerance <= e.rating <= rating + tolerance
  {
  }

  // ----- consequences of the shape ------------------------------------------------------------------------

  /** A new seeker is compatible with at most two of those waiting. */
  lemma AtMostTwoCompatible(q: seq<Entry>, tolerance: int, expiry: int, rating: int, i: nat, j: nat, k: nat)
    requires Geometry(q, tolerance, expiry) && i < j < k < |q|
    ensures !(Compatible(q[i], rating, tolerance) && Compatible(q[j], rating, tolerance) &&
      Compatible(q[k], rating, tolerance))
  {
    assert Gap(q[i].rating, q[j].rating) > tolerance && Gap(q[j].rating, q[k].rating) > tolerance;
    assert Gap(q[i].rating, q[k].rating) > tolerance;
  }

  lemma {:induction false} HighestExists(q: seq<Entry>) returns (top: nat)
    requires q != []
    ensures top < |q| && forall i :: 0 <= i < |q| ==> q[i].rating <= q[top].rating
  {
    if |q| == 1 {
      top := 0;
    } else {
      var rest := HighestExists(q[1..]);
      top := if q[1..][rest].rating >= q[0].rating then rest + 1 else 0;
      assert forall i :: 1 <= i < |q| ==> q[i] == q[1..][i - 1];
    }
  }

  lemma BelowTheTop(q: seq<Entry>, tolerance: int, expiry: int, low: int, top: nat)
    requires Geometry(q, tolerance, expiry) && top < |q|
    requires forall i :: 0 <= i < |q| ==> low <= q[i].rating <= q[top].rating
    ensures Geometry(Without(q, top), tolerance, expiry)
    ensures forall i :: 0 <= i < |q| - 1 ==> low <= Without(q, top)[i].rating <= q[top].rating - tolerance - 1
  {
    var rest := Without(q, top);
    forall i | 0 <= i < |rest| ensures low <= rest[i].rating <= q[top].rating - tolerance - 1 {
      var n := if i < top then i else i + 1;
      assert rest[i] == q[n];
      assert Gap(q[n].rating, q[top].rating) > tolerance by {
        if n < top { assert Gap(q[n].rating, q[top].rating) > tolerance; }
          else { assert Gap(q[top].rating, q[n].rating) > tolerance; }
      }
    }
  }

  lemma OneMore(n: int, width: int)
    ensures n * width == (n - 1) * width + width
  {
  }

  /** The queue is never longer than the range of ratings has room for: each waiter keeps
      the ratings within the tolerance to itself. */
  lemma {:induction false} LengthBounded(q: seq<Entry>, tolerance: int, expiry: int, low: int, high: int)
    requires tolerance >= 0 && Geometry(q, tolerance, expiry)
    requires forall i :: 0 <= i < |q| ==> low <= q[i].rating <= high
    ensures |q| == 0 || (|q| - 1) * (tolerance + 1) <= high - low
    decreases |q|
  {
    if |q| > 1 {
      var top := HighestExists(q);
      BelowTheTop(q, tolerance, expiry, low, top);
      hide Geometry;
      LengthBounded(Without(q, top), tolerance, expiry, low, q[top].rating - tolerance - 1);
      OneMore(|q| - 1, tolerance + 1);
      assert |Without(q, top)| == |q| - 1;
    } else if |q| == 1 {
      assert low <= q[0].rating <= high;
      OneMore(1, tolerance + 1);
    }
  }
}
