/** The sweep that measures how many test cases ran at once: start and end events are
    sorted and their deltas summed. */
module OverlapSweep {
  import opened Ordering

  datatype Interval = Interval(start: int, end: int)

  type Event = (int, int)

  /** Python's order on the pairs: by time, and at one time an end before a start. */
  predicate Earlier(a: Event, b: Event) { a.0 < b.0 || (a.0 == b.0 && a.1 <= b.1) }

  function Mark(times: seq<int>, delta: int): seq<Event> {
    if times == [] then [] else [(times[0], delta)] + Mark(times[1..], delta)
  }

  function Events(starts: seq<int>, ends: seq<int>): seq<Event> {
    Sort(Mark(starts, 1) + Mark(ends, -1), Earlier)
  }

  // ----- what is counted -----

  function Covers(t: int): Interval -> bool { (v: Interval) => v.start <= t < v.end }

  /** How many half-open intervals contain the instant `t`. */
  function Cover(intervals: seq<Interval>, t: int): nat { Count(intervals, Covers(t)) }

  function Upto(t: int): int -> bool { (x: int) => x <= t }

  function OfKind(delta: int): Event -> bool { (e: Event) => e.1 == delta }

  function OfKindUpto(delta: int, t: int): Event -> bool { (e: Event) => e.1 == delta && e.0 <= t }

  function Starts(intervals: seq<Interval>): seq<int> {
    if intervals == [] then [] else [intervals[0].start] + Starts(intervals[1..])
  }

  function Ends(intervals: seq<Interval>): seq<int> {
    if intervals == [] then [] else [intervals[0].end] + Ends(intervals[1..])
  }

  ghost predicate Proper(intervals: seq<Interval>) {
    forall i :: 0 <= i < |intervals| ==> intervals[i].start < intervals[i].end
  }

  /** The two lists hold the starts and the ends of the intervals, in any order. */
  ghost predicate Lists(starts: seq<int>, ends: seq<int>, intervals: seq<Interval>) {
    multiset(starts) == multiset(Starts(intervals)) && multiset(ends) == multiset(Ends(intervals))
  }

  /** The value of `active` after the first `k` events. */
  function Active(events: seq<Event>, k: nat): int
    requires k <= |events|
  {
    Count(events[..k], OfKind(1)) - Count(events[..k], OfKind(-1))
  }

  // ----- counting lemmas -----

  lemma {:induction false} MarkCounts(times: seq<int>, delta: int, kind: int, t: int)
    ensures Count(Mark(times, delta), OfKind(kind)) == if kind == delta then |times| else 0
    ensures Count(Mark(times, delta), OfKindUpto(kind, t)) == if kind == delta then Count(times, Upto(t)) else 0
    ensures |Mark(times, delta)| == |times|
    ensures forall i :: 0 <= i < |times| ==> Mark(times, delta)[i].1 == delta
  {
    if times != [] {
      MarkCounts(times[1..], delta, kind, t);
      assert Mark(times, delta)[1..] == Mark(times[1..], delta);
    }
  }

  lemma {:induction false} IntervalCounts(intervals: seq<Interval>, t: int)
    requires Proper(intervals)
    ensures Cover(intervals, t) == Count(Starts(intervals), Upto(t)) - Count(Ends(intervals), Upto(t))
    ensures Count(Ends(intervals), Upto(t)) <= Count(Starts(intervals), Upto(t - 1))
    ensures |Starts(intervals)| == |intervals| == |Ends(intervals)|
  {
    if intervals != [] {
      IntervalCounts(intervals[1..], t);
      assert Starts(intervals)[1..] == Starts(intervals[1..]);
      assert Ends(intervals)[1..] == Ends(intervals[1..]);
    }
  }

  lemma {:induction false} SortKinds(s: seq<Event>)
    requires forall i :: 0 <= i < |s| ==> s[i].1 == 1 || s[i].1 == -1
    ensures forall i :: 0 <= i < |Sort(s, Earlier)| ==> Sort(s, Earlier)[i].1 == 1 || Sort(s, Earlier)[i].1 == -1
  {
    if s != [] {
      var rest := Sort(s[1..], Earlier);
      SortKinds(s[1..]);
      SortSorted(s[1..], Earlier);
      InsertSorted(s[0], rest, Earlier);
      forall i | 0 <= i < |Sort(s, Earlier)| ensures Sort(s, Earlier)[i].1 == 1 || Sort(s, Earlier)[i].1 == -1 {
        assert Sort(s, Earlier)[i] == s[0] || Sort(s, Earlier)[i] in rest;
      }
    }
  }

  /** The sorted events keep every count of the two lists. */
  lemma {:induction false} EventCounts(starts: seq<int>, ends: seq<int>, t: int)
    ensures var events := Events(starts, ends);
      && Sorted(events, Earlier)
      && |events| == |starts| + |ends|
      && (forall i :: 0 <= i < |events| ==> events[i].1 == 1 || events[i].1 == -1)
      && Count(events, OfKind(1)) == |starts| && Count(events, OfKind(-1)) == |ends|
      && Count(events, OfKindUpto(1, t)) == Count(starts, Upto(t))
      && Count(events, OfKindUpto(-1, t)) == Count(ends, Upto(t))
  {
    var s := Mark(starts, 1) + Mark(ends, -1);
    SortSorted(s, Earlier);
    forall kind | kind == 1 || kind == -1
      ensures Count(Events(starts, ends), OfKind(kind)) == if kind == 1 then |starts| else |ends|
      ensures Count(Events(starts, ends), OfKindUpto(kind, t)) ==
              if kind == 1 then Count(starts, Upto(t)) else Count(ends, Upto(t))
    {
      MarkCounts(starts, 1, kind, t);
      MarkCounts(ends, -1, kind, t);
      SortCounts(s, Earlier, OfKind(kind));
      SortCounts(s, Earlier, OfKindUpto(kind, t));
      CountConcat(Mark(starts, 1), Mark(ends, -1), OfKind(kind));
      CountConcat(Mark(starts, 1), Mark(ends, -1), OfKindUpto(kind, t));
    }
    MarkCounts(starts, 1, 1, t);
    MarkCounts(ends, -1, 1, t);
    SortCounts(s, Earlier, OfKind(1));
    SortKinds(s);
  }

  ghost predicate Balanced(events: seq<Event>, intervals: seq<Interval>) {
    && Sorted(events, Earlier)
    && (forall i :: 0 <= i < |events| ==> events[i].1 == 1 || events[i].1 == -1)
    && Active(events, |events|) == 0
    && forall t :: && Cover(intervals, t) == Count(events, OfKindUpto(1, t)) - Count(events, OfKindUpto(-1, t))
                   && Count(events, OfKindUpto(-1, t)) <= Count(events, OfKindUpto(1, t - 1))
  }

  lemma {:induction false} EventsBalanced(starts: seq<int>, ends: seq<int>, intervals: seq<Interval>)
    requires Proper(intervals) && Lists(starts, ends, intervals)
    ensures Balanced(Events(starts, ends), intervals)
  {
    var events := Events(starts, ends);
    assert events[..|events|] == events;
    forall t
      ensures Cover(intervals, t) == Count(events, OfKindUpto(1, t)) - Count(events, OfKindUpto(-1, t))
      ensures Count(events, OfKindUpto(-1, t)) <= Count(events, OfKindUpto(1, t - 1))
    {
      IntervalCounts(intervals, t);
      EventCounts(starts, ends, t);
      EventCounts(starts, ends, t - 1);
      CountMultiset(starts, Starts(intervals), Upto(t));
      CountMultiset(starts, Starts(intervals), Upto(t - 1));
      CountMultiset(ends, Ends(intervals), Upto(t));
    }
    EventCounts(starts, ends, 0);
    IntervalCounts(intervals, 0);
    CountMultiset(starts, Starts(intervals), Upto(0));
    CountMultiset(ends, Ends(intervals), Upto(0));
  }

  /** Counting a sorted sequence up to `t`, split at a position. */
  lemma {:induction false} SplitCount(events: seq<Event>, k: nat, delta: int, t: int)
    requires k <= |events|
    ensures Count(events, OfKindUpto(delta, t))
         == Count(events[..k], OfKindUpto(delta, t)) + Count(events[k..], OfKindUpto(delta, t))
    ensures (forall i :: k <= i < |events| && events[i].1 == delta ==> events[i].0 > t) ==>
              Count(events, OfKindUpto(delta, t)) <= Count(events[..k], OfKind(delta))
    ensures (forall i :: 0 <= i < k ==> events[i].0 <= t) ==>
              Count(events[..k], OfKind(delta)) <= Count(events, OfKindUpto(delta, t))
  {
    assert events == events[..k] + events[k..];
    CountConcat(events[..k], events[k..], OfKindUpto(delta, t));
    CountMonotone(events[..k], events[..k], OfKindUpto(delta, t), OfKind(delta));
    if forall i :: k <= i < |events| && events[i].1 == delta ==> events[i].0 > t {
      CountBounds(events[k..], OfKindUpto(delta, t));
    }
    if forall i :: 0 <= i < k ==> events[i].0 <= t {
      CountMonotone(events[..k], events[..k], OfKind(delta), OfKindUpto(delta, t));
    }
  }

  lemma {:induction false} ActiveStep(events: seq<Event>, k: nat)
    requires k < |events| && (events[k].1 == 1 || events[k].1 == -1)
    ensures Active(events, k + 1) == Active(events, k) + events[k].1
  {
    assert events[..k + 1] == events[..k] + [events[k]];
    CountConcat(events[..k], [events[k]], OfKind(1));
    CountConcat(events[..k], [events[k]], OfKind(-1));
  }

  /** Every running value is reached, or exceeded, by the cover of some instant. */
  lemma {:induction false} ActiveIsCovered(events: seq<Event>, k: nat, intervals: seq<Interval>) returns (t: int)
    requires k <= |events| && Balanced(events, intervals)
    ensures Active(events, k) <= Cover(intervals, t)
  {
    if k == 0 {
      t := 0;
    } else if events[k - 1].1 == -1 {
      t := ActiveIsCovered(events, k - 1, intervals);
      ActiveStep(events, k - 1);
    } else {
      t := events[k - 1].0;
      SplitCount(events, k, 1, t);
      SplitCount(events, k, -1, t);
    }
  }

  /** The cover of every instant is one of the running values. */
  lemma {:induction false} CoverIsActive(events: seq<Event>, intervals: seq<Interval>, t: int) returns (k: nat)
    requires Balanced(events, intervals)
    ensures k <= |events| && Active(events, k) == Cover(intervals, t)
  {
    k := 0;
    while k < |events| && events[k].0 <= t
      invariant k <= |events| && forall i :: 0 <= i < k ==> events[i].0 <= t
    {
      k := k + 1;
    }
    SplitCount(events, k, 1, t);
    SplitCount(events, k, -1, t);
  }

  /** `active` is never negative. */
  lemma {:induction false} ActiveNonNegative(events: seq<Event>, k: nat, intervals: seq<Interval>)
    requires k <= |events| && Balanced(events, intervals)
    ensures Active(events, k) >= 0
  {
    if k > 0 {
      ActiveStep(events, k - 1);
      if events[k - 1].1 == 1 {
        ActiveNonNegative(events, k - 1, intervals);
      } else {
        var t := events[k - 1].0;
        SplitCount(events, k, -1, t);
        SplitCount(events, k, 1, t - 1);
        assert Count(events, OfKindUpto(-1, t)) <= Count(events, OfKindUpto(1, t - 1));
      }
    }
  }

  /** The sweep ends with nothing active, and its maximum is the largest number of
      half-open intervals that cover any one instant. */
  method Sweep(starts: seq<int>, ends: seq<int>, ghost intervals: seq<Interval>)
    returns (active: int, maximum: int)
    requires Proper(intervals) && Lists(starts, ends, intervals)
    ensures active == 0
    ensures forall t :: Cover(intervals, t) <= maximum
    ensures exists t :: Cover(intervals, t) == maximum
  {
    var events := Events(starts, ends);
    EventsBalanced(starts, ends, intervals);
    active, maximum := 0, 0;
    ghost var peak: nat := 0;
    for k := 0 to |events|
      invariant active == Active(events, k) && 0 <= active
      invariant peak <= k && maximum == Active(events, peak)
      invariant forall j :: 0 <= j <= k ==> Active(events, j) <= maximum
    {
      ActiveStep(events, k);
      ActiveNonNegative(events, k + 1, intervals);
      active := active + events[k].1;
      if active > maximum {
        maximum, peak := active, k + 1;
      }
    }
    forall t ensures Cover(intervals, t) <= maximum {
      var k := CoverIsActive(events, intervals, t);
    }
    var t := ActiveIsCovered(events, peak, intervals);
    assert Cover(intervals, t) == maximum;
  }
}
