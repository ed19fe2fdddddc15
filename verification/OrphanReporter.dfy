/**
 The orphan reporter (sdk/couchbase-core/src/orphan_reporter.rs): every response that arrives too late
 is counted, and the `k` slowest ones of an interval are kept for the report.  A handler first looks at
 the heap under a read lock and only if its response might belong there takes the write lock and checks
 again.  A periodic tick first swaps the counter and then takes the heap.  Each of these sections is one
 atomic step and any number of handlers interleave.

 The binary heap, whose top is the smallest duration, is represented by the ascending sequence of its durations.
 */
module OrphanReporter {
  import opened Common

  type HandlerId = nat

  datatype Handler = Counted(duration: nat) | WantsWrite(duration: nat) | Finished

  datatype Reporter = Waiting | Swapped(count: nat)

  datatype Report = Report(count: nat, durations: seq<nat>)

  /**
   `decided`, `handled` and `settled` are history: responses accepted or rejected since the heap was last taken,
   all responses seen, and all that were decided.
   */
  datatype System = System(
    heap: seq<nat>, count: nat, handlers: map<HandlerId, Handler>, reporter: Reporter, reports: seq<Report>,
    decided: multiset<nat>, handled: nat, settled: nat)

  datatype Event =
    | Arrive(handler: HandlerId, duration: nat)
    | ReadCheck(handler: HandlerId)
    | WriteSection(handler: HandlerId)
    | SwapCount
    | TakeHeap

  // ---------------------------------------------------------------- the heap

  predicate Sorted(s: seq<nat>) {
    forall i, j :: 0 <= i < j < |s| ==> s[i] <= s[j]
  }

  function Insert(s: seq<nat>, x: nat): seq<nat> {
    if s == [] || x <= s[0] then [x] + s else [s[0]] + Insert(s[1..], x)
  }

  lemma {:induction false} InsertAdds(s: seq<nat>, x: nat)
    ensures multiset(Insert(s, x)) == multiset(s) + multiset{x}
  {
    if s != [] && x > s[0] {
      InsertAdds(s[1..], x);
      assert s == [s[0]] + s[1..];
    }
  }

  predicate AllAtLeast(s: seq<nat>, low: nat) {
    forall i :: 0 <= i < |s| ==> low <= s[i]
  }

  lemma ConsSorted(low: nat, s: seq<nat>)
    requires Sorted(s) && AllAtLeast(s, low)
    ensures Sorted([low] + s)
  {}

  lemma {:induction false} InsertAtLeast(s: seq<nat>, x: nat, low: nat)
    requires AllAtLeast(s, low) && low <= x
    ensures AllAtLeast(Insert(s, x), low)
  {
    if s != [] && x > s[0] {
      InsertAtLeast(s[1..], x, low);
    }
  }

  lemma {:induction false} InsertSorts(s: seq<nat>, x: nat)
    requires Sorted(s)
    ensures Sorted(Insert(s, x))
  {
    if s != [] {
      if x > s[0] {
        InsertSorts(s[1..], x);
        InsertAtLeast(s[1..], x, s[0]);
        ConsSorted(s[0], Insert(s[1..], x));
      } else {
        ConsSorted(x, s);
      }
    }
  }

  /** The unlocked test: room left, or longer than the shortest kept one. */
  predicate NeedsWrite(k: nat, heap: seq<nat>, duration: nat) {
    |heap| < k || (heap != [] && duration > heap[0])
  }

  /** The write section, which repeats the test. */
  function Record(k: nat, heap: seq<nat>, duration: nat): seq<nat> {
    if |heap| < k then Insert(heap, duration)
    else if heap != [] && duration > heap[0] then Insert(heap[1..], duration)
    else heap
  }

  /** What the second half of a tick reports. */
  function ReportOf(s: System): Report
    requires s.reporter.Swapped?
  {
    Report(s.reporter.count, Reversed(s.heap))
  }

  // ---------------------------------------------------------------- atomic steps

  /** The response of a handler is decided: it ends, and the heap is as given. */
  function Decide(s: System, h: HandlerId, heap: seq<nat>): System
    requires h in s.handlers && !s.handlers[h].Finished?
  {
    s.(handlers := s.handlers[h := Finished], heap := heap,
       decided := s.decided + multiset{s.handlers[h].duration}, settled := s.settled + 1)
  }

  function Step(k: nat, s: System, e: Event): System {
    match e
    case Arrive(h, d) =>
      if h in s.handlers then s
      else s.(handlers := s.handlers[h := Counted(d)], count := s.count + 1, handled := s.handled + 1)
    case ReadCheck(h) =>
      if h in s.handlers && s.handlers[h].Counted? then
        var d := s.handlers[h].duration;
        if NeedsWrite(k, s.heap, d) then s.(handlers := s.handlers[h := WantsWrite(d)])
        else Decide(s, h, s.heap)
      else s
    case WriteSection(h) =>
      if h in s.handlers && s.handlers[h].WantsWrite? then
        Decide(s, h, Record(k, s.heap, s.handlers[h].duration))
      else s
    case SwapCount =>
      if s.reporter.Waiting? && s.count > 0 then s.(count := 0, reporter := Swapped(s.count)) else s
    case TakeHeap =>
      if s.reporter.Swapped? then
        s.(reporter := Waiting, heap := [], decided := multiset{}, reports := s.reports + [ReportOf(s)])
      else s
  }

  const Initial: System := System([], 0, map[], Waiting, [], multiset{}, 0, 0)

  function Run(k: nat, es: seq<Event>): System {
    if es == [] then Initial else Step(k, Run(k, es[..|es| - 1]), es[|es| - 1])
  }

  // ---------------------------------------------------------------- the k largest

  /** `h` holds the k largest elements of `d`, with multiplicity. */
  ghost predicate IsTopK(h: multiset<nat>, d: multiset<nat>, k: nat) {
    && h <= d
    && |h| == (if |d| < k then |d| else k)
    && forall x, y :: x in h && y in d - h ==> y <= x
  }

  lemma SubsetSameSize(a: multiset<nat>, b: multiset<nat>)
    requires a <= b && |a| == |b|
    ensures a == b
  {
    assert b == a + (b - a);
  }

  lemma SurplusIsBounded(h1: multiset<nat>, h2: multiset<nat>, d: multiset<nat>, k: nat, x: nat, y: nat)
    requires IsTopK(h2, d, k) && h1 <= d && h1[x] > h2[x] && y in h2
    ensures x <= y
  {
    assert x in d - h2;
  }

  /** The k largest elements are determined: there is only one such multiset. */
  lemma TopKUnique(h1: multiset<nat>, h2: multiset<nat>, d: multiset<nat>, k: nat)
    requires IsTopK(h1, d, k) && IsTopK(h2, d, k)
    ensures h1 == h2
  {
    if h1 != h2 {
      if h1 <= h2 {
        SubsetSameSize(h1, h2);
      } else {
        var x :| h1[x] > h2[x];
        if h2 <= h1 {
          SubsetSameSize(h2, h1);
        } else {
          var y :| h2[y] > h1[y];
          SurplusIsBounded(h1, h2, d, k, x, y);
          SurplusIsBounded(h2, h1, d, k, y, x);
        }
      }
    }
  }

  lemma RoomLeft(heap: seq<nat>, d: multiset<nat>, k: nat, x: nat)
    requires Sorted(heap) && IsTopK(multiset(heap), d, k) && |heap| < k
    ensures Sorted(Insert(heap, x)) && IsTopK(multiset(Insert(heap, x)), d + multiset{x}, k)
  {
    InsertSorts(heap, x);
    InsertAdds(heap, x);
    SubsetSameSize(multiset(heap), d);
  }

  lemma TooShort(heap: seq<nat>, d: multiset<nat>, k: nat, x: nat)
    requires Sorted(heap) && IsTopK(multiset(heap), d, k) && !NeedsWrite(k, heap, x)
    ensures IsTopK(multiset(heap), d + multiset{x}, k)
  {
    var h := multiset(heap);
    assert d + multiset{x} - h == (d - h) + multiset{x};
    forall y | y in h
      ensures x <= y
    {
      assert y in heap;
    }
  }

  /** The first of a sorted sequence is the least, and the others are sorted without it. */
  lemma FirstIsLeast(heap: seq<nat>)
    requires Sorted(heap) && heap != []
    ensures Sorted(heap[1..]) && AllAtLeast(heap[1..], heap[0])
    ensures multiset(heap) == multiset{heap[0]} + multiset(heap[1..])
  {
    assert heap == [heap[0]] + heap[1..];
  }

  lemma ReplacesShortest(heap: seq<nat>, d: multiset<nat>, k: nat, x: nat)
    requires Sorted(heap) && IsTopK(multiset(heap), d, k) && |heap| >= k && heap != [] && x > heap[0]
    ensures Sorted(Insert(heap[1..], x)) && IsTopK(multiset(Insert(heap[1..], x)), d + multiset{x}, k)
  {
    FirstIsLeast(heap);
    InsertSorts(heap[1..], x);
    InsertAdds(heap[1..], x);
    FullAtLeastK(multiset(heap), d, k);
    RestAtLeast(heap[1..], heap[0]);
    ShortestGivesWay(multiset(heap), multiset(heap[1..]), d, heap[0], x, k);
  }

  lemma FullAtLeastK(h: multiset<nat>, d: multiset<nat>, k: nat)
    requires IsTopK(h, d, k) && |h| >= k
    ensures |d| >= k
  {}

  lemma RestAtLeast(rest: seq<nat>, low: nat)
    requires AllAtLeast(rest, low)
    ensures forall a :: a in multiset(rest) ==> low <= a
  {}

  lemma ShortestGivesWay(h: multiset<nat>, rest: multiset<nat>, d: multiset<nat>, m: nat, x: nat, k: nat)
    requires IsTopK(h, d, k) && h == multiset{m} + rest && m < x && |d| >= k
    requires forall a :: a in rest ==> m <= a
    ensures IsTopK(rest + multiset{x}, d + multiset{x}, k)
  {
    var h' := rest + multiset{x};
    assert d + multiset{x} - h' == (d - h) + multiset{m};
    forall a, b | a in h' && b in d + multiset{x} - h'
      ensures b <= a
    {
      assert m in h && (a == x || a in h);
    }
  }

  /** The write section keeps the k largest, whatever happened since the unlocked test. */
  lemma RecordKeepsTopK(heap: seq<nat>, d: multiset<nat>, k: nat, x: nat)
    requires Sorted(heap) && IsTopK(multiset(heap), d, k)
    ensures Sorted(Record(k, heap, x)) && IsTopK(multiset(Record(k, heap, x)), d + multiset{x}, k)
  {
    if |heap| < k {
      RoomLeft(heap, d, k, x);
    } else if heap != [] && x > heap[0] {
      ReplacesShortest(heap, d, k, x);
    } else {
      TooShort(heap, d, k, x);
    }
  }

  /** The unlocked test sends a response to the write section exactly if recording it now would change the heap. */
  lemma NeedsWriteIffRecordChanges(k: nat, heap: seq<nat>, x: nat)
    requires Sorted(heap)
    ensures NeedsWrite(k, heap, x) <==> Record(k, heap, x) != heap
  {
    InsertLength(heap, x);
    if |heap| >= k && heap != [] && x > heap[0] {
      FirstIsLeast(heap);
      InsertAdds(heap[1..], x);
      assert multiset(Insert(heap[1..], x))[heap[0]] + 1 == multiset(heap)[heap[0]];
    }
  }

  // ---------------------------------------------------------------- invariant

  function TotalReported(reports: seq<Report>): nat {
    if reports == [] then 0 else TotalReported(reports[..|reports| - 1]) + reports[|reports| - 1].count
  }

  function PendingCount(s: System): nat {
    s.count + if s.reporter.Swapped? then s.reporter.count else 0
  }

  ghost predicate Inv(k: nat, s: System) {
    && Sorted(s.heap) && IsTopK(multiset(s.heap), s.decided, k)
    && TotalReported(s.reports) + PendingCount(s) == s.handled
  }

  lemma StepInv(k: nat, s: System, e: Event)
    requires Inv(k, s)
    ensures Inv(k, Step(k, s, e))
  {
    match e
    case ReadCheck(h) =>
      if h in s.handlers && s.handlers[h].Counted? && !NeedsWrite(k, s.heap, s.handlers[h].duration) {
        TooShort(s.heap, s.decided, k, s.handlers[h].duration);
      }
    case WriteSection(h) =>
      if h in s.handlers && s.handlers[h].WantsWrite? {
        RecordKeepsTopK(s.heap, s.decided, k, s.handlers[h].duration);
      }
    case TakeHeap => TakeHeapInv(k, s);
    case _ =>
  }

  lemma TotalSnoc(reports: seq<Report>, r: Report)
    ensures TotalReported(reports + [r]) == TotalReported(reports) + r.count
  {
    assert (reports + [r])[..|reports + [r]| - 1] == reports;
  }

  lemma NothingDecided(k: nat)
    ensures IsTopK(multiset{}, multiset{}, k)
  {}

  lemma TakeHeapInv(k: nat, s: System)
    requires Inv(k, s)
    ensures Inv(k, Step(k, s, TakeHeap))
  {
    if s.reporter.Swapped? {
      var empty: seq<nat> := [];
      assert multiset(empty) == multiset{};
      NothingDecided(k);
      TotalSnoc(s.reports, ReportOf(s));
      assert Step(k, s, TakeHeap).reports == s.reports + [ReportOf(s)];
    }
  }

  lemma {:induction false} RunInv(k: nat, es: seq<Event>)
    ensures Inv(k, Run(k, es))
  {
    if es != [] {
      RunInv(k, es[..|es| - 1]);
      StepInv(k, Run(k, es[..|es| - 1]), es[|es| - 1]);
    }
  }

  // ---------------------------------------------------------------- main results

  /**
   For any interleaving of handlers and ticks the heap is exactly the k longest durations decided in the
   current interval.
   */
  lemma SamplingIsExactTopK(k: nat, es: seq<Event>, h: multiset<nat>)
    ensures var s := Run(k, es); IsTopK(h, s.decided, k) <==> h == multiset(s.heap)
  {
    RunInv(k, es);
    var s := Run(k, es);
    if IsTopK(h, s.decided, k) {
      TopKUnique(h, multiset(s.heap), s.decided, k);
    }
  }

  /** No response is lost or counted twice: the reported counts and the pending count add up to the responses seen. */
  lemma CountsAddUp(k: nat, es: seq<Event>)
    ensures var s := Run(k, es); TotalReported(s.reports) + PendingCount(s) == s.handled
  {
    RunInv(k, es);
  }

  lemma {:induction false} DescendingMultiset(s: seq<nat>)
    ensures multiset(Reversed(s)) == multiset(s)
  {
    if s != [] {
      var n := |s| - 1;
      DescendingMultiset(s[..n]);
      assert Reversed(s) == [s[n]] + Reversed(s[..n]);
      assert s == s[..n] + [s[n]];
    }
  }

  lemma DescendingSorted(s: seq<nat>)
    requires Sorted(s)
    ensures NonIncreasing(Reversed(s))
  {}

  predicate NonIncreasing(s: seq<nat>) {
    forall i, j :: 0 <= i < j < |s| ==> s[i] >= s[j]
  }

  /** The report lists the k longest durations of its interval, longest first. */
  ghost predicate ListsTopK(r: Report, decided: multiset<nat>, k: nat) {
    IsTopK(multiset(r.durations), decided, k) && NonIncreasing(r.durations)
  }

  /** What the second half of a tick adds to the reports. */
  ghost predicate AddsReport(k: nat, s: System)
    requires s.reporter.Swapped?
  {
    && Step(k, s, TakeHeap).reports == s.reports + [ReportOf(s)]
    && ReportOf(s).count == s.reporter.count && ListsTopK(ReportOf(s), s.decided, k)
  }

  lemma ReportListsTopK(k: nat, s: System)
    requires Inv(k, s) && s.reporter.Swapped?
    ensures AddsReport(k, s)
  {
    DescendingSorted(s.heap);
    ListedTopK(s.heap, s.decided, k);
  }

  /** What a tick reports: the swapped count, and the k longest durations decided since the heap was last taken. */
  lemma ReportIsSortedTopK(k: nat, es: seq<Event>)
    requires Run(k, es).reporter.Swapped?
    ensures AddsReport(k, Run(k, es))
  {
    RunInv(k, es);
    ReportListsTopK(k, Run(k, es));
  }

  lemma ListedTopK(heap: seq<nat>, d: multiset<nat>, k: nat)
    requires IsTopK(multiset(heap), d, k)
    ensures IsTopK(multiset(Reversed(heap)), d, k)
  {
    DescendingMultiset(heap);
  }

  // ---------------------------------------------------------------- counts and lists

  function TotalListed(reports: seq<Report>): nat {
    if reports == [] then 0 else TotalListed(reports[..|reports| - 1]) + |reports[|reports| - 1].durations|
  }

  /** The handlers that have counted their response and not decided about it yet. */
  function Undecided(s: System): set<HandlerId> {
    set h | h in s.handlers && !s.handlers[h].Finished?
  }

  ghost predicate ListedBounded(s: System) {
    TotalListed(s.reports) + |s.heap| <= s.settled && s.settled + |Undecided(s)| == s.handled
  }

  lemma {:induction false} InsertLength(s: seq<nat>, x: nat)
    ensures |Insert(s, x)| == |s| + 1
  {
    if s != [] && x > s[0] {
      InsertLength(s[1..], x);
    }
  }

  lemma ListedSnoc(reports: seq<Report>, r: Report)
    ensures TotalListed(reports + [r]) == TotalListed(reports) + |r.durations|
  {
    assert (reports + [r])[..|reports + [r]| - 1] == reports;
  }

  lemma RecordLength(k: nat, heap: seq<nat>, x: nat)
    ensures |Record(k, heap, x)| <= |heap| + 1
  {
    InsertLength(heap, x);
    if heap != [] {
      InsertLength(heap[1..], x);
    }
  }

  /** A handler that decides leaves the undecided ones. */
  lemma Decides(s: System, s': System, h: HandlerId)
    requires h in s.handlers && !s.handlers[h].Finished? && s'.handlers == s.handlers[h := Finished]
    ensures |Undecided(s')| + 1 == |Undecided(s)|
  {
    assert Undecided(s) == Undecided(s') + {h};
  }

  lemma ArriveListed(k: nat, s: System, h: HandlerId, d: nat)
    requires ListedBounded(s) && h !in s.handlers
    ensures ListedBounded(Step(k, s, Arrive(h, d)))
  {
    assert Undecided(Step(k, s, Arrive(h, d))) == Undecided(s) + {h};
  }

  lemma ReadListed(k: nat, s: System, h: HandlerId)
    requires ListedBounded(s) && h in s.handlers && s.handlers[h].Counted?
    ensures ListedBounded(Step(k, s, ReadCheck(h)))
  {
    var s' := Step(k, s, ReadCheck(h));
    if s'.handlers[h].Finished? {
      Decides(s, s', h);
    } else {
      assert Undecided(s') == Undecided(s);
    }
  }

  lemma WriteListed(k: nat, s: System, h: HandlerId)
    requires ListedBounded(s) && h in s.handlers && s.handlers[h].WantsWrite?
    ensures ListedBounded(Step(k, s, WriteSection(h)))
  {
    Decides(s, Step(k, s, WriteSection(h)), h);
    RecordLength(k, s.heap, s.handlers[h].duration);
  }

  lemma TickListed(k: nat, s: System, e: Event)
    requires ListedBounded(s) && (e.SwapCount? || e.TakeHeap?)
    ensures ListedBounded(Step(k, s, e))
  {
    assert Undecided(Step(k, s, e)) == Undecided(s);
    if e.TakeHeap? && s.reporter.Swapped? {
      ListedSnoc(s.reports, ReportOf(s));
    }
  }

  lemma ListedStep(k: nat, s: System, e: Event)
    requires ListedBounded(s)
    ensures ListedBounded(Step(k, s, e))
  {
    match e
    case Arrive(h, d) => if h !in s.handlers { ArriveListed(k, s, h, d); }
    case ReadCheck(h) => if h in s.handlers && s.handlers[h].Counted? { ReadListed(k, s, h); }
    case WriteSection(h) => if h in s.handlers && s.handlers[h].WantsWrite? { WriteListed(k, s, h); }
    case _ => TickListed(k, s, e);
  }

  /**
   In every run each response is decided once or not yet, and the durations listed so far and those in the heap
   are at most the decided ones.
   */
  lemma {:induction false} ListedAtMostHandled(k: nat, es: seq<Event>)
    ensures ListedBounded(Run(k, es))
  {
    if es != [] {
      ListedAtMostHandled(k, es[..|es| - 1]);
      ListedStep(k, Run(k, es[..|es| - 1]), es[|es| - 1]);
    }
  }

  lemma RunSnoc(k: nat, es: seq<Event>, e: Event)
    ensures Run(k, es + [e]) == Step(k, Run(k, es), e)
  {
    assert (es + [e])[..|es + [e]| - 1] == es;
  }

  lemma HandlingSteps(k: nat, s: System, h: HandlerId, d: nat)
    requires h !in s.handlers && |s.heap| < k
    ensures var t := Step(k, Step(k, Step(k, s, Arrive(h, d)), ReadCheck(h)), WriteSection(h));
            && t.heap == Insert(s.heap, d) && t.count == s.count + 1
            && t.reporter == s.reporter && t.reports == s.reports
            && t.handlers.Keys == s.handlers.Keys + {h}
  {
    var u := Step(k, Step(k, s, Arrive(h, d)), ReadCheck(h));
    assert h in u.handlers && u.handlers[h] == WantsWrite(d) && u.handlers.Keys == s.handlers.Keys + {h};
    assert u.heap == s.heap && u.count == s.count + 1 && u.reporter == s.reporter && u.reports == s.reports;
  }

  /** A response that is handled without a tick in between. */
  lemma HandledAtOnce(k: nat, es: seq<Event>, h: HandlerId, d: nat) returns (longer: seq<Event>)
    requires h !in Run(k, es).handlers && |Run(k, es).heap| < k
    ensures var s, t := Run(k, es), Run(k, longer);
            && t.heap == Insert(s.heap, d) && t.count == s.count + 1
            && t.reporter == s.reporter && t.reports == s.reports
            && t.handlers.Keys == s.handlers.Keys + {h}
  {
    HandlingSteps(k, Run(k, es), h, d);
    RunSnoc(k, es, Arrive(h, d));
    RunSnoc(k, es + [Arrive(h, d)], ReadCheck(h));
    RunSnoc(k, es + [Arrive(h, d)] + [ReadCheck(h)], WriteSection(h));
    longer := es + [Arrive(h, d)] + [ReadCheck(h)] + [WriteSection(h)];
  }

  lemma Ticked(k: nat, es: seq<Event>) returns (longer: seq<Event>)
    requires Run(k, es).reporter.Waiting? && Run(k, es).count > 0
    ensures var s, t := Run(k, es), Run(k, longer);
            && t.reports == s.reports + [Report(s.count, Reversed(s.heap))]
            && t.heap == [] && t.count == 0 && t.reporter.Waiting? && t.handlers == s.handlers
  {
    RunSnoc(k, es, SwapCount);
    longer := es + [SwapCount];
    RunSnoc(k, longer, TakeHeap);
    longer := longer + [TakeHeap];
  }

  /**
   A single report can list more durations than it counts: a response that was counted before a tick and
   decided after it is counted in one report and listed in the next.
   */
  lemma ReportMayListMoreThanItCounts(k: nat, d1: nat, d2: nat) returns (es: seq<Event>)
    requires k >= 2
    ensures var reports := Run(k, es).reports;
            |reports| == 2 && reports[1].count == 1 && |reports[1].durations| == 2
  {
    es := [] + [Arrive(1, d1)];
    RunSnoc(k, [], Arrive(1, d1));
    es := Ticked(k, es);
    es := DecidedLate(k, es, d1);
    es := HandledAtOnce(k, es, 2, d2);
    InsertLength([d1], d2);
    es := Ticked(k, es);
  }

  /** Reports count something and list at most k durations. */
  ghost predicate ReportsBounded(k: nat, s: System) {
    && (s.reporter.Swapped? ==> s.reporter.count > 0)
    && forall i :: 0 <= i < |s.reports| ==> s.reports[i].count > 0 && |s.reports[i].durations| <= k
  }

  lemma {:induction false} ReportsStayBounded(k: nat, es: seq<Event>)
    ensures ReportsBounded(k, Run(k, es))
  {
    if es != [] {
      var n := |es| - 1;
      ReportsStayBounded(k, es[..n]);
      RunInv(k, es[..n]);
      HeapBounded(k, Run(k, es[..n]));
    }
  }

  lemma HeapBounded(k: nat, s: System)
    requires Inv(k, s)
    ensures |s.heap| <= k
  {
    assert |multiset(s.heap)| == |s.heap|;
  }

  predicate Overlists(s: System, i: nat) {
    i < |s.reports| && |s.reports[i].durations| > s.reports[i].count
  }

  /** Exactly when a report can list more durations than it counts: when the sample has room for two. */
  lemma OverlistsIffRoomForTwo(k: nat)
    ensures (exists es, i: nat :: Overlists(Run(k, es), i)) <==> k >= 2
  {
    if k >= 2 {
      var es := ReportMayListMoreThanItCounts(k, 0, 0);
      assert Overlists(Run(k, es), 1);
    } else {
      forall es, i: nat
        ensures !Overlists(Run(k, es), i)
      {
        ReportsStayBounded(k, es);
      }
    }
  }

  lemma DecidedLate(k: nat, es: seq<Event>, d: nat) returns (longer: seq<Event>)
    requires k >= 2
    requires var s := Run(k, es); 1 in s.handlers && s.handlers[1] == Counted(d) && s.heap == []
    ensures var s, t := Run(k, es), Run(k, longer);
            && t.heap == [d] && t.count == s.count && t.reporter == s.reporter && t.reports == s.reports
            && t.handlers.Keys == s.handlers.Keys
  {
    RunSnoc(k, es, ReadCheck(1));
    longer := es + [ReadCheck(1)];
    RunSnoc(k, longer, WriteSection(1));
    longer := longer + [WriteSection(1)];
  }

  // ---------------------------------------------------------------- the code

  /** The shared heap and counter; `sys` is the run of the state machine that they realize. */
  class SharedHeap {
    const sampleSize: nat
    var heap: seq<nat>
    var count: nat
    ghost var sys: System

    ghost predicate Tied()
      reads this
    {
      sys.heap == heap && sys.count == count
    }

    constructor (sampleSize: nat)
      ensures this.sampleSize == sampleSize && Tied() && sys == Initial
    {
      this.sampleSize := sampleSize;
      heap, count := [], 0;
      sys := Initial;
    }

    /** A response is counted before anything else. */
    method Count(duration: nat, ghost h: HandlerId)
      requires Tied() && h !in sys.handlers
      modifies this`count, this`sys
      ensures Tied() && sys == Step(sampleSize, old(sys), Arrive(h, duration))
    {
      count := count + 1;
      sys := Step(sampleSize, sys, Arrive(h, duration));
    }

    /** The check under the read lock. */
    method Check(duration: nat, ghost h: HandlerId) returns (needsWrite: bool)
      requires Tied() && h in sys.handlers && sys.handlers[h] == Counted(duration)
      modifies this`sys
      ensures Tied() && sys == Step(sampleSize, old(sys), ReadCheck(h))
      ensures needsWrite <==> sys.handlers[h].WantsWrite?
    {
      needsWrite := |heap| < sampleSize || (heap != [] && duration > heap[0]);
      sys := Step(sampleSize, sys, ReadCheck(h));
    }

    /** The write section of the handler: push, or pop the shortest and push, or leave the heap alone. */
    method Consider(duration: nat, ghost h: HandlerId)
      requires Tied() && h in sys.handlers && sys.handlers[h] == WantsWrite(duration)
      modifies this`heap, this`sys
      ensures Tied() && sys == Step(sampleSize, old(sys), WriteSection(h))
    {
      if |heap| < sampleSize {
        heap := Insert(heap, duration);
      } else if heap != [] && duration > heap[0] {
        heap := heap[1..];
        heap := Insert(heap, duration);
      }
      sys := Step(sampleSize, sys, WriteSection(h));
    }

    /** The first half of the tick; nothing more happens when nothing was counted. */
    method TakeCount() returns (c: nat)
      requires Tied() && sys.reporter.Waiting?
      modifies this`count, this`sys
      ensures Tied() && sys == Step(sampleSize, old(sys), SwapCount)
      ensures sys.reporter == if c == 0 then Waiting else Swapped(c)
    {
      c := count;
      count := 0;
      sys := Step(sampleSize, sys, SwapCount);
    }

    /** The second half: the heap is taken and listed. */
    method TakeReport(c: nat) returns (report: Report)
      requires Tied() && sys.reporter == Swapped(c)
      modifies this`heap, this`sys
      ensures Tied() && sys == Step(sampleSize, old(sys), TakeHeap)
      ensures sys.reports == old(sys.reports) + [report]
    {
      report := Report(c, Reversed(heap));
      heap := [];
      sys := Step(sampleSize, sys, TakeHeap);
    }
  }
}
