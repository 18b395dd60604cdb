/** The CI shard scheduler: files dealt longest first, each to the lightest shard. */
module Shards {
  import opened Ordering
  import opened Sums

  /** A path relative to backend/, as its parts. */
  type File = seq<string>

  datatype Exit = Printed(files: seq<File>) | UsageError

  /** `Path.as_posix`. */
  function Posix(f: File): string {
    if f == [] then "."
    else if |f| == 1 then f[0]
    else f[0] + "/" + Posix(f[1..])
  }

  predicate Distinct(files: seq<File>) {
    forall i, j :: 0 <= i < j < |files| ==> Posix(files[i]) != Posix(files[j])
  }

  // ---- the weight model -------------------------------------------------

  /** A file counts at least one test; `found` is the number of definitions matched in it. */
  function TestCount(found: File -> nat, f: File): nat {
    if found(f) == 0 then 1 else found(f)
  }

  function Timed(files: seq<File>, timings: map<string, real>): seq<File> {
    if files == [] then []
    else
      var last := files[|files| - 1];
      Timed(files[..|files| - 1], timings) + if Posix(last) in timings then [last] else []
  }

  function Seconds(timings: map<string, real>): File -> real {
    (f: File) => if Posix(f) in timings then timings[Posix(f)] else 0.0
  }

  function Tests(found: File -> nat): File -> real {
    (f: File) => TestCount(found, f) as real
  }

  function PerTest(files: seq<File>, timings: map<string, real>, found: File -> nat): real {
    var timed := Timed(files, timings);
    var tests := SumBy(timed, Tests(found));
    if tests == 0.0 then 1.0 else SumBy(timed, Seconds(timings)) / tests
  }

  /** A recorded file weighs its seconds, any other its test count at the recorded rate. */
  function Weight(files: seq<File>, timings: map<string, real>, found: File -> nat): File -> real {
    var perTest := PerTest(files, timings, found);
    (f: File) => if Posix(f) in timings then timings[Posix(f)] else TestCount(found, f) as real * perTest
  }

  ghost predicate NonNegative(timings: map<string, real>) {
    forall p :: p in timings ==> timings[p] >= 0.0
  }

  lemma WeightNonNegative(files: seq<File>, timings: map<string, real>, found: File -> nat, f: File)
    requires NonNegative(timings)
    ensures Weight(files, timings, found)(f) >= 0.0
  {
    var timed := Timed(files, timings);
    SumNonNegative(timed, Seconds(timings));
    SumNonNegative(timed, Tests(found));
    assert PerTest(files, timings, found) >= 0.0;
  }

  function AtLeastOne(n: nat): (k: nat)
    ensures k >= 1 && k >= n && (k == 1 || k == n)
  {
    if n > 1 then n else 1
  }

  /** The seconds on record for the files. */
  function RecordedSeconds(files: seq<File>, timings: map<string, real>): real {
    if files == [] then 0.0
    else
      var last := Posix(files[|files| - 1]);
      RecordedSeconds(files[..|files| - 1], timings) + if last in timings then timings[last] else 0.0
  }

  /** The tests in the files that have a record, at least one in each. */
  function RecordedTests(files: seq<File>, timings: map<string, real>, found: File -> nat): nat {
    if files == [] then 0
    else
      var last := files[|files| - 1];
      RecordedTests(files[..|files| - 1], timings, found)
      + if Posix(last) in timings then AtLeastOne(found(last)) else 0
  }

  /** The weights as the script means them: a recorded file weighs its seconds; all others have
      one ratio of weight to tests; and at that ratio the tests of the recorded files take the
      seconds recorded for them. Without a record the ratio is 1. */
  ghost predicate Weighs(files: seq<File>, timings: map<string, real>, found: File -> nat, w: File -> real,
                         rate: real) {
    && (forall f :: Posix(f) in timings ==> w(f) == timings[Posix(f)])
    && (forall f :: Posix(f) !in timings ==> w(f) == Product(rate, AtLeastOne(found(f))))
    && Product(rate, RecordedTests(files, timings, found)) == RecordedSeconds(files, timings)
    && (RecordedTests(files, timings, found) == 0 ==> rate == 1.0)
  }

  ghost predicate WeighsRight(files: seq<File>, timings: map<string, real>, found: File -> nat, w: File -> real) {
    exists rate :: Weighs(files, timings, found, w, rate)
  }

  lemma {:induction false} TimedSums(files: seq<File>, timings: map<string, real>, found: File -> nat)
    ensures SumBy(Timed(files, timings), Tests(found)) == RecordedTests(files, timings, found) as real
    ensures SumBy(Timed(files, timings), Seconds(timings)) == RecordedSeconds(files, timings)
    ensures RecordedTests(files, timings, found) == 0 ==> Timed(files, timings) == []
  {
    if files != [] {
      var n := |files| - 1;
      TimedSums(files[..n], timings, found);
      if Posix(files[n]) in timings {
        assert Timed(files, timings)[..|Timed(files, timings)| - 1] == Timed(files[..n], timings);
      } else {
        assert Timed(files, timings) == Timed(files[..n], timings);
      }
    }
  }

  function Product(rate: real, n: nat): real {
    n as real * rate
  }

  lemma RateTimes(seconds: real, tests: nat)
    requires tests > 0
    ensures Product(seconds / tests as real, tests) == seconds
  {
  }

  lemma RateOf(files: seq<File>, timings: map<string, real>, found: File -> nat)
    ensures Product(PerTest(files, timings, found), RecordedTests(files, timings, found))
         == RecordedSeconds(files, timings)
    ensures RecordedTests(files, timings, found) == 0 ==> PerTest(files, timings, found) == 1.0
  {
    var tests := RecordedTests(files, timings, found);
    TimedSums(files, timings, found);
    if tests > 0 {
      RateTimes(RecordedSeconds(files, timings), tests);
    }
  }

  /** The weights `split` deals by are these. */
  lemma {:induction false} WeightsAreRight(files: seq<File>, timings: map<string, real>, found: File -> nat)
    ensures WeighsRight(files, timings, found, Weight(files, timings, found))
  {
    var rate, w := PerTest(files, timings, found), Weight(files, timings, found);
    RateOf(files, timings, found);
    forall f | Posix(f) !in timings ensures w(f) == Product(rate, AtLeastOne(found(f))) {
      assert TestCount(found, f) == AtLeastOne(found(f));
    }
    assert Weighs(files, timings, found, w, rate);
  }

  // ---- the deal -----------------------------------------------------------

  /** Heaviest first, ties by path. */
  predicate Before(w: File -> real, a: File, b: File) {
    w(a) > w(b) || (w(a) == w(b) && StringLe(Posix(a), Posix(b)))
  }

  function Order(w: File -> real): (File, File) -> bool {
    (a: File, b: File) => Before(w, a, b)
  }

  function Loads(shards: seq<seq<File>>, w: File -> real): (loads: seq<real>)
    ensures |loads| == |shards|
  {
    seq(|shards|, k requires 0 <= k < |shards| => SumBy(shards[k], w))
  }

  /** `loads.index(min(loads))`: the first lightest shard. */
  function Lightest(loads: seq<real>): (k: nat)
    requires loads != []
    ensures k < |loads|
    ensures forall i :: 0 <= i < |loads| ==> loads[k] <= loads[i]
    ensures forall i :: 0 <= i < k ==> loads[k] < loads[i]
  {
    if |loads| == 1 then 0
    else
      var k := Lightest(loads[..|loads| - 1]);
      if loads[|loads| - 1] < loads[k] then |loads| - 1 else k
  }

  /** The shards after dealing `order` from the front. */
  function Deal(order: seq<File>, w: File -> real, m: nat): (shards: seq<seq<File>>)
    requires m >= 1
    ensures |shards| == m
  {
    if order == [] then seq(m, _ => [])
    else
      var shards := Deal(order[..|order| - 1], w, m);
      var k := Lightest(Loads(shards, w));
      shards[k := shards[k] + [order[|order| - 1]]]
  }

  function SplitOf(files: seq<File>, m: nat, w: File -> real): (shards: seq<seq<File>>)
    requires m >= 1
    ensures |shards| == m
  {
    var dealt := Deal(Sorted(files, Order(w)), w, m);
    seq(m, k requires 0 <= k < m => Sorted(dealt[k], PartsLe))
  }

  lemma DealNext(order: seq<File>, w: File -> real, m: nat, i: nat)
    requires m >= 1 && i < |order|
    ensures var shards := Deal(order[..i], w, m);
            var k := Lightest(Loads(shards, w));
            Deal(order[..i + 1], w, m) == shards[k := shards[k] + [order[i]]]
  {
    assert order[..i + 1][..i] == order[..i];
  }

  lemma LoadsAfter(shards: seq<seq<File>>, w: File -> real, k: nat, path: File)
    requires k < |shards|
    ensures Loads(shards[k := shards[k] + [path]], w)
         == Loads(shards, w)[k := Loads(shards, w)[k] + w(path)]
  {
    assert (shards[k] + [path])[..|shards[k]|] == shards[k];
  }

  /** `split`: the loads it tracks are the true shard sums at every step. */
  method Split(files: seq<File>, count: nat, timings: map<string, real>, found: File -> nat)
    returns (result: seq<seq<File>>)
    requires count >= 1
    ensures result == SplitOf(files, count, Weight(files, timings, found))
    ensures WeighsRight(files, timings, found, Weight(files, timings, found))
  {
    var weight := Weight(files, timings, found);
    var order := Sorted(files, Order(weight));
    var shards: seq<seq<File>> := seq(count, _ => []);
    var loads: seq<real> := seq(count, _ => 0.0);
    assert loads == Loads(shards, weight);
    for i := 0 to |order|
      invariant shards == Deal(order[..i], weight, count)
      invariant loads == Loads(shards, weight)
    {
      var path := order[i];
      var lightest := Lightest(loads);
      DealNext(order, weight, count, i);
      LoadsAfter(shards, weight, lightest, path);
      shards := shards[lightest := shards[lightest] + [path]];
      loads := loads[lightest := loads[lightest] + weight(path)];
    }
    assert order[..|order|] == order;
    result := seq(count, k requires 0 <= k < count => Sorted(shards[k], PartsLe));
    WeightsAreRight(files, timings, found);
  }

  /** `main`: prints the files of the one shard asked for, by its 1-based index. */
  method Select(count: int, index: int, files: seq<File>, timings: map<string, real>, found: File -> nat)
    returns (r: Exit)
    ensures r == Job(count, index, files, Weight(files, timings, found))
    ensures r == if index < 1 || count < index then UsageError
                 else Printed(SplitOf(files, count, Weight(files, timings, found))[index - 1])
  {
    if !(1 <= index <= count) {
      return UsageError;
    }
    var shards := Split(files, count, timings, found);
    return Printed(shards[index - 1]);
  }

  function Job(count: int, index: int, files: seq<File>, w: File -> real): Exit {
    if 1 <= index <= count then Printed(SplitOf(files, count, w)[index - 1]) else UsageError
  }

  // ---- the shards partition the files, whatever order they come in ---------

  lemma OrderIsTotal(w: File -> real)
    ensures TotalPreorder(Order(w))
  {
    StringOrder();
    forall a: File, b: File, c: File
      ensures Before(w, a, b) || Before(w, b, a)
      ensures Before(w, a, b) && Before(w, b, c) ==> Before(w, a, c)
    {
      assert Triple(Posix(a), Posix(b), Posix(c));
    }
  }

  lemma {:induction false} DealPartitions(order: seq<File>, w: File -> real, m: nat)
    requires m >= 1
    ensures multiset(Flatten(Deal(order, w, m))) == multiset(order)
  {
    if order == [] {
      FlattenEmpty(Deal(order, w, m));
    } else {
      var front := order[..|order| - 1];
      var shards := Deal(front, w, m);
      DealPartitions(front, w, m);
      FlattenUpdate(shards, Lightest(Loads(shards, w)), order[|order| - 1]);
      assert order == front + [order[|order| - 1]];
    }
  }

  /** No file is lost or run twice, and every shard is listed in path order. */
  lemma SplitPartitions(files: seq<File>, m: nat, w: File -> real)
    requires m >= 1
    ensures multiset(Flatten(SplitOf(files, m, w))) == multiset(files)
    ensures forall k :: 0 <= k < m ==> SortedBy(SplitOf(files, m, w)[k], PartsLe)
  {
    OrderIsTotal(w);
    PartsOrder();
    var order := Sorted(files, Order(w));
    SortedSorts(files, Order(w));
    var dealt := Deal(order, w, m);
    DealPartitions(order, w, m);
    forall k | 0 <= k < m
      ensures multiset(SplitOf(files, m, w)[k]) == multiset(dealt[k])
      ensures SortedBy(SplitOf(files, m, w)[k], PartsLe)
    {
      SortedSorts(dealt[k], PartsLe);
    }
    FlattenPointwise(SplitOf(files, m, w), dealt);
  }

  function Jobs(count: nat, files: seq<File>, w: File -> real): seq<seq<File>>
    requires count >= 1
  {
    seq(count, i requires 0 <= i < count => Job(count, i + 1, files, w).files)
  }

  /** The CI jobs 1..count together print each discovered file exactly once. */
  lemma {:induction false} JobsRunEachFileOnce(count: nat, files: seq<File>, w: File -> real, f: File)
    requires count >= 1 && Distinct(files)
    ensures forall i :: 1 <= i <= count ==> Job(count, i, files, w).Printed?
    ensures multiset(Flatten(Jobs(count, files, w)))[f] == if f in files then 1 else 0
  {
    assert Jobs(count, files, w) == SplitOf(files, count, w);
    SplitPartitions(files, count, w);
    DistinctOnce(files, f);
  }

  lemma {:induction false} DistinctOnce(files: seq<File>, f: File)
    requires Distinct(files)
    ensures multiset(files)[f] == if f in files then 1 else 0
  {
    if files != [] {
      var front := files[..|files| - 1];
      DistinctOnce(front, f);
      assert files == front + [files[|files| - 1]];
      assert forall i :: 0 <= i < |front| ==> Posix(files[i]) != Posix(files[|files| - 1]);
    }
  }

  lemma {:induction false} TimedSum(files: seq<File>, timings: map<string, real>, g: File -> real)
    ensures SumBy(Timed(files, timings), g)
         == SumBy(files, (f: File) => if Posix(f) in timings then g(f) else 0.0)
  {
    if files != [] {
      var n := |files| - 1;
      TimedSum(files[..n], timings, g);
      var tail := if Posix(files[n]) in timings then [files[n]] else [];
      SumConcat(Timed(files[..n], timings), tail, g);
      assert tail != [] ==> tail[..0] == [];
    }
  }

  /** The recorded rate is one number for the set of files, not for their listing order. */
  lemma RatePermutation(a: seq<File>, b: seq<File>, timings: map<string, real>, found: File -> nat)
    requires multiset(a) == multiset(b)
    ensures PerTest(a, timings, found) == PerTest(b, timings, found)
  {
    TimedSum(a, timings, Seconds(timings));
    TimedSum(b, timings, Seconds(timings));
    TimedSum(a, timings, Tests(found));
    TimedSum(b, timings, Tests(found));
    SumPermutation(a, b, (f: File) => if Posix(f) in timings then Seconds(timings)(f) else 0.0);
    SumPermutation(a, b, (f: File) => if Posix(f) in timings then Tests(found)(f) else 0.0);
  }

  lemma SamePlace(files: seq<File>, i: nat, j: nat)
    requires Distinct(files) && i < |files| && j < |files|
    requires Posix(files[i]) == Posix(files[j])
    ensures i == j
  {
  }

  lemma NoFileTies(files: seq<File>, w: File -> real)
    requires Distinct(files)
    ensures NoTies(multiset(files), Order(w))
  {
    StringOrder();
    forall a, b | a in multiset(files) && b in multiset(files) && Before(w, a, b) && Before(w, b, a)
      ensures a == b
    {
      assert Triple(Posix(a), Posix(b), Posix(a));
      assert Posix(a) == Posix(b);
      var i :| 0 <= i < |files| && files[i] == a;
      var j :| 0 <= j < |files| && files[j] == b;
      SamePlace(files, i, j);
    }
  }

  /** The split does not depend on the order in which the files are listed. */
  lemma SplitPermutation(a: seq<File>, b: seq<File>, m: nat, timings: map<string, real>, found: File -> nat)
    requires m >= 1 && Distinct(a) && multiset(a) == multiset(b)
    ensures SplitOf(a, m, Weight(a, timings, found)) == SplitOf(b, m, Weight(b, timings, found))
  {
    var w := Weight(a, timings, found);
    RatePermutation(a, b, timings, found);
    assert w == Weight(b, timings, found);
    OrderIsTotal(w);
    SortedSorts(a, Order(w));
    SortedSorts(b, Order(w));
    NoFileTies(a, w);
    SortedUnique(Sorted(a, Order(w)), Sorted(b, Order(w)), Order(w));
  }

  // ---- Graham's bound -------------------------------------------------------

  function MaxLoad(shards: seq<seq<File>>, w: File -> real): (top: real)
    requires shards != []
    ensures forall k :: 0 <= k < |shards| ==> SumBy(shards[k], w) <= top
    ensures exists k :: 0 <= k < |shards| && SumBy(shards[k], w) == top
  {
    var load := SumBy(shards[|shards| - 1], w);
    if |shards| == 1 then load
    else
      var rest := MaxLoad(shards[..|shards| - 1], w);
      assert forall k :: 0 <= k < |shards| - 1 ==> shards[..|shards| - 1][k] == shards[k];
      if rest < load then load else rest
  }

  /** What a file of weight `x` costs a shard once a file of weight `small` is still to
      come and no shard may exceed `top`: nothing if it is lighter, both places if the
      two do not fit together, one place otherwise. */
  function Chip(x: real, small: real, top: real): real {
    if x < small then 0.0 else if x + small <= top then 1.0 else 2.0
  }

  function Chips(w: File -> real, small: real, top: real): File -> real {
    (f: File) => Chip(w(f), small, top)
  }

  /** A shard within `top` pays for at most two places when `small` exceeds a third of it. */
  lemma {:induction false} FeasibleShardChips(shard: seq<File>, w: File -> real, small: real, top: real)
    requires forall f :: f in shard ==> w(f) >= 0.0
    requires 0.0 <= small <= top < 3.0 * small
    ensures var load, chips := SumBy(shard, w), SumBy(shard, Chips(w, small, top));
            || (chips == 0.0 && load >= 0.0)
            || (chips == 1.0 && load >= small)
            || (chips == 2.0 && (load >= 2.0 * small || load > top - small))
            || load > top
  {
    if shard != [] {
      FeasibleShardChips(shard[..|shard| - 1], w, small, top);
    }
  }

  lemma {:induction false} HeavyShardChips(shard: seq<File>, w: File -> real, small: real, top: real)
    requires forall f :: f in shard ==> w(f) >= small
    ensures SumBy(shard, Chips(w, small, top)) >= |shard| as real
  {
    if shard != [] {
      HeavyShardChips(shard[..|shard| - 1], w, small, top);
    }
  }

  /** A shard that cannot take another file of weight `small` pays for both places. */
  lemma FullShardChips(shard: seq<File>, w: File -> real, small: real, top: real)
    requires forall f :: f in shard ==> w(f) >= small
    requires SumBy(shard, w) + small > top >= small
    ensures SumBy(shard, Chips(w, small, top)) >= 2.0
  {
    HeavyShardChips(shard, w, small, top);
    if |shard| == 1 {
      assert shard[..0] == [];
    }
  }

  ghost predicate Assignment(alt: seq<seq<File>>, files: seq<File>, m: nat) {
    |alt| == m && multiset(Flatten(alt)) == multiset(files)
  }

  lemma {:induction false} InSomeShard(nested: seq<seq<File>>, f: File) returns (k: nat)
    requires f in Flatten(nested)
    ensures k < |nested| && f in nested[k]
  {
    if f in nested[|nested| - 1] {
      k := |nested| - 1;
    } else {
      k := InSomeShard(nested[..|nested| - 1], f);
    }
  }

  lemma OneFileFits(alt: seq<seq<File>>, files: seq<File>, w: File -> real, m: nat, top: real, f: File)
    requires Assignment(alt, files, m) && f in files
    requires forall g :: g in files ==> w(g) >= 0.0
    requires forall k :: 0 <= k < m ==> SumBy(alt[k], w) <= top
    ensures w(f) <= top
  {
    assert f in multiset(files);
    var k := InSomeShard(alt, f);
    var i :| 0 <= i < |alt[k]| && alt[k][i] == f;
    SumRemove(alt[k], i, w);
    forall g | g in alt[k][..i] + alt[k][i + 1..] ensures w(g) >= 0.0 {
      InFlatten(alt, k, g);
      assert g in multiset(files);
    }
    SumNonNegative(alt[k][..i] + alt[k][i + 1..], w);
  }

  lemma {:induction false} InFlatten(nested: seq<seq<File>>, k: nat, f: File)
    requires k < |nested| && f in nested[k]
    ensures f in Flatten(nested)
  {
    if k < |nested| - 1 {
      InFlatten(nested[..|nested| - 1], k, f);
    }
  }

  lemma ShardFilesKnown(alt: seq<seq<File>>, files: seq<File>, m: nat, k: nat, f: File)
    requires Assignment(alt, files, m) && k < m && f in alt[k]
    ensures f in files
  {
    InFlatten(alt, k, f);
    assert f in multiset(files);
  }

  /** The part of `order` up to and including `j` sums to at most the whole. */
  lemma PrefixSum(order: seq<File>, f: File -> real, j: nat)
    requires j < |order|
    requires forall x :: x in order ==> f(x) >= 0.0
    ensures SumBy(order[..j], f) + f(order[j]) <= SumBy(order, f)
  {
    assert order == (order[..j] + [order[j]]) + order[j + 1..];
    SumConcat(order[..j] + [order[j]], order[j + 1..], f);
    assert (order[..j] + [order[j]])[..j] == order[..j];
    SumNonNegative(order[j + 1..], f);
  }

  /** Once the file to deal weighs over a third of `top`, the lightest shard can take it. */
  lemma HeavyFileFits(order: seq<File>, w: File -> real, m: nat, alt: seq<seq<File>>, top: real, j: nat)
    requires m >= 1 && j < |order|
    requires forall f :: f in order ==> w(f) >= 0.0
    requires forall i :: 0 <= i < j ==> w(order[i]) >= w(order[j])
    requires Assignment(alt, order, m)
    requires forall k :: 0 <= k < m ==> SumBy(alt[k], w) <= top
    requires 3.0 * w(order[j]) > top
    ensures var loads := Loads(Deal(order[..j], w, m), w);
            loads[Lightest(loads)] + w(order[j]) <= top
  {
    var dealt, small := Deal(order[..j], w, m), w(order[j]);
    var loads, chips := Loads(dealt, w), Chips(w, small, top);
    OneFileFits(alt, order, w, m, top, order[j]);
    assert chips(order[j]) >= 1.0;
    if loads[Lightest(loads)] + small > top {
      DealPartitions(order[..j], w, m);
      forall k | 0 <= k < m ensures SumBy(dealt[k], chips) >= 2.0 {
        forall f | f in dealt[k] ensures w(f) >= small {
          ShardFilesKnown(dealt, order[..j], m, k, f);
        }
        assert loads[k] == SumBy(dealt[k], w);
        FullShardChips(dealt[k], w, small, top);
      }
      FlattenSumAtLeast(dealt, chips, 2.0);
      forall k | 0 <= k < m ensures SumBy(alt[k], chips) <= 2.0 {
        forall f | f in alt[k] ensures w(f) >= 0.0 { ShardFilesKnown(alt, order, m, k, f); }
        FeasibleShardChips(alt[k], w, small, top);
      }
      FlattenSumAtMost(alt, chips, 2.0);
      SumPermutation(Flatten(dealt), order[..j], chips);
      SumPermutation(Flatten(alt), order, chips);
      PrefixSum(order, chips, j);
      assert false;
    }
  }

  /** Graham's factor for `m` shards, times `top`. */
  function Bound(m: nat, top: real): real
    requires m >= 1
  {
    (4.0 / 3.0 - 1.0 / (3.0 * m as real)) * top
  }

  lemma BoundScaled(m: nat, top: real)
    requires m >= 1
    ensures 3.0 * m as real * Bound(m, top) == (4.0 * m as real - 1.0) * top
  {
    var n := m as real;
    var r := 1.0 / (3.0 * n);
    assert r * (3.0 * n) == 1.0;
    assert 3.0 * n * ((4.0 / 3.0 - r) * top) == (4.0 * n - r * (3.0 * n)) * top;
  }

  lemma LightStep(m: nat, low: real, x: real, top: real)
    requires m >= 1 && 0.0 <= 3.0 * x <= top
    requires m as real * low + x <= m as real * top
    ensures low + x <= Bound(m, top)
  {
    var n := m as real;
    BoundScaled(m, top);
    assert (n - 1.0) * (3.0 * x) <= (n - 1.0) * top;
    assert 3.0 * n * (low + x) == 3.0 * (n * low + x) + (n - 1.0) * (3.0 * x);
    assert (4.0 * n - 1.0) * top == 3.0 * (n * top) + (n - 1.0) * top;
    if low + x > Bound(m, top) {
      ScaleStrict(3.0 * n, Bound(m, top), low + x);
      assert false;
    }
  }

  lemma HeavyStep(m: nat, load: real, top: real)
    requires m >= 1 && 0.0 <= top && load <= top
    ensures load <= Bound(m, top)
  {
    var n := m as real;
    BoundScaled(m, top);
    assert (4.0 * n - 1.0) * top == 3.0 * n * top + (n - 1.0) * top;
    assert (n - 1.0) * top >= 0.0;
    if top > Bound(m, top) {
      ScaleStrict(3.0 * n, Bound(m, top), top);
      assert false;
    }
  }

  lemma ScaleStrict(c: real, a: real, b: real)
    requires c > 0.0 && a < b
    ensures c * a < c * b
  {
  }

  /** Whatever its weight, the next file leaves the lightest shard within the bound. */
  lemma {:induction false} NextFileBound(order: seq<File>, w: File -> real, m: nat, alt: seq<seq<File>>, top: real,
                                         j: nat)
    requires m >= 1 && j < |order|
    requires forall f :: f in order ==> w(f) >= 0.0
    requires forall i :: 0 <= i < j ==> w(order[i]) >= w(order[j])
    requires Assignment(alt, order, m)
    requires forall k :: 0 <= k < m ==> SumBy(alt[k], w) <= top
    ensures var loads := Loads(Deal(order[..j], w, m), w);
            loads[Lightest(loads)] + w(order[j]) <= Bound(m, top)
  {
    var dealt, x := Deal(order[..j], w, m), w(order[j]);
    var loads := Loads(dealt, w);
    var low := loads[Lightest(loads)];
    OneFileFits(alt, order, w, m, top, order[j]);
    if 3.0 * x > top {
      HeavyFileFits(order, w, m, alt, top, j);
      HeavyStep(m, low + x, top);
    } else {
      DealPartitions(order[..j], w, m);
      forall k | 0 <= k < m ensures SumBy(dealt[k], w) >= low { assert loads[k] == SumBy(dealt[k], w); }
      FlattenSumAtLeast(dealt, w, low);
      FlattenSumAtMost(alt, w, top);
      TimesIsProduct(m, low);
      TimesIsProduct(m, top);
      SumPermutation(Flatten(dealt), order[..j], w);
      SumPermutation(Flatten(alt), order, w);
      PrefixSum(order, w, j);
      LightStep(m, low, x, top);
    }
  }

  lemma {:induction false} DealBound(order: seq<File>, w: File -> real, m: nat, alt: seq<seq<File>>, top: real, j: nat)
    requires m >= 1 && j <= |order|
    requires forall f :: f in order ==> w(f) >= 0.0
    requires forall i, i' :: 0 <= i < i' < |order| ==> w(order[i]) >= w(order[i'])
    requires Assignment(alt, order, m)
    requires forall k :: 0 <= k < m ==> SumBy(alt[k], w) <= top
    ensures forall k :: 0 <= k < m ==> SumBy(Deal(order[..j], w, m)[k], w) <= Bound(m, top)
  {
    if j == 0 {
      forall f | f in alt[0] ensures w(f) >= 0.0 { ShardFilesKnown(alt, order, m, 0, f); }
      SumNonNegative(alt[0], w);
      HeavyStep(m, 0.0, top);
    } else {
      DealBound(order, w, m, alt, top, j - 1);
      NextFileBound(order, w, m, alt, top, j - 1);
      assert order[..j][..j - 1] == order[..j - 1];
      var shards := Deal(order[..j - 1], w, m);
      var k := Lightest(Loads(shards, w));
      assert (shards[k] + [order[j - 1]])[..|shards[k]|] == shards[k];
    }
  }

  lemma DealOrder(files: seq<File>, w: File -> real)
    ensures var order := Sorted(files, Order(w));
            && multiset(order) == multiset(files)
            && forall i, i' :: 0 <= i < i' < |order| ==> w(order[i]) >= w(order[i'])
  {
    var order := Sorted(files, Order(w));
    OrderIsTotal(w);
    SortedSorts(files, Order(w));
    forall i, i' | 0 <= i < i' < |order| ensures w(order[i]) >= w(order[i']) {
      assert Order(w)(order[i], order[i']);
    }
  }

  lemma ShardLoadUnsorted(files: seq<File>, w: File -> real, m: nat, k: nat)
    requires k < m
    ensures SumBy(SplitOf(files, m, w)[k], w) == SumBy(Deal(Sorted(files, Order(w)), w, m)[k], w)
  {
    PartsOrder();
    var dealt := Deal(Sorted(files, Order(w)), w, m);
    SortedSorts(dealt[k], PartsLe);
    SumPermutation(SplitOf(files, m, w)[k], dealt[k], w);
  }

  lemma {:induction false} Heaviest(shards: seq<seq<File>>, w: File -> real) returns (k: nat)
    requires shards != []
    ensures k < |shards| && SumBy(shards[k], w) == MaxLoad(shards, w)
  {
    k :| 0 <= k < |shards| && SumBy(shards[k], w) == MaxLoad(shards, w);
  }

  lemma SplitShardBound(files: seq<File>, w: File -> real, m: nat, alt: seq<seq<File>>, top: real, k: nat)
    requires k < m
    requires forall f :: f in files ==> w(f) >= 0.0
    requires Assignment(alt, files, m)
    requires forall i :: 0 <= i < m ==> SumBy(alt[i], w) <= top
    ensures SumBy(SplitOf(files, m, w)[k], w) <= Bound(m, top)
  {
    var order := Sorted(files, Order(w));
    DealOrder(files, w);
    assert forall f :: f in order ==> f in multiset(files);
    DealBound(order, w, m, alt, top, |order|);
    assert order[..|order|] == order;
    ShardLoadUnsorted(files, w, m, k);
  }

  /** Graham's bound: against every assignment of the same files to as many shards, the
      heaviest shard of `split` is at most (4/3 - 1/(3m)) times as heavy. */
  lemma {:induction false} LongestFirstBound(files: seq<File>, w: File -> real, m: nat, alt: seq<seq<File>>)
    requires m >= 1
    requires forall f :: f in files ==> w(f) >= 0.0
    requires Assignment(alt, files, m)
    ensures MaxLoad(SplitOf(files, m, w), w) <= Bound(m, MaxLoad(alt, w))
  {
    var k := Heaviest(SplitOf(files, m, w), w);
    SplitShardBound(files, w, m, alt, MaxLoad(alt, w), k);
  }

  // ---- the script's own example ------------------------------------------------------------

  lemma SumOne(f: File, w: File -> real)
    ensures SumBy([f], w) == w(f)
  {
    assert [f][..0] == [];
  }

  lemma InOrder(a: File, b: File, c: File, w: File -> real)
    requires w(a) > w(b) > w(c)
    ensures Sorted([a, b, c], Order(w)) == [a, b, c]
  {
    assert [a, b, c][..2] == [a, b] && [a, b][..1] == [a] && [a][..0] == [];
    assert Sorted([a], Order(w)) == [a];
    assert Sorted([a, b], Order(w)) == [a, b];
  }

  /** Two shards: the next file goes to the first if it is no heavier than the second. */
  lemma DealsTo(front: seq<File>, f: File, w: File -> real, a: seq<File>, b: seq<File>)
    requires Deal(front, w, 2) == [a, b]
    ensures Deal(front + [f], w, 2) == if SumBy(a, w) <= SumBy(b, w) then [a + [f], b] else [a, b + [f]]
  {
    var shards := [a, b];
    assert (front + [f])[..|front|] == front;
    assert Loads(shards, w) == [SumBy(a, w), SumBy(b, w)];
    assert Lightest(Loads(shards, w)) == if SumBy(a, w) <= SumBy(b, w) then 0 else 1;
    assert shards[0 := a + [f]] == [a + [f], b] && shards[1 := b + [f]] == [a, b + [f]];
  }

  /** Three files of 10, 6 and 5 seconds on two shards: the heavy one alone, the others together. */
  lemma {:induction false} SelfTest(a: File, b: File, c: File, w: File -> real)
    requires w(a) == 10.0 && w(b) == 6.0 && w(c) == 5.0
    ensures SplitOf([a, b, c], 2, w) == [[a], Sorted([b, c], PartsLe)]
  {
    InOrder(a, b, c, w);
    SumOne(a, w);
    SumOne(b, w);
    assert Deal([], w, 2) == [[], []];
    DealsTo([], a, w, [], []);
    assert [] + [a] == [a];
    DealsTo([a], b, w, [a], []);
    assert [a] + [b] == [a, b] && [] + [b] == [b];
    DealsTo([a, b], c, w, [a], [b]);
    assert [a, b] + [c] == [a, b, c] && [b] + [c] == [b, c];
    assert Sorted([a], PartsLe) == [a] by { assert [a][..0] == []; }
  }
}
