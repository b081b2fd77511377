/**
 * How the ROOT-to-graph conversion splits its entries between workers:
 * the first min(nb_datapoints, num_entries) entries are cut into consecutive
 * half-open slices of ceil(total / n_workers) entries, one per worker that
 * gets any, and the workers' results are concatenated in slice order.
 */
module WorkSlices {
  import opened Wrappers

  /** A half-open range [start, stop) of entries. */
  type Slice = (int, int)

  function Min(a: int, b: int): int {
    if a <= b then a else b
  }

  /** `math.ceil(a / b)` for b > 0, in exact integer arithmetic. */
  function Ceil(a: nat, b: nat): (r: nat)
    requires b > 0
    ensures r * b >= a && (r == 0 || (r - 1) * b < a)
  {
    var q := a / b;
    assert a == q * b + a % b;
    if a % b == 0 then q else
      assert (q + 1) * b == q * b + b;
      q + 1
  }

  /** `n_workers or min(os.cpu_count(), nb_datapoints)`: None and 0 are falsy. */
  function WorkerCount(nWorkers: Option<int>, cpuCount: nat, nbDatapoints: nat): (r: int)
    ensures (nWorkers.None? || nWorkers.value == 0) ==> r == Min(cpuCount, nbDatapoints)
    ensures nWorkers.Some? && nWorkers.value != 0 ==> r == nWorkers.value
  {
    if nWorkers.Some? && nWorkers.value != 0 then nWorkers.value else Min(cpuCount, nbDatapoints)
  }

  /** The slices the loop `for w in range(k)` emits. */
  function Emitted(chunk: nat, total: nat, k: nat): seq<Slice>
    decreases k
  {
    if k == 0 then []
    else
      var w := k - 1;
      var start := w * chunk;
      var stop := Min((w + 1) * chunk, total);
      Emitted(chunk, total, w) + (if start < stop then [(start, stop)] else [])
  }

  lemma MulMonotone(a: nat, b: nat, c: nat)
    requires a <= b
    ensures a * c <= b * c
  {
  }

  /**
   * The emitted slices are those of the workers w whose start w * chunk lies
   * before total, which are the first ones, and worker i's slice is
   * [i * chunk, min((i + 1) * chunk, total)).
   */
  lemma {:induction false} EmittedForm(chunk: nat, total: nat, k: nat)
    requires chunk > 0 || total == 0
    ensures var s := Emitted(chunk, total, k);
      |s| <= k &&
      (forall w :: 0 <= w < k ==> (w < |s| <==> w * chunk < total)) &&
      (forall i :: 0 <= i < |s| ==> s[i] == (i * chunk, Min((i + 1) * chunk, total)))
    decreases k
  {
    if k > 0 {
      var w := k - 1;
      EmittedForm(chunk, total, w);
      var s := Emitted(chunk, total, w);
      if w * chunk < total {
        forall v | 0 <= v < w ensures v * chunk < total {
          MulMonotone(v, w, chunk);
        }
        assert |s| == w;
        assert chunk > 0;
        assert (w + 1) * chunk == w * chunk + chunk;
      } else {
        assert !(w * chunk < Min((w + 1) * chunk, total));
      }
    }
  }

  /** The slices for total entries and n workers: the loop run with chunk = ceil(total / n). */
  function SliceSpec(total: nat, n: nat): (r: seq<Slice>)
    requires n > 0
    ensures |r| <= n
    ensures forall i :: 0 <= i < |r| ==> r[i] == (i * Ceil(total, n), Min((i + 1) * Ceil(total, n), total))
  {
    EmittedForm(Ceil(total, n), total, n);
    Emitted(Ceil(total, n), total, n)
  }

  /**
   * The slices are non-empty, at most chunk long, at most one per worker,
   * start at 0, follow each other without gap or overlap, and end at total;
   * there are none exactly when total is 0.
   */
  lemma SlicesPartition(total: nat, n: nat)
    requires n > 0
    ensures var chunk := Ceil(total, n);
      var s := SliceSpec(total, n);
      |s| <= n &&
      (forall i :: 0 <= i < |s| ==> 0 <= s[i].0 < s[i].1 <= total && s[i].1 - s[i].0 <= chunk) &&
      (|s| == 0 <==> total == 0) &&
      (|s| > 0 ==> s[0].0 == 0 && s[|s| - 1].1 == total) &&
      (forall i :: 0 <= i < |s| - 1 ==> s[i].1 == s[i + 1].0)
  {
    var chunk := Ceil(total, n);
    var s := SliceSpec(total, n);
    EmittedForm(chunk, total, n);
    forall i | 0 <= i < |s| ensures 0 <= s[i].0 < s[i].1 <= total && s[i].1 - s[i].0 <= chunk {
      assert (i + 1) * chunk == i * chunk + chunk;
    }
    forall i | 0 <= i < |s| - 1 ensures s[i].1 == s[i + 1].0 {
      assert (i + 1) * chunk < total;
    }
    if total > 0 {
      assert chunk > 0;
      assert 0 * chunk < total;
      var last := |s| - 1;
      assert s[last].1 == total by {
        if |s| < n {
          assert !(|s| * chunk < total);
        } else {
          assert |s| == n && n * chunk >= total;
        }
        assert (last + 1) * chunk >= total;
      }
    } else {
      assert 0 * chunk == 0;
    }
  }

  /** Slices further along start no earlier than the ones before them end. */
  lemma SlicesDisjoint(total: nat, n: nat)
    requires n > 0
    ensures var s := SliceSpec(total, n);
      forall i, j :: 0 <= i < j < |s| ==> s[i].1 <= s[j].0
  {
    var chunk := Ceil(total, n);
    var s := SliceSpec(total, n);
    EmittedForm(chunk, total, n);
    forall i, j | 0 <= i < j < |s| ensures s[i].1 <= s[j].0 {
      MulMonotone(i + 1, j, chunk);
    }
  }

  /** x lies in the chunk numbered x / chunk. */
  lemma DivBounds(x: nat, chunk: nat)
    requires chunk > 0
    ensures (x / chunk) * chunk <= x < (x / chunk + 1) * chunk
  {
    var i := x / chunk;
    assert x == i * chunk + x % chunk;
    assert (i + 1) * chunk == i * chunk + chunk;
  }

  /** A chunk that starts below b * chunk is numbered below b. */
  lemma BelowBound(i: nat, b: nat, chunk: nat)
    requires i * chunk < b * chunk
    ensures i < b
  {
    if i >= b {
      MulMonotone(b, i, chunk);
    }
  }

  /** The slice that holds entry x below total. */
  lemma SliceOf(total: nat, n: nat, x: nat) returns (i: nat)
    requires n > 0 && x < total
    ensures var s := SliceSpec(total, n);
      i < |s| && s[i].0 <= x < s[i].1
  {
    var chunk := Ceil(total, n);
    var s := SliceSpec(total, n);
    i := x / chunk;
    DivBounds(x, chunk);
    assert i * chunk < n * chunk;
    BelowBound(i, n, chunk);
    EmittedForm(chunk, total, n);
    assert i < |s|;
  }

  /** An entry lies in some slice exactly when it is below total. */
  lemma SlicesCover(total: nat, n: nat, x: int)
    requires n > 0
    ensures var s := SliceSpec(total, n);
      0 <= x < total <==> exists i :: 0 <= i < |s| && s[i].0 <= x < s[i].1
  {
    SlicesPartition(total, n);
    if 0 <= x < total {
      var i := SliceOf(total, n, x);
    }
  }

  /** `process_in_parallel` up to the pool: its slices, or the exception it raises. */
  function ProcessSlices(nbDatapoints: nat, numEntries: nat, nWorkers: Option<int>, cpuCount: nat)
    : (r: Result<seq<Slice>, Error>)
    ensures r.Failure? <==> WorkerCount(nWorkers, cpuCount, nbDatapoints) <= 0
    ensures WorkerCount(nWorkers, cpuCount, nbDatapoints) == 0 ==> r == Failure(DivisionByZero)
    ensures WorkerCount(nWorkers, cpuCount, nbDatapoints) < 0 ==> r == Failure(InvalidValue("max_workers"))
    ensures WorkerCount(nWorkers, cpuCount, nbDatapoints) > 0 ==>
      r == Success(SliceSpec(Min(nbDatapoints, numEntries), WorkerCount(nWorkers, cpuCount, nbDatapoints)))
  {
    var total := Min(nbDatapoints, numEntries);
    var n := WorkerCount(nWorkers, cpuCount, nbDatapoints);
    if n == 0 then Failure(DivisionByZero)
    else if n < 0 then Failure(InvalidValue("max_workers"))
    else Success(SliceSpec(total, n))
  }

  /** The loop that fills args_list. */
  method ComputeSlices(total: nat, n: nat) returns (slices: seq<Slice>)
    requires n > 0
    ensures slices == SliceSpec(total, n)
  {
    var chunk := Ceil(total, n);
    slices := [];
    for w := 0 to n
      invariant slices == Emitted(chunk, total, w)
    {
      var start := w * chunk;
      var stop := Min((w + 1) * chunk, total);
      if start < stop {
        slices := slices + [(start, stop)];
      }
    }
  }

  /** The lists of the slices' results, one after the other. */
  function Flatten<T>(parts: seq<seq<T>>): (r: seq<T>)
    decreases |parts|
  {
    if |parts| == 0 then [] else Flatten(parts[..|parts| - 1]) + parts[|parts| - 1]
  }

  /** Concatenation is a homomorphism: flattening in two halves gives the same list. */
  lemma {:induction false} FlattenAppend<T>(a: seq<seq<T>>, b: seq<seq<T>>)
    ensures Flatten(a + b) == Flatten(a) + Flatten(b)
    decreases |b|
  {
    if |b| == 0 {
      assert a + b == a;
    } else {
      assert (a + b)[..|a + b| - 1] == a + b[..|b| - 1];
      FlattenAppend(a, b[..|b| - 1]);
    }
  }

  /** The result of slice i starts where the results of the slices before it end. */
  lemma {:induction false} FlattenPosition<T>(parts: seq<seq<T>>, i: nat)
    requires i < |parts|
    ensures var before := |Flatten(parts[..i])|;
      before + |parts[i]| <= |Flatten(parts)| &&
      Flatten(parts)[before..before + |parts[i]|] == parts[i]
  {
    assert parts == parts[..i] + [parts[i]] + parts[i + 1..];
    FlattenAppend(parts[..i] + [parts[i]], parts[i + 1..]);
    FlattenAppend(parts[..i], [parts[i]]);
    assert Flatten([parts[i]]) == parts[i] by {
      assert [parts[i]][..0] == [];
    }
  }

  /** The three `extend` loops over the results in slice order. */
  method ConcatResults<A, B, C>(results: seq<(seq<A>, seq<B>, seq<C>)>)
    returns (data: seq<A>, pos: seq<B>, meta: seq<C>)
    ensures data == Flatten(seq(|results|, i requires 0 <= i < |results| => results[i].0))
    ensures pos == Flatten(seq(|results|, i requires 0 <= i < |results| => results[i].1))
    ensures meta == Flatten(seq(|results|, i requires 0 <= i < |results| => results[i].2))
  {
    data, pos, meta := [], [], [];
    for k := 0 to |results|
      invariant data == Flatten(seq(k, i requires 0 <= i < k => results[i].0))
      invariant pos == Flatten(seq(k, i requires 0 <= i < k => results[i].1))
      invariant meta == Flatten(seq(k, i requires 0 <= i < k => results[i].2))
    {
      assert seq(k + 1, i requires 0 <= i < k + 1 => results[i].0)[..k] == seq(k, i requires 0 <= i < k => results[i].0);
      assert seq(k + 1, i requires 0 <= i < k + 1 => results[i].1)[..k] == seq(k, i requires 0 <= i < k => results[i].1);
      assert seq(k + 1, i requires 0 <= i < k + 1 => results[i].2)[..k] == seq(k, i requires 0 <= i < k => results[i].2);
      data := data + results[k].0;
      pos := pos + results[k].1;
      meta := meta + results[k].2;
    }
  }
}
