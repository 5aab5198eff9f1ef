// The metric ring buffers: appends that keep one sample per second and the last
// 9000 of them, and the streaming bucket aggregation. Times are Unix seconds.
module MetricHistory {
  import opened Text

  datatype Sample = Sample(t: int, v: real)

  const CAPACITY := 9000

  function LastN<T>(s: seq<T>, n: nat): seq<T> {
    if |s| <= n then s else s[|s| - n..]
  }

  // The series after one more write: a write within the last sample's second
  // replaces it.
  function Written(s: seq<Sample>, p: Sample): seq<Sample> {
    if s != [] && s[|s| - 1].t == p.t then s[..|s| - 1] + [p] else s + [p]
  }

  // The last-write-per-second series of a whole run of writes.
  function Series(log: seq<Sample>): seq<Sample> {
    if log == [] then [] else Written(Series(log[..|log| - 1]), log[|log| - 1])
  }

  // A series after further writes.
  function WrittenAll(s: seq<Sample>, log: seq<Sample>): seq<Sample> {
    if log == [] then s else Written(WrittenAll(s, log[..|log| - 1]), log[|log| - 1])
  }

  predicate Increasing(s: seq<Sample>) {
    forall i, j :: 0 <= i < j < |s| ==> s[i].t < s[j].t
  }

  predicate InOrder(log: seq<Sample>) {
    forall i, j :: 0 <= i < j < |log| ==> log[i].t <= log[j].t
  }

  // sample p is the last write of its second.
  predicate LastWrite(log: seq<Sample>, p: Sample) {
    exists i :: 0 <= i < |log| && log[i] == p && forall j :: i < j < |log| ==> log[j].t != p.t
  }

  lemma {:induction false} SeriesIncreasing(log: seq<Sample>)
    requires InOrder(log)
    ensures Increasing(Series(log)) && |Series(log)| <= |log|
    ensures log != [] ==> Series(log) != [] && Series(log)[|Series(log)| - 1] == log[|log| - 1]
  {
    if log != [] {
      var n := |log| - 1;
      SeriesIncreasing(log[..n]);
      var s := Series(log[..n]);
      assert n > 0 ==> s[|s| - 1] == log[n - 1];
      assert n == 0 ==> s == [];
      WrittenIncreasing(s, log[n]);
      hide Written;
      hide Increasing;
    }
  }

  lemma WrittenIncreasing(s: seq<Sample>, p: Sample)
    requires Increasing(s) && (s != [] ==> s[|s| - 1].t <= p.t)
    ensures var r := Written(s, p);
            Increasing(r) && r != [] && r[|r| - 1] == p && |r| <= |s| + 1
  {}

  lemma SeriesBelow(log: seq<Sample>)
    requires InOrder(log) && log != []
    ensures forall i :: 0 <= i < |Series(log)| ==> Series(log)[i].t <= log[|log| - 1].t
  {
    hide Series;
    SeriesIncreasing(log);
  }

  lemma FrontBelow(log: seq<Sample>)
    requires InOrder(log) && log != []
    ensures var front := log[..|log| - 1];
      InOrder(front) && Increasing(Series(front)) && forall i :: 0 <= i < |Series(front)| ==> Series(front)[i].t <= log[|log| - 1].t
  {
    hide Series, Increasing;
    var front := log[..|log| - 1];
    SeriesIncreasing(front);
    if front != [] {
      SeriesBelow(front);
      assert front[|front| - 1].t <= log[|log| - 1].t;
    }
  }

  // What one more sample, no older than the last, makes of the series.
  lemma SeriesStep(log: seq<Sample>)
    requires InOrder(log) && log != []
    ensures forall p :: p in Series(log) <==> p == log[|log| - 1] || (p in Series(log[..|log| - 1]) && p.t != log[|log| - 1].t)
  {
    FrontBelow(log);
    hide InOrder, Written, Increasing;
    WrittenMembers(Series(log[..|log| - 1]), log[|log| - 1]);
  }

  // The series holds exactly the last write of each second.
  lemma {:induction false} SeriesIsLastWrites(log: seq<Sample>)
    requires InOrder(log)
    ensures forall p :: p in Series(log) <==> LastWrite(log, p)
  {
    if log != [] {
      hide LastWrite, Series, InOrder, Increasing;
      var n := |log| - 1;
      SeriesStep(log);
      FrontBelow(log);
      SeriesIsLastWrites(log[..n]);
      assert log == log[..n] + [log[n]];
      forall q ensures q in Series(log) <==> LastWrite(log, q) {
        LastWriteStep(log[..n], log[n], q);
      }
    }
  }

  lemma WrittenMembers(s: seq<Sample>, p: Sample)
    requires Increasing(s) && forall i :: 0 <= i < |s| ==> s[i].t <= p.t
    ensures Increasing(Written(s, p))
    ensures forall q :: q in Written(s, p) <==> q == p || (q in s && q.t != p.t)
  {
    if s != [] {
      assert s == s[..|s| - 1] + [s[|s| - 1]];
    }
  }

  lemma LastWriteStep(log: seq<Sample>, p: Sample, q: Sample)
    ensures LastWrite(log + [p], q) <==> q == p || (LastWrite(log, q) && q.t != p.t)
  {
    if LastWrite(log + [p], q) && q != p {
      var i :| 0 <= i < |log + [p]| && (log + [p])[i] == q && forall j :: i < j < |log + [p]| ==> (log + [p])[j].t != q.t;
      assert (log + [p])[|log|] == p;
      forall j | i < j < |log| ensures log[j].t != q.t {
        assert (log + [p])[j] == log[j];
      }
      assert log[i] == q;
    }
    if q == p {
      assert (log + [p])[|log|] == q;
    } else if LastWrite(log, q) && q.t != p.t {
      var i :| 0 <= i < |log| && log[i] == q && forall j :: i < j < |log| ==> log[j].t != q.t;
      assert (log + [p])[i] == q;
    }
  }

  // One append to the capped buffer is one write to the full series, capped.
  lemma CappedWrite(s: seq<Sample>, p: Sample, n: nat)
    requires n > 0
    ensures LastN(Written(LastN(s, n), p), n) == LastN(Written(s, p), n)
  {
    if |s| > n {
      var d := |s| - n;
      assert LastN(s, n) == s[d..] && s[d..][n - 1] == s[|s| - 1];
      if s[|s| - 1].t == p.t {
        var w := s[..|s| - 1] + [p];
        assert Written(s, p) == w && Written(s[d..], p) == w[d..];
        LastOfTail(w, d, n);
      } else {
        var w := s + [p];
        assert Written(s, p) == w && Written(s[d..], p) == w[d..];
        LastOfTail(w, d, n);
      }
    }
  }

  lemma LastOfTail(w: seq<Sample>, d: nat, n: nat)
    requires d <= |w| && |w| - d >= n
    ensures LastN(w[d..], n) == LastN(w, n)
  {}

  // ---------- aggregation ----------

  datatype Point = Point(t: int, v: real)

  // Integer division as in Go, truncating toward zero.
  function TruncDiv(a: int, b: int): int
    requires b > 0
  {
    if a >= 0 then a / b else -((-a) / b)
  }

  function BucketOf(t: int, size: int): int
    requires size > 0
  {
    TruncDiv(t, size) * size
  }

  function Sum(vs: seq<real>): real {
    if vs == [] then 0.0 else Sum(vs[..|vs| - 1]) + vs[|vs| - 1]
  }

  function Mean(vs: seq<real>): real
    requires vs != []
  {
    Sum(vs) / |vs| as real
  }

  // A mean is the pooled mean of its parts, weighted by how many values each has.
  lemma MeanPools(a: seq<real>, b: seq<real>)
    requires a != [] && b != []
    ensures Mean(a + b) * (|a| + |b|) as real == Mean(a) * |a| as real + Mean(b) * |b| as real
  {
    SumSplits(a, b);
    MeanTimes(a);
    MeanTimes(b);
    MeanTimes(a + b);
  }

  lemma MeanTimes(vs: seq<real>)
    requires vs != []
    ensures Mean(vs) * |vs| as real == Sum(vs)
  {}

  lemma {:induction false} SumSplits(a: seq<real>, b: seq<real>)
    ensures Sum(a + b) == Sum(a) + Sum(b)
  {
    if b == [] {
      assert a + b == a;
    } else {
      SumSplits(a, b[..|b| - 1]);
      assert (a + b)[..|a + b| - 1] == a + b[..|b| - 1];
    }
  }

  lemma MeanOfOne(x: real)
    ensures Mean([x]) == x
  {
    assert [x][..0] == [];
    MeanTimes([x]);
    assert Mean([x]) * 1.0 == x;
  }

  // The samples at or after the cutoff.
  function Since(s: seq<Sample>, cutoff: int): seq<Sample> {
    if s == [] then [] else
      var n := |s| - 1;
      if s[n].t >= cutoff then Since(s[..n], cutoff) + [s[n]] else Since(s[..n], cutoff)
  }

  // The values of one bucket's samples, oldest first.
  function ValuesIn(s: seq<Sample>, size: int, bucket: int): seq<real>
    requires size > 0
  {
    if s == [] then [] else
      var n := |s| - 1;
      if BucketOf(s[n].t, size) == bucket then ValuesIn(s[..n], size, bucket) + [s[n].v] else ValuesIn(s[..n], size, bucket)
  }

  // out groups s by bucket: increasing aligned times, one point per bucket that has
  // samples, each the mean of its samples.
  ghost predicate GroupedMeans(s: seq<Sample>, size: int, out: seq<Point>)
    requires size > 0
  {
    && (forall i, j :: 0 <= i < j < |out| ==> out[i].t < out[j].t)
    && (forall i :: 0 <= i < |out| ==> ValuesIn(s, size, out[i].t) != [] && out[i].v == Mean(ValuesIn(s, size, out[i].t)))
    && (forall i :: 0 <= i < |s| ==> exists j :: 0 <= j < |out| && out[j].t == BucketOf(s[i].t, size))
  }

  lemma TruncDivMonotone(a: int, b: int, size: int)
    requires size > 0 && a <= b
    ensures TruncDiv(a, size) <= TruncDiv(b, size) && BucketOf(a, size) <= BucketOf(b, size)
  {
    if a >= 0 {
      DivMonotone(a, b, size);
    } else if b < 0 {
      DivMonotone(-b, -a, size);
    } else {
      DivMonotone(0, -a, size);
      DivMonotone(0, b, size);
    }
    MulMonotone(TruncDiv(a, size), TruncDiv(b, size), size);
  }

  lemma DivMonotone(a: int, b: int, size: int)
    requires size > 0 && a <= b
    ensures a / size <= b / size
  {
    assert a == size * (a / size) + a % size;
    assert b == size * (b / size) + b % size;
    if a / size > b / size {
      MulMonotone(b / size + 1, a / size, size);
    }
  }

  lemma MulMonotone(a: int, b: int, size: int)
    requires size > 0 && a <= b
    ensures a * size <= b * size
  {}

  // Shifting back by whole buckets moves the bucket number back by at most as many.
  lemma TruncDivShift(now: int, m: nat, size: int)
    requires size > 0
    ensures TruncDiv(now, size) - TruncDiv(now - m * size, size) <= m
  {
    var cut := now - m * size;
    DivShift(now, m, size);
    if now < 0 {
      DivShift(-cut, m, size);
      assert -cut - m * size == -now;
    } else if cut < 0 {
      DivMonotone(0, -cut, size);
      assert now / size - m == cut / size;
      assert cut / size <= -((-cut) / size) by { FloorBelowTrunc(cut, size); }
    }
  }

  lemma DivShift(a: int, m: nat, size: int)
    requires size > 0
    ensures (a - m * size) / size == a / size - m
  {
    var q, r := a / size, a % size;
    assert a - m * size == size * (q - m) + r;
    DivUnique(a - m * size, q - m, r, size);
  }

  lemma DivUnique(a: int, q: int, r: int, size: int)
    requires size > 0 && a == size * q + r && 0 <= r < size
    ensures a / size == q
  {
    var p := a / size;
    assert a == size * p + a % size;
    if p < q { MulMonotone(p + 1, q, size); }
    if q < p { MulMonotone(q + 1, p, size); }
  }

  lemma FloorBelowTrunc(a: int, size: int)
    requires size > 0 && a < 0
    ensures a / size <= -((-a) / size)
  {
    var p, q := a / size, (-a) / size;
    assert a == size * p + a % size && -a == size * q + (-a) % size;
    if p > -q { MulMonotone(-q + 1, p, size); }
  }

  lemma {:induction false} ValuesHaveSample(s: seq<Sample>, size: int, bucket: int)
    requires size > 0 && ValuesIn(s, size, bucket) != []
    ensures exists i :: 0 <= i < |s| && BucketOf(s[i].t, size) == bucket
  {
    var n := |s| - 1;
    if BucketOf(s[n].t, size) != bucket {
      ValuesHaveSample(s[..n], size, bucket);
      var i :| 0 <= i < n && BucketOf(s[..n][i].t, size) == bucket;
      assert BucketOf(s[i].t, size) == bucket;
    }
  }

  lemma {:induction false} KeysSpread(keys: seq<int>, i: nat)
    requires i < |keys| && forall j, k :: 0 <= j < k < |keys| ==> keys[j] < keys[k]
    ensures keys[i] >= keys[0] + i
  {
    if i > 0 { KeysSpread(keys, i - 1); }
  }

  // Samples between the cutoff and now fill at most one bucket more than asked for,
  // so truncation drops at most one.
  lemma AtMostOneExtra(s: seq<Sample>, size: int, out: seq<Point>, now: int, m: nat)
    requires size > 0 && GroupedMeans(s, size, out)
    requires forall i :: 0 <= i < |s| ==> now - m * size <= s[i].t <= now
    ensures |out| <= m + 1
  {
    if out != [] {
      var keys := seq(|out|, i requires 0 <= i < |out| => TruncDiv(out[i].t, size));
      forall i | 0 <= i < |out|
        ensures out[i].t == keys[i] * size && TruncDiv(now - m * size, size) <= keys[i] <= TruncDiv(now, size)
      {
        ValuesHaveSample(s, size, out[i].t);
        var k :| 0 <= k < |s| && BucketOf(s[k].t, size) == out[i].t;
        BucketKey(s[k].t, size);
        TruncDivMonotone(now - m * size, s[k].t, size);
        TruncDivMonotone(s[k].t, now, size);
      }
      forall i, j | 0 <= i < j < |out| ensures keys[i] < keys[j] {
        if keys[j] <= keys[i] { MulMonotone(keys[j], keys[i], size); }
      }
      KeysSpread(keys, |out| - 1);
      TruncDivShift(now, m, size);
    }
  }

  lemma BucketKey(t: int, size: int)
    requires size > 0
    ensures TruncDiv(BucketOf(t, size), size) == TruncDiv(t, size)
  {
    var q := TruncDiv(t, size);
    if t >= 0 {
      assert q >= 0 by { DivMonotone(0, t, size); }
      MulMonotone(0, q, size);
      DivUnique(q * size, q, 0, size);
    } else {
      assert -q >= 0 by { DivMonotone(0, -t, size); }
      MulMonotone(0, -q, size);
      DivUnique((-q) * size, -q, 0, size);
      assert -(q * size) == (-q) * size;
      if q == 0 { DivUnique(0, 0, 0, size); }
    }
  }

  // ---------- the buffers ----------

  // How a series came to be: what it was started or restored with, and the appends
  // since.
  datatype Past = Past(base: seq<Sample>, log: seq<Sample>)

  const NO_PAST := Past([], [])

  // The series with nothing dropped.
  function Whole(p: Past): seq<Sample> {
    WrittenAll(p.base, p.log)
  }

  predicate Buffers(buf: seq<Sample>, p: Past) {
    buf == LastN(Whole(p), CAPACITY)
  }

  lemma OneMoreWrite(buf: seq<Sample>, p: Past, q: Sample)
    requires Buffers(buf, p)
    ensures Buffers(LastN(Written(buf, q), CAPACITY), Past(p.base, p.log + [q]))
  {
    assert (p.log + [q])[..|p.log|] == p.log;
    CappedWrite(Whole(p), q, CAPACITY);
  }

  lemma Restored(data: seq<Sample>)
    ensures Buffers(LastN(data, CAPACITY), Past(data, [])) && Buffers([], NO_PAST)
  {}

  class History {
    var metrics: map<string, seq<Sample>>
    ghost var past: map<string, Past>

    ghost predicate Valid()
      reads this
    {
      metrics.Keys == past.Keys && forall k :: k in metrics ==> Buffers(metrics[k], past[k])
    }

    constructor ()
      ensures Valid() && past == map[]
    {
      metrics, past := map[], map[];
    }

    ghost function PastOf(metric: string): Past
      reads this
    {
      if metric in past then past[metric] else NO_PAST
    }

    method Append(metric: string, t: int, v: real)
      requires Valid()
      modifies this
      ensures Valid()
      ensures past == old(past)[metric := Past(old(PastOf(metric)).base, old(PastOf(metric)).log + [Sample(t, v)])]
    {
      hide Buffers;
      Restored([]);
      var buf := if metric in metrics then metrics[metric] else [];
      var p := Sample(t, v);
      ghost var was := PastOf(metric);
      OneMoreWrite(buf, was, p);
      ghost var written := Written(buf, p);
      var n := |buf|;
      if n > 0 && buf[n - 1].t == p.t {
        buf := buf[n - 1 := p];
      } else {
        buf := buf + [p];
      }
      assert buf == written;
      if |buf| > CAPACITY {
        buf := buf[|buf| - CAPACITY..];
      }
      metrics, past := metrics[metric := buf], past[metric := Past(was.base, was.log + [p])];
    }

    method Drop(metric: string)
      requires Valid()
      modifies this
      ensures Valid() && past == old(past) - {metric}
    {
      hide Buffers;
      metrics, past := metrics - {metric}, past - {metric};
    }

    // Replaces the given series, capped again; the others stay.
    method Restore(data: map<string, seq<Sample>>)
      requires Valid()
      modifies this
      ensures Valid() && past == old(past) + map k | k in data :: Past(data[k], [])
    {
      hide Buffers;
      forall k | k in data ensures Buffers(LastN(data[k], CAPACITY), Past(data[k], [])) {
        Restored(data[k]);
      }
      metrics := metrics + (map k | k in data :: LastN(data[k], CAPACITY));
      past := past + map k | k in data :: Past(data[k], []);
    }

    // The means of the buckets since the cutoff; `all` is the answer before the
    // cut to maxPoints.
    method Aggregate(metric: string, bucketSeconds: int, maxPoints: int, now: int) returns (out: seq<Point>, ghost all: seq<Point>)
      requires Valid()
      ensures bucketSeconds <= 0 || maxPoints <= 0 ==> out == []
      ensures bucketSeconds > 0 && maxPoints > 0 ==>
                var hist := LastN(Whole(PastOf(metric)), CAPACITY);
                && out == LastN(all, maxPoints)
                && (Increasing(hist) ==> GroupedMeans(Since(hist, now - bucketSeconds * maxPoints), bucketSeconds, all))
                && (Increasing(hist) && (forall i :: 0 <= i < |hist| ==> hist[i].t <= now) ==> |all| <= maxPoints + 1)
    {
      hide GroupedMeans;
      hide Increasing;
      all := [];
      if bucketSeconds <= 0 || maxPoints <= 0 {
        return [], [];
      }
      var cutoff := now - bucketSeconds * maxPoints;
      var hist := if metric in metrics then metrics[metric] else [];
      var startIdx := FirstSince(hist, cutoff);
      out := Buckets(hist[startIdx..], bucketSeconds);
      all := out;
      BucketsAnswer(hist, startIdx, bucketSeconds, out, now, maxPoints);
      if |out| > maxPoints {
        out := out[|out| - maxPoints..];
      }
    }

    // One past the last sample before the cutoff.
    static method FirstSince(hist: seq<Sample>, cutoff: int) returns (startIdx: nat)
      ensures startIdx <= |hist| && (startIdx > 0 ==> hist[startIdx - 1].t < cutoff)
      ensures forall i :: startIdx <= i < |hist| ==> hist[i].t >= cutoff
    {
      startIdx := 0;
      var i := |hist| - 1;
      while i >= 0
        invariant -1 <= i < |hist| && startIdx == 0
        invariant forall j :: i < j < |hist| ==> hist[j].t >= cutoff
      {
        if hist[i].t < cutoff {
          startIdx := i + 1;
          break;
        }
        i := i - 1;
      }
    }

    // The streaming pass: one running bucket, flushed when the next one begins.
    static method Buckets(tmp: seq<Sample>, size: int) returns (out: seq<Point>)
      requires size > 0
      ensures Increasing(tmp) ==> GroupedMeans(tmp, size, out)
    {
      hide GroupedMeans, Streaming, BucketOf, ValuesIn;
      out := [];
      if |tmp| == 0 {
        NothingGrouped(size);
        return;
      }
      var curBucket := BucketOf(tmp[0].t, size);
      var acc: seq<real> := [];
      NothingStreamed(size, curBucket);
      for i := 0 to |tmp|
        invariant i == 0 ==> acc == [] && out == [] && curBucket == BucketOf(tmp[0].t, size)
        invariant i > 0 ==> acc != [] && curBucket == BucketOf(tmp[i - 1].t, size)
        invariant Increasing(tmp) ==> Streaming(tmp[..i], size, out, curBucket, acc)
      {
        var b := BucketOf(tmp[i].t, size);
        if Increasing(tmp) {
          if i > 0 {
            TruncDivMonotone(tmp[i - 1].t, tmp[i].t, size);
          }
          StreamingStep(tmp[..i], size, out, curBucket, acc, tmp[i]);
          assert tmp[..i + 1] == tmp[..i] + [tmp[i]];
        }
        if b != curBucket {
          out := Flush(out, acc, curBucket);
          acc := [];
          curBucket := b;
        }
        acc := acc + [tmp[i].v];
        assert [tmp[i].v] == [] + [tmp[i].v];
      }
      assert tmp[..|tmp|] == tmp;
      if Increasing(tmp) {
        StreamingEnd(tmp, size, out, curBucket, acc);
      }
      out := Flush(out, acc, curBucket);
    }

    static method Flush(out: seq<Point>, acc: seq<real>, ts: int) returns (out': seq<Point>)
      ensures out' == if acc == [] then out else out + [Point(ts, Mean(acc))]
    {
      if |acc| == 0 {
        return out;
      }
      var sum := 0.0;
      for i := 0 to |acc|
        invariant sum == Sum(acc[..i])
      {
        assert acc[..i + 1][..i] == acc[..i];
        sum := sum + acc[i];
      }
      assert acc[..|acc|] == acc;
      return out + [Point(ts, sum / |acc| as real)];
    }
  }

  lemma {:induction false} SinceSplit(s: seq<Sample>, cutoff: int, n: nat)
    requires n <= |s| && (forall i :: 0 <= i < n ==> s[i].t < cutoff) && (forall i :: n <= i < |s| ==> s[i].t >= cutoff)
    ensures Since(s, cutoff) == s[n..]
  {
    if s != [] {
      var last := |s| - 1;
      if n <= last {
        SinceSplit(s[..last], cutoff, n);
        assert s[n..] == s[..last][n..] + [s[last]];
      } else {
        SinceSplit(s[..last], cutoff, last);
      }
    }
  }

  lemma SinceIsSuffix(s: seq<Sample>, cutoff: int, n: nat)
    requires Increasing(s) && n <= |s| && (n > 0 ==> s[n - 1].t < cutoff)
    requires forall i :: n <= i < |s| ==> s[i].t >= cutoff
    ensures Since(s, cutoff) == s[n..]
  {
    forall i | 0 <= i < n ensures s[i].t < cutoff {
      assert s[i].t <= s[n - 1].t;
    }
    SinceSplit(s, cutoff, n);
  }

  lemma BucketsAnswer(hist: seq<Sample>, n: nat, size: int, out: seq<Point>, now: int, m: int)
    requires size > 0 && m > 0 && n <= |hist| && (n > 0 ==> hist[n - 1].t < now - size * m)
    requires forall i :: n <= i < |hist| ==> hist[i].t >= now - size * m
    requires Increasing(hist[n..]) ==> GroupedMeans(hist[n..], size, out)
    ensures Increasing(hist) ==> GroupedMeans(Since(hist, now - size * m), size, out)
    ensures Increasing(hist) && (forall i :: 0 <= i < |hist| ==> hist[i].t <= now) ==> |out| <= m + 1
  {
    hide GroupedMeans, Increasing, Since;
    if Increasing(hist) {
      var tail := hist[n..];
      SinceIsSuffix(hist, now - size * m, n);
      DropIncreasing(hist, n);
      if forall i :: 0 <= i < |hist| ==> hist[i].t <= now {
        Commute(size, m);
        forall i | 0 <= i < |tail| ensures now - m * size <= tail[i].t <= now {
          assert tail[i] == hist[n + i];
        }
        AtMostOneExtra(tail, size, out, now, m);
      }
    }
  }

  lemma Commute(a: int, b: int)
    ensures a * b == b * a
  {}

  lemma DropIncreasing(s: seq<Sample>, n: nat)
    requires Increasing(s) && n <= |s|
    ensures Increasing(s[n..])
  {}

  // Where the pass stands: the finished buckets are grouped, the running one holds
  // its values so far and lies after them.
  ghost predicate Streaming(s: seq<Sample>, size: int, out: seq<Point>, curBucket: int, acc: seq<real>)
    requires size > 0
  {
    && acc == ValuesIn(s, size, curBucket)
    && (forall i, j :: 0 <= i < j < |out| ==> out[i].t < out[j].t)
    && (forall i :: 0 <= i < |out| ==> out[i].t < curBucket && ValuesIn(s, size, out[i].t) != [] &&
                                       out[i].v == Mean(ValuesIn(s, size, out[i].t)))
    && (forall i :: 0 <= i < |s| ==> BucketOf(s[i].t, size) <= curBucket)
    && (forall i :: 0 <= i < |s| && BucketOf(s[i].t, size) != curBucket ==>
          exists j :: 0 <= j < |out| && out[j].t == BucketOf(s[i].t, size))
  }

  lemma ValuesStep(s: seq<Sample>, p: Sample, size: int, bucket: int)
    requires size > 0
    ensures ValuesIn(s + [p], size, bucket) ==
            if BucketOf(p.t, size) == bucket then ValuesIn(s, size, bucket) + [p.v] else ValuesIn(s, size, bucket)
  {
    assert (s + [p])[..|s|] == s;
  }

  lemma {:induction false} NoValuesAbove(s: seq<Sample>, size: int, bucket: int)
    requires size > 0 && forall i :: 0 <= i < |s| ==> BucketOf(s[i].t, size) != bucket
    ensures ValuesIn(s, size, bucket) == []
  {
    if s != [] { NoValuesAbove(s[..|s| - 1], size, bucket); }
  }

  ghost predicate AllValues(s: seq<Sample>, p: Sample, size: int)
    requires size > 0
  {
    forall bucket :: ValuesIn(s + [p], size, bucket) ==
                     if BucketOf(p.t, size) == bucket then ValuesIn(s, size, bucket) + [p.v] else ValuesIn(s, size, bucket)
  }

  lemma SameBucket(s: seq<Sample>, size: int, out: seq<Point>, curBucket: int, acc: seq<real>, p: Sample)
    requires size > 0 && Streaming(s, size, out, curBucket, acc) && curBucket == BucketOf(p.t, size) && AllValues(s, p, size)
    ensures Streaming(s + [p], size, out, curBucket, acc + [p.v])
  {
    hide BucketOf, ValuesIn;
    var grown := s + [p];
    forall i | 0 <= i < |grown|
      ensures BucketOf(grown[i].t, size) <= curBucket
      ensures BucketOf(grown[i].t, size) != curBucket ==> exists j :: 0 <= j < |out| && out[j].t == BucketOf(grown[i].t, size)
    {
      assert i < |s| ==> grown[i] == s[i];
    }
  }

  lemma NextBucket(s: seq<Sample>, size: int, out: seq<Point>, curBucket: int, acc: seq<real>, p: Sample)
    requires size > 0 && Streaming(s, size, out, curBucket, acc) && acc != [] && curBucket < BucketOf(p.t, size) && AllValues(s, p, size)
    ensures Streaming(s + [p], size, out + [Point(curBucket, Mean(acc))], BucketOf(p.t, size), [p.v])
  {
    hide BucketOf, ValuesIn;
    var b, grown, done := BucketOf(p.t, size), s + [p], out + [Point(curBucket, Mean(acc))];
    NoValuesAbove(s, size, b);
    assert [] + [p.v] == [p.v];
    assert done[|out|].t == curBucket;
    forall i | 0 <= i < |grown|
      ensures BucketOf(grown[i].t, size) <= b
      ensures BucketOf(grown[i].t, size) != b ==> exists j :: 0 <= j < |done| && done[j].t == BucketOf(grown[i].t, size)
    {
      if i < |s| {
        assert grown[i] == s[i];
        if BucketOf(s[i].t, size) != curBucket {
          var j :| 0 <= j < |out| && out[j].t == BucketOf(s[i].t, size);
          assert done[j].t == BucketOf(s[i].t, size);
        }
      }
    }
  }

  lemma StreamingStep(s: seq<Sample>, size: int, out: seq<Point>, curBucket: int, acc: seq<real>, p: Sample)
    requires size > 0 && Streaming(s, size, out, curBucket, acc)
    requires s == [] ==> out == [] && curBucket == BucketOf(p.t, size)
    requires s != [] ==> acc != [] && curBucket <= BucketOf(p.t, size)
    ensures var b := BucketOf(p.t, size);
      if b == curBucket then Streaming(s + [p], size, out, b, acc + [p.v])
      else acc != [] && Streaming(s + [p], size, out + [Point(curBucket, Mean(acc))], b, [p.v])
  {
    hide BucketOf, Streaming;
    forall bucket ensures ValuesIn(s + [p], size, bucket) ==
        if BucketOf(p.t, size) == bucket then ValuesIn(s, size, bucket) + [p.v] else ValuesIn(s, size, bucket)
    {
      ValuesStep(s, p, size, bucket);
    }
    if BucketOf(p.t, size) == curBucket {
      SameBucket(s, size, out, curBucket, acc, p);
    } else {
      NextBucket(s, size, out, curBucket, acc, p);
    }
  }

  lemma NothingStreamed(size: int, curBucket: int)
    requires size > 0
    ensures Streaming([], size, [], curBucket, [])
  {}

  lemma NothingGrouped(size: int)
    requires size > 0
    ensures GroupedMeans([], size, [])
  {}

  lemma StreamingEnd(s: seq<Sample>, size: int, out: seq<Point>, curBucket: int, acc: seq<real>)
    requires size > 0 && Streaming(s, size, out, curBucket, acc) && acc != []
    ensures GroupedMeans(s, size, out + [Point(curBucket, Mean(acc))])
  {
    hide BucketOf;
    var done := out + [Point(curBucket, Mean(acc))];
    assert done[|out|].t == curBucket;
    forall i | 0 <= i < |s| ensures exists j :: 0 <= j < |done| && done[j].t == BucketOf(s[i].t, size) {
      if BucketOf(s[i].t, size) != curBucket {
        var j :| 0 <= j < |out| && out[j].t == BucketOf(s[i].t, size);
        assert done[j].t == BucketOf(s[i].t, size);
      }
    }
  }

  // A series that is increasing is the one of its own writes.
  lemma {:induction false} IncreasingIsSeries(s: seq<Sample>)
    requires Increasing(s)
    ensures Series(s) == s
  {
    hide Increasing, Written;
    if s != [] {
      var n := |s| - 1;
      FrontIncreasing(s);
      IncreasingIsSeries(s[..n]);
      NewSecond(s[..n], s[n]);
      assert s == s[..n] + [s[n]];
    }
  }

  lemma NewSecond(s: seq<Sample>, p: Sample)
    requires s != [] ==> s[|s| - 1].t != p.t
    ensures Written(s, p) == s + [p]
  {}

  lemma FrontIncreasing(s: seq<Sample>)
    requires Increasing(s) && s != []
    ensures Increasing(s[..|s| - 1]) && (|s| > 1 ==> s[|s| - 2].t != s[|s| - 1].t)
  {}

  lemma {:induction false} FurtherWrites(s: seq<Sample>, log: seq<Sample>)
    requires Increasing(s)
    ensures WrittenAll(s, log) == Series(s + log)
  {
    if log == [] {
      IncreasingIsSeries(s);
      assert s + log == s;
    } else {
      var n := |log| - 1;
      FurtherWrites(s, log[..n]);
      assert (s + log)[..|s + log| - 1] == s + log[..n];
    }
  }

  lemma NoneMissed(s: seq<Sample>, n: nat, p: Sample)
    requires Increasing(s) && p in s && LastN(s, n) != [] && p.t >= LastN(s, n)[0].t
    ensures p in LastN(s, n)
  {
    var buf := LastN(s, n);
    var d := |s| - |buf|;
    var j :| 0 <= j < |s| && s[j] == p;
    assert buf[0] == s[d];
    assert d <= j;
    assert buf[j - d] == p;
  }

  lemma SuffixIncreasing(s: seq<Sample>, n: nat)
    requires Increasing(s)
    ensures Increasing(LastN(s, n)) && forall p :: p in LastN(s, n) ==> p in s
  {}

  // The capped series of a run under a nondecreasing clock: strictly increasing, at
  // most the capacity, made of last writes only, and it misses none that is not
  // older than its first sample.
  lemma SeriesCapped(log: seq<Sample>)
    requires InOrder(log)
    ensures var buf := LastN(Series(log), CAPACITY);
            Increasing(buf) && |buf| <= CAPACITY && (log != [] ==> buf != []) &&
            (forall p :: p in buf ==> LastWrite(log, p)) &&
            (forall p :: LastWrite(log, p) && buf != [] && p.t >= buf[0].t ==> p in buf)
  {
    SeriesIncreasing(log);
    SeriesIsLastWrites(log);
    hide LastWrite, Series, Increasing, InOrder;
    var s, buf := Series(log), LastN(Series(log), CAPACITY);
    SuffixIncreasing(s, CAPACITY);
    forall p | LastWrite(log, p) && buf != [] && p.t >= buf[0].t ensures p in buf {
      NoneMissed(s, CAPACITY, p);
    }
  }

  // The buffer of a metric after any run of appends, from nothing or from a restored
  // series, under a nondecreasing clock.
  lemma RunOfAppends(h: History, metric: string)
    requires h.Valid() && metric in h.metrics
    requires Increasing(h.past[metric].base) && InOrder(h.past[metric].base + h.past[metric].log)
    ensures var buf, writes := h.metrics[metric], h.past[metric].base + h.past[metric].log;
            buf == LastN(Series(writes), CAPACITY) && Increasing(buf) && |buf| <= CAPACITY && (writes != [] ==> buf != []) &&
            (forall p :: p in buf ==> LastWrite(writes, p)) &&
            (forall p :: LastWrite(writes, p) && buf != [] && p.t >= buf[0].t ==> p in buf)
  {
    hide Increasing, InOrder, LastWrite, Series;
    FurtherWrites(h.past[metric].base, h.past[metric].log);
    SeriesCapped(h.past[metric].base + h.past[metric].log);
  }
}
