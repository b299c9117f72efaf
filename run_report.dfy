/** The four-counter run report and the field-wise `uint32` reduction applied to it,
    for one process (over its connections) and across processes (over child reports). */
module RunReport {
  import opened Uint32

  /** Application-level sends and receives, raw reads and raw writes. */
  datatype Report = Report(send: U32, recv: U32, read: U32, write: U32)

  /** A report whose counters all hold Go's zero value. */
  const Zero := Report(0, 0, 0, 0)

  datatype Counter = Send | Recv | Read | Write

  function Get(r: Report, c: Counter): U32 {
    match c
    case Send => r.send
    case Recv => r.recv
    case Read => r.read
    case Write => r.write
  }

  /** `sum.X += c.X` for each of the four counters. */
  function Add(a: Report, b: Report): (r: Report)
    ensures forall c :: Get(r, c) == WrappingAdd(Get(a, c), Get(b, c))
  {
    Report(WrappingAdd(a.send, b.send), WrappingAdd(a.recv, b.recv),
           WrappingAdd(a.read, b.read), WrappingAdd(a.write, b.write))
  }

  /** The loop `for i { sum += reports[i] }` starting from a zero `sum`, first element first. */
  function Sum(rs: seq<Report>): Report {
    if rs == [] then Zero else Add(Sum(rs[..|rs| - 1]), rs[|rs| - 1])
  }

  /** Unbounded total of one counter over the reports: the reference for `Sum`. */
  function Total(rs: seq<Report>, c: Counter): nat {
    if rs == [] then 0 else Total(rs[..|rs| - 1], c) + Get(rs[|rs| - 1], c)
  }

  /** All reports of all groups, group after group. */
  function Flatten(groups: seq<seq<Report>>): seq<Report> {
    if groups == [] then [] else Flatten(groups[..|groups| - 1]) + groups[|groups| - 1]
  }

  /** One subtotal per group. */
  function Subtotals(groups: seq<seq<Report>>): seq<Report> {
    seq(|groups|, i requires 0 <= i < |groups| => Sum(groups[i]))
  }

  lemma AddZero(a: Report)
    ensures Add(a, Zero) == a && Add(Zero, a) == a
  {
  }

  lemma AddCommutes(a: Report, b: Report)
    ensures Add(a, b) == Add(b, a)
  {
  }

  lemma AddAssociates(a: Report, b: Report, c: Report)
    ensures Add(Add(a, b), c) == Add(a, Add(b, c))
  {
    ModOfSum(a.send + b.send, c.send);
    ModOfSum(b.send + c.send, a.send);
    ModOfSum(a.recv + b.recv, c.recv);
    ModOfSum(b.recv + c.recv, a.recv);
    ModOfSum(a.read + b.read, c.read);
    ModOfSum(b.read + c.read, a.read);
    ModOfSum(a.write + b.write, c.write);
    ModOfSum(b.write + c.write, a.write);
  }

  /** Adding to a total already reduced modulo 2^32 is adding to the total, then reducing. */
  lemma WrappingAddOfReduced(t: int, x: U32, g: U32)
    requires x == t % Modulus
    ensures WrappingAdd(x, g) == (t + g) % Modulus
  {
    ModOfSum(t, g);
  }

  /** Each counter of the reduction is the true total reduced modulo 2^32. */
  lemma {:induction false} SumIsTotalModulo(rs: seq<Report>, c: Counter)
    ensures Get(Sum(rs), c) == Total(rs, c) % Modulus
  {
    if rs != [] {
      var init, last := rs[..|rs| - 1], rs[|rs| - 1];
      SumIsTotalModulo(init, c);
      assert Get(Sum(rs), c) == WrappingAdd(Get(Sum(init), c), Get(last, c));
      assert Total(rs, c) == Total(init, c) + Get(last, c);
      WrappingAddOfReduced(Total(init, c), Get(Sum(init), c), Get(last, c));
    }
  }

  /** A counter of the reduction is exact if and only if its true total fits in 32 bits;
      otherwise the count has wrapped around. */
  lemma SumExactIffNoOverflow(rs: seq<Report>, c: Counter)
    ensures Get(Sum(rs), c) == Total(rs, c) <==> Total(rs, c) < Modulus
  {
    SumIsTotalModulo(rs, c);
  }

  /** Summing two parts and adding the results is summing the whole. */
  lemma {:induction false} SumAppend(a: seq<Report>, b: seq<Report>)
    ensures Sum(a + b) == Add(Sum(a), Sum(b))
  {
    if b == [] {
      assert a + b == a;
      AddZero(Sum(a));
    } else {
      var init := b[..|b| - 1];
      assert (a + b)[..|a + b| - 1] == a + init;
      SumAppend(a, init);
      AddAssociates(Sum(a), Sum(init), b[|b| - 1]);
    }
  }

  /** The order in which reports are summed does not change the result. */
  lemma {:induction false} SumPermutation(rs: seq<Report>, ts: seq<Report>)
    requires multiset(rs) == multiset(ts)
    ensures Sum(rs) == Sum(ts)
    decreases |rs|
  {
    if rs == [] {
      assert |ts| == |multiset(ts)| == 0;
    } else {
      var x := rs[|rs| - 1];
      var init := rs[..|rs| - 1];
      assert rs == init + [x];
      assert x in multiset(ts);
      var j :| 0 <= j < |ts| && ts[j] == x;
      var before, after := ts[..j], ts[j + 1..];
      assert ts == before + [x] + after;
      var rest := before + after;
      calc {
        multiset(init);
        multiset(rs) - multiset{x};
        multiset(ts) - multiset{x};
        multiset(before) + multiset{x} + multiset(after) - multiset{x};
        multiset(rest);
      }
      SumPermutation(init, rest);
      SumAppend(before + [x], after);
      SumAppend(before, [x]);
      SumAppend(before, after);
      assert Sum([x]) == x by { assert [x][..0] == []; AddZero(x); }
      AddAssociates(Sum(before), x, Sum(after));
      AddCommutes(x, Sum(after));
      AddAssociates(Sum(before), Sum(after), x);
    }
  }

  /** Summing each group and then the subtotals is summing every report once: no count is
      dropped or counted twice by a two-level reduction. */
  lemma {:induction false} SumOfSubtotals(groups: seq<seq<Report>>)
    ensures Sum(Subtotals(groups)) == Sum(Flatten(groups))
  {
    if groups != [] {
      var init := groups[..|groups| - 1];
      assert Subtotals(groups)[..|groups| - 1] == Subtotals(init);
      SumOfSubtotals(init);
      SumAppend(Flatten(init), groups[|groups| - 1]);
    }
  }
}
