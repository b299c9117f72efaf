/** The benchmark's own bookkeeping: the per-process sum over its connections, the split of
    connections among child processes, and the fan-out that sums the children's report lines. */
module Benchmark {
  import opened Uint32
  import opened RunReport
  import opened ReportLine
  import opened Counting

  /** The counters of each connection, in order. */
  function Snapshots(conns: seq<CountConn>): (rs: seq<Report>)
    reads conns
  {
    seq(|conns|, i reads conns requires 0 <= i < |conns| => conns[i].Counters())
  }

  /** After the run: `var sum CountConn` and, for each connection, `sum.X += conn.X` for the
      four counters. The result is the wrapping field-wise sum of every connection's counters. */
  method SumConnections(conns: seq<CountConn>) returns (sum: Report)
    ensures sum == Sum(Snapshots(conns))
  {
    sum := Zero;
    var i := 0;
    while i < |conns|
      invariant 0 <= i <= |conns|
      invariant sum == Sum(Snapshots(conns)[..i])
    {
      var conn := conns[i];
      sum := Add(sum, conn.Counters());
      assert Snapshots(conns)[..i + 1][..i] == Snapshots(conns)[..i];
      i := i + 1;
    }
    assert Snapshots(conns)[..|conns|] == Snapshots(conns);
  }

  /** `clientNum / proces` with Go's `int` division, which truncates toward zero: the share
      the parent writes into each child's `num=` argument. */
  function ChildShare(clientNum: int, procs: int): (share: int)
    requires procs > 1
    ensures clientNum >= 0 ==> 0 <= share && 0 <= clientNum - procs * share < procs
    ensures clientNum < 0 ==> share <= 0 && -procs < clientNum - procs * share <= 0
  {
    if clientNum >= 0 then
      QuotientBounds(clientNum, procs);
      clientNum / procs
    else
      QuotientBounds(-clientNum, procs);
      -((-clientNum) / procs)
  }

  /** Euclidean division of a non-negative number leaves a remainder below the divisor. */
  lemma QuotientBounds(a: nat, b: int)
    requires b > 0
    ensures 0 <= a / b && 0 <= a - b * (a / b) < b
  {
    var q, r := a / b, a % b;
    assert a == b * q + r;
  }

  /** A child process as the parent sees it after `Cmd.Wait`: what it printed, and whether
      `Wait` reported an error. */
  datatype ChildRun = ChildRun(output: string, waitFailed: bool)

  /** The report parsed from each child's output, whatever its exit status. */
  function ChildReports(children: seq<ChildRun>): seq<Report> {
    seq(|children|, i requires 0 <= i < |children| => Parse(children[i].output))
  }

  /** What `MultiProcess` decided: run the benchmark in this process, or start the children,
      passing `num=perChild` to each, and print `total`, the sum of their reports. */
  datatype Decision = RunLocally | FannedOut(perChild: int, total: Report)

  /** `MultiProcess()`: with at most one process the caller runs the benchmark itself;
      otherwise it starts `procs` children and sums the report line each printed,
      including the lines of children whose `Wait` failed. */
  method MultiProcess(procs: int, clientNum: int, children: seq<ChildRun>) returns (d: Decision)
    requires procs > 1 ==> |children| == procs
    ensures d.RunLocally? <==> procs <= 1
    ensures d.FannedOut? ==> d.perChild == ChildShare(clientNum, procs)
    ensures d.FannedOut? ==> d.total == Sum(ChildReports(children))
  {
    if procs <= 1 {
      return RunLocally;
    }
    var perChild := ChildShare(clientNum, procs);
    var sum := Zero;
    var i := 0;
    while i < procs
      invariant 0 <= i <= procs
      invariant sum == Sum(ChildReports(children)[..i])
    {
      var c := Parse(children[i].output);
      sum := Add(sum, c);
      assert ChildReports(children)[..i + 1][..i] == ChildReports(children)[..i];
      i := i + 1;
    }
    assert ChildReports(children)[..procs] == ChildReports(children);
    d := FannedOut(perChild, sum);
  }

  /** The shares passed to the children add up to at most `clientNum`: the split drops
      exactly `clientNum % procs` connections. */
  lemma SplitDropsRemainder(clientNum: nat, procs: int)
    requires procs > 1
    ensures procs * ChildShare(clientNum, procs) <= clientNum
    ensures clientNum - procs * ChildShare(clientNum, procs) == clientNum % procs
  {
    var q := ChildShare(clientNum, procs);
    assert q == clientNum / procs;
    assert clientNum == procs * q + clientNum % procs;
  }

  /** If each child printed the report of its own connections, the parent's grand total is
      the sum over every connection of every child, whether or not `Wait` failed for some. */
  lemma {:induction false} GrandTotal(children: seq<ChildRun>, groups: seq<seq<Report>>)
    requires |children| == |groups|
    requires forall i :: 0 <= i < |children| ==> children[i].output == Format(Sum(groups[i]))
    ensures Sum(ChildReports(children)) == Sum(Flatten(groups))
  {
    assert ChildReports(children) == Subtotals(groups) by {
      forall i | 0 <= i < |children|
        ensures ChildReports(children)[i] == Subtotals(groups)[i]
      {
        RoundTrip(Sum(groups[i]));
      }
    }
    SumOfSubtotals(groups);
  }
}
