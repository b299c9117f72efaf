# Echo benchmark run report

This project models the sequential core of the `link` echo benchmark client
(`examples/echo_benchmark.go`):

- **The counting connection.** `CountConn` wraps a network connection and keeps four `uint32`
  counters: messages sent, messages received, `Read` calls and `Write` calls.
- **The run report.** When the run ends, the four counters of every connection are summed
  field by field with `uint32` arithmetic, which wraps modulo 2^32. The result is printed as one
  line of the form `Send Count: %d, Recv Count: %d, Read Count: %d, Write Count: %d\n`.
- **Multi-process fan-out.** With `procs > 1` the parent starts `procs` child processes. It
  computes the share `clientNum / procs` and passes it to each child as the argument
  `num=<share>`. The parent scans every child's report line back with the same format and sums
  the parsed reports, again modulo 2^32.

Modules:

- `Uint32` (`uint32.dfy`): `uint32` values and Go's wrapping `+=`.
- `RunReport` (`run_report.dfy`): the four-counter report and its field-wise wrapping sum
  `Sum`. `Sum` is checked against an unbounded reference total `Total`. Lemmas cover
  wrap-around, splitting the sequence, any reordering (a multiset permutation) and summing
  subtotals.
- `Counting` (`count_conn.dfy`): `CountConn` as a class with four counter fields. Each method
  states the whole new counter state.
- `ReportLine` (`report_line.dfy`): the printer `Format` and the scanner `Parse` for the one
  report line. Decimal rendering and digit scanning are written out. The main lemmas are the round
  trip `Parse(Format(r)) == r`, a truncated line and a number too large for `uint32`.
- `Benchmark` (`benchmark.dfy`): the per-process summing loop over the connections, the
  share computed for the children, and `MultiProcess` with its summing loop over the children.

The counters are incremented with `uint32` arithmetic, both per connection and in the sums,
so they wrap at 2^32 instead of growing for ever. `Sum` wraps the same way, and
`RunReport.SumExactIffNoOverflow` states exactly when the printed total equals the true total.

## Model

| member | source | states |
|---|---|---|
| Uint32.WrappingAdd | examples/echo_benchmark.go:105-108 | `uint32` `+=` gives the exact sum below 2^32 and the sum minus 2^32 otherwise |
| RunReport.Add | examples/echo_benchmark.go:105-108 | `sum.X += c.X` for the four counters: every counter of the result is the wrapping sum of the two operands' counters |
| RunReport.Sum | examples/echo_benchmark.go:101-109 | the accumulation into a zero `sum`, first report first; what it computes is stated by `SumIsTotalModulo`, `SumAppend` and `SumPermutation` |
| RunReport.Total | examples/echo_benchmark.go:101-109 | the unbounded total of one counter, the reference `Sum` is checked against in `SumIsTotalModulo` and `SumExactIffNoOverflow` |
| RunReport.AddAssociates | examples/echo_benchmark.go:101-109 | the field-wise wrapping addition of reports is associative, so the order of accumulation into `sum` does not matter |
| RunReport.SumIsTotalModulo | examples/echo_benchmark.go:101-109 | every counter of the accumulated sum is the true, unbounded total of that counter modulo 2^32 |
| RunReport.SumExactIffNoOverflow | examples/echo_benchmark.go:101-109 | a summed counter equals the true total if and only if the true total is below 2^32 |
| RunReport.SumAppend | examples/echo_benchmark.go:200-217 | summing a concatenation equals adding the sums of the two parts |
| RunReport.SumPermutation | examples/echo_benchmark.go:200-217 | any two sequences of reports that are permutations of each other have the same sum, so the order of connections or children does not change the report |
| RunReport.SumOfSubtotals | examples/echo_benchmark.go:200-217 | summing the per-group sums equals summing all reports of all groups together |
| Counting.CountConn.Counters | examples/echo_benchmark.go:29-32 | the four counter fields of a connection read as one report, field for field; the summing loop reads each connection through it |
| Counting.CountConn.constructor | examples/echo_benchmark.go:93 | a new counting connection starts with all four counters at zero |
| Counting.CountConn.Read | examples/echo_benchmark.go:35-39 | `Read` returns the underlying connection's `(n, err)` unchanged, adds exactly 1 (wrapping) to the read counter whatever the error, and leaves the other three counters unchanged |
| Counting.CountConn.Write | examples/echo_benchmark.go:41-45 | `Write` returns the underlying `(n, err)` unchanged, adds exactly 1 (wrapping) to the write counter whatever the error, and leaves the other counters unchanged |
| Counting.CountConn.RecordSend | examples/echo_benchmark.go:132 | a successful send adds 1 (wrapping) to the send counter and changes nothing else |
| Counting.CountConn.RecordRecv | examples/echo_benchmark.go:150 | a successful receive adds 1 (wrapping) to the receive counter and changes nothing else |
| ReportLine.Decimal | examples/echo_benchmark.go:59 | `%d` of a natural is a non-empty string of digits with a leading zero exactly when the number is 0 |
| ReportLine.ValueOfDecimal | examples/echo_benchmark.go:59 | reading the digits printed for `n` gives back `n` |
| ReportLine.DigitRunIsLongest | examples/echo_benchmark.go:206-211 | the digits a `%d` conversion consumes are all digits and are followed by the end of input or a non-digit |
| ReportLine.DigitRunOfDecimal | examples/echo_benchmark.go:206-211 | a `%d` conversion consumes exactly the digits of a printed number when a non-digit or the end of input follows it |
| ReportLine.Format | examples/echo_benchmark.go:59 | the line printed with `OutputFormat` at lines 110 and 220; `FormatIsRender` and `RoundTrip` state what it contains and that it reads back |
| ReportLine.Convert | examples/echo_benchmark.go:206-211 | one conversion of the `Sscanf`: label, then `%d` into a `uint32`; `ConvertStored` and `ConvertPrinted` state when it stores a value and when it stops |
| ReportLine.ScanFrom | examples/echo_benchmark.go:206-211 | the values `Sscanf` stores from the k-th conversion on, up to the first that fails; `ScanFromLength` bounds them and `ScanRender` computes them on printed text |
| ReportLine.Parse | examples/echo_benchmark.go:205-211 | `var c CountConn` followed by the `Sscanf`; `PartialParse` and `RoundTrip` state its result |
| ReportLine.ConvertStored | examples/echo_benchmark.go:206-211 | a conversion stores a value only when the input is its label, then a non-empty digit run that denotes the value and ends at the end of input or a non-digit, then the rest |
| ReportLine.ScanFromLength | examples/echo_benchmark.go:206-211 | the scan stores at most one value for each conversion left in the format |
| ReportLine.PartialParse | examples/echo_benchmark.go:205-216 | for any child output, the parsed report holds the stored values in order and zero in every field the scan did not reach |
| ReportLine.FromFields | examples/echo_benchmark.go:205-211 | the scanned values fill the report's counters in order, and counters not reached keep their zero value |
| ReportLine.FormatIsRender | examples/echo_benchmark.go:59 | the printed line is the four labels, each followed by its counter, then a newline |
| ReportLine.ConvertPrinted | examples/echo_benchmark.go:206-211 | after its label, a printed number below 2^32 is stored and scanning continues after it, and a larger number stops the scan |
| ReportLine.ScanRender | examples/echo_benchmark.go:206-211 | scanning a run of printed conversions stores each of their values in order and then continues with the remaining text |
| ReportLine.RoundTrip | examples/echo_benchmark.go:59 | scanning a printed report line gives back the same four counters, for every `uint32` value including 0 and 2^32-1 |
| ReportLine.TruncatedLine | examples/echo_benchmark.go:205-216 | a line cut off after its j-th number parses to those j counters, and the counters it never reaches are zero |
| ReportLine.ScanStopsAtOversized | examples/echo_benchmark.go:206-211 | scanning stops at a number too large for `uint32` and keeps only the values before it |
| ReportLine.OversizedCountStopsParse | examples/echo_benchmark.go:206-211 | a number too large for `uint32` ends the parse: the earlier counters keep their values, and it and all later counters stay zero |
| Benchmark.SumConnections | examples/echo_benchmark.go:101-109 | the per-process report is the wrapping field-wise sum of the counters of all connections |
| Benchmark.ChildShare | examples/echo_benchmark.go:176 | the share passed as `num=` is the quotient truncated toward zero, so what is left over is smaller than `procs` and has the sign of `clientNum` |
| Benchmark.SplitDropsRemainder | examples/echo_benchmark.go:171-176 | the shares passed to the children add up to `procs * (clientNum / procs) <= clientNum`, and exactly `clientNum % procs` connections are left out of them |
| Benchmark.MultiProcess | examples/echo_benchmark.go:163-221 | the benchmark runs locally exactly when `procs <= 1`; otherwise the share passed to each child is the truncated quotient and the total is the wrapping sum of every child's parsed line, including children whose `Wait` failed |
| Benchmark.GrandTotal | examples/echo_benchmark.go:193-217 | if each child printed the sum of its own connections, the parent's grand total is the sum over all connections of all children |

## Left out

- Goroutines and synchronisation are not modelled (lines 82-98 and 113-155): the start barrier, `startChan` and the send/receive goroutines. Only the counter increments at lines 132 and 150 are modelled, as `RecordSend` and `RecordRecv`. Atomicity is not modelled, because the model is sequential.
- Timing is not modelled: `time.Sleep`, the timeout deadline and the `println` diagnostics (lines 81, 100, 127-129, 145-147).
- Networking is not modelled: dialing, `Conn.Close` and the `link` library's sessions and packet framing (lines 49-57, 89, 104, 114-115). That library is not part of this model.
- The wrapped `net.Conn` `Read`/`Write` is a parameter: the caller supplies the `(n, err)` it returns. The byte buffer is not modelled.
- How a child reads its arguments is not modelled. The arguments at lines 174-178 have no leading `-`, so the child's `flag.Parse()` (line 73) stops at `wait` and the child runs with the default flags: one connection, one process, no wait for the release line. The model states the share the parent computes and passes, not the number of connections a child runs.
- Child-process plumbing is not modelled (lines 171-198): command construction, stdin pipes, `Start`, the release newline and `Wait`. A child is given as its captured output and whether `Wait` failed.
- Flag parsing (lines 18-25, 73) and `fmt.Scanln` (line 166) are not modelled. Flag values are method parameters.
- Printing is not modelled: echoing each child's output, the separator line, and writing the final report (lines 110, 203, 219-220). What would be printed is `ReportLine.Format` of the result.
- ReportLine.Convert: Go's `Sscanf` treats a space in the format as one or more input spaces, and lets `%d` skip leading spaces. The model matches the format's literal text character by character. The two agree on every line `Format` produces and on any prefix of one.
- ReportLine.Convert: Go's `%d` into `uint32` rejects out-of-range values via a 64-bit parse. The model rejects every value of 2^32 or more directly. Both stop the scan at the same field.
- Go's `int` (for `clientNum` and `procs`) is modelled as an unbounded integer; 64-bit overflow is not modelled.
