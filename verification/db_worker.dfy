/**
 * The batch writer: each cycle takes up to `max_batch_size` records from the front of
 * the shared queue and, if it took any, renders them into one bulk INSERT statement.
 * The statement is returned instead of being sent to the database. Timestamps and
 * floats are rendered by the given functions; integers are rendered in decimal here.
 */
module DbWorkers {
  import opened Wrappers
  import opened Serializers
  import opened AsyncQueue

  const TableName: string := "monitoring"

  /** The table's columns, in declaration order. */
  datatype Column = Url | TimeStamp | StatusCode | ResponseTime | RegexpMatch

  const Columns: seq<Column> := [Url, TimeStamp, StatusCode, ResponseTime, RegexpMatch]

  /** A column's value: its member name in lower case, as a string enum with automatic values gives it. */
  function ColumnName(c: Column): string
  {
    match c
    case Url => "url"
    case TimeStamp => "time_stamp"
    case StatusCode => "status_code"
    case ResponseTime => "response_time"
    case RegexpMatch => "regexp_match"
  }

  /**
   * `",".join(xs)`: the empty string for no strings, and otherwise text that begins
   * with the first string; `JoinCommaConcat` says where the commas go.
   */
  function JoinComma(xs: seq<string>): (r: string)
    ensures xs == [] ==> r == ""
    ensures xs != [] ==> |xs[0]| <= |r| && r[..|xs[0]|] == xs[0]
    decreases |xs|
  {
    if xs == [] then ""
    else if |xs| == 1 then xs[0]
    else xs[0] + "," + JoinComma(xs[1..])
  }

  /** Joining two non-empty lists puts one comma between the two joined halves. */
  lemma {:induction false} JoinCommaConcat(xs: seq<string>, ys: seq<string>)
    requires xs != [] && ys != []
    ensures JoinComma(xs + ys) == JoinComma(xs) + "," + JoinComma(ys)
    decreases |xs|
  {
    if |xs| == 1 {
      assert (xs + ys)[1..] == ys;
    } else {
      assert (xs + ys)[1..] == xs[1..] + ys;
      JoinCommaConcat(xs[1..], ys);
    }
  }

  /** The column list of the INSERT statement. */
  function ColumnList(): string
  {
    JoinComma(seq(|Columns|, i requires 0 <= i < |Columns| => ColumnName(Columns[i])))
  }

  /** The column list names the columns in declaration order, separated by commas. */
  lemma ColumnListIsDeclarationOrder()
    ensures ColumnList() == "url" + "," + "time_stamp" + "," + "status_code" + "," + "response_time" + "," + "regexp_match"
  {
    var names := seq(|Columns|, i requires 0 <= i < |Columns| => ColumnName(Columns[i]));
    assert names == ["url", "time_stamp", "status_code", "response_time", "regexp_match"];
    JoinFive("url", "time_stamp", "status_code", "response_time", "regexp_match");
  }

  lemma JoinFive(a: string, b: string, c: string, d: string, e: string)
    ensures JoinComma([a, b, c, d, e]) == a + "," + b + "," + c + "," + d + "," + e
  {
    assert [a, b, c, d, e] == [a] + ([b] + ([c] + ([d] + [e])));
    JoinCommaConcat([d], [e]);
    JoinCommaConcat([c], [d] + [e]);
    JoinCommaConcat([b], [c] + ([d] + [e]));
    JoinCommaConcat([a], [b] + ([c] + ([d] + [e])));
  }

  /** The tri-state match as an SQL literal: `NULL` when no pattern was configured, otherwise `TRUE` or `FALSE`. */
  function RenderMatch(m: Option<bool>): (s: string)
    ensures m.None? ==> s == "NULL"
    ensures m == Some(true) ==> s == "TRUE"
    ensures m == Some(false) ==> s == "FALSE"
  {
    match m
    case None => "NULL"
    case Some(b) => if b then "TRUE" else "FALSE"
  }

  /** Reading an SQL boolean literal back: the inverse of `RenderMatch`. */
  function ParseMatch(s: string): Option<Option<bool>>
  {
    if s == "NULL" then Some(None)
    else if s == "TRUE" then Some(Some(true))
    else if s == "FALSE" then Some(Some(false))
    else None
  }

  /** Rendering loses nothing: "no pattern" is never written as `FALSE`, nor any value as another. */
  lemma RenderMatchRoundTrip(m: Option<bool>)
    ensures ParseMatch(RenderMatch(m)) == Some(m)
  {
  }

  lemma RenderMatchInjective(m1: Option<bool>, m2: Option<bool>)
    requires RenderMatch(m1) == RenderMatch(m2)
    ensures m1 == m2
  {
    RenderMatchRoundTrip(m1);
    RenderMatchRoundTrip(m2);
  }

  predicate IsDigit(c: char)
  {
    '0' <= c <= '9'
  }

  function DigitChar(d: nat): (c: char)
    requires d < 10
    ensures IsDigit(c) && c as int - '0' as int == d
  {
    ('0' as int + d) as char
  }

  /** The decimal digits of `n`, with no leading zero. */
  function NatToString(n: nat): (s: string)
    ensures |s| >= 1 && forall i :: 0 <= i < |s| ==> IsDigit(s[i])
    ensures |s| > 1 ==> s[0] != '0'
    decreases n
  {
    if n < 10 then [DigitChar(n)] else NatToString(n / 10) + [DigitChar(n % 10)]
  }

  /** The number a string of decimal digits denotes. */
  function DigitsValue(s: string): nat
    requires forall i :: 0 <= i < |s| ==> IsDigit(s[i])
    decreases |s|
  {
    if s == [] then 0
    else
      assert IsDigit(s[|s| - 1]);
      DigitsValue(s[..|s| - 1]) * 10 + (s[|s| - 1] as int - '0' as int)
  }

  lemma {:induction false} NatToStringRoundTrip(n: nat)
    ensures DigitsValue(NatToString(n)) == n
    decreases n
  {
    if n >= 10 {
      var s := NatToString(n);
      assert s[..|s| - 1] == NatToString(n / 10);
      NatToStringRoundTrip(n / 10);
    }
  }

  /** `str(n)` for an integer: a minus sign exactly when `n` is negative, then decimal digits. */
  function IntToString(n: int): (s: string)
    ensures |s| >= 1 && (s[0] == '-' <==> n < 0)
    ensures n < 0 ==> |s| >= 2 && forall i :: 1 <= i < |s| ==> IsDigit(s[i])
    ensures n >= 0 ==> forall i :: 0 <= i < |s| ==> IsDigit(s[i])
  {
    if n < 0 then "-" + NatToString(-n) else NatToString(n)
  }

  /** Reading a decimal integer back. */
  function ParseInt(s: string): (r: Option<int>)
  {
    if s == [] then None
    else if s[0] == '-' then
      if |s| > 1 && forall i :: 1 <= i < |s| ==> IsDigit(s[i]) then Some(0 - DigitsValue(s[1..]) as int) else None
    else if forall i :: 0 <= i < |s| ==> IsDigit(s[i]) then Some(DigitsValue(s))
    else None
  }

  /** The status code rendered in a row reads back as the same integer. */
  lemma {:induction false} IntToStringRoundTrip(n: int)
    ensures ParseInt(IntToString(n)) == Some(n)
  {
    if n < 0 {
      var digits := NatToString(-n);
      assert ("-" + digits)[1..] == digits;
      NatToStringRoundTrip(-n);
    } else {
      NatToStringRoundTrip(n);
    }
  }

  /** How timestamps and floats are written as text. */
  datatype Renderers = Renderers(timestamp: real -> string, float: real -> string)

  /** One value tuple of the INSERT statement; `RowFollowsColumnOrder` states its layout. */
  function RenderRow(r: MonitoringResult, render: Renderers): string
  {
    "(" + "'" + r.url + "'" + ", " + "'" + render.timestamp(r.timestamp) + "'" + "," + IntToString(r.statusCode)
      + "," + render.float(r.responseTime) + "," + RenderMatch(r.regexpMatch) + ")"
  }

  /** The values of a row come in the order of the column list: the i-th value is the one for the i-th column. */
  lemma RowFollowsColumnOrder(r: MonitoringResult, render: Renderers)
    ensures RenderRow(r, render) ==
      "(" + ValueLiteral(r, Columns[0], render) + ", " + ValueLiteral(r, Columns[1], render)
      + "," + ValueLiteral(r, Columns[2], render) + "," + ValueLiteral(r, Columns[3], render)
      + "," + ValueLiteral(r, Columns[4], render) + ")"
  {
    var ts := render.timestamp(r.timestamp);
    QuotedAppend("(", r.url);
    QuotedAppend("(" + "'" + r.url + "'" + ", ", ts);
  }

  /** The literal a record supplies for a column. */
  function ValueLiteral(r: MonitoringResult, c: Column, render: Renderers): string
  {
    match c
    case Url => "'" + r.url + "'"
    case TimeStamp => "'" + render.timestamp(r.timestamp) + "'"
    case StatusCode => IntToString(r.statusCode)
    case ResponseTime => render.float(r.responseTime)
    case RegexpMatch => RenderMatch(r.regexpMatch)
  }

  lemma QuotedAppend(prefix: string, s: string)
    ensures prefix + ("'" + s + "'") == prefix + "'" + s + "'"
  {
  }

  /** One row per record of the batch, in batch order. */
  function RenderRows(batch: seq<MonitoringResult>, render: Renderers): (rows: seq<string>)
    ensures |rows| == |batch|
    ensures forall i :: 0 <= i < |batch| ==> rows[i] == RenderRow(batch[i], render)
  {
    seq(|batch|, i requires 0 <= i < |batch| => RenderRow(batch[i], render))
  }

  /** The loop that renders the rows of a batch, one record at a time, in batch order. */
  method BuildRows(entries: seq<MonitoringResult>, render: Renderers) returns (rows: seq<string>)
    ensures rows == RenderRows(entries, render)
  {
    rows := [];
    for k := 0 to |entries|
      invariant |rows| == k
      invariant forall j :: 0 <= j < k ==> rows[j] == RenderRow(entries[j], render)
    {
      rows := rows + [RenderRow(entries[k], render)];
    }
  }

  /** The text of the INSERT statement that precedes its rows. */
  function InsertHeader(): string
  {
    "\n        INSERT INTO\n            " + TableName + " (" + ColumnList() + ")\n        VALUES\n        "
  }

  /** The header inserts into the `monitoring` table, naming its columns in declaration order. */
  lemma InsertHeaderText()
    ensures InsertHeader() == "\n        INSERT INTO\n            " + "monitoring" + " ("
                 + "url" + "," + "time_stamp" + "," + "status_code" + "," + "response_time" + "," + "regexp_match"
                 + ")\n        VALUES\n        "
  {
    ColumnListIsDeclarationOrder();
  }

  /** The statement a cycle issues for the records it took: none when it took none. */
  function InsertStatement(batch: seq<MonitoringResult>, render: Renderers): (command: Option<string>)
    ensures command.None? <==> batch == []
  {
    if batch == [] then None else Some(InsertHeader() + JoinComma(RenderRows(batch, render)))
  }

  /** The statement for a single record is the header followed by that record's row. */
  lemma StatementOfOne(r: MonitoringResult, render: Renderers)
    ensures InsertStatement([r], render) == Some(InsertHeader() + RenderRow(r, render))
  {
    assert RenderRows([r], render) == [RenderRow(r, render)];
  }

  /**
   * The statement for a longer batch extends the statement for its first part by a
   * comma and the rows of the rest, so rows appear once each, in batch order.
   */
  lemma {:induction false} StatementExtends(a: seq<MonitoringResult>, b: seq<MonitoringResult>, render: Renderers)
    requires a != [] && b != []
    ensures InsertStatement(a + b, render).value == InsertStatement(a, render).value + "," + JoinComma(RenderRows(b, render))
  {
    RenderRowsConcat(a, b, render);
    PrefixedJoinConcat(InsertHeader(), RenderRows(a, render), RenderRows(b, render));
  }

  lemma PrefixedJoinConcat(prefix: string, xs: seq<string>, ys: seq<string>)
    requires xs != [] && ys != []
    ensures prefix + JoinComma(xs + ys) == prefix + JoinComma(xs) + "," + JoinComma(ys)
  {
    JoinCommaConcat(xs, ys);
  }

  lemma RenderRowsConcat(a: seq<MonitoringResult>, b: seq<MonitoringResult>, render: Renderers)
    ensures RenderRows(a + b, render) == RenderRows(a, render) + RenderRows(b, render)
  {
    var lhs, rhs := RenderRows(a + b, render), RenderRows(a, render) + RenderRows(b, render);
    assert |lhs| == |rhs|;
    forall i | 0 <= i < |lhs| ensures lhs[i] == rhs[i] {
      if i < |a| {
        assert (a + b)[i] == a[i];
      } else {
        assert (a + b)[i] == b[i - |a|];
      }
    }
  }

  /** The batches that successive cycles take from a queue that receives nothing meanwhile. */
  function DrainCycles<T>(items: seq<T>, n: nat, cycles: nat): seq<seq<T>>
    decreases cycles
  {
    if cycles == 0 then []
    else
      var (batch, rest) := TakeUpTo(items, n);
      [batch] + DrainCycles(rest, n, cycles - 1)
  }

  /** The operations of `cycles` drains of up to `n` items each. */
  function Drains<T>(n: nat, cycles: nat): (ops: seq<Op<T>>)
    ensures |ops| == cycles && forall k :: 0 <= k < cycles ==> ops[k] == Drain(n)
  {
    seq(cycles, k requires 0 <= k < cycles => Drain(n))
  }

  /**
   * `DrainCycles` agrees with `Apply` on a list of drains: the batches taken, followed
   * by what the queue then holds, are the queue's original contents.
   */
  lemma {:induction false} DrainCyclesIsApply<T>(items: seq<T>, maxsize: int, n: nat, cycles: nat)
    ensures Flatten(DrainCycles(items, n, cycles)) + Apply(items, maxsize, Drains<T>(n, cycles)) == items
    decreases cycles
  {
    if cycles > 0 {
      var (batch, rest) := TakeUpTo(items, n);
      assert Drains<T>(n, cycles)[1..] == Drains<T>(n, cycles - 1);
      assert Apply(items, maxsize, Drains<T>(n, cycles)) == Apply(rest, maxsize, Drains<T>(n, cycles - 1));
      DrainCyclesIsApply(rest, maxsize, n, cycles - 1);
      assert DrainCycles(items, n, cycles)[1..] == DrainCycles(rest, n, cycles - 1);
    }
  }

  /** The items in a list of batches, in order. */
  function Flatten<T>(batches: seq<seq<T>>): seq<T>
    decreases |batches|
  {
    if batches == [] then [] else batches[0] + Flatten(batches[1..])
  }

  /**
   * Successive cycles hand every queued item to exactly one batch, in FIFO order, none
   * larger than `n`: after `cycles` cycles the first `min(cycles * n, |items|)` items have been taken.
   */
  lemma {:induction false} DrainCyclesPartition<T>(items: seq<T>, n: nat, cycles: nat)
    ensures |DrainCycles(items, n, cycles)| == cycles
    ensures forall k :: 0 <= k < cycles ==> |DrainCycles(items, n, cycles)[k]| <= n
    ensures Flatten(DrainCycles(items, n, cycles)) == items[..if cycles * n <= |items| then cycles * n else |items|]
    decreases cycles
  {
    if cycles > 0 {
      var (batch, rest) := TakeUpTo(items, n);
      DrainCyclesPartition(rest, n, cycles - 1);
      var m := if (cycles - 1) * n <= |rest| then (cycles - 1) * n else |rest|;
      var total := if cycles * n <= |items| then cycles * n else |items|;
      assert cycles * n == n + (cycles - 1) * n;
      assert total == |batch| + m;
      assert items[..total] == batch + rest[..m];
    }
  }

  /** Five queued records with a batch size of 2 are written as batches of 2, 2 and 1, in three statements. */
  lemma FiveRecordsInBatchesOfTwo(items: seq<MonitoringResult>, render: Renderers)
    requires |items| == 5
    ensures var batches := DrainCycles(items, 2, 4);
      && |batches[0]| == 2 && |batches[1]| == 2 && |batches[2]| == 1 && batches[3] == []
      && batches[0] + batches[1] + batches[2] == items
      && InsertStatement(batches[0], render).Some? && InsertStatement(batches[1], render).Some?
      && InsertStatement(batches[2], render).Some? && InsertStatement(batches[3], render).None?
  {
    var batches := DrainCycles(items, 2, 4);
    assert batches[0] == items[..2];
    assert batches[1] == items[2..4];
    assert batches[2] == items[4..];
    assert batches[0] + batches[1] + batches[2] == items;
  }

  /** The writer's settings: its period and the most records it takes per cycle. */
  datatype DbWorkerSettings = DbWorkerSettings(period: real, maxBatchSize: nat)

  /** `DbWorker`: the single consumer of the shared queue. */
  class DbWorker {
    var period: real
    var name: string
    var queue: Queue<MonitoringResult>
    var dsn: string
    var maxBatchSize: nat

    constructor (dsn: string, settings: DbWorkerSettings, queue: Queue<MonitoringResult>, name: string := "DBWorker")
      ensures this.period == settings.period && this.name == name
      ensures this.queue == queue && this.dsn == dsn && this.maxBatchSize == settings.maxBatchSize
    {
      this.period := settings.period;
      this.name := name;
      this.queue := queue;
      this.dsn := dsn;
      this.maxBatchSize := settings.maxBatchSize;
    }

    /**
     * `task`: take up to `maxBatchSize` records from the front of the queue, stopping
     * early when it empties, and build the one statement that writes them. The records
     * taken are not put back, whatever happens to the statement.
     */
    method Task(render: Renderers) returns (entries: seq<MonitoringResult>, command: Option<string>)
      requires queue.Valid()
      modifies queue
      ensures queue.Valid()
      ensures (entries, queue.items) == TakeUpTo(old(queue.items), maxBatchSize)
      ensures command == InsertStatement(entries, render)
    {
      entries := [];
      for i := 0 to maxBatchSize
        invariant queue.Valid()
        invariant |entries| == i
        invariant entries + queue.items == old(queue.items)
      {
        if queue.Empty() {
          break;
        }
        var entry := queue.Get();
        entries := entries + [entry];
      }

      if entries == [] {
        command := None;
        return;
      }
      var rows := BuildRows(entries, render);
      var rowsToInsert := JoinComma(rows);
      var statement := InsertHeader();
      statement := statement + rowsToInsert;
      command := Some(statement);
    }
  }
}
