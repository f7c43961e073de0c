/** `writeRows` of the server driving the CSV writer: buffers overwritten for every row, against a map over rows. */
module RowPipeline {
  import opened Wrappers
  import I = Interval

  /** A value a driver delivers: nil, an interval, or something only the Go library can print, by number. */
  datatype Any = Nil | IntervalValue(iv: I.Interval) | Other(n: nat)

  datatype Column = Column(name: string, kind: string)

  datatype Converter = DateToStr | IntervalToStr | TimeToStr | TimestampToStr | BlobToStr | AnyToStr

  /** How the Go library prints a value, by converter. */
  type Library = (Converter, Any) -> string

  datatype Error = ErrNoHeaderWritten | ErrCountMismatch | ErrSink | ErrContext | ErrColumns | ErrScan

  // ---------- The pure form

  function ConverterFor(kind: string): Converter {
    if kind == "DATE" then DateToStr
    else if kind == "INTERVAL" then IntervalToStr
    else if kind == "TIME" then TimeToStr
    else if kind == "TIMESTAMP" then TimestampToStr
    else if kind == "BLOB" then BlobToStr
    else AnyToStr
  }

  ghost function Cell(lib: Library, nullStr: string, c: Column, v: Any): string {
    if v.Nil? then nullStr
    else if ConverterFor(c.kind).IntervalToStr? && v.IntervalValue? then I.IntervalText(v.iv)
    else lib(ConverterFor(c.kind), v)
  }

  ghost function Row(lib: Library, nullStr: string, cols: seq<Column>, vs: seq<Any>): (r: seq<string>)
    requires |vs| == |cols|
    ensures |r| == |cols|
  {
    seq(|cols|, i requires 0 <= i < |cols| => Cell(lib, nullStr, cols[i], vs[i]))
  }

  function Header(cols: seq<Column>): (r: seq<string>)
    ensures |r| == |cols|
  {
    seq(|cols|, i requires 0 <= i < |cols| => cols[i].name)
  }

  /** How one value of a column of database type `kind` is to be printed. */
  ghost predicate Prints(lib: Library, nullStr: string, kind: string, v: Any, text: string) {
    && (v.Nil? ==> text == nullStr)
    && (v.IntervalValue? && kind == "INTERVAL" ==> text == I.IntervalText(v.iv))
    && (v.Other? && kind == "INTERVAL" ==> text == lib(IntervalToStr, v))
    && (!v.Nil? ==> (kind == "DATE" ==> text == lib(DateToStr, v)) && (kind == "TIME" ==> text == lib(TimeToStr, v)))
    && (!v.Nil? && kind == "TIMESTAMP" ==> text == lib(TimestampToStr, v))
    && (!v.Nil? && kind == "BLOB" ==> text == lib(BlobToStr, v))
    && (!v.Nil? && kind !in {"DATE", "INTERVAL", "TIME", "TIMESTAMP", "BLOB"} ==> text == lib(AnyToStr, v))
  }

  /** A record that prints the values of one row, column by column. */
  ghost predicate PrintsRow(lib: Library, nullStr: string, cols: seq<Column>, vs: seq<Any>, record: seq<string>) {
    |record| == |cols| == |vs|
    && forall i :: 0 <= i < |cols| ==> Prints(lib, nullStr, cols[i].kind, vs[i], record[i])
  }

  lemma RowPrints(lib: Library, nullStr: string, cols: seq<Column>, vs: seq<Any>)
    requires |vs| == |cols|
    ensures PrintsRow(lib, nullStr, cols, vs, Row(lib, nullStr, cols, vs))
  {
  }

  // ---------- What is to be written

  /**
    A query result.  `types` is None when the column types cannot be had.  `full` is
    the whole answer; a row is None when scanning it fails.  Iteration delivers the rows
    before `stop` and then ends, with an error when that is early: `failed` is what
    `rows.Err` would say.
   */
  datatype Rows = Rows(types: Option<seq<Column>>, full: seq<Option<seq<Any>>>, stop: nat, failed: bool)

  ghost predicate Sound(rows: Rows) {
    rows.stop <= |rows.full| && (rows.failed <==> rows.stop < |rows.full|)
  }

  /** Row `i` arrives in full. */
  predicate Scans(rows: Rows, cols: seq<Column>, i: nat)
    requires i < |rows.full|
  {
    rows.full[i].Some? && |rows.full[i].value| == |cols|
  }

  /** The columns are known and the first `n` rows can be scanned. */
  ghost predicate Arrive(rows: Rows, n: nat) {
    n <= |rows.full| && rows.types.Some? && forall i :: 0 <= i < n ==> Scans(rows, rows.types.value, i)
  }

  // ---------- The writers

  /** `encoding/csv.Writer`: takes each record as it is at that moment; may fail from some write on. */
  class Sink {
    var rows: seq<seq<string>>
    const room: nat
    const flushes: bool

    constructor (room: nat, flushes: bool)
      ensures rows == [] && this.room == room && this.flushes == flushes
    {
      rows, this.room, this.flushes := [], room, flushes;
    }

    method Write(record: array<string>) returns (ok: bool)
      modifies this
      ensures ok <==> old(|rows|) < room
      ensures rows == old(rows) + if ok then [record[..]] else []
    {
      ok := |rows| < room;
      if ok {
        rows := rows + [record[..]];
      }
    }
  }

  class CsvWriter {
    const w: Sink
    const nullStr: string
    const lib: Library
    var records: array?<string>
    var converters: array?<Converter>

    constructor (w: Sink, nullStr: string, lib: Library)
      ensures this.w == w && this.nullStr == nullStr && this.lib == lib && records == null && converters == null
    {
      this.w, this.nullStr, this.lib := w, nullStr, lib;
      records, converters := null, null;
    }

    /** The header and the conversions of the first `n` rows. */
    ghost function Output(rows: Rows, n: nat): (out: seq<seq<string>>)
      requires Arrive(rows, n)
      ensures |out| == n + 1
    {
      var cols := rows.types.value;
      if n == 0 then [Header(cols)]
      else
        assert Scans(rows, cols, n - 1);
        Output(rows, n - 1) + [Row(lib, nullStr, cols, rows.full[n - 1].value)]
    }

    /** The writer is set up for these columns. */
    ghost predicate Ready(cols: seq<Column>)
      reads this, converters
    {
      && records != null && converters != null && records.Length == converters.Length == |cols|
      && forall i :: 0 <= i < |cols| ==> converters[i] == ConverterFor(cols[i].kind)
    }

    method WriteHeader(cols: seq<Column>) returns (ok: bool)
      modifies this, w
      ensures Ready(cols) && fresh(records) && fresh(converters)
      ensures ok <==> old(|w.rows|) < w.room
      ensures w.rows == old(w.rows) + if ok then [Header(cols)] else []
    {
      var rs := new string[|cols|](_ => "");
      var cs := new Converter[|cols|](_ => AnyToStr);
      for i := 0 to |cols|
        invariant w.rows == old(w.rows)
        invariant forall j :: 0 <= j < i ==> rs[j] == cols[j].name && cs[j] == ConverterFor(cols[j].kind)
      {
        rs[i] := cols[i].name;
        cs[i] := ConverterFor(cols[i].kind);
      }
      records, converters := rs, cs;
      assert rs[..] == Header(cols);
      ok := w.Write(rs);
    }

    /** Overwrites the record with the converted values and hands it on; the values are left alone. */
    method WriteBody(values: array<Any>, ghost cols: seq<Column>) returns (r: Option<Error>)
      requires records != null ==> Ready(cols)
      modifies w, records
      ensures records == null ==> r == Some(ErrNoHeaderWritten)
      ensures records != null && values.Length != |cols| ==> r == Some(ErrCountMismatch)
      ensures records != null && values.Length == |cols| ==>
                r == if old(|w.rows|) < w.room then None else Some(ErrSink)
      ensures w.rows == old(w.rows) + if r.None? then [Row(lib, nullStr, cols, values[..])] else []
      ensures r.None? ==> values.Length == |cols| && PrintsRow(lib, nullStr, cols, values[..], w.rows[old(|w.rows|)])
    {
      if records == null {
        return Some(ErrNoHeaderWritten);
      }
      if records.Length != values.Length {
        return Some(ErrCountMismatch);
      }
      ghost var row := Row(lib, nullStr, cols, values[..]);
      for i := 0 to values.Length
        invariant w.rows == old(w.rows)
        invariant forall j :: 0 <= j < i ==> records[j] == row[j]
      {
        var v := values[i];
        assert row[i] == Cell(lib, nullStr, cols[i], v);
        if v.Nil? {
          records[i] := nullStr;
          continue;
        }
        if converters[i].IntervalToStr? && v.IntervalValue? {
          var text := I.IntervalToStr(v.iv);
          records[i] := text;
        } else {
          records[i] := lib(converters[i], v);
        }
      }
      assert records[..] == row;
      RowPrints(lib, nullStr, cols, values[..]);
      var ok := w.Write(records);
      return if ok then None else Some(ErrSink);
    }

    method Flush() returns (ok: bool)
      ensures ok <==> w.flushes
    {
      ok := w.flushes;
    }
  }

  // ---------- writeRows

  class Receiver {
    var v: Any

    constructor ()
      ensures v == Nil
    {
      v := Nil;
    }
  }

  ghost predicate Separate(receivers: array<Receiver>)
    reads receivers
  {
    forall i, j :: 0 <= i < j < receivers.Length ==> receivers[i] != receivers[j]
  }

  /** `rows.Scan`: fills the receivers from a row of as many values. */
  method Scan(row: Option<seq<Any>>, receivers: array<Receiver>) returns (ok: bool)
    requires Separate(receivers)
    modifies set i | 0 <= i < receivers.Length :: receivers[i]
    ensures ok <==> row.Some? && |row.value| == receivers.Length
    ensures ok ==> forall i :: 0 <= i < receivers.Length ==> receivers[i].v == row.value[i]
  {
    if row.None? || |row.value| != receivers.Length {
      return false;
    }
    for i := 0 to receivers.Length
      invariant forall j :: 0 <= j < i ==> receivers[j].v == row.value[j]
    {
      receivers[i].v := row.value[i];
    }
    return true;
  }

  /** No look at the context finds it done: there are two before the rows and one for each row. */
  ghost predicate Undisturbed(ctxErr: nat -> bool, n: nat) {
    forall k :: 0 <= k < n + 2 ==> !ctxErr(k)
  }

  /** Overwrites the values with what the receivers hold now. */
  method TakeValues(receivers: array<Receiver>, values: array<Any>)
    requires receivers.Length == values.Length
    modifies values
    ensures forall i :: 0 <= i < values.Length ==> values[i] == receivers[i].v
  {
    for i := 0 to receivers.Length
      invariant forall j :: 0 <= j < i ==> values[j] == receivers[j].v
    {
      values[i] := receivers[i].v;
    }
  }

  method NewReceivers(n: nat) returns (receivers: array<Receiver>)
    ensures fresh(receivers) && receivers.Length == n && Separate(receivers)
    ensures forall i :: 0 <= i < n ==> fresh(receivers[i])
  {
    var first := new Receiver();
    receivers := new Receiver[n](_ => first);
    for i := 0 to n
      invariant forall j :: 0 <= j < i ==> fresh(receivers[j]) && receivers[j] != first
      invariant forall j, k :: 0 <= j < k < i ==> receivers[j] != receivers[k]
      invariant fresh(first) && forall j :: i <= j < n ==> receivers[j] == first
    {
      receivers[i] := new Receiver();
    }
  }

  /** One turn of the loop: scan, take the values over, write. */
  method WriteRow(fw: CsvWriter, ghost cols: seq<Column>, row: Option<seq<Any>>, receivers: array<Receiver>, values: array<Any>)
    returns (r: Option<Error>)
    requires fw.Ready(cols) && Separate(receivers) && receivers.Length == values.Length == |cols|
    modifies fw.w, fw.records, values, set i | 0 <= i < receivers.Length :: receivers[i]
    ensures fw.Ready(cols)
    ensures r == if row.None? || |row.value| != |cols| then Some(ErrScan)
                 else if old(|fw.w.rows|) >= fw.w.room then Some(ErrSink) else None
    ensures fw.w.rows == old(fw.w.rows) + if r.None? then [Row(fw.lib, fw.nullStr, cols, row.value)] else []
  {
    var ok := Scan(row, receivers);
    if !ok {
      return Some(ErrScan);
    }
    TakeValues(receivers, values);
    assert values[..] == row.value;
    r := fw.WriteBody(values, cols);
  }

  // ---------- What the sink then holds, and why

  /** After `before` the sink holds the column names, then one record for each of the first `n` rows, in order. */
  ghost predicate Printed(lib: Library, nullStr: string, rows: Rows, n: nat, before: seq<seq<string>>, after: seq<seq<string>>)
    requires Arrive(rows, n)
  {
    var cols := rows.types.value;
    && before <= after && |after| == |before| + 1 + n
    && |after[|before|]| == |cols| && (forall i :: 0 <= i < |cols| ==> after[|before|][i] == cols[i].name)
    && forall j :: 0 <= j < n ==>
         assert Scans(rows, cols, j);
         PrintsRow(lib, nullStr, cols, rows.full[j].value, after[|before| + 1 + j])
  }

  lemma {:induction false} OutputPrints(fw: CsvWriter, rows: Rows, n: nat, before: seq<seq<string>>)
    requires Arrive(rows, n)
    ensures Printed(fw.lib, fw.nullStr, rows, n, before, before + fw.Output(rows, n))
    decreases n
  {
    if n > 0 {
      assert Scans(rows, rows.types.value, n - 1);
      OutputPrints(fw, rows, n - 1, before);
      RowPrints(fw.lib, fw.nullStr, rows.types.value, rows.full[n - 1].value);
      var less, all := before + fw.Output(rows, n - 1), before + fw.Output(rows, n);
      assert all == less + [Row(fw.lib, fw.nullStr, rows.types.value, rows.full[n - 1].value)];
    }
  }

  /** The header and `n` rows got through: the context was fine each time, they arrived, and there was room. */
  ghost predicate Through(ctxErr: nat -> bool, rows: Rows, room: nat, before: nat, n: nat) {
    n <= rows.stop && Undisturbed(ctxErr, n) && Arrive(rows, n) && before + 1 + n <= room
  }

  /** Row `n` is the next to be delivered, and what precedes it got through. */
  ghost predicate Next(ctxErr: nat -> bool, rows: Rows, room: nat, before: nat, n: nat) {
    n < rows.stop && Through(ctxErr, rows, room, before, n)
  }

  /** With `written` records written, `r` names what stopped the writing; None when nothing did. */
  ghost predicate Cause(ctxErr: nat -> bool, rows: Rows, room: nat, flushes: bool, before: nat, written: nat, r: Option<Error>)
    requires Sound(rows)
  {
    match r
    case None => written == rows.stop + 1 && Through(ctxErr, rows, room, before, rows.stop) && flushes
    case Some(ErrColumns) => written == 0 && !ctxErr(0) && rows.types.None?
    case Some(ErrContext) =>
      || (written == 0 && ctxErr(0))
      || (written == 1 && !ctxErr(0) && rows.types.Some? && before < room && ctxErr(1))
      || (written > 0 && Next(ctxErr, rows, room, before, written - 1) && ctxErr(written + 1))
    case Some(ErrScan) =>
      written > 0 && Next(ctxErr, rows, room, before, written - 1) && !ctxErr(written + 1)
      && !Scans(rows, rows.types.value, written - 1)
    case Some(ErrSink) =>
      || (written == 0 && !ctxErr(0) && rows.types.Some? && before >= room)
      || (written > 0 && Next(ctxErr, rows, room, before, written - 1) && !ctxErr(written + 1)
          && Scans(rows, rows.types.value, written - 1) && before + written >= room)
      || (written == rows.stop + 1 && Through(ctxErr, rows, room, before, rows.stop) && !flushes)
    case _ => false
  }

  /** Between `before` and `after` the sink got nothing, or the header and the records of the first rows. */
  ghost predicate Wrote(fw: CsvWriter, rows: Rows, before: seq<seq<string>>, after: seq<seq<string>>) {
    after == before
    || (|before| < |after| && Arrive(rows, |after| - |before| - 1)
        && after == before + fw.Output(rows, |after| - |before| - 1))
  }

  /** What a success means: it has every row delivered, and the whole answer if and only if the iteration did not fail. */
  lemma SuccessMeans(ctxErr: nat -> bool, fw: CsvWriter, rows: Rows, before: seq<seq<string>>, after: seq<seq<string>>)
    requires Sound(rows) && |before| <= |after| && Wrote(fw, rows, before, after)
    requires Cause(ctxErr, rows, fw.w.room, fw.w.flushes, |before|, |after| - |before|, None)
    ensures Arrive(rows, rows.stop) && after == before + fw.Output(rows, rows.stop)
    ensures Printed(fw.lib, fw.nullStr, rows, rows.stop, before, after)
    ensures !rows.failed <==> Arrive(rows, |rows.full|) && after == before + fw.Output(rows, |rows.full|)
  {
    OutputPrints(fw, rows, rows.stop, before);
  }

  /** Only a success has everything go well. */
  lemma CauseOfFailure(ctxErr: nat -> bool, rows: Rows, room: nat, flushes: bool, before: nat, written: nat, r: Option<Error>)
    requires Sound(rows) && Cause(ctxErr, rows, room, flushes, before, written, r) && r.Some?
    ensures !(Arrive(rows, rows.stop) && Undisturbed(ctxErr, rows.stop) && before + rows.stop < room && flushes)
  {
  }

  /** The loop over the rows, and the final flush. */
  method WriteBodies(ctxErr: nat -> bool, fw: CsvWriter, rows: Rows, cols: seq<Column>, ghost before: seq<seq<string>>)
    returns (r: Option<Error>)
    requires Sound(rows) && rows.types == Some(cols) && fw.Ready(cols) && Undisturbed(ctxErr, 0)
    requires fw.w.rows == before + fw.Output(rows, 0) && |fw.w.rows| <= fw.w.room
    modifies fw.w, fw.records
    ensures |before| < |fw.w.rows| && Wrote(fw, rows, before, fw.w.rows)
    ensures Cause(ctxErr, rows, fw.w.room, fw.w.flushes, |before|, |fw.w.rows| - |before|, r)
  {
    var receivers := NewReceivers(|cols|);
    var values := new Any[|cols|](_ => Nil);
    for i := 0 to rows.stop
      invariant fw.Ready(cols)
      invariant Separate(receivers) && forall j :: 0 <= j < receivers.Length ==> fresh(receivers[j])
      invariant Through(ctxErr, rows, fw.w.room, |before|, i)
      invariant fw.w.rows == before + fw.Output(rows, i)
    {
      if ctxErr(i + 2) {
        return Some(ErrContext);
      }
      r := WriteRow(fw, cols, rows.full[i], receivers, values);
      if r.Some? {
        return;
      }
      assert Scans(rows, cols, i);
    }
    var ok := fw.Flush();
    return if ok then None else Some(ErrSink);
  }

  /**
    What reaches the sink is always the header and the conversions of the first rows, in
    order; on success of every row delivered, and of the whole answer if and only if the
    iteration did not fail.  `ctxErr(k)` is the outcome of the k-th look at the context.
   */
  method WriteRows(ctxErr: nat -> bool, fw: CsvWriter, rows: Rows) returns (r: Option<Error>)
    requires Sound(rows)
    modifies fw, fw.w
    ensures |fw.w.rows| >= old(|fw.w.rows|) && Wrote(fw, rows, old(fw.w.rows), fw.w.rows)
    ensures Cause(ctxErr, rows, fw.w.room, fw.w.flushes, old(|fw.w.rows|), |fw.w.rows| - old(|fw.w.rows|), r)
    ensures r.None? <==> Arrive(rows, rows.stop) && Undisturbed(ctxErr, rows.stop)
                         && old(|fw.w.rows|) + rows.stop < fw.w.room && fw.w.flushes
    ensures r.None? ==> Arrive(rows, rows.stop) && fw.w.rows == old(fw.w.rows) + fw.Output(rows, rows.stop)
                        && Printed(fw.lib, fw.nullStr, rows, rows.stop, old(fw.w.rows), fw.w.rows)
    ensures r.None? ==>
              (!rows.failed <==> Arrive(rows, |rows.full|) && fw.w.rows == old(fw.w.rows) + fw.Output(rows, |rows.full|))
  {
    if ctxErr(0) {
      return Some(ErrContext);
    }
    if rows.types.None? {
      return Some(ErrColumns);
    }
    var cols := rows.types.value;
    var ok := fw.WriteHeader(cols);
    if !ok {
      return Some(ErrSink);
    }
    ghost var before := old(fw.w.rows);
    assert fw.w.rows == before + fw.Output(rows, 0);
    if ctxErr(1) {
      return Some(ErrContext);
    }
    r := WriteBodies(ctxErr, fw, rows, cols, before);
    if r.None? {
      SuccessMeans(ctxErr, fw, rows, before, fw.w.rows);
    } else {
      CauseOfFailure(ctxErr, rows, fw.w.room, fw.w.flushes, |before|, |fw.w.rows| - |before|, r);
    }
  }

  lemma {:induction false} OutputGrows(fw: CsvWriter, rows: Rows, k: nat, n: nat)
    requires Arrive(rows, n) && k <= n
    ensures Arrive(rows, k) && fw.Output(rows, k) <= fw.Output(rows, n)
    decreases n
  {
    if k < n {
      OutputGrows(fw, rows, k, n - 1);
    }
  }

  /** What the rows delivered print is the beginning of the whole answer, and all of it if and only if iteration did not fail. */
  lemma CompleteIff(fw: CsvWriter, rows: Rows)
    requires Sound(rows) && Arrive(rows, |rows.full|)
    ensures Arrive(rows, rows.stop) && fw.Output(rows, rows.stop) <= fw.Output(rows, |rows.full|)
    ensures fw.Output(rows, rows.stop) == fw.Output(rows, |rows.full|) <==> !rows.failed
  {
    OutputGrows(fw, rows, rows.stop, |rows.full|);
  }

  /** A success that is no complete answer: one row of two is delivered, the iteration fails, and WriteRows reports nothing. */
  method TruncatedSuccess(lib: Library) returns (fw: CsvWriter, rows: Rows, r: Option<Error>)
    ensures Sound(rows) && rows.failed && Arrive(rows, |rows.full|) && |rows.full| == 2
    ensures r.None? && fw.w.rows == fw.Output(rows, 1) && fw.w.rows != fw.Output(rows, 2)
  {
    var sink := new Sink(9, true);
    fw := new CsvWriter(sink, "NULL", lib);
    rows := Rows(Some([Column("V", "INTEGER")]), [Some([Nil]), Some([Nil])], 1, true);
    r := WriteRows(_ => false, fw, rows);
  }
}
