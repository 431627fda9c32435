/** The workload generator: repeat a source until a byte target is reached, shifting ids and times by
    one span per cycle so that every cycle continues the one before. */
module Workload {
  import opened Events
  import opened Parser
  import opened Arithmetic

  datatype Normalizer = Normalizer(enabled: bool, baseID: int, lastID: int, baseTime: int, lastTime: int, rowCount: nat)
  {
    function IdSpan(): int {
      lastID - baseID + 1
    }

    function TimeSpan(): int {
      lastTime - baseTime + 1
    }
  }

  const OFF := Normalizer(false, 0, 0, 0, 0, 0)

  // ----- JSONL sources -----

  /** A line whose ids and time the generator can shift. */
  predicate Shiftable(line: JsonLine) {
    && line.Object? && line.obj.eventType == "depth"
    && line.obj.firstUpdateID.Some? && line.obj.finalUpdateID.Some? && line.obj.eventTime.Some?
  }

  /** The normalizer is on exactly when every line is shiftable, and then spans first to last line. */
  ghost predicate IsJsonNormalizer(n: Normalizer, lines: seq<JsonLine>) {
    if lines != [] && forall i :: 0 <= i < |lines| ==> Shiftable(lines[i]) then
      n == Normalizer(true, lines[0].obj.firstUpdateID.value, lines[|lines| - 1].obj.finalUpdateID.value,
                      lines[0].obj.eventTime.value, lines[|lines| - 1].obj.eventTime.value, |lines|)
    else n == OFF
  }

  method NewJsonNormalizer(lines: seq<JsonLine>) returns (n: Normalizer)
    ensures IsJsonNormalizer(n, lines)
  {
    n := OFF;
    for i := 0 to |lines|
      invariant forall j :: 0 <= j < i ==> Shiftable(lines[j])
      invariant IsJsonNormalizer(n, lines[..i])
    {
      if !Shiftable(lines[i]) {
        return OFF;
      }
      var obj := lines[i].obj;
      if !n.enabled {
        n := n.(enabled := true, baseID := obj.firstUpdateID.value, baseTime := obj.eventTime.value);
      }
      n := n.(lastID := obj.finalUpdateID.value, lastTime := obj.eventTime.value, rowCount := n.rowCount + 1);
    }
    assert lines[..|lines|] == lines;
  }

  function ShiftObject(obj: JsonObject, idOffset: int, timeOffset: int): JsonObject
    requires obj.firstUpdateID.Some? && obj.finalUpdateID.Some? && obj.eventTime.Some?
  {
    obj.(firstUpdateID := Some(obj.firstUpdateID.value + idOffset),
         finalUpdateID := Some(obj.finalUpdateID.value + idOffset),
         eventTime := Some(obj.eventTime.value + timeOffset))
  }

  function NormalizeJson(n: Normalizer, line: JsonLine, row: nat): JsonLine {
    if !n.enabled || !line.Object? then line
    else if line.obj.firstUpdateID.None? || line.obj.finalUpdateID.None? || line.obj.eventTime.None? then line
    else if n.IdSpan() <= 0 || n.TimeSpan() <= 0 || n.rowCount == 0 then line
    else
      var cycle := row / n.rowCount;
      Object(ShiftObject(line.obj, cycle * n.IdSpan(), cycle * n.TimeSpan()))
  }

  // ----- CSV sources -----

  type Cells = map<string, Cell>

  /** The generator reads a cell as it stands, so that blanks around a number make it unreadable. */
  predicate Readable(cell: Cell) {
    cell.number.Some? && !cell.padded
  }

  predicate ShiftableRow(row: Cells) {
    "trade_id" in row && Readable(row["trade_id"]) && "trade_time" in row && Readable(row["trade_time"])
  }

  ghost predicate IsCsvNormalizer(n: Normalizer, rows: seq<Cells>) {
    if rows != [] && forall i :: 0 <= i < |rows| ==> ShiftableRow(rows[i]) then
      var first, last := rows[0], rows[|rows| - 1];
      n == Normalizer(true, first["trade_id"].number.value, last["trade_id"].number.value,
                      first["trade_time"].number.value, last["trade_time"].number.value, |rows|)
    else n == OFF
  }

  method NewCsvNormalizer(rows: seq<Cells>) returns (n: Normalizer)
    ensures IsCsvNormalizer(n, rows)
  {
    n := OFF;
    for i := 0 to |rows|
      invariant forall j :: 0 <= j < i ==> ShiftableRow(rows[j])
      invariant IsCsvNormalizer(n, rows[..i])
    {
      if !ShiftableRow(rows[i]) {
        return OFF;
      }
      var id, time := rows[i]["trade_id"].number.value, rows[i]["trade_time"].number.value;
      if i == 0 {
        n := n.(enabled := true, baseID := id, baseTime := time);
      }
      n := n.(lastID := id, lastTime := time, rowCount := n.rowCount + 1);
    }
    assert rows[..|rows|] == rows;
  }

  /** Stands for the decimal text of a number, of which only the value matters. */
  const DECIMAL := "decimal"

  /** A cell holding a formatted number. */
  function NumberCell(n: int): Cell {
    Cell(DECIMAL, Some(n), None, false)
  }

  function ShiftRow(row: Cells, idOffset: int, timeOffset: int): Cells
    requires ShiftableRow(row)
  {
    row["trade_id" := NumberCell(row["trade_id"].number.value + idOffset)]
       ["trade_time" := NumberCell(row["trade_time"].number.value + timeOffset)]
  }

  function NormalizeCsv(n: Normalizer, row: Cells, emitted: nat): Cells {
    if !n.enabled || n.rowCount <= 0 || !ShiftableRow(row) then row
    else
      var cycle := emitted / n.rowCount;
      ShiftRow(row, cycle * n.IdSpan(), cycle * n.TimeSpan())
  }

  // ----- The generator loop -----

  function Total<T>(size: T -> nat, out: seq<T>): nat {
    if out == [] then 0 else Total(size, out[..|out| - 1]) + size(out[|out| - 1])
  }

  /** Every written row has at least its line end. */
  ghost predicate NonEmpty<T(!new)>(size: T -> nat) {
    forall x :: size(x) >= 1
  }

  /** Cycle through `rows` until at least `target` bytes are out, counting `already` bytes of header. The
      output is the shortest prefix of the infinite repetition that reaches the target. */
  method Repeat<T(!new)>(rows: seq<T>, emit: (T, nat) -> T, size: T -> nat, already: nat, target: int)
      returns (out: seq<T>, bytes: nat)
    requires rows != [] && NonEmpty(size)
    ensures forall k :: 0 <= k < |out| ==> out[k] == emit(rows[k % |rows|], k)
    ensures bytes == already + Total(size, out) >= target
    ensures out != [] ==> already + Total(size, out[..|out| - 1]) < target
  {
    out, bytes := [], already;
    while bytes < target
      invariant OnTrack(rows, emit, size, already, target, out, bytes)
      invariant bytes < target ==> Rem(|out|, |rows|) == 0
      decreases target - bytes
    {
      out, bytes := OneCycle(rows, emit, size, already, target, out, bytes);
    }
    EmittedByMod(rows, emit, out);
  }

  /** Row `k` of the output is row `k` mod r of the source, as emitted at position `k`. */
  ghost predicate Emitted<T>(rows: seq<T>, emit: (T, nat) -> T, out: seq<T>)
    requires rows != []
  {
    forall k :: 0 <= k < |out| ==> out[k] == emit(rows[Rem(k, |rows|)], k)
  }

  lemma EmittedByMod<T>(rows: seq<T>, emit: (T, nat) -> T, out: seq<T>)
    requires rows != []
    ensures Emitted(rows, emit, out) <==> forall k :: 0 <= k < |out| ==> out[k] == emit(rows[k % |rows|], k)
  {
    forall k: nat | k < |out| ensures Rem(k, |rows|) == k % |rows| {
      QuotRemAreDivMod(k, |rows|);
    }
  }

  /** The output so far: emitted in order, `bytes` long, and below the target before its last row. */
  ghost predicate OnTrack<T>(rows: seq<T>, emit: (T, nat) -> T, size: T -> nat, already: nat, target: int, out: seq<T>,
                             bytes: nat)
    requires rows != []
  {
    && Emitted(rows, emit, out) && bytes == already + Total(size, out)
    && (out != [] ==> already + Total(size, out[..|out| - 1]) < target)
  }

  lemma EmittedSnoc<T>(rows: seq<T>, emit: (T, nat) -> T, out: seq<T>, j: nat)
    requires j < |rows| && Emitted(rows, emit, out) && Rem(|out|, |rows|) == j
    ensures Emitted(rows, emit, out + [emit(rows[j], |out|)])
  {
  }

  lemma TotalSnoc<T>(size: T -> nat, out: seq<T>, next: T)
    ensures (out + [next])[..|out|] == out && Total(size, out + [next]) == Total(size, out) + size(next)
  {
    assert (out + [next])[..|out|] == out;
  }

  /** The size of an output is the sum of the sizes of its rows. */
  lemma {:induction false} TotalAdds<T>(size: T -> nat, a: seq<T>, b: seq<T>)
    ensures Total(size, a + b) == Total(size, a) + Total(size, b)
    ensures |b| == 1 ==> Total(size, b) == size(b[0])
    decreases |b|
  {
    if b == [] {
      assert a + b == a;
    } else {
      var n := |b| - 1;
      TotalAdds(size, a, b[..n]);
      TotalSnoc(size, a + b[..n], b[n]);
      assert a + b == a + b[..n] + [b[n]];
    }
  }

  lemma NextOnTrack<T(!new)>(rows: seq<T>, emit: (T, nat) -> T, size: T -> nat, already: nat, target: int, out: seq<T>,
                      bytes: nat, j: nat)
    requires rows != [] && NonEmpty(size) && OnTrack(rows, emit, size, already, target, out, bytes) && bytes < target
    requires j < |rows| && Rem(|out|, |rows|) == j
    ensures var next := emit(rows[j], |out|);
            size(next) >= 1 && OnTrack(rows, emit, size, already, target, out + [next], bytes + size(next))
  {
    EmittedSnoc(rows, emit, out, j);
    TotalSnoc(size, out, emit(rows[j], |out|));
  }

  /** One pass over the rows, stopping as soon as the target is reached. */
  method OneCycle<T(!new)>(rows: seq<T>, emit: (T, nat) -> T, size: T -> nat, already: nat, target: int, before: seq<T>,
                    bytesBefore: nat)
      returns (out: seq<T>, bytes: nat)
    requires rows != [] && NonEmpty(size) && Rem(|before|, |rows|) == 0
    requires OnTrack(rows, emit, size, already, target, before, bytesBefore) && bytesBefore < target
    ensures OnTrack(rows, emit, size, already, target, out, bytes) && bytes > bytesBefore
    ensures bytes < target ==> Rem(|out|, |rows|) == 0
  {
    out, bytes := before, bytesBefore;
    for j := 0 to |rows|
      invariant |out| == |before| + j && bytesBefore + j <= bytes < target
      invariant OnTrack(rows, emit, size, already, target, out, bytes)
    {
      CycleStart(|before|, j, |rows|);
      NextOnTrack(rows, emit, size, already, target, out, bytes, j);
      var next := emit(rows[j], |out|);
      out := out + [next];
      bytes := bytes + size(next);
      if bytes >= target {
        return;
      }
    }
    CycleStart(|before|, |rows|, |rows|);
  }

  /** Row `k` of the output is source row `k` mod r as normalized at position `k`. */
  predicate JsonAt(n: Normalizer, lines: seq<JsonLine>, out: seq<JsonLine>, k: nat)
    requires lines != [] && k < |out|
  {
    out[k] == NormalizeJson(n, lines[k % |lines|], k)
  }

  ghost predicate GeneratesJson(n: Normalizer, lines: seq<JsonLine>, out: seq<JsonLine>)
    requires lines != []
  {
    forall k: nat :: k < |out| ==> JsonAt(n, lines, out, k)
  }

  predicate CsvAt(n: Normalizer, rows: seq<Cells>, out: seq<Cells>, k: nat)
    requires rows != [] && k < |out|
  {
    out[k] == NormalizeCsv(n, rows[k % |rows|], k)
  }

  ghost predicate GeneratesCsv(n: Normalizer, rows: seq<Cells>, out: seq<Cells>)
    requires rows != []
  {
    forall k: nat :: k < |out| ==> CsvAt(n, rows, out, k)
  }

  // ----- Generated rows in terms of the source alone -----

  /** Every line is a depth object with both ids and its time, and the last line lies after the first. */
  predicate ShiftsJson(lines: seq<JsonLine>) {
    && lines != []
    && (forall i :: 0 <= i < |lines| ==>
          && lines[i].Object? && lines[i].obj.eventType == "depth"
          && lines[i].obj.firstUpdateID.Some? && lines[i].obj.finalUpdateID.Some? && lines[i].obj.eventTime.Some?)
    && lines[|lines| - 1].obj.finalUpdateID.value >= lines[0].obj.firstUpdateID.value
    && lines[|lines| - 1].obj.eventTime.value >= lines[0].obj.eventTime.value
  }

  /** The object `a` with its ids moved by `ids` and its time by `time`, and nothing else changed. */
  predicate MovedObject(b: JsonObject, a: JsonObject, ids: int, time: int) {
    && a.firstUpdateID.Some? && a.finalUpdateID.Some? && a.eventTime.Some?
    && b.firstUpdateID == Some(a.firstUpdateID.value + ids) && b.finalUpdateID == Some(a.finalUpdateID.value + ids)
    && b.eventTime == Some(a.eventTime.value + time)
    && b.(firstUpdateID := a.firstUpdateID, finalUpdateID := a.finalUpdateID, eventTime := a.eventTime) == a
  }

  /** Row `k` is the source row `k` mod r, moved on by `k` / r whole spans of the source if that shifts, and
      unchanged otherwise. */
  predicate CyclesJson(lines: seq<JsonLine>, out: seq<JsonLine>, k: nat)
    requires lines != [] && k < |out|
  {
    var a, cycle := lines[k % |lines|], k / |lines|;
    if ShiftsJson(lines) then
      var first, last := lines[0].obj, lines[|lines| - 1].obj;
      && out[k].Object?
      && MovedObject(out[k].obj, a.obj, cycle * (last.finalUpdateID.value - first.firstUpdateID.value + 1),
          cycle * (last.eventTime.value - first.eventTime.value + 1))
    else out[k] == a
  }

  lemma JsonCycles(n: Normalizer, lines: seq<JsonLine>, out: seq<JsonLine>, k: nat)
    requires lines != [] && IsJsonNormalizer(n, lines) && GeneratesJson(n, lines, out) && k < |out|
    ensures CyclesJson(lines, out, k)
  {
    assert JsonAt(n, lines, out, k);
  }

  /** Every row has a readable trade id and trade time. */
  predicate ShiftsCsv(rows: seq<Cells>) {
    forall i :: 0 <= i < |rows| ==>
      && "trade_id" in rows[i] && rows[i]["trade_id"].number.Some? && !rows[i]["trade_id"].padded
      && "trade_time" in rows[i] && rows[i]["trade_time"].number.Some? && !rows[i]["trade_time"].padded
  }

  /** The row `a` with its trade id moved by `ids` and its trade time by `time`, and nothing else changed. */
  predicate MovedRow(b: Cells, a: Cells, ids: int, time: int) {
    && "trade_id" in a && "trade_time" in a && a["trade_id"].number.Some? && a["trade_time"].number.Some?
    && b.Keys == a.Keys && (forall c :: c in a && c != "trade_id" && c != "trade_time" ==> b[c] == a[c])
    && b["trade_id"].number == Some(a["trade_id"].number.value + ids) && b["trade_id"].text != ""
    && b["trade_time"].number == Some(a["trade_time"].number.value + time) && b["trade_time"].text != ""
  }

  predicate CyclesCsv(rows: seq<Cells>, out: seq<Cells>, k: nat)
    requires rows != [] && k < |out|
  {
    var a, cycle := rows[k % |rows|], k / |rows|;
    if ShiftsCsv(rows) then
      var first, last := rows[0], rows[|rows| - 1];
      MovedRow(out[k], a, cycle * (last["trade_id"].number.value - first["trade_id"].number.value + 1),
          cycle * (last["trade_time"].number.value - first["trade_time"].number.value + 1))
    else out[k] == a
  }

  lemma CsvCycles(n: Normalizer, rows: seq<Cells>, out: seq<Cells>, k: nat)
    requires rows != [] && IsCsvNormalizer(n, rows) && GeneratesCsv(n, rows, out) && k < |out|
    ensures CyclesCsv(rows, out, k)
  {
    assert CsvAt(n, rows, out, k);
    if ShiftsCsv(rows) {
      assert forall i :: 0 <= i < |rows| ==> ShiftableRow(rows[i]);
    }
  }

  /** Generate from JSON lines; every written line has at least its newline. */
  method GenerateJsonl(lines: seq<JsonLine>, size: JsonLine -> nat, target: int)
      returns (r: Result<seq<JsonLine>>, n: Normalizer)
    requires NonEmpty(size)
    ensures r.Err? <==> lines == []
    ensures IsJsonNormalizer(n, lines)
    ensures r.Ok? ==> GeneratesJson(n, lines, r.value)
    ensures r.Ok? ==> forall k: nat :: k < |r.value| ==> CyclesJson(lines, r.value, k)
    ensures r.Ok? ==> Total(size, r.value) >= target
    ensures r.Ok? && r.value != [] ==> Total(size, r.value[..|r.value| - 1]) < target
  {
    n := NewJsonNormalizer(lines);
    if lines == [] {
      return Err("source workload has no rows"), n;
    }
    var out, bytes := Repeat(lines, (line, row) => NormalizeJson(n, line, row), size, 0, target);
    forall k: nat | k < |out| ensures CyclesJson(lines, out, k) {
      JsonCycles(n, lines, out, k);
    }
    r := Ok(out);
  }

  /** Generate from CSV rows after a header of `headerBytes` bytes. */
  method GenerateCsv(rows: seq<Cells>, size: Cells -> nat, headerBytes: nat, target: int)
      returns (r: Result<seq<Cells>>, n: Normalizer)
    requires NonEmpty(size)
    ensures r.Err? <==> rows == []
    ensures IsCsvNormalizer(n, rows)
    ensures r.Ok? ==> GeneratesCsv(n, rows, r.value)
    ensures r.Ok? ==> forall k: nat :: k < |r.value| ==> CyclesCsv(rows, r.value, k)
    ensures r.Ok? ==> headerBytes + Total(size, r.value) >= target
    ensures r.Ok? && r.value != [] ==> headerBytes + Total(size, r.value[..|r.value| - 1]) < target
  {
    n := NewCsvNormalizer(rows);
    if rows == [] {
      return Err("source workload must include csv header and at least one row"), n;
    }
    var out, bytes := Repeat(rows, (row, emitted) => NormalizeCsv(n, row, emitted), size, headerBytes, target);
    forall k: nat | k < |out| ensures CyclesCsv(rows, out, k) {
      CsvCycles(n, rows, out, k);
    }
    r := Ok(out);
  }
}
