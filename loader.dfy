/**
 * `get_scap_dfs` (parser.py, lines 16-43): parse every trace, keep the tables
 * that carry the three required columns, stamp each with its label, a copy of
 * the syscall column and epoch-second timestamps, and concatenate them.
 *
 * The trace parser is the parameter `process` (None: it raised). The clock
 * and pandas' ISO 8601 parser are the parameters `clock` (the date, as
 * `%Y-%m-%d`, read on pass `i` of the loop) and `parse`, which gives a
 * datetime string's nanoseconds since the epoch, or None when pandas would
 * reject it.
 */
module Loader {
  import opened Wrappers
  import opened Values
  import opened Frames
  import opened PosixPath
  import opened ScapPaths

  const REQUIRED: seq<string> := ["timestamp", "syscall", "args"]
  const NS_PER_SECOND := 1_000_000_000

  /** Line 30: the table has all of `timestamp`, `syscall` and `args`. */
  predicate HasRequired(t: Table)
  {
    forall c :: c in REQUIRED ==> c in t.columns
  }

  /** Lines 31 and 33: the name of the trace's parent directory, `-` for `NORMAL`. */
  function LabelOf(path: string): (r: string)
    ensures r != "NORMAL"
  {
    var parent := Basename(Dirname(path));
    if parent != "NORMAL" then parent else "-"
  }

  /** Lines 31 and 33 on a trace path `d/c/f`: the label is the directory name `c`, or `-` when that is `NORMAL`. */
  lemma LabelOfTrace(d: string, c: string, f: string)
    requires |c| > 0 && NoSep(c) && NoSep(f)
    ensures LabelOf(Join(Join(d, c), f)) == if c == "NORMAL" then "-" else c
  {
    ParentName(d, c, f);
  }

  /** Line 35 succeeds on the cell: missing stays missing, a string must parse once the date is put in front. */
  predicate Stampable(cell: Option<Value>, today: string, parse: string -> Option<int>)
  {
    match cell
    case None => true
    case Some(Int(_)) => false
    case Some(Str(s)) => parse(today + " " + s).Some?
  }

  /** Lines 35-36: whole seconds since 1970-01-01, rounded down (`//` on timedeltas floors). */
  function EpochSeconds(cell: Option<Value>, today: string, parse: string -> Option<int>): Option<Value>
    requires Stampable(cell, today, parse)
  {
    match cell
    case None => None
    case Some(v) => Some(Int(parse(today + " " + v.s).value / NS_PER_SECOND))
  }

  predicate AllStampable(stamps: seq<Option<Value>>, today: string, parse: string -> Option<int>)
  {
    forall i :: 0 <= i < |stamps| ==> Stampable(stamps[i], today, parse)
  }

  function EpochColumn(stamps: seq<Option<Value>>, today: string, parse: string -> Option<int>): seq<Option<Value>>
    requires AllStampable(stamps, today, parse)
  {
    seq(|stamps|, i requires 0 <= i < |stamps| => EpochSeconds(stamps[i], today, parse))
  }

  /** Lines 31-34: the label column, then `content` as a copy of `syscall`. */
  function Labelled(path: string, t: Table): Table
  {
    var labelled := WithColumn(t, "label", Broadcast(Str(LabelOf(path)), |t.rows|));
    WithColumn(labelled, "content", ColumnOf(labelled, "syscall"))
  }

  /** Lines 31-36 on one accepted table. */
  function Stamp(path: string, t: Table, today: string, parse: string -> Option<int>): (r: Result<Table, Error>)
    ensures r.Err? ==> r.error == BadTimestamp(path)
  {
    var copied := Labelled(path, t);
    var stamps := ColumnOf(copied, "timestamp");
    if AllStampable(stamps, today, parse)
    then Ok(WithColumn(copied, "timestamp", EpochColumn(stamps, today, parse)))
    else Err(BadTimestamp(path))
  }

  /** What the loop body (lines 30-39) makes of one pair: None for a dropped table. */
  function Outcome(path: string, t: Table, today: string, parse: string -> Option<int>): Option<Result<Table, Error>>
  {
    if HasRequired(t) then Some(Stamp(path, t, today, parse)) else None
  }

  /** The loop body on every pair; pass `i` reads the date `clock(i)` (line 32 runs once per pass). */
  function Outcomes(paths: seq<string>, tables: seq<Table>, clock: nat -> string, parse: string -> Option<int>): (r: seq<Option<Result<Table, Error>>>)
    requires |paths| == |tables|
    ensures |r| == |paths| && forall i :: 0 <= i < |paths| ==> r[i] == Outcome(paths[i], tables[i], clock(i), parse)
  {
    seq(|paths|, i requires 0 <= i < |paths| => Outcome(paths[i], tables[i], clock(i), parse))
  }

  /**
   * The loop of lines 29-39 over these outcomes: the stamped tables in order
   * (`final_dfs`), or the error of the first one that raised.
   */
  function Collect(outs: seq<Option<Result<Table, Error>>>): Result<seq<Table>, Error>
  {
    if |outs| == 0 then Ok([])
    else
      var before := Collect(outs[..|outs| - 1]);
      match outs[|outs| - 1]
      case None => before
      case Some(Err(e)) => if before.Err? then before else Err(e)
      case Some(Ok(t)) => if before.Err? then before else Ok(before.value + [t])
  }

  /** Lines 29-42 on the parsed tables. */
  function Merge(paths: seq<string>, tables: seq<Table>, clock: nat -> string, parse: string -> Option<int>): Result<Table, Error>
    requires |paths| == |tables|
  {
    match Collect(Outcomes(paths, tables, clock, parse))
    case Err(e) => Err(e)
    case Ok(stamped) =>
      match Concat(stamped)
      case Err(e) => Err(e)
      case Ok(t) => Ok(Reindexed(t))
  }

  /** Line 24, the pool's `map`: every path's table in order, or None when a parse raised. */
  function ParseAll(paths: seq<string>, process: string -> Option<Table>): (r: Option<seq<Table>>)
    ensures r.Some? <==> forall i :: 0 <= i < |paths| ==> process(paths[i]).Some?
    ensures r.Some? ==> |r.value| == |paths| && forall i :: 0 <= i < |paths| ==> process(paths[i]) == Some(r.value[i])
  {
    if forall i :: 0 <= i < |paths| ==> process(paths[i]).Some?
    then Some(seq(|paths|, i requires 0 <= i < |paths| => process(paths[i]).value))
    else None
  }

  /** All of `get_scap_dfs`. */
  function GetScapDfsSpec(paths: seq<string>, process: string -> Option<Table>, clock: nat -> string, parse: string -> Option<int>): Result<Table, Error>
  {
    match ParseAll(paths, process)
    case None => Err(ParserFailed)
    case Some(tables) => Merge(paths, tables, clock, parse)
  }

  /** Lines 31-36 in place on one accepted frame; `ok` is false when line 35 raises. */
  method StampFrame(df: Frame, path: string, today: string, parse: string -> Option<int>) returns (ok: bool)
    modifies df
    ensures ok == Stamp(path, old(df.Value()), today, parse).Ok?
    ensures ok ==> df.Value() == Stamp(path, old(df.Value()), today, parse).value
    ensures !ok ==> df.Value() == Labelled(path, old(df.Value()))
  {
    ghost var t := df.Value();
    df.SetColumn("label", Broadcast(Str(LabelOf(path)), |df.rows|));
    ghost var labelled := df.Value();
    assert labelled == WithColumn(t, "label", Broadcast(Str(LabelOf(path)), |t.rows|));
    df.SetColumn("content", df.Column("syscall"));
    ghost var copied := df.Value();
    assert copied == Labelled(path, t);
    var stamps := df.Column("timestamp");
    assert stamps == ColumnOf(copied, "timestamp");
    ok := AllStampable(stamps, today, parse);
    if ok {
      df.SetColumn("timestamp", EpochColumn(stamps, today, parse));
    }
  }

  /**
   * One pass of the loop body (lines 30-39) on the worker's table, which
   * arrives in the parent as a fresh DataFrame: None when it is dropped.
   */
  method ProcessOne(path: string, t: Table, today: string, parse: string -> Option<int>) returns (out: Option<Result<Frame, Error>>)
    ensures out.None? <==> !HasRequired(t)
    ensures out.None? ==> Outcome(path, t, today, parse) == None
    ensures out.Some? && out.value.Ok? ==> fresh(out.value.value) && Outcome(path, t, today, parse) == Some(Ok(out.value.value.Value()))
    ensures out.Some? && out.value.Err? ==> Outcome(path, t, today, parse) == Some(Err(out.value.error))
  {
    var df := new Frame.FromTable(t);
    if !HasRequired(df.Value()) {
      return None;
    }
    var ok := StampFrame(df, path, today, parse);
    if ok {
      return Some(Ok(df));
    }
    return Some(Err(BadTimestamp(path)));
  }

  /** Lines 29-39: the loop stamps the accepted frames in place and collects them in `final_dfs`. */
  method StampLoop(paths: seq<string>, scapDfs: seq<Table>, clock: nat -> string, parse: string -> Option<int>)
    returns (r: Result<seq<Frame>, Error>)
    requires |paths| == |scapDfs|
    ensures r.Ok? ==> Collect(Outcomes(paths, scapDfs, clock, parse)) == Ok(FrameValues(r.value))
    ensures r.Err? ==> Collect(Outcomes(paths, scapDfs, clock, parse)) == Err(r.error)
  {
    ghost var outs := Outcomes(paths, scapDfs, clock, parse);
    var finalDfs: seq<Frame> := [];
    ghost var vals: seq<Table> := [];
    var i := 0;
    while i < |paths|
      invariant 0 <= i <= |paths|
      invariant Collect(outs[..i]) == Ok(vals)
      invariant FrameValues(finalDfs) == vals
    {
      var out := ProcessOne(paths[i], scapDfs[i], clock(i), parse);
      match out {
        case None =>
          CollectStep(outs, i);
        case Some(Err(e)) =>
          CollectStep(outs, i);
          CollectStopsAtError(outs, i + 1);
          return Err(e);
        case Some(Ok(df)) =>
          CollectStep(outs, i);
          finalDfs := finalDfs + [df];
          vals := vals + [df.Value()];
      }
      i := i + 1;
    }
    assert outs[..i] == outs;
    return Ok(finalDfs);
  }

  /** `get_scap_dfs`. */
  method GetScapDfs(paths: seq<string>, process: string -> Option<Table>, clock: nat -> string, parse: string -> Option<int>)
    returns (r: Result<Frame, Error>)
    ensures r.Ok? ==> fresh(r.value) && GetScapDfsSpec(paths, process, clock, parse) == Ok(r.value.Value())
    ensures r.Err? ==> GetScapDfsSpec(paths, process, clock, parse) == Err(r.error)
  {
    var parsed := ParseAll(paths, process);
    if parsed.None? {
      return Err(ParserFailed);
    }
    var finalDfs := StampLoop(paths, parsed.value, clock, parse);
    if finalDfs.Err? {
      return Err(finalDfs.error);
    }
    var merged := Concat(FrameValues(finalDfs.value));
    if merged.Err? {
      return Err(merged.error);
    }
    var finalDf := new Frame.FromTable(merged.value);
    finalDf.ResetIndex();
    return Ok(finalDf);
  }

  // ---------------------------------------------------------------------------

  /** One more pass of the loop. */
  lemma CollectStep(outs: seq<Option<Result<Table, Error>>>, i: nat)
    requires i < |outs|
    ensures Collect(outs[..i + 1]) == match outs[i]
                                      case None => Collect(outs[..i])
                                      case Some(Err(e)) => if Collect(outs[..i]).Err? then Collect(outs[..i]) else Err(e)
                                      case Some(Ok(t)) => if Collect(outs[..i]).Err? then Collect(outs[..i]) else Ok(Collect(outs[..i]).value + [t])
  {
    assert outs[..i + 1][..i] == outs[..i];
  }

  /** The first failing table ends the loop: later pairs change nothing (the exception propagates). */
  lemma {:induction false} CollectStopsAtError(outs: seq<Option<Result<Table, Error>>>, i: nat)
    requires i <= |outs| && Collect(outs[..i]).Err?
    ensures Collect(outs) == Collect(outs[..i])
  {
    if i < |outs| {
      var n := |outs| - 1;
      assert outs[..n][..i] == outs[..i];
      CollectStopsAtError(outs[..n], i);
    } else {
      assert outs[..i] == outs;
    }
  }

  /** The cell `d` of a row once line 33-36 have stamped it with the label of `path`. */
  function StampedCell(path: string, row: Row, d: string, today: string, parse: string -> Option<int>): Option<Value>
    requires Stampable(Cell(row, "timestamp"), today, parse)
  {
    if d == "label" then Some(Str(LabelOf(path)))
    else if d == "content" then Cell(row, "syscall")
    else if d == "timestamp" then EpochSeconds(Cell(row, "timestamp"), today, parse)
    else Cell(row, d)
  }

  /** Line 35 raises exactly when some time-of-day cell cannot be stamped. */
  lemma StampFails(path: string, t: Table, today: string, parse: string -> Option<int>)
    ensures Stamp(path, t, today, parse).Ok? <==> forall i :: 0 <= i < |t.rows| ==> Stampable(Cell(t.rows[i], "timestamp"), today, parse)
  {
    var labelled := WithColumn(t, "label", Broadcast(Str(LabelOf(path)), |t.rows|));
    WithColumnCells(t, "label", Broadcast(Str(LabelOf(path)), |t.rows|));
    var copied := WithColumn(labelled, "content", ColumnOf(labelled, "syscall"));
    WithColumnCells(labelled, "content", ColumnOf(labelled, "syscall"));
    assert copied == Labelled(path, t);
    assert forall i :: 0 <= i < |t.rows| ==> ColumnOf(copied, "timestamp")[i] == Cell(t.rows[i], "timestamp");
  }

  /**
   * A stamped table keeps its rows, one for one: each gets the label of its
   * path, `content` a copy of `syscall`, the epoch seconds of its time of day,
   * and every other cell as it was.
   */
  lemma StampCells(path: string, t: Table, today: string, parse: string -> Option<int>)
    requires Stamp(path, t, today, parse).Ok?
    ensures var r := Stamp(path, t, today, parse).value;
            && |r.rows| == |t.rows| && r.index == t.index && r.indexName == t.indexName
            && (forall i :: 0 <= i < |t.rows| ==> Stampable(Cell(t.rows[i], "timestamp"), today, parse))
            && forall i, d :: 0 <= i < |t.rows| ==> Cell(r.rows[i], d) == StampedCell(path, t.rows[i], d, today, parse)
  {
    var labelled := WithColumn(t, "label", Broadcast(Str(LabelOf(path)), |t.rows|));
    WithColumnCells(t, "label", Broadcast(Str(LabelOf(path)), |t.rows|));
    var copied := WithColumn(labelled, "content", ColumnOf(labelled, "syscall"));
    WithColumnCells(labelled, "content", ColumnOf(labelled, "syscall"));
    assert copied == Labelled(path, t);
    var stamps := ColumnOf(copied, "timestamp");
    WithColumnCells(copied, "timestamp", EpochColumn(stamps, today, parse));
    StampFails(path, t, today, parse);
  }

  /** A stamped DataFrame is a DataFrame with its old columns, then `label` and `content` if they were new. */
  lemma StampColumns(path: string, t: Table, today: string, parse: string -> Option<int>)
    requires Stamp(path, t, today, parse).Ok? && HasRequired(t)
    ensures var r := Stamp(path, t, today, parse).value;
            && t.columns <= r.columns
            && (forall d :: d in r.columns <==> d in t.columns || d == "label" || d == "content")
            && (Wf(t) ==> Wf(r))
  {
    var labelled := WithColumn(t, "label", Broadcast(Str(LabelOf(path)), |t.rows|));
    WithColumnShape(t, "label", Broadcast(Str(LabelOf(path)), |t.rows|));
    var copied := WithColumn(labelled, "content", ColumnOf(labelled, "syscall"));
    WithColumnShape(labelled, "content", ColumnOf(labelled, "syscall"));
    assert copied == Labelled(path, t);
    var stamps := ColumnOf(copied, "timestamp");
    assert "timestamp" in REQUIRED;
    WithColumnShape(copied, "timestamp", EpochColumn(stamps, today, parse));
  }

  // ---------------------------------------------------------------------------
  // The loop as a filter

  /** Positions of the outcomes that are not dropped, in order. */
  function Kept(outs: seq<Option<Result<Table, Error>>>): (r: seq<nat>)
    ensures forall k :: 0 <= k < |r| ==> r[k] < |outs| && outs[r[k]].Some?
    ensures forall i :: 0 <= i < |outs| && outs[i].Some? ==> i in r
    ensures forall k, l :: 0 <= k < l < |r| ==> r[k] < r[l]
  {
    if |outs| == 0 then []
    else
      var n := |outs| - 1;
      Kept(outs[..n]) + if outs[n].Some? then [n] else []
  }

  /** What the loop of lines 29-39 leaves: the first error, or the kept tables in order. */
  lemma {:induction false} CollectSpec(outs: seq<Option<Result<Table, Error>>>)
    ensures var c := Collect(outs);
            && (c.Ok? <==> forall i :: 0 <= i < |outs| && outs[i].Some? ==> outs[i].value.Ok?)
            && (c.Ok? ==> |c.value| == |Kept(outs)| && forall k :: 0 <= k < |Kept(outs)| ==> c.value[k] == outs[Kept(outs)[k]].value.value)
            && (c.Err? ==> exists i :: && 0 <= i < |outs| && outs[i] == Some(Err(c.error))
                                       && forall j :: 0 <= j < i && outs[j].Some? ==> outs[j].value.Ok?)
  {
    if |outs| > 0 {
      var n := |outs| - 1;
      var front := outs[..n];
      CollectSpec(front);
      assert forall i :: 0 <= i < n ==> front[i] == outs[i];
      var c := Collect(outs);
      if Collect(front).Err? {
        var i :| && 0 <= i < n && front[i] == Some(Err(Collect(front).error))
                 && forall j :: 0 <= j < i && front[j].Some? ==> front[j].value.Ok?;
        assert outs[i].Some? && !outs[i].value.Ok?;
      } else if outs[n].Some? && outs[n].value.Err? {
        assert c.Err?;
      } else {
        assert Kept(outs) == Kept(front) + if outs[n].Some? then [n] else [];
      }
    }
  }

  /**
   * Line 30: the positions of the accepted tables, in input order. Every
   * other table is dropped whole.
   */
  function AcceptedIndices(tables: seq<Table>): (r: seq<nat>)
    ensures forall k :: 0 <= k < |r| ==> r[k] < |tables| && HasRequired(tables[r[k]])
    ensures forall i :: 0 <= i < |tables| && HasRequired(tables[i]) ==> i in r
    ensures forall k, l :: 0 <= k < l < |r| ==> r[k] < r[l]
  {
    if |tables| == 0 then []
    else
      var n := |tables| - 1;
      AcceptedIndices(tables[..n]) + if HasRequired(tables[n]) then [n] else []
  }

  /** Two increasing sequences with the same members are one sequence. */
  lemma {:induction false} IncreasingUnique(a: seq<nat>, b: seq<nat>)
    requires forall k, l :: 0 <= k < l < |a| ==> a[k] < a[l]
    requires forall k, l :: 0 <= k < l < |b| ==> b[k] < b[l]
    requires forall x :: x in a <==> x in b
    ensures a == b
  {
    if |a| > 0 || |b| > 0 {
      if |a| > 0 {
        assert a[|a| - 1] in b;
      }
      if |b| > 0 {
        assert b[|b| - 1] in a;
      }
      var x, y := a[|a| - 1], b[|b| - 1];
      assert x in b && y in a;
      assert x == y;
      var a', b' := a[..|a| - 1], b[..|b| - 1];
      forall z
        ensures z in a' <==> z in b'
      {
        if z in a' {
          var k :| 0 <= k < |a'| && a'[k] == z;
          assert z < x;
          assert z in b;
        }
        if z in b' {
          var k :| 0 <= k < |b'| && b'[k] == z;
          assert z < y;
          assert z in a;
        }
      }
      IncreasingUnique(a', b');
      assert a == a' + [x] && b == b' + [y];
    }
  }

  /** Passes that keep exactly the accepted tables keep them at the accepted positions. */
  lemma KeptAccepted(outs: seq<Option<Result<Table, Error>>>, tables: seq<Table>)
    requires |outs| == |tables| && forall i :: 0 <= i < |outs| ==> (outs[i].Some? <==> HasRequired(tables[i]))
    ensures Kept(outs) == AcceptedIndices(tables)
  {
    var a, b := Kept(outs), AcceptedIndices(tables);
    forall x
      ensures x in a <==> x in b
    {
      if x in a {
        var k :| 0 <= k < |a| && a[k] == x;
      }
      if x in b {
        var k :| 0 <= k < |b| && b[k] == x;
      }
    }
    IncreasingUnique(a, b);
  }

  // ---------------------------------------------------------------------------
  // get_scap_dfs on the parsed tables

  /** Lines 31-36 on table `i`, with the date read on pass `i`. */
  function StampAt(paths: seq<string>, tables: seq<Table>, clock: nat -> string, parse: string -> Option<int>, i: nat): Result<Table, Error>
    requires |paths| == |tables| && i < |tables|
  {
    Stamp(paths[i], tables[i], clock(i), parse)
  }

  /** No accepted table raises at line 35. */
  predicate AllStamp(paths: seq<string>, tables: seq<Table>, clock: nat -> string, parse: string -> Option<int>)
    requires |paths| == |tables|
  {
    forall i :: 0 <= i < |tables| && HasRequired(tables[i]) ==> StampAt(paths, tables, clock, parse, i).Ok?
  }

  /** Table `i` is the first accepted table that raises at line 35. */
  predicate FirstFailure(paths: seq<string>, tables: seq<Table>, clock: nat -> string, parse: string -> Option<int>, i: nat)
    requires |paths| == |tables|
  {
    && i < |tables| && HasRequired(tables[i]) && StampAt(paths, tables, clock, parse, i).Err?
    && forall j :: 0 <= j < i && HasRequired(tables[j]) ==> StampAt(paths, tables, clock, parse, j).Ok?
  }

  /** The accepted tables, in input order. */
  function AcceptedTables(tables: seq<Table>): (r: seq<Table>)
    ensures |r| == |AcceptedIndices(tables)|
  {
    var acc := AcceptedIndices(tables);
    seq(|acc|, k requires 0 <= k < |acc| => tables[acc[k]])
  }

  /** `final_dfs`: the accepted tables once stamped, in input order. */
  function Stamped(paths: seq<string>, tables: seq<Table>, clock: nat -> string, parse: string -> Option<int>): (r: seq<Table>)
    requires |paths| == |tables| && AllStamp(paths, tables, clock, parse)
    ensures |r| == |AcceptedIndices(tables)|
  {
    var acc := AcceptedIndices(tables);
    seq(|acc|, k requires 0 <= k < |acc| => StampAt(paths, tables, clock, parse, acc[k]).value)
  }

  lemma OutcomesKeepAccepted(paths: seq<string>, tables: seq<Table>, clock: nat -> string, parse: string -> Option<int>)
    requires |paths| == |tables|
    ensures var outs := Outcomes(paths, tables, clock, parse);
            && Kept(outs) == AcceptedIndices(tables)
            && forall i :: 0 <= i < |tables| && HasRequired(tables[i]) ==> outs[i] == Some(StampAt(paths, tables, clock, parse, i))
  {
    var outs := Outcomes(paths, tables, clock, parse);
    assert forall i :: 0 <= i < |tables| ==> (outs[i].Some? <==> HasRequired(tables[i]));
    KeptAccepted(outs, tables);
  }

  /** The loop of lines 29-39 finishes exactly when no accepted table raises, with the stamped accepted tables. */
  lemma CollectAccepted(paths: seq<string>, tables: seq<Table>, clock: nat -> string, parse: string -> Option<int>)
    requires |paths| == |tables|
    ensures var c := Collect(Outcomes(paths, tables, clock, parse));
            && (c.Ok? <==> AllStamp(paths, tables, clock, parse))
            && (c.Ok? ==> c.value == Stamped(paths, tables, clock, parse))
  {
    var outs := Outcomes(paths, tables, clock, parse);
    CollectSpec(outs);
    OutcomesKeepAccepted(paths, tables, clock, parse);
  }

  /** Otherwise it stops with the error of the first accepted table that raises. */
  lemma CollectFirstFailure(paths: seq<string>, tables: seq<Table>, clock: nat -> string, parse: string -> Option<int>)
    requires |paths| == |tables|
    ensures var c := Collect(Outcomes(paths, tables, clock, parse));
            c.Err? ==> exists i: nat :: FirstFailure(paths, tables, clock, parse, i) && c.error == BadTimestamp(paths[i])
  {
    var outs := Outcomes(paths, tables, clock, parse);
    CollectSpec(outs);
    var c := Collect(outs);
    if c.Err? {
      var i :| && 0 <= i < |outs| && outs[i] == Some(Err(c.error))
               && forall j :: 0 <= j < i && outs[j].Some? ==> outs[j].value.Ok?;
      forall j | 0 <= j <= i
        ensures outs[j].Some? <==> HasRequired(tables[j])
        ensures outs[j].Some? ==> outs[j].value == StampAt(paths, tables, clock, parse, j)
      {
      }
      assert FirstFailure(paths, tables, clock, parse, i);
    }
  }

  /**
   * Lines 29-42: the result exists exactly when some table is accepted and
   * none raises; it holds the stamped accepted tables' rows, one table after
   * another in input order, numbered 0, 1, ... with an unnamed index.
   */
  lemma MergeSpec(paths: seq<string>, tables: seq<Table>, clock: nat -> string, parse: string -> Option<int>)
    requires |paths| == |tables|
    ensures var m := Merge(paths, tables, clock, parse);
            && (m.Ok? <==> |AcceptedIndices(tables)| > 0 && AllStamp(paths, tables, clock, parse))
            && (AllStamp(paths, tables, clock, parse) && |AcceptedIndices(tables)| == 0 ==> m == Err(NoObjectsToConcatenate))
            && (!AllStamp(paths, tables, clock, parse) ==> exists i: nat :: FirstFailure(paths, tables, clock, parse, i) && m == Err(BadTimestamp(paths[i])))
            && (m.Ok? ==> && m.value.rows == AllRows(Stamped(paths, tables, clock, parse))
                          && |m.value.index| == |m.value.rows| && (forall p :: 0 <= p < |m.value.index| ==> m.value.index[p] == p)
                          && m.value.indexName.None?)
  {
    CollectAccepted(paths, tables, clock, parse);
    CollectFirstFailure(paths, tables, clock, parse);
    if AllStamp(paths, tables, clock, parse) {
      var st := Stamped(paths, tables, clock, parse);
      if |st| > 0 {
        ConcatRows(st);
      }
    }
  }

  /** The result, when there is one, is the renumbered concatenation of the stamped accepted tables. */
  lemma MergeValue(paths: seq<string>, tables: seq<Table>, clock: nat -> string, parse: string -> Option<int>)
    requires |paths| == |tables| && Merge(paths, tables, clock, parse).Ok?
    ensures AllStamp(paths, tables, clock, parse) && |AcceptedIndices(tables)| > 0
    ensures Merge(paths, tables, clock, parse).value == Reindexed(ConcatNonEmpty(Stamped(paths, tables, clock, parse)))
  {
    CollectAccepted(paths, tables, clock, parse);
  }

  /** Every row of a stamped table carries the path's label and a copy of its `syscall`. */
  lemma StampedRowsLabelled(path: string, t: Table, today: string, parse: string -> Option<int>)
    requires Stamp(path, t, today, parse).Ok?
    ensures var r := Stamp(path, t, today, parse).value;
            forall j :: 0 <= j < |r.rows| ==> Cell(r.rows[j], "label") == Some(Str(LabelOf(path))) && Cell(r.rows[j], "content") == Cell(r.rows[j], "syscall")
  {
    StampCells(path, t, today, parse);
  }

  /** Row `j` of a stamped table, cell by cell. */
  lemma StampedRow(path: string, t: Table, today: string, parse: string -> Option<int>, j: nat)
    requires Stamp(path, t, today, parse).Ok? && j < |t.rows|
    ensures var r := Stamp(path, t, today, parse).value;
            && j < |r.rows| && Stampable(Cell(t.rows[j], "timestamp"), today, parse)
            && forall d :: Cell(r.rows[j], d) == StampedCell(path, t.rows[j], d, today, parse)
  {
    StampCells(path, t, today, parse);
  }

  /** Stamping keeps every accepted table's row count. */
  lemma StampedRowCounts(paths: seq<string>, tables: seq<Table>, clock: nat -> string, parse: string -> Option<int>)
    requires |paths| == |tables| && AllStamp(paths, tables, clock, parse)
    ensures var st, src := Stamped(paths, tables, clock, parse), AcceptedTables(tables);
            forall k :: 0 <= k < |st| ==> |st[k].rows| == |src[k].rows|
  {
    var acc := AcceptedIndices(tables);
    forall k | 0 <= k < |acc|
      ensures |Stamped(paths, tables, clock, parse)[k].rows| == |AcceptedTables(tables)[k].rows|
    {
      StampCells(paths[acc[k]], tables[acc[k]], clock(acc[k]), parse);
    }
  }

  /** No row is gained or lost: the result has as many rows as the accepted tables together. */
  lemma MergeRowCount(paths: seq<string>, tables: seq<Table>, clock: nat -> string, parse: string -> Option<int>)
    requires |paths| == |tables| && Merge(paths, tables, clock, parse).Ok?
    ensures |Merge(paths, tables, clock, parse).value.rows| == TotalRows(AcceptedTables(tables))
  {
    MergeSpec(paths, tables, clock, parse);
    var st := Stamped(paths, tables, clock, parse);
    AllRowsLength(st);
    StampedRowCounts(paths, tables, clock, parse);
    TotalRowsPointwise(st, AcceptedTables(tables));
  }

  /**
   * Row `j` of the `k`-th accepted table is the result's row at the offset of
   * that table plus `j`, stamped: the label of its path, `content` equal to
   * its `syscall`, its epoch seconds and its other cells unchanged.
   */
  lemma MergedRow(paths: seq<string>, tables: seq<Table>, clock: nat -> string, parse: string -> Option<int>, k: nat, j: nat)
    requires |paths| == |tables| && Merge(paths, tables, clock, parse).Ok?
    requires k < |AcceptedIndices(tables)| && j < |AcceptedTables(tables)[k].rows|
    ensures var i, m := AcceptedIndices(tables)[k], Merge(paths, tables, clock, parse).value;
            var p := TotalRows(AcceptedTables(tables)[..k]) + j;
            && p < |m.rows|
            && Stampable(Cell(tables[i].rows[j], "timestamp"), clock(i), parse)
            && forall d :: Cell(m.rows[p], d) == StampedCell(paths[i], tables[i].rows[j], d, clock(i), parse)
  {
    var m := Merge(paths, tables, clock, parse).value;
    MergeValue(paths, tables, clock, parse);
    var acc := AcceptedIndices(tables);
    var i := acc[k];
    var st := Stamped(paths, tables, clock, parse);
    ConcatRows(st);
    assert m.rows == AllRows(st);
    StampedRowCounts(paths, tables, clock, parse);
    var src := AcceptedTables(tables);
    TotalRowsPointwise(st[..k], src[..k]);
    var p := TotalRows(src[..k]) + j;
    var t := Stamp(paths[i], tables[i], clock(i), parse).value;
    assert st[k] == t;
    StampedRow(paths[i], tables[i], clock(i), parse, j);
    AllRowsAt(st, k, j);
    assert m.rows[p] == t.rows[j];
  }

  /** Lines 33-34 on every row of the result: its label is that of an accepted path, never `NORMAL`, and `content` equals `syscall`. */
  lemma MergedRowsLabelled(paths: seq<string>, tables: seq<Table>, clock: nat -> string, parse: string -> Option<int>, p: nat)
    requires |paths| == |tables| && Merge(paths, tables, clock, parse).Ok?
    requires p < |Merge(paths, tables, clock, parse).value.rows|
    ensures var row := Merge(paths, tables, clock, parse).value.rows[p];
            && (exists i :: 0 <= i < |tables| && HasRequired(tables[i]) && Cell(row, "label") == Some(Str(LabelOf(paths[i]))))
            && Cell(row, "label") != Some(Str("NORMAL"))
            && Cell(row, "content") == Cell(row, "syscall")
  {
    MergeValue(paths, tables, clock, parse);
    var acc := AcceptedIndices(tables);
    var st := Stamped(paths, tables, clock, parse);
    ConcatRows(st);
    AllRowsFrom(st, p);
    var k, j :| 0 <= k < |st| && 0 <= j < |st[k].rows| && AllRows(st)[p] == st[k].rows[j];
    var i := acc[k];
    assert st[k] == Stamp(paths[i], tables[i], clock(i), parse).value;
    StampedRowsLabelled(paths[i], tables[i], clock(i), parse);
  }

  /** The `k`-th stamped table has the columns of its source table plus `label` and `content`. */
  lemma StampedColumns(paths: seq<string>, tables: seq<Table>, clock: nat -> string, parse: string -> Option<int>, k: nat)
    requires |paths| == |tables| && AllStamp(paths, tables, clock, parse) && k < |AcceptedIndices(tables)|
    ensures var i, st := AcceptedIndices(tables)[k], Stamped(paths, tables, clock, parse)[k];
            && HasRequired(tables[i])
            && (forall c :: c in st.columns <==> c in tables[i].columns || c == "label" || c == "content")
            && (Wf(tables[i]) ==> Wf(st))
  {
    var i := AcceptedIndices(tables)[k];
    assert Stamped(paths, tables, clock, parse)[k] == Stamp(paths[i], tables[i], clock(i), parse).value;
    StampColumns(paths[i], tables[i], clock(i), parse);
  }

  /** A column of some stamped table is `label`, `content` or a column of an accepted table, and conversely. */
  lemma StampedColumnsUnion(paths: seq<string>, tables: seq<Table>, clock: nat -> string, parse: string -> Option<int>, c: string)
    requires |paths| == |tables| && AllStamp(paths, tables, clock, parse) && |AcceptedIndices(tables)| > 0
    ensures ColumnOfSome(Stamped(paths, tables, clock, parse), c) <==>
            c == "label" || c == "content" || exists i :: 0 <= i < |tables| && HasRequired(tables[i]) && c in tables[i].columns
  {
    var acc := AcceptedIndices(tables);
    var st := Stamped(paths, tables, clock, parse);
    if ColumnOfSome(st, c) {
      var k :| 0 <= k < |st| && c in st[k].columns;
      StampedColumns(paths, tables, clock, parse, k);
    }
    if c == "label" || c == "content" {
      StampedColumns(paths, tables, clock, parse, 0);
      assert c in st[0].columns;
    } else if exists i :: 0 <= i < |tables| && HasRequired(tables[i]) && c in tables[i].columns {
      var i :| 0 <= i < |tables| && HasRequired(tables[i]) && c in tables[i].columns;
      var k :| 0 <= k < |acc| && acc[k] == i;
      StampedColumns(paths, tables, clock, parse, k);
      assert c in st[k].columns;
    }
  }

  /**
   * The result's columns are the accepted tables' columns plus `label` and
   * `content`, so they include the three required ones.
   */
  lemma MergedColumns(paths: seq<string>, tables: seq<Table>, clock: nat -> string, parse: string -> Option<int>)
    requires |paths| == |tables| && Merge(paths, tables, clock, parse).Ok?
    ensures var m := Merge(paths, tables, clock, parse).value;
            && (forall c :: c in REQUIRED + ["label", "content"] ==> c in m.columns)
            && (forall c :: c in m.columns <==> c == "label" || c == "content" || exists i :: 0 <= i < |tables| && HasRequired(tables[i]) && c in tables[i].columns)
  {
    var m := Merge(paths, tables, clock, parse).value;
    MergeValue(paths, tables, clock, parse);
    var acc := AcceptedIndices(tables);
    var st := Stamped(paths, tables, clock, parse);
    ConcatColumns(st);
    forall c
      ensures c in m.columns <==> c == "label" || c == "content" || exists i :: 0 <= i < |tables| && HasRequired(tables[i]) && c in tables[i].columns
    {
      StampedColumnsUnion(paths, tables, clock, parse, c);
    }
    assert forall c :: c in REQUIRED ==> c in tables[acc[0]].columns;
  }

  /** The result is a DataFrame when the parsed tables are. */
  lemma MergedWf(paths: seq<string>, tables: seq<Table>, clock: nat -> string, parse: string -> Option<int>)
    requires |paths| == |tables| && Merge(paths, tables, clock, parse).Ok?
    requires forall i :: 0 <= i < |tables| ==> Wf(tables[i])
    ensures Wf(Merge(paths, tables, clock, parse).value)
  {
    MergeValue(paths, tables, clock, parse);
    var st := Stamped(paths, tables, clock, parse);
    forall k | 0 <= k < |st|
      ensures Wf(st[k])
    {
      StampedColumns(paths, tables, clock, parse, k);
    }
    ConcatWf(st);
  }

  // ---------------------------------------------------------------------------
  // Labels of the configured trace list (lines 55-63)

  /** The first hundred traces are normal ones, labelled `-`. */
  lemma NormalPathLabel(currentDir: string, x: nat)
    requires x < NORMAL_SCAPS
    ensures x < |ScapPathList(currentDir)| && LabelOf(ScapPathList(currentDir)[x]) == "-"
  {
    var path := ScapPathList(currentDir)[x];
    assert path == Join(Join(DatasetDir(currentDir), "NORMAL"), ScapName(x));
    ScapNameIsPlain(x);
    LabelOfTrace(DatasetDir(currentDir), "NORMAL", ScapName(x));
  }

  /** Trace `x + 1` of attack `j` comes after the normal ones, in `x`-major order, labelled with the attack's name. */
  lemma AttackPathLabel(currentDir: string, x: nat, j: nat)
    requires x < SCAP_PER_ATTACK && j < |ATTACKS|
    ensures var p := NORMAL_SCAPS + x * |ATTACKS| + j;
            p < |ScapPathList(currentDir)| && LabelOf(ScapPathList(currentDir)[p]) == ATTACKS[j]
  {
    var dir := AttacksDir(currentDir);
    AttackPathAt(dir, ATTACKS, SCAP_PER_ATTACK, x, j);
    var path := AttackPaths(dir, ATTACKS, SCAP_PER_ATTACK)[x * |ATTACKS| + j];
    assert ScapPathList(currentDir)[NORMAL_SCAPS + x * |ATTACKS| + j] == path;
    ScapNameIsPlain(x);
    AttacksArePlain();
    LabelOfTrace(dir, ATTACKS[j], ScapName(x));
  }

  /** A label the script can write: `-` or the name of one of the configured attacks. */
  predicate KnownLabel(cell: Option<Value>)
  {
    cell == Some(Str("-")) || exists j :: 0 <= j < |ATTACKS| && cell == Some(Str(ATTACKS[j]))
  }

  /** Every configured trace is labelled `-` or with the name of its attack. */
  lemma ConfiguredLabel(currentDir: string, i: nat)
    requires i < |ScapPathList(currentDir)|
    ensures KnownLabel(Some(Str(LabelOf(ScapPathList(currentDir)[i]))))
  {
    ScapPathListUnique(currentDir);
    if i < NORMAL_SCAPS {
      NormalPathLabel(currentDir, i);
    } else {
      AttackPathLabel(currentDir, 0, i - NORMAL_SCAPS);
    }
  }

  /** Every row merged from the configured traces is labelled `-` or with the name of its attack. */
  lemma ConfiguredRowsLabelled(currentDir: string, tables: seq<Table>, clock: nat -> string, parse: string -> Option<int>, p: nat)
    requires |tables| == |ScapPathList(currentDir)| && Merge(ScapPathList(currentDir), tables, clock, parse).Ok?
    requires p < |Merge(ScapPathList(currentDir), tables, clock, parse).value.rows|
    ensures KnownLabel(Cell(Merge(ScapPathList(currentDir), tables, clock, parse).value.rows[p], "label"))
  {
    var paths := ScapPathList(currentDir);
    var row := Merge(paths, tables, clock, parse).value.rows[p];
    MergedRowsLabelled(paths, tables, clock, parse, p);
    var i :| 0 <= i < |tables| && HasRequired(tables[i]) && Cell(row, "label") == Some(Str(LabelOf(paths[i])));
    ConfiguredLabel(currentDir, i);
  }

  /** No trace is listed twice: normal and attack traces differ in label, and each list has no repeats. */
  lemma ScapPathListUnique(currentDir: string)
    ensures |ScapPathList(currentDir)| == NORMAL_SCAPS + SCAP_PER_ATTACK * |ATTACKS|
    ensures Unique(ScapPathList(currentDir))
  {
    var normal := NormalPaths(NormalDir(currentDir));
    var attack := AttackPaths(AttacksDir(currentDir), ATTACKS, SCAP_PER_ATTACK);
    var all := ScapPathList(currentDir);
    NormalPathsSpec(NormalDir(currentDir));
    AttackPathsLength(AttacksDir(currentDir), ATTACKS, SCAP_PER_ATTACK);
    AttacksArePlain();
    AttackPathsUnique(AttacksDir(currentDir), ATTACKS, SCAP_PER_ATTACK);
    forall p, q | 0 <= p < q < |all|
      ensures all[p] != all[q]
    {
      if q < NORMAL_SCAPS {
        assert all[p] == normal[p] && all[q] == normal[q];
      } else if p >= NORMAL_SCAPS {
        assert all[p] == attack[p - NORMAL_SCAPS] && all[q] == attack[q - NORMAL_SCAPS];
      } else {
        NormalPathLabel(currentDir, p);
        var j := q - NORMAL_SCAPS;
        AttackPathLabel(currentDir, 0, j);
      }
    }
  }
}
