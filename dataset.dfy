/**
 * The script's main block (parser.py, lines 45-73): the loaded trace table
 * becomes the structured log (lines 66-70) and the template table (line 72)
 * of a log-parsing benchmark. Writing them as CSV files is not modelled.
 */
module Dataset {
  import opened Wrappers
  import opened Values
  import opened Grouping
  import opened Frames
  import opened Loader
  import opened ScapPaths

  /** The dict display of lines 45-52, pair by pair: `content` occurs twice. */
  const COLUMN_PAIRS: seq<(string, string)> :=
    [("timestamp", "Timestamp"), ("syscall", "EventTemplate"), ("content", "Content"),
     ("label", "Label"), ("content", "Content"), ("args", "ParameterList")]

  /** A dict display: a later pair for a key overrides an earlier one. */
  function DictOf(pairs: seq<(string, string)>): map<string, string>
  {
    if |pairs| == 0 then map[]
    else DictOf(pairs[..|pairs| - 1])[pairs[|pairs| - 1].0 := pairs[|pairs| - 1].1]
  }

  /** `columns`, the rename map. */
  const COLUMNS := DictOf(COLUMN_PAIRS)

  /** The projection of line 70. */
  const STRUCTURED_COLUMNS: seq<string> := ["Label", "Timestamp", "Content", "EventId", "EventTemplate", "ParameterList"]

  /** The grouping of line 72. */
  const TEMPLATE_KEYS: seq<string> := ["EventId", "EventTemplate"]

  /** A parser that only ever yields frames the model represents (`Wf`: among others, no repeated column label). */
  ghost predicate DataFrames(process: string -> Option<Table>)
  {
    forall p :: process(p).Some? ==> Wf(process(p).value)
  }

  /** Lines 66-67: the index named `LineId`, the columns renamed. */
  function RenamedLog(t: Table): Result<Table, Error>
    requires Wf(t)
  {
    Renamed(WithAxisName(t, "LineId"), COLUMNS)
  }

  /** Line 69: `EventId` from `groupby("EventTemplate").ngroup()`. */
  function WithEventIds(r: Table): Table
  {
    WithColumn(r, "EventId", NGroup(r.rows, ["EventTemplate"]))
  }

  /** Lines 66-70 on the loaded table. */
  function Structured(t: Table): Result<Table, Error>
    requires Wf(t)
  {
    match RenamedLog(t)
    case Err(e) => Err(e)
    case Ok(renamed) => Project(WithEventIds(renamed), STRUCTURED_COLUMNS)
  }

  /** Line 72: `groupby(["EventId", "EventTemplate"]).size().reset_index(name="Occurrences")`. */
  function TemplateTable(s: Table): Table
  {
    SizeTable(s, TEMPLATE_KEYS, "Occurrences")
  }

  /** The loaded table of a parser that yields DataFrames is one. */
  lemma LoadedWf(paths: seq<string>, process: string -> Option<Table>, clock: nat -> string, parse: string -> Option<int>)
    requires DataFrames(process) && GetScapDfsSpec(paths, process, clock, parse).Ok?
    ensures Wf(GetScapDfsSpec(paths, process, clock, parse).value)
  {
    var tables := ParseAll(paths, process).value;
    assert forall i :: 0 <= i < |tables| ==> Wf(tables[i]) by {
      forall i | 0 <= i < |tables|
        ensures Wf(tables[i])
      {
        assert process(paths[i]) == Some(tables[i]);
      }
    }
    MergedWf(paths, tables, clock, parse);
  }

  /** Lines 55-72 on the configured trace list: the structured log and the template table. */
  function BuildDatasetSpec(currentDir: string, process: string -> Option<Table>, clock: nat -> string, parse: string -> Option<int>): Result<(Table, Table), Error>
    requires DataFrames(process)
  {
    var paths := ScapPathList(currentDir);
    match GetScapDfsSpec(paths, process, clock, parse)
    case Err(e) => Err(e)
    case Ok(t) =>
      LoadedWf(paths, process, clock, parse);
      match Structured(t)
      case Err(e) => Err(e)
      case Ok(s) => Ok((s, TemplateTable(s)))
  }

  /** Lines 66-70: `rename_axis`, `rename` and the `EventId` column in place, then the projection as a new frame. */
  method Structure(df: Frame) returns (r: Result<Frame, Error>)
    requires Wf(df.Value())
    modifies df
    ensures r.Ok? <==> Structured(old(df.Value())).Ok?
    ensures r.Ok? ==> fresh(r.value) && r.value.Value() == Structured(old(df.Value())).value
    ensures r.Err? ==> r.error == Structured(old(df.Value())).error
    ensures RenamedLog(old(df.Value())).Err? ==> df.Value() == WithAxisName(old(df.Value()), "LineId")
    ensures RenamedLog(old(df.Value())).Ok? ==> df.Value() == WithEventIds(RenamedLog(old(df.Value())).value)
  {
    ghost var t := df.Value();
    df.RenameAxis("LineId");
    var ok := df.Rename(COLUMNS);
    if !ok {
      return Err(DuplicateColumns);
    }
    ghost var renamed := df.Value();
    assert renamed == RenamedLog(t).value;
    df.SetColumn("EventId", NGroup(df.rows, ["EventTemplate"]));
    assert df.Value() == WithEventIds(renamed);
    var projected := Project(df.Value(), STRUCTURED_COLUMNS);
    if projected.Err? {
      return Err(projected.error);
    }
    var s := new Frame.FromTable(projected.value);
    return Ok(s);
  }

  /** Lines 55-72: load the configured traces, build the structured log and the template table. */
  method BuildDataset(currentDir: string, process: string -> Option<Table>, clock: nat -> string, parse: string -> Option<int>)
    returns (r: Result<(Frame, Frame), Error>)
    requires DataFrames(process)
    ensures r.Ok? ==> BuildDatasetSpec(currentDir, process, clock, parse) == Ok((r.value.0.Value(), r.value.1.Value()))
    ensures r.Err? ==> BuildDatasetSpec(currentDir, process, clock, parse) == Err(r.error)
  {
    var paths := ScapPathList(currentDir);
    var loaded := GetScapDfs(paths, process, clock, parse);
    if loaded.Err? {
      return Err(loaded.error);
    }
    var logStructured := loaded.value;
    LoadedWf(paths, process, clock, parse);
    var structured := Structure(logStructured);
    if structured.Err? {
      return Err(structured.error);
    }
    var logTemplate := new Frame.FromTable(TemplateTable(structured.value.Value()));
    return Ok((structured.value, logTemplate));
  }

  // ---------------------------------------------------------------------------
  // The rename map and the structured log

  /** The duplicate `content` key is harmless: the map renames the five loaded columns. */
  lemma ColumnsMap()
    ensures COLUMNS == map["timestamp" := "Timestamp", "syscall" := "EventTemplate", "content" := "Content",
                           "label" := "Label", "args" := "ParameterList"]
  {
    var p := COLUMN_PAIRS;
    assert p[..1][..0] == p[..0] && p[..2][..1] == p[..1] && p[..3][..2] == p[..2];
    assert p[..4][..3] == p[..3] && p[..5][..4] == p[..4] && p[..5] == p[..6][..5] && p[..6] == p;
    assert DictOf(p[..1]) == map["timestamp" := "Timestamp"];
    assert DictOf(p[..2]) == map["timestamp" := "Timestamp", "syscall" := "EventTemplate"];
    assert DictOf(p[..3]) == map["timestamp" := "Timestamp", "syscall" := "EventTemplate", "content" := "Content"];
    assert DictOf(p[..5]) == DictOf(p[..4])["content" := "Content"];
  }

  /** What `rename` makes of each loaded column. */
  lemma ColumnNames()
    ensures NewName(COLUMNS, "label") == "Label" && NewName(COLUMNS, "timestamp") == "Timestamp"
    ensures NewName(COLUMNS, "content") == "Content" && NewName(COLUMNS, "syscall") == "EventTemplate"
    ensures NewName(COLUMNS, "args") == "ParameterList" && NewName(COLUMNS, "EventId") == "EventId"
  {
    ColumnsMap();
  }

  /** The loaded table has the required columns plus `label` and `content`. */
  predicate Loaded(t: Table)
  {
    forall c :: c in REQUIRED + ["label", "content"] ==> c in t.columns
  }

  /** A row's `EventId` is the `ngroup` number of its `EventTemplate`. */
  predicate IdsConsistent(s: Table)
  {
    forall i :: 0 <= i < |s.rows| ==> Cell(s.rows[i], "EventId") == NGroup(s.rows, ["EventTemplate"])[i]
  }

  /** Renaming a loaded table fails only when it would give two columns one name; projecting it then always succeeds. */
  lemma StructuredOk(t: Table)
    requires Wf(t) && Loaded(t)
    ensures Structured(t).Ok? <==> InjectiveOn(COLUMNS, t.columns)
    ensures Structured(t).Err? ==> Structured(t).error == DuplicateColumns
  {
    var named := WithAxisName(t, "LineId");
    if InjectiveOn(COLUMNS, t.columns) {
      var renamed := RenamedLog(t).value;
      ColumnNames();
      assert forall c :: c in REQUIRED + ["label", "content"] ==> c in named.columns;
      RenamedHas(named, COLUMNS, "label");
      RenamedHas(named, COLUMNS, "timestamp");
      RenamedHas(named, COLUMNS, "content");
      RenamedHas(named, COLUMNS, "syscall");
      RenamedHas(named, COLUMNS, "args");
      var ids := NGroup(renamed.rows, ["EventTemplate"]);
      WithColumnShape(renamed, "EventId", ids);
    }
  }

  /** Lines 66-67 keep the rows and the index, naming it `LineId`, and move each loaded column to its new name. */
  lemma RenamedLogCells(t: Table)
    requires Wf(t) && Loaded(t) && RenamedLog(t).Ok?
    ensures var r := RenamedLog(t).value;
            && r.index == t.index && r.indexName == Some("LineId") && |r.rows| == |t.rows|
            && forall i :: 0 <= i < |t.rows| ==>
                 && Cell(r.rows[i], "Label") == Cell(t.rows[i], "label")
                 && Cell(r.rows[i], "Timestamp") == Cell(t.rows[i], "timestamp")
                 && Cell(r.rows[i], "Content") == Cell(t.rows[i], "content")
                 && Cell(r.rows[i], "EventTemplate") == Cell(t.rows[i], "syscall")
                 && Cell(r.rows[i], "ParameterList") == Cell(t.rows[i], "args")
  {
    var named := WithAxisName(t, "LineId");
    ColumnNames();
    assert forall c :: c in REQUIRED + ["label", "content"] ==> c in named.columns;
    RenamedCells(named, COLUMNS, "label");
    RenamedCells(named, COLUMNS, "timestamp");
    RenamedCells(named, COLUMNS, "content");
    RenamedCells(named, COLUMNS, "syscall");
    RenamedCells(named, COLUMNS, "args");
  }

  /** Line 70 after line 69: the six columns, `EventId` the `ngroup` number and the others as they were. */
  lemma ProjectedCells(r: Table)
    requires Project(WithEventIds(r), STRUCTURED_COLUMNS).Ok?
    ensures var s := Project(WithEventIds(r), STRUCTURED_COLUMNS).value;
            && s.columns == STRUCTURED_COLUMNS && s.index == r.index && s.indexName == r.indexName
            && |s.rows| == |r.rows|
            && (forall i :: 0 <= i < |r.rows| ==> Cell(s.rows[i], "EventId") == NGroup(r.rows, ["EventTemplate"])[i])
            && forall i :: 0 <= i < |r.rows| ==>
                 && Cell(s.rows[i], "Label") == Cell(r.rows[i], "Label")
                 && Cell(s.rows[i], "Timestamp") == Cell(r.rows[i], "Timestamp")
                 && Cell(s.rows[i], "Content") == Cell(r.rows[i], "Content")
                 && Cell(s.rows[i], "EventTemplate") == Cell(r.rows[i], "EventTemplate")
                 && Cell(s.rows[i], "ParameterList") == Cell(r.rows[i], "ParameterList")
  {
    var ids := NGroup(r.rows, ["EventTemplate"]);
    var w := WithEventIds(r);
    var s := Project(w, STRUCTURED_COLUMNS).value;
    WithColumnCells(r, "EventId", ids);
    forall i | 0 <= i < |r.rows|
      ensures Cell(s.rows[i], "EventId") == ids[i]
      ensures Cell(s.rows[i], "Label") == Cell(r.rows[i], "Label")
      ensures Cell(s.rows[i], "Timestamp") == Cell(r.rows[i], "Timestamp")
      ensures Cell(s.rows[i], "Content") == Cell(r.rows[i], "Content")
      ensures Cell(s.rows[i], "EventTemplate") == Cell(r.rows[i], "EventTemplate")
      ensures Cell(s.rows[i], "ParameterList") == Cell(r.rows[i], "ParameterList")
    {
      assert Cell(s.rows[i], "EventId") == Cell(w.rows[i], "EventId");
      assert Cell(s.rows[i], "Label") == Cell(w.rows[i], "Label");
      assert Cell(s.rows[i], "Timestamp") == Cell(w.rows[i], "Timestamp");
      assert Cell(s.rows[i], "Content") == Cell(w.rows[i], "Content");
      assert Cell(s.rows[i], "EventTemplate") == Cell(w.rows[i], "EventTemplate");
      assert Cell(s.rows[i], "ParameterList") == Cell(w.rows[i], "ParameterList");
    }
  }

  /** The projection numbers its rows by their own templates. */
  lemma ProjectedIds(r: Table)
    requires Project(WithEventIds(r), STRUCTURED_COLUMNS).Ok?
    ensures IdsConsistent(Project(WithEventIds(r), STRUCTURED_COLUMNS).value)
  {
    var s := Project(WithEventIds(r), STRUCTURED_COLUMNS).value;
    ProjectedCells(r);
    forall i | 0 <= i < |s.rows|
      ensures KeyOf(r.rows[i], ["EventTemplate"]) == KeyOf(s.rows[i], ["EventTemplate"])
    {
      assert Cell(s.rows[i], "EventTemplate") == Cell(r.rows[i], "EventTemplate");
      KeyOfSingle(r.rows[i], "EventTemplate");
      KeyOfSingle(s.rows[i], "EventTemplate");
    }
    NGroupPointwise(r.rows, s.rows, ["EventTemplate"]);
  }

  /**
   * Lines 66-70 keep every row, in order under the `LineId` index, and give
   * it exactly the six columns, read from the loaded columns they rename.
   */
  lemma StructuredCells(t: Table)
    requires Wf(t) && Loaded(t) && Structured(t).Ok?
    ensures var s := Structured(t).value;
            && s.columns == STRUCTURED_COLUMNS && s.index == t.index && s.indexName == Some("LineId")
            && |s.rows| == |t.rows|
            && forall i :: 0 <= i < |t.rows| ==>
                 && Cell(s.rows[i], "Label") == Cell(t.rows[i], "label")
                 && Cell(s.rows[i], "Timestamp") == Cell(t.rows[i], "timestamp")
                 && Cell(s.rows[i], "Content") == Cell(t.rows[i], "content")
                 && Cell(s.rows[i], "EventTemplate") == Cell(t.rows[i], "syscall")
                 && Cell(s.rows[i], "ParameterList") == Cell(t.rows[i], "args")
  {
    RenamedLogCells(t);
    ProjectedCells(RenamedLog(t).value);
  }

  /** Line 69: in the structured log, each row's `EventId` is the `ngroup` number of its own `EventTemplate`. */
  lemma StructuredIds(t: Table)
    requires Wf(t) && Structured(t).Ok?
    ensures IdsConsistent(Structured(t).value)
  {
    ProjectedIds(RenamedLog(t).value);
  }

  // ---------------------------------------------------------------------------
  // EventId (line 69)

  /** The distinct templates of a table. */
  function Templates(s: Table): set<Value>
  {
    set i | 0 <= i < |s.rows| && "EventTemplate" in s.rows[i] :: s.rows[i]["EventTemplate"]
  }

  /** The distinct templates in ascending order: the groups of `groupby("EventTemplate")`. */
  function RankedTemplates(s: Table): seq<Value>
  {
    var groups := GroupKeys(s.rows, ["EventTemplate"]);
    seq(|groups|, g requires 0 <= g < |groups| => if |groups[g].parts| > 0 then groups[g].parts[0] else Int(0))
  }

  /** The ascending list holds each distinct template once; its keys are the groups of line 69. */
  lemma RankedTemplatesSpec(s: Table)
    ensures var ranked := RankedTemplates(s);
            && (forall g, h :: 0 <= g < h < |ranked| ==> ValueLess(ranked[g], ranked[h]))
            && (forall v :: v in ranked <==> v in Templates(s))
            && |ranked| == |Templates(s)|
            && GroupKeys(s.rows, ["EventTemplate"]) == seq(|ranked|, g requires 0 <= g < |ranked| => Key([ranked[g]]))
  {
    var ranked, groups := RankedTemplates(s), GroupKeys(s.rows, ["EventTemplate"]);
    SingleColumnGroups(s.rows, "EventTemplate");
    assert groups == seq(|ranked|, g requires 0 <= g < |ranked| => Key([ranked[g]]));
    forall g, h | 0 <= g < h < |ranked|
      ensures ValueLess(ranked[g], ranked[h])
    {
      SingletonKeyLess(ranked[g], ranked[h]);
    }
    forall v
      ensures v in ranked <==> v in Templates(s)
    {
      if v in ranked {
        var g :| 0 <= g < |ranked| && ranked[g] == v;
        var i :| 0 <= i < |s.rows| && Cell(s.rows[i], "EventTemplate") == Some(groups[g].parts[0]);
      }
      if v in Templates(s) {
        var i :| 0 <= i < |s.rows| && "EventTemplate" in s.rows[i] && s.rows[i]["EventTemplate"] == v;
        assert Key([v]) in groups;
      }
    }
    forall g, h | 0 <= g < h < |ranked|
      ensures ranked[g] != ranked[h]
    {
      ValueLessIrreflexive(ranked[g]);
    }
    DistinctCardinality(ranked);
    assert (set v | v in ranked) == Templates(s);
  }

  /** No template is ranked twice. */
  lemma RankedOnce(s: Table, g: nat, h: nat)
    requires g < |RankedTemplates(s)| && h < |RankedTemplates(s)| && RankedTemplates(s)[g] == RankedTemplates(s)[h]
    ensures g == h
  {
    RankedTemplatesSpec(s);
    ValueLessIrreflexive(RankedTemplates(s)[g]);
  }

  /**
   * Line 69: a row has an `EventId` exactly when it has a template, and the
   * id is the position of that template among the distinct templates in
   * ascending order.
   */
  lemma EventIdRank(s: Table, i: nat)
    requires IdsConsistent(s) && i < |s.rows|
    ensures "EventId" in s.rows[i] <==> "EventTemplate" in s.rows[i]
    ensures "EventTemplate" in s.rows[i] ==>
              && s.rows[i]["EventId"].Int? && 0 <= s.rows[i]["EventId"].i < |RankedTemplates(s)|
              && RankedTemplates(s)[s.rows[i]["EventId"].i] == s.rows[i]["EventTemplate"]
  {
    var ids, groups := NGroup(s.rows, ["EventTemplate"]), GroupKeys(s.rows, ["EventTemplate"]);
    var ranked := RankedTemplates(s);
    NGroupDense(s.rows, ["EventTemplate"]);
    KeyOfSingle(s.rows[i], "EventTemplate");
    if "EventTemplate" in s.rows[i] {
      var t := s.rows[i]["EventTemplate"];
      RankedTemplatesSpec(s);
      SingleColumnGroups(s.rows, "EventTemplate");
      assert ids[i] == Some(Int(IndexOf(groups, Key([t]))));
      var r := IndexOf(groups, Key([t]));
      assert groups[r] == Key([ranked[r]]);
    }
  }

  /** Line 69: the ids are exactly 0 .. k-1 for the k distinct templates, and only rows with a template get one. */
  lemma EventIdDense(s: Table)
    requires IdsConsistent(s)
    ensures forall i :: 0 <= i < |s.rows| ==> ("EventId" in s.rows[i] <==> "EventTemplate" in s.rows[i])
    ensures forall i :: 0 <= i < |s.rows| && "EventId" in s.rows[i] ==>
              s.rows[i]["EventId"].Int? && 0 <= s.rows[i]["EventId"].i < |Templates(s)|
    ensures forall g :: 0 <= g < |Templates(s)| ==> exists i :: 0 <= i < |s.rows| && Cell(s.rows[i], "EventId") == Some(Int(g))
  {
    var ranked := RankedTemplates(s);
    RankedTemplatesSpec(s);
    forall i | 0 <= i < |s.rows|
      ensures "EventId" in s.rows[i] <==> "EventTemplate" in s.rows[i]
      ensures "EventId" in s.rows[i] ==> s.rows[i]["EventId"].Int? && 0 <= s.rows[i]["EventId"].i < |Templates(s)|
    {
      EventIdRank(s, i);
    }
    forall g | 0 <= g < |Templates(s)|
      ensures exists i :: 0 <= i < |s.rows| && Cell(s.rows[i], "EventId") == Some(Int(g))
    {
      assert ranked[g] in Templates(s);
      var i :| 0 <= i < |s.rows| && "EventTemplate" in s.rows[i] && s.rows[i]["EventTemplate"] == ranked[g];
      EventIdRank(s, i);
      RankedOnce(s, s.rows[i]["EventId"].i, g);
    }
  }

  /** Line 69: two rows share an id exactly when they share a template. */
  lemma EventIdSame(s: Table, i: nat, j: nat)
    requires IdsConsistent(s) && i < |s.rows| && j < |s.rows|
    requires "EventTemplate" in s.rows[i] && "EventTemplate" in s.rows[j]
    ensures "EventId" in s.rows[i] && "EventId" in s.rows[j]
    ensures s.rows[i]["EventId"] == s.rows[j]["EventId"] <==> s.rows[i]["EventTemplate"] == s.rows[j]["EventTemplate"]
  {
    EventIdRank(s, i);
    EventIdRank(s, j);
    if s.rows[i]["EventTemplate"] == s.rows[j]["EventTemplate"] {
      RankedOnce(s, s.rows[i]["EventId"].i, s.rows[j]["EventId"].i);
    }
  }

  /** Line 69 (`sort=True`): ids increase with the order of the templates. */
  lemma EventIdOrder(s: Table, i: nat, j: nat)
    requires IdsConsistent(s) && i < |s.rows| && j < |s.rows|
    requires "EventTemplate" in s.rows[i] && "EventTemplate" in s.rows[j]
    ensures "EventId" in s.rows[i] && "EventId" in s.rows[j]
    ensures s.rows[i]["EventId"].Int? && s.rows[j]["EventId"].Int?
    ensures s.rows[i]["EventId"].i < s.rows[j]["EventId"].i <==> ValueLess(s.rows[i]["EventTemplate"], s.rows[j]["EventTemplate"])
  {
    EventIdRank(s, i);
    EventIdRank(s, j);
    RankedTemplatesSpec(s);
    var a, b := s.rows[i]["EventId"].i, s.rows[j]["EventId"].i;
    var u, v := s.rows[i]["EventTemplate"], s.rows[j]["EventTemplate"];
    if ValueLess(u, v) && a >= b {
      ValueLessIrreflexive(u);
      if a > b {
        ValueLessTransitive(u, v, u);
      }
    }
  }

  // ---------------------------------------------------------------------------
  // The template table (line 72)

  /** For line 72, a row's key is its id and template, and it has one exactly when it has a template. */
  lemma TemplateKeyOf(s: Table, i: nat)
    requires IdsConsistent(s) && i < |s.rows|
    ensures KeyOf(s.rows[i], TEMPLATE_KEYS) ==
              if "EventTemplate" in s.rows[i] then Some(Key([s.rows[i]["EventId"], s.rows[i]["EventTemplate"]])) else None
  {
    EventIdRank(s, i);
    KeyOfPair(s.rows[i], "EventId", "EventTemplate");
  }

  /** The pairs (g, g-th template), in rank order: the groups line 72 should produce. */
  function RankedPairs(s: Table): (r: seq<Key>)
    ensures StrictlySorted(r)
  {
    var ranked := RankedTemplates(s);
    var pairs := seq(|ranked|, g requires 0 <= g < |ranked| => Key([Int(g), ranked[g]]));
    assert forall g, h :: 0 <= g < h < |pairs| ==> ValueLess(pairs[g].parts[0], pairs[h].parts[0]);
    pairs
  }

  /** Every (EventId, EventTemplate) key of a row is a ranked pair. */
  lemma TemplateKeysRanked(s: Table, i: nat)
    requires IdsConsistent(s) && i < |s.rows| && KeyOf(s.rows[i], TEMPLATE_KEYS).Some?
    ensures KeyOf(s.rows[i], TEMPLATE_KEYS).value in RankedPairs(s)
  {
    TemplateKeyOf(s, i);
    EventIdRank(s, i);
    assert KeyOf(s.rows[i], TEMPLATE_KEYS).value == RankedPairs(s)[s.rows[i]["EventId"].i];
  }

  /** Every ranked pair is the key of some row. */
  lemma RankedPairsPresent(s: Table, g: nat)
    requires IdsConsistent(s) && g < |RankedPairs(s)|
    ensures exists i :: 0 <= i < |s.rows| && KeyOf(s.rows[i], TEMPLATE_KEYS) == Some(RankedPairs(s)[g])
  {
    var ranked := RankedTemplates(s);
    RankedTemplatesSpec(s);
    assert ranked[g] in Templates(s);
    var i :| 0 <= i < |s.rows| && "EventTemplate" in s.rows[i] && s.rows[i]["EventTemplate"] == ranked[g];
    TemplateKeyOf(s, i);
    EventIdRank(s, i);
    RankedOnce(s, s.rows[i]["EventId"].i, g);
  }

  /** The groups of line 72 pair each rank with its template, in rank order. */
  lemma TemplateGroups(s: Table)
    requires IdsConsistent(s)
    ensures var ranked := RankedTemplates(s);
            GroupKeys(s.rows, TEMPLATE_KEYS) == seq(|ranked|, g requires 0 <= g < |ranked| => Key([Int(g), ranked[g]]))
  {
    var keys, groups, pairs := PresentKeys(s.rows, TEMPLATE_KEYS), GroupKeys(s.rows, TEMPLATE_KEYS), RankedPairs(s);
    SortedKeysSpec(keys);
    forall x
      ensures x in groups <==> x in pairs
    {
      if x in groups {
        var i :| 0 <= i < |s.rows| && KeyOf(s.rows[i], TEMPLATE_KEYS) == Some(x);
        TemplateKeysRanked(s, i);
      }
      if x in pairs {
        var g :| 0 <= g < |pairs| && pairs[g] == x;
        RankedPairsPresent(s, g);
      }
    }
    SortedUnique(groups, pairs);
  }

  /** A row has rank `g` and the `g`-th template for line 72 exactly when its template is the `g`-th. */
  lemma TemplateCount(s: Table, g: nat)
    requires IdsConsistent(s) && g < |RankedTemplates(s)|
    ensures var t := RankedTemplates(s)[g];
            CountKey(s.rows, TEMPLATE_KEYS, Key([Int(g), t])) == CountKey(s.rows, ["EventTemplate"], Key([t]))
  {
    var t := RankedTemplates(s)[g];
    forall i | 0 <= i < |s.rows|
      ensures KeyOf(s.rows[i], TEMPLATE_KEYS) == Some(Key([Int(g), t])) <==> KeyOf(s.rows[i], ["EventTemplate"]) == Some(Key([t]))
    {
      TemplateKeyOf(s, i);
      KeyOfSingle(s.rows[i], "EventTemplate");
      EventIdRank(s, i);
      if "EventTemplate" in s.rows[i] && s.rows[i]["EventTemplate"] == t {
        RankedOnce(s, s.rows[i]["EventId"].i, g);
      }
    }
    CountKeyPointwise(s.rows, TEMPLATE_KEYS, Key([Int(g), t]), ["EventTemplate"], Key([t]));
  }

  /** Row `g` of the template table: id `g`, the `g`-th template, and how many rows have it. */
  lemma TemplateRow(s: Table, g: nat)
    requires IdsConsistent(s) && g < |RankedTemplates(s)|
    ensures var tt, t := TemplateTable(s), RankedTemplates(s)[g];
            && g < |tt.rows|
            && Cell(tt.rows[g], "EventId") == Some(Int(g))
            && Cell(tt.rows[g], "EventTemplate") == Some(t)
            && Cell(tt.rows[g], "Occurrences") == Some(Int(CountKey(s.rows, ["EventTemplate"], Key([t]))))
  {
    var ranked := RankedTemplates(s);
    TemplateGroups(s);
    SizeTableRows(s, TEMPLATE_KEYS, "Occurrences");
    var groups := GroupKeys(s.rows, TEMPLATE_KEYS);
    assert groups[g] == Key([Int(g), ranked[g]]);
    assert TEMPLATE_KEYS[0] == "EventId" && TEMPLATE_KEYS[1] == "EventTemplate";
    TemplateCount(s, g);
  }

  /**
   * Line 72: one row per distinct template, in ascending order: row `g`
   * holds id `g`, the `g`-th template and the number of rows with that template.
   */
  lemma TemplateTableSpec(s: Table)
    requires IdsConsistent(s)
    ensures var tt, ranked := TemplateTable(s), RankedTemplates(s);
            && tt.columns == ["EventId", "EventTemplate", "Occurrences"]
            && tt.index == seq(|ranked|, g => g) && |tt.rows| == |ranked| == |Templates(s)|
            && forall g :: 0 <= g < |ranked| ==>
                 && Cell(tt.rows[g], "EventId") == Some(Int(g))
                 && Cell(tt.rows[g], "EventTemplate") == Some(ranked[g])
                 && Cell(tt.rows[g], "Occurrences") == Some(Int(CountKey(s.rows, ["EventTemplate"], Key([ranked[g]]))))
  {
    TemplateGroups(s);
    RankedTemplatesSpec(s);
    forall g | 0 <= g < |RankedTemplates(s)| {
      TemplateRow(s, g);
    }
  }

  /** Line 72: the occurrences add up to the rows with a template, so to all rows when every row has one. */
  lemma OccurrencesTotal(s: Table)
    requires IdsConsistent(s)
    ensures TotalCount(TemplateTable(s).rows, "Occurrences") == CountKeyed(s.rows, ["EventTemplate"])
    ensures (forall i :: 0 <= i < |s.rows| ==> "EventTemplate" in s.rows[i]) ==>
              TotalCount(TemplateTable(s).rows, "Occurrences") == |s.rows|
  {
    SizeTableTotal(s, TEMPLATE_KEYS, "Occurrences");
    forall i | 0 <= i < |s.rows|
      ensures KeyOf(s.rows[i], TEMPLATE_KEYS).Some? <==> KeyOf(s.rows[i], ["EventTemplate"]).Some?
    {
      TemplateKeyOf(s, i);
      KeyOfSingle(s.rows[i], "EventTemplate");
    }
    CountKeyedPointwise(s.rows, TEMPLATE_KEYS, ["EventTemplate"]);
    if forall i :: 0 <= i < |s.rows| ==> "EventTemplate" in s.rows[i] {
      forall i | 0 <= i < |s.rows|
        ensures KeyOf(s.rows[i], ["EventTemplate"]).Some?
      {
        KeyOfSingle(s.rows[i], "EventTemplate");
      }
      CountKeyedAll(s.rows, ["EventTemplate"]);
    }
  }

  // ---------------------------------------------------------------------------
  // The whole script

  /**
   * The structured log of a loaded table numbered 0 .. n-1 whose labels are
   * never `NORMAL` and whose `content` copies `syscall`: rows numbered
   * 0 .. n-1 under `LineId`, no label `NORMAL`, each `Content` a copy of its
   * `EventTemplate`.
   */
  lemma StructuredRows(t: Table)
    requires Wf(t) && Loaded(t) && Structured(t).Ok?
    requires |t.index| == |t.rows| && forall p :: 0 <= p < |t.index| ==> t.index[p] == p
    requires forall p :: 0 <= p < |t.rows| ==>
               Cell(t.rows[p], "label") != Some(Str("NORMAL")) && Cell(t.rows[p], "content") == Cell(t.rows[p], "syscall")
    ensures var s := Structured(t).value;
            && s.columns == STRUCTURED_COLUMNS && s.indexName == Some("LineId")
            && s.index == seq(|s.rows|, p => p) && |s.rows| == |t.rows|
            && IdsConsistent(s)
            && forall p :: 0 <= p < |s.rows| ==>
                 && Cell(s.rows[p], "Label") != Some(Str("NORMAL"))
                 && Cell(s.rows[p], "Content") == Cell(s.rows[p], "EventTemplate")
  {
    StructuredIndex(t);
    StructuredLabels(t);
    StructuredIds(t);
  }

  /** Rows numbered 0 .. n-1 keep those numbers under `LineId`. */
  lemma StructuredIndex(t: Table)
    requires Wf(t) && Loaded(t) && Structured(t).Ok?
    requires |t.index| == |t.rows| && forall p :: 0 <= p < |t.index| ==> t.index[p] == p
    ensures var s := Structured(t).value;
            && s.columns == STRUCTURED_COLUMNS && s.indexName == Some("LineId")
            && s.index == seq(|s.rows|, p => p) && |s.rows| == |t.rows|
  {
    StructuredCells(t);
  }

  /** Labels other than `NORMAL` and `content` copies of `syscall` become the same in the public columns. */
  lemma StructuredLabels(t: Table)
    requires Wf(t) && Loaded(t) && Structured(t).Ok?
    requires forall p :: 0 <= p < |t.rows| ==>
               Cell(t.rows[p], "label") != Some(Str("NORMAL")) && Cell(t.rows[p], "content") == Cell(t.rows[p], "syscall")
    ensures var s := Structured(t).value;
            forall p :: 0 <= p < |s.rows| ==>
              && Cell(s.rows[p], "Label") != Some(Str("NORMAL"))
              && Cell(s.rows[p], "Content") == Cell(s.rows[p], "EventTemplate")
  {
    StructuredCells(t);
  }

  /** The same of the table `get_scap_dfs` merges. */
  lemma MergedStructured(paths: seq<string>, tables: seq<Table>, clock: nat -> string, parse: string -> Option<int>)
    requires |paths| == |tables| && Merge(paths, tables, clock, parse).Ok?
    requires Wf(Merge(paths, tables, clock, parse).value) && Structured(Merge(paths, tables, clock, parse).value).Ok?
    ensures var s := Structured(Merge(paths, tables, clock, parse).value).value;
            && s.columns == STRUCTURED_COLUMNS && s.indexName == Some("LineId")
            && s.index == seq(|s.rows|, p => p) && |s.rows| == TotalRows(AcceptedTables(tables))
            && IdsConsistent(s)
            && forall p :: 0 <= p < |s.rows| ==>
                 && Cell(s.rows[p], "Label") != Some(Str("NORMAL"))
                 && Cell(s.rows[p], "Content") == Cell(s.rows[p], "EventTemplate")
  {
    var t := Merge(paths, tables, clock, parse).value;
    MergedColumns(paths, tables, clock, parse);
    MergeSpec(paths, tables, clock, parse);
    forall p | 0 <= p < |t.rows|
      ensures Cell(t.rows[p], "label") != Some(Str("NORMAL")) && Cell(t.rows[p], "content") == Cell(t.rows[p], "syscall")
    {
      MergedRowsLabelled(paths, tables, clock, parse, p);
    }
    MergeRowCount(paths, tables, clock, parse);
    StructuredRows(t);
  }

  /** Lines 55-72: what the script promises of the two tables it writes. */
  lemma DatasetSpec(currentDir: string, process: string -> Option<Table>, clock: nat -> string, parse: string -> Option<int>)
    requires DataFrames(process) && BuildDatasetSpec(currentDir, process, clock, parse).Ok?
    ensures var (s, tt) := BuildDatasetSpec(currentDir, process, clock, parse).value;
            && s.columns == STRUCTURED_COLUMNS && s.indexName == Some("LineId")
            && s.index == seq(|s.rows|, p => p)
            && IdsConsistent(s) && tt == TemplateTable(s)
            && forall p :: 0 <= p < |s.rows| ==>
                 && Cell(s.rows[p], "Label") != Some(Str("NORMAL"))
                 && Cell(s.rows[p], "Content") == Cell(s.rows[p], "EventTemplate")
    ensures ParseAll(ScapPathList(currentDir), process).Some?
    ensures var (s, tt) := BuildDatasetSpec(currentDir, process, clock, parse).value;
            && |s.rows| == TotalRows(AcceptedTables(ParseAll(ScapPathList(currentDir), process).value))
            && TotalCount(tt.rows, "Occurrences") == CountKeyed(s.rows, ["EventTemplate"])
            && ((forall p :: 0 <= p < |s.rows| ==> "EventTemplate" in s.rows[p]) ==>
                  TotalCount(tt.rows, "Occurrences") == |s.rows|)
    ensures var s := BuildDatasetSpec(currentDir, process, clock, parse).value.0;
            forall p :: 0 <= p < |s.rows| ==> KnownLabel(Cell(s.rows[p], "Label"))
  {
    var paths := ScapPathList(currentDir);
    var tables := ParseAll(paths, process).value;
    LoadedWf(paths, process, clock, parse);
    MergedStructured(paths, tables, clock, parse);
    OccurrencesTotal(BuildDatasetSpec(currentDir, process, clock, parse).value.0);
    WrittenLabels(currentDir, process, clock, parse);
  }

  /** Lines 31-33 over the traces of lines 55-63: every written `Label` is `-` or the name of a configured attack. */
  lemma WrittenLabels(currentDir: string, process: string -> Option<Table>, clock: nat -> string, parse: string -> Option<int>)
    requires DataFrames(process) && BuildDatasetSpec(currentDir, process, clock, parse).Ok?
    ensures var s := BuildDatasetSpec(currentDir, process, clock, parse).value.0;
            forall p :: 0 <= p < |s.rows| ==> KnownLabel(Cell(s.rows[p], "Label"))
  {
    var paths := ScapPathList(currentDir);
    var tables := ParseAll(paths, process).value;
    LoadedWf(paths, process, clock, parse);
    var t := Merge(paths, tables, clock, parse).value;
    MergedColumns(paths, tables, clock, parse);
    StructuredCells(t);
    var s := Structured(t).value;
    forall p | 0 <= p < |s.rows|
      ensures KnownLabel(Cell(s.rows[p], "Label"))
    {
      ConfiguredRowsLabelled(currentDir, tables, clock, parse, p);
    }
  }
}
