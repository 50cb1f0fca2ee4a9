/** From query text to a streaming plan. */
module Compilation {
  import opened Rows
  import opened Text
  import opened SqlText
  import opened StreamPlan
  import opened ParseRoundTrip

  datatype Column = Column(name: string, sqlType: string)

  datatype Plan = Plan(
    table: string, projection: string, baseWhere: string, cursorColumn: string, cursorType: string,
    mode: Mode, batchSize: int)

  datatype PlanResult =
    | Planned(plan: Plan)
    | BadSQL(error: CompileError)
    | ParserPanic
    | NoTable | NoColumns | HintNotFound | CursorNotFound | BadCursorType

  // ---- choosing the cursor ----

  function Names(schema: seq<Column>): (names: seq<string>)
    ensures |names| == |schema| && forall i | 0 <= i < |schema| :: names[i] == schema[i].name
  {
    seq(|schema|, i requires 0 <= i < |schema| => schema[i].name)
  }

  /** The position of the first column with this name, or the number of columns. */
  function FindColumn(schema: seq<Column>, name: string): (i: nat)
    ensures i <= |schema|
    ensures i < |schema| ==> schema[i].name == name
    ensures forall j | 0 <= j < i :: schema[j].name != name
  {
    var names := Names(schema);
    var i := FirstOf(names, name);
    assert forall j | 0 <= j < i :: names[j] == schema[j].name;
    i
  }

  predicate Has(schema: seq<Column>, name: string)
  {
    FindColumn(schema, name) < |schema|
  }

  /** The cursor column: the hint if it exists, else "id", else "created_at". */
  function DetermineCursor(schema: seq<Column>, hint: Option<string>): Option<string>
  {
    match hint
    case Some(h) => if Has(schema, h) then Some(h) else None
    case None =>
      if Has(schema, "id") then Some("id")
      else if Has(schema, "created_at") then Some("created_at")
      else None
  }

  predicate IsTimestamp(sqlType: string)
  {
    Contains(ToUpper(sqlType), "TIMESTAMP")
  }

  predicate ValidCursorType(sqlType: string)
  {
    IsTimestamp(sqlType) || ToUpper(sqlType) == "BIGINT" || ToUpper(sqlType) == "INT64"
  }

  /** `catalog` is what the database answers to the existence check and to DESCRIBE. */
  function Compile(
    catalog: map<string, seq<Column>>, sql: string, hint: Option<string>, mode: Mode, batchSize: int): PlanResult
  {
    var verdict := ValidateSQL(sql);
    if verdict.Rejected? then BadSQL(verdict.error) else
    var parsed := ParseSQL(sql);
    match parsed
    case Panicked => ParserPanic
    case Failed(error) => BadSQL(error)
    case Parsed(table, projection, whereClause) =>
      if table !in catalog then NoTable
      else PlanTable(catalog[table], hint, Plan(table, projection, whereClause, "", "", mode, batchSize))
  }

  /** Completes a plan that still lacks its cursor column and type. */
  function PlanTable(schema: seq<Column>, hint: Option<string>, plan: Plan): PlanResult
  {
    if schema == [] then NoColumns else
    match DetermineCursor(schema, hint)
    case None => if hint.Some? then HintNotFound else CursorNotFound
    case Some(column) =>
      var cursorType := schema[FindColumn(schema, column)].sqlType;
      if !ValidCursorType(cursorType) then BadCursorType
      else Planned(plan.(cursorColumn := column, cursorType := cursorType))
  }

  /** Column `i` is what the stream should follow: the hint; or id; or created_at when there is no id. */
  predicate IsCursor(schema: seq<Column>, hint: Option<string>, i: nat)
  {
    && i < |schema| && (forall j | 0 <= j < i :: schema[j].name != schema[i].name)
    && match hint
       case Some(h) => schema[i].name == h
       case None =>
         || schema[i].name == "id"
         || (schema[i].name == "created_at" && forall j | 0 <= j < |schema| :: schema[j].name != "id")
  }

  lemma FirstColumn(schema: seq<Column>, i: nat)
    requires i < |schema| && forall j | 0 <= j < i :: schema[j].name != schema[i].name
    ensures FindColumn(schema, schema[i].name) == i
  {
    var k := FindColumn(schema, schema[i].name);
    assert k >= i;
  }

  lemma FoundIsCursor(schema: seq<Column>, hint: Option<string>)
    requires DetermineCursor(schema, hint).Some?
    ensures var i := FindColumn(schema, DetermineCursor(schema, hint).value);
            IsCursor(schema, hint, i) && schema[i].name == DetermineCursor(schema, hint).value
  {
  }

  /** A cursor type is allowed iff it names TIMESTAMP, or is BIGINT or INT64, in any letter case. */
  lemma CursorTypeIff(sqlType: string)
    ensures IsTimestamp(sqlType) <==> HoldsFold(sqlType, "TIMESTAMP")
    ensures ValidCursorType(sqlType)
            <==> HoldsFold(sqlType, "TIMESTAMP") || EqualFold(sqlType, "BIGINT") || EqualFold(sqlType, "INT64")
  {
    UpperIsSame("TIMESTAMP");
    UpperIsSame("BIGINT");
    UpperIsSame("INT64");
    HoldsFoldIff(sqlType, "TIMESTAMP");
    FoldIff(sqlType, "BIGINT");
    FoldIff(sqlType, "INT64");
  }

  /** Why a table cannot be streamed: each error has its own reason, and one of them applies unless there is a plan. */
  lemma TableErrorIff(schema: seq<Column>, hint: Option<string>, plan: Plan)
    ensures var result := PlanTable(schema, hint, plan);
            && (result == NoColumns <==> schema == [])
            && (result == HintNotFound <==> schema != [] && hint.Some? && !NamesColumn(schema, hint.value))
            && (result == CursorNotFound
                <==> schema != [] && hint.None? && !NamesColumn(schema, "id") && !NamesColumn(schema, "created_at"))
            && (result == BadCursorType
                <==> exists i | 0 <= i < |schema| ::
                       IsCursor(schema, hint, i) && !ValidCursorType(schema[i].sqlType))
            && (result.Planned? <==> Streamable(schema, hint))
  {
    TableIsPlannedIff(schema, hint, plan);
    HasIff(schema, "id");
    HasIff(schema, "created_at");
    if hint.Some? {
      HasIff(schema, hint.value);
    }
    if DetermineCursor(schema, hint).Some? {
      FoundIsCursor(schema, hint);
    }
    forall i: nat | IsCursor(schema, hint, i)
      ensures DetermineCursor(schema, hint).Some? && i == FindColumn(schema, DetermineCursor(schema, hint).value)
    {
      CursorIff(schema, hint, i);
    }
  }

  predicate NamesColumn(schema: seq<Column>, name: string)
  {
    exists i | 0 <= i < |schema| :: schema[i].name == name
  }

  lemma HasIff(schema: seq<Column>, name: string)
    ensures Has(schema, name) <==> NamesColumn(schema, name)
  {
    if i :| 0 <= i < |schema| && schema[i].name == name {
      assert FindColumn(schema, name) <= i;
    }
  }

  /** Where compilation stops: at validation, at parsing, at a missing table, or at what its columns lack. */
  lemma CompileStops(
    catalog: map<string, seq<Column>>, sql: string, hint: Option<string>, mode: Mode, batchSize: int)
    ensures var result := Compile(catalog, sql, hint, mode, batchSize);
            && (ValidateSQL(sql).Rejected? ==> result == BadSQL(ValidateSQL(sql).error))
            && (ValidateSQL(sql).Accepted? && ParseSQL(sql).Failed? ==> result == BadSQL(ParseSQL(sql).error))
            && (result == NoTable
                <==> ValidateSQL(sql).Accepted? && ParseSQL(sql).Parsed? && ParseSQL(sql).table !in catalog)
            && (result.Planned?
                <==> && ValidateSQL(sql).Accepted? && ParseSQL(sql).Parsed? && ParseSQL(sql).table in catalog
                     && Streamable(catalog[ParseSQL(sql).table], hint))
  {
    var parsed := ParseSQL(sql);
    if parsed.Parsed? && parsed.table in catalog {
      TableErrorIff(catalog[parsed.table], hint,
          Plan(parsed.table, parsed.projection, parsed.whereClause, "", "", mode, batchSize));
    }
  }

  /** The search finds the one column the stream should follow, and fails only when there is none. */
  lemma CursorIff(schema: seq<Column>, hint: Option<string>, i: nat)
    ensures IsCursor(schema, hint, i)
            <==> DetermineCursor(schema, hint).Some? && i == FindColumn(schema, DetermineCursor(schema, hint).value)
  {
    if DetermineCursor(schema, hint).Some? {
      FoundIsCursor(schema, hint);
    }
    if IsCursor(schema, hint, i) {
      FirstColumn(schema, i);
    }
  }

  /** What every accepted plan satisfies; the cursor is the best available by priority. */
  lemma PlanIsSound(catalog: map<string, seq<Column>>, sql: string, hint: Option<string>, mode: Mode, batchSize: int)
    requires Compile(catalog, sql, hint, mode, batchSize).Planned?
    ensures var plan := Compile(catalog, sql, hint, mode, batchSize).plan;
            && ValidateSQL(sql).Accepted?
            && ParseSQL(sql) == Parsed(plan.table, plan.projection, plan.baseWhere)
            && plan.mode == mode && plan.batchSize == batchSize
            && plan.table in catalog
            && var schema := catalog[plan.table];
               exists i | 0 <= i < |schema| ::
                 IsCursor(schema, hint, i) && plan.cursorColumn == schema[i].name
                     && plan.cursorType == schema[i].sqlType
    ensures ValidCursorType(Compile(catalog, sql, hint, mode, batchSize).plan.cursorType)
  {
    var plan := Compile(catalog, sql, hint, mode, batchSize).plan;
    var schema := catalog[plan.table];
    FoundIsCursor(schema, hint);
  }

  /** The statement's projection as the compiler reads it: cut to its length after collapsing. */
  function ReadProjection(p: string): string
    requires p != [] && Trimmed(p)
  {
    CollapsedHead(p);
    TrimSpace(p[..|Collapse(ToUpper(p))|])
  }

  /** The column the stream should follow exists and has an allowed type. */
  predicate Streamable(schema: seq<Column>, hint: Option<string>)
  {
    exists i | 0 <= i < |schema| :: IsCursor(schema, hint, i) && ValidCursorType(schema[i].sqlType)
  }

  lemma TableIsPlannedIff(schema: seq<Column>, hint: Option<string>, plan: Plan)
    ensures PlanTable(schema, hint, plan).Planned? <==> Streamable(schema, hint)
  {
    if Streamable(schema, hint) {
      var i :| 0 <= i < |schema| && IsCursor(schema, hint, i) && ValidCursorType(schema[i].sqlType);
      CursorIff(schema, hint, i);
    }
    if PlanTable(schema, hint, plan).Planned? {
      FoundIsCursor(schema, hint);
    }
  }

  lemma CompilesTo(catalog: map<string, seq<Column>>, sql: string, hint: Option<string>, mode: Mode, batchSize: int,
                   t: string, p: string, clause: string)
    requires ValidateSQL(sql).Accepted? && ParseSQL(sql) == Parsed(t, p, clause)
    requires t in catalog && Streamable(catalog[t], hint)
    ensures var result := Compile(catalog, sql, hint, mode, batchSize);
            result.Planned? && result.plan.table == t && result.plan.projection == p
  {
    TableIsPlannedIff(catalog[t], hint, Plan(t, p, clause, "", "", mode, batchSize));
  }

  /**
   * A printed statement gets a plan exactly when validation accepts it, its table exists, and the
   * column the stream should follow has an allowed type.
   */
  lemma PrintedIsPlannedIff(
    catalog: map<string, seq<Column>>, p: string, t: string, w: Option<string>, hint: Option<string>, mode: Mode,
        batchSize: int)
    requires Printable(p, t, w)
    ensures Compile(catalog, Print(p, t, w), hint, mode, batchSize).Planned?
            <==> ValidateSQL(Print(p, t, w)).Accepted? && t in catalog && Streamable(catalog[t], hint)
  {
    ParsePrinted(p, t, w);
    if t in catalog {
      TableIsPlannedIff(catalog[t], hint, Plan(t, ReadProjection(p), ClauseText(w), "", "", mode, batchSize));
    }
  }

  /** The plan of a printed statement holds its parts and follows the right column. */
  lemma PrintedPlanIs(
    catalog: map<string, seq<Column>>, p: string, t: string, w: Option<string>, hint: Option<string>, mode: Mode,
        batchSize: int,
    i: nat)
    requires Printable(p, t, w) && Compile(catalog, Print(p, t, w), hint, mode, batchSize).Planned?
    requires t in catalog && IsCursor(catalog[t], hint, i)
    ensures Compile(catalog, Print(p, t, w), hint, mode, batchSize).plan
            == Plan(t, ReadProjection(p), ClauseText(w), catalog[t][i].name, catalog[t][i].sqlType, mode, batchSize)
  {
    ParsePrinted(p, t, w);
    CursorIff(catalog[t], hint, i);
    FoundIsCursor(catalog[t], hint);
  }

  /** The compiler panics exactly on accepted texts in which the first "SELECT " ends past the first " FROM ". */
  lemma CompilePanicsIff(
    catalog: map<string, seq<Column>>, sql: string, hint: Option<string>, mode: Mode, batchSize: int)
    ensures var n := NormalizeSQL(sql);
            Compile(catalog, sql, hint, mode, batchSize).ParserPanic?
            <==> && ValidateSQL(sql).Accepted? && Index(n, " FROM ") != -1 && Index(n, "SELECT ") != -1
                 && Index(n, "SELECT ") + 7 > Index(n, " FROM ")
  {
    ParsePanicsIff(sql);
  }
}
