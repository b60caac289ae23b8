/** The ten fundamental indicators (price to earnings, earnings per share, ...). Each one computes a
    percent from its inputs and records its inputs for today in the shared "Fundementals" table. */
module Fundementals {
  import opened Results
  import opened Frames
  import opened Reconcile
  import opened Storage

  datatype MetricKind =
    | PriceToEarnings | PriceToEarningsGrowth | EarningsPerShare | FreeCashflow | PriceToBook
    | ReturnOnEquity | DividendPayout | PriceToSales | DividendYield | DebtToEquity

  /** The number of inputs each indicator's constructor takes. */
  function Arity(k: MetricKind): nat
  {
    match k
    case PriceToEarnings | PriceToEarningsGrowth | EarningsPerShare | FreeCashflow => 2
    case _ => 1
  }

  /** The table every indicator writes to. */
  const TableName := "Fundementals"

  // ---------------------------------------------------------------------------------------------
  // `calculatePercent`

  /** The percent, kept abstract: which indicator computed it and from which values. */
  datatype Score = Score(kind: MetricKind, args: seq<real>)

  predicate Missing(inputs: seq<Option<real>>)
  {
    exists i :: 0 <= i < |inputs| && inputs[i].None?
  }

  function Values(inputs: seq<Option<real>>): (xs: seq<real>)
    requires !Missing(inputs)
    ensures |xs| == |inputs| && forall i :: 0 <= i < |xs| ==> inputs[i] == Some(xs[i])
  {
    seq(|inputs|, i requires 0 <= i < |inputs| => inputs[i].value)
  }

  /** The number the formula divides by, if it divides at all. These are `trailingPE`,
      `trailingPEG`, `trailingEPS`, `marketCap`, `pb`, `dp`, `1 + dy` and `1 + de`. Return on
      equity divides by the constant 10, and price to sales returns its input unchanged. */
  function Divisor(k: MetricKind, xs: seq<real>): Option<real>
    requires |xs| == Arity(k)
  {
    match k
    case PriceToEarnings | PriceToEarningsGrowth | EarningsPerShare | FreeCashflow => Some(xs[1])
    case PriceToBook | DividendPayout => Some(xs[0])
    case DividendYield | DebtToEquity => Some(1.0 + xs[0])
    case ReturnOnEquity | PriceToSales => None
  }

  /** `calculatePercent`. Every indicator but price to earnings growth returns None as soon as
      one input is None. Price to earnings growth has no guard, so the division meets None and
      raises. A zero divisor raises ZeroDivisionError. */
  function CalculatePercent(k: MetricKind, inputs: seq<Option<real>>): (r: Result<Option<Score>>)
    requires |inputs| == Arity(k)
  {
    if Missing(inputs) then
      if k == PriceToEarningsGrowth then Err(NoneOperand) else Ok(None)
    else if Divisor(k, Values(inputs)) == Some(0.0) then Err(ZeroDivision)
    else Ok(Some(Score(k, Values(inputs))))
  }

  /** The null guard in both directions: the percent is missing exactly when an input is,
      except for price to earnings growth, whose percent is never missing. */
  lemma PercentMissingIffInputMissing(k: MetricKind, inputs: seq<Option<real>>)
    requires |inputs| == Arity(k)
    ensures CalculatePercent(k, inputs) == Ok(None) <==> k != PriceToEarningsGrowth && Missing(inputs)
  {
  }

  /** When the call raises, and what it raises. */
  lemma PercentErrors(k: MetricKind, inputs: seq<Option<real>>)
    requires |inputs| == Arity(k)
    ensures CalculatePercent(k, inputs).Err? <==>
      (k == PriceToEarningsGrowth && Missing(inputs))
      || (!Missing(inputs) && Divisor(k, Values(inputs)) == Some(0.0))
    ensures CalculatePercent(k, inputs) == Err(NoneOperand) <==> k == PriceToEarningsGrowth && Missing(inputs)
    ensures (k == ReturnOnEquity || k == PriceToSales) ==> CalculatePercent(k, inputs) != Err(ZeroDivision)
  {
  }

  /** With every input present and a nonzero divisor, the percent is computed from exactly those
      values. */
  lemma PercentPresent(k: MetricKind, inputs: seq<Option<real>>)
    requires |inputs| == Arity(k) && !Missing(inputs)
    ensures var r := CalculatePercent(k, inputs);
      r.Ok? ==> (r.value.Some? && r.value.value.kind == k
                 && |r.value.value.args| == Arity(k)
                 && forall i :: 0 <= i < Arity(k) ==> inputs[i] == Some(r.value.value.args[i]))
  {
  }

  // ---------------------------------------------------------------------------------------------
  // The observation and the table layout

  function CellOf(x: Option<real>): Cell
  {
    if x.Some? then Real(x.value) else Null
  }

  /** The columns of each indicator's one-row `newData`, in the order its dictionary lists them. */
  function ObservationColumns(k: MetricKind): seq<string>
  {
    match k
    case PriceToEarnings => ["Date", "TrailingPE", "ForwardPE"]
    case PriceToEarningsGrowth => ["Date", "PEG", "TrailingPEG"]
    case EarningsPerShare => ["Date", "ForwardEPS", "TrailingEPS"]
    case FreeCashflow => ["Date", "FreeCashflow", "MarketCap"]
    case PriceToBook => ["Date", "PriceToBook"]
    case ReturnOnEquity => ["Date", "ReturnOnEquity"]
    case DividendPayout => ["Date", "DividendPayout"]
    case PriceToSales => ["Date", "PriceToSales"]
    case DividendYield => ["Date", "DividendYield"]
    case DebtToEquity => ["Date", "DebtToEquity"]
  }

  /** The one row of `newData`: today's date and the inputs. A missing input is a missing cell. */
  function ObservationRow(k: MetricKind, today: string, xs: seq<Option<real>>): Row
    requires |xs| == Arity(k)
  {
    match k
    case PriceToEarnings => map["Date" := Text(today), "TrailingPE" := CellOf(xs[1]), "ForwardPE" := CellOf(xs[0])]
    case PriceToEarningsGrowth => map["Date" := Text(today), "PEG" := CellOf(xs[0]), "TrailingPEG" := CellOf(xs[1])]
    case EarningsPerShare => map["Date" := Text(today), "ForwardEPS" := CellOf(xs[0]), "TrailingEPS" := CellOf(xs[1])]
    case FreeCashflow => map["Date" := Text(today), "FreeCashflow" := CellOf(xs[0]), "MarketCap" := CellOf(xs[1])]
    case PriceToBook => map["Date" := Text(today), "PriceToBook" := CellOf(xs[0])]
    case ReturnOnEquity => map["Date" := Text(today), "ReturnOnEquity" := CellOf(xs[0])]
    case DividendPayout => map["Date" := Text(today), "DividendPayout" := CellOf(xs[0])]
    case PriceToSales => map["Date" := Text(today), "PriceToSales" := CellOf(xs[0])]
    case DividendYield => map["Date" := Text(today), "DividendYield" := CellOf(xs[0])]
    case DebtToEquity => map["Date" := Text(today), "DebtToEquity" := CellOf(xs[0])]
  }

  function NewData(k: MetricKind, today: string, xs: seq<Option<real>>): Frame
    requires |xs| == Arity(k)
  {
    Frame(ObservationColumns(k), [ObservationRow(k, today, xs)])
  }

  /** The indicator's own columns: the observation's columns after the key. */
  function Group(k: MetricKind): seq<string>
  {
    ObservationColumns(k)[1..]
  }

  /** The column list `addTable` receives when the indicator creates the table. */
  function Schema(k: MetricKind): seq<(string, PyType)>
  {
    match k
    case PriceToEarnings => [("Date", StrType), ("TrailingPE", FloatType), ("ForwardPE", FloatType)]
    case PriceToEarningsGrowth => [("Date", StrType), ("TrailingPEG", FloatType), ("PEG", FloatType)]
    case EarningsPerShare => [("Date", StrType), ("TrailingEPS", FloatType), ("ForwardEPS", FloatType)]
    case FreeCashflow => [("Date", StrType), ("FreeCashflow", FloatType), ("MarketCap", FloatType)]
    case PriceToBook => [("Date", StrType), ("PriceToBook", FloatType)]
    case ReturnOnEquity => [("Date", StrType), ("ReturnOnEquity", FloatType)]
    case DividendPayout => [("Date", StrType), ("DividendPayout", FloatType)]
    case PriceToSales => [("Date", StrType), ("PriceToSales", FloatType)]
    case DividendYield => [("Date", StrType), ("DividendYield", FloatType)]
    case DebtToEquity => [("Date", StrType), ("DebtToEquity", FloatType)]
  }

  function Labels(spec: seq<(string, PyType)>): (ns: seq<string>)
    ensures |ns| == |spec| && forall i :: 0 <= i < |ns| ==> ns[i] == spec[i].0
  {
    seq(|spec|, i requires 0 <= i < |spec| => spec[i].0)
  }

  function SchemaNames(k: MetricKind): seq<string>
  {
    Labels(Schema(k))
  }

  /** The indicator a column name belongs to; the key belongs to none. */
  function Owner(c: string): Option<MetricKind>
  {
    if c == "TrailingPE" || c == "ForwardPE" then Some(PriceToEarnings)
    else if c == "PEG" || c == "TrailingPEG" then Some(PriceToEarningsGrowth)
    else if c == "ForwardEPS" || c == "TrailingEPS" then Some(EarningsPerShare)
    else if c == "FreeCashflow" || c == "MarketCap" then Some(FreeCashflow)
    else if c == "PriceToBook" then Some(PriceToBook)
    else if c == "ReturnOnEquity" then Some(ReturnOnEquity)
    else if c == "DividendPayout" then Some(DividendPayout)
    else if c == "PriceToSales" then Some(PriceToSales)
    else if c == "DividendYield" then Some(DividendYield)
    else if c == "DebtToEquity" then Some(DebtToEquity)
    else None
  }

  /** The observation starts with the key and has one or two columns of its own. */
  lemma ObservationStartsWithKey(k: MetricKind)
    ensures 2 <= |ObservationColumns(k)| <= 3 && ObservationColumns(k)[0] == DateColumn
  {
  }

  /** Each observation column is the key or belongs to the observing indicator. So a column
      that belongs to another indicator is not among this one's: the indicators' column groups
      are pairwise disjoint. */
  lemma OwnerOf(k: MetricKind, c: string)
    ensures c in ObservationColumns(k) ==> Owner(c) == if c == DateColumn then None else Some(k)
  {
    var cols := ObservationColumns(k);
    if c in cols {
      var i :| 0 <= i < |cols| && cols[i] == c;
      ObservationStartsWithKey(k);
      if i == 0 {
        assert c == DateColumn;
      } else {
        assert c in Group(k);
        GroupOwner(k, c);
      }
    }
  }

  /** Each of the indicator's own columns belongs to it; the key is not among them. */
  lemma GroupOwner(k: MetricKind, c: string)
    requires c in Group(k)
    ensures Owner(c) == Some(k) && c != DateColumn
  {
    var g := Group(k);
    var i :| 0 <= i < |g| && g[i] == c;
    if i == 0 {
      assert c == ObservationColumns(k)[1];
    } else {
      assert c == ObservationColumns(k)[2];
    }
  }

  lemma ObservationDistinct(k: MetricKind)
    ensures Distinct(ObservationColumns(k))
  {
    var cols := ObservationColumns(k);
    ObservationStartsWithKey(k);
    forall i, j | 0 <= i < j < |cols| ensures cols[i] != cols[j] {
      OwnerOf(k, cols[i]);
      OwnerOf(k, cols[j]);
    }
  }

  lemma ObservationRowKeys(k: MetricKind, today: string, xs: seq<Option<real>>)
    requires |xs| == Arity(k)
    ensures ObservationRow(k, today, xs).Keys == ColumnSet(ObservationColumns(k))
    ensures ObservationRow(k, today, xs)[DateColumn] == Text(today)
  {
  }

  /** The observation is a well-formed one-row frame keyed by today. */
  lemma ObservationIsObservation(k: MetricKind, today: string, xs: seq<Option<real>>)
    requires |xs| == Arity(k)
    ensures IsObservation(NewData(k, today, xs), today)
  {
    ObservationDistinct(k);
    ObservationRowKeys(k, today, xs);
  }

  /** The table the indicator creates lists the observation's columns in their order, except for
      price to earnings growth and earnings per share, whose two columns of their own are swapped. */
  lemma SchemaOrder(k: MetricKind)
    ensures SchemaNames(k) != ObservationColumns(k) <==> k == PriceToEarningsGrowth || k == EarningsPerShare
    ensures var o := ObservationColumns(k);
      (k == PriceToEarningsGrowth || k == EarningsPerShare) ==> |o| == 3 && SchemaNames(k) == [o[0], o[2], o[1]]
  {
  }

  lemma SchemaHoldsObservation(k: MetricKind)
    ensures Distinct(SchemaNames(k)) && DateColumn in SchemaNames(k)
    ensures ColumnSet(SchemaNames(k)) == ColumnSet(ObservationColumns(k))
  {
    SchemaOrder(k);
    ObservationDistinct(k);
    ObservationStartsWithKey(k);
    var o := ObservationColumns(k);
    if SchemaNames(k) != o {
      assert SchemaNames(k) == [o[0], o[2], o[1]];
      assert o == [o[0], o[1], o[2]];
    }
  }

  // ---------------------------------------------------------------------------------------------
  // The column invariant of the shared table

  /** Some column of the indicator is present. */
  predicate Touches(k: MetricKind, cols: set<string>)
  {
    exists c :: c in Group(k) && c in cols
  }

  /** Every column of the indicator is present. */
  predicate Holds(k: MetricKind, cols: set<string>)
  {
    forall c :: c in Group(k) ==> c in cols
  }

  /** Each indicator's columns are present all together or not at all. Tables written only by
      the indicators keep this, and it is what spares the join any clash of column names. */
  predicate Shaped(cols: set<string>)
  {
    forall k :: Touches(k, cols) ==> Holds(k, cols)
  }

  /** On a shaped table, the merge branch brings only columns the table lacks altogether. */
  lemma ShapedIsMergeReady(data: Frame, k: MetricKind, today: string, xs: seq<Option<real>>)
    requires data.WellFormed() && Shaped(ColumnSet(data.columns)) && |xs| == Arity(k)
    ensures MergeReady(data, today, NewData(k, today, xs))
  {
    var nd := NewData(k, today, xs);
    if CaseOf(data, today, nd) == MergeToday {
      ObservationStartsWithKey(k);
      assert ObservationColumns(k) == [DateColumn] + Group(k);
      var w :| 0 <= w < |data.rows| && OnDate(data.rows[w], today);
      assert DateColumn in ColumnSet(data.columns);
      var c :| c in nd.columns && c !in data.columns;
      assert c in Group(k);
      assert !Holds(k, ColumnSet(data.columns));
      assert !Touches(k, ColumnSet(data.columns));
      forall d | d in nd.columns && d != DateColumn ensures d !in data.columns {
        assert d in Group(k);
        assert d !in ColumnSet(data.columns);
      }
    }
  }

  /** Adding one indicator's columns to a shaped table leaves it shaped: the groups are disjoint,
      so no other indicator's group is half added. */
  lemma UnionKeepsShaped(cols: set<string>, k: MetricKind, result: set<string>)
    requires Shaped(cols) && result == cols + ColumnSet(ObservationColumns(k))
    ensures Shaped(result)
  {
    forall j | Touches(j, result) ensures Holds(j, result) {
      var c :| c in Group(j) && c in result;
      if j == k {
        ObservationStartsWithKey(k);
        forall d | d in Group(k) ensures d in result {
          assert d in ObservationColumns(k);
        }
      } else {
        GroupOwner(j, c);
        OwnerOf(k, c);
        assert c !in ColumnSet(ObservationColumns(k));
        assert Touches(j, cols);
      }
    }
  }

  /** The freshly created table is shaped. */
  lemma SchemaIsShaped(k: MetricKind)
    ensures Shaped(ColumnSet(SchemaNames(k)))
  {
    SchemaHoldsObservation(k);
    assert ColumnSet(SchemaNames(k)) == {} + ColumnSet(ObservationColumns(k));
    assert Shaped({});
    UnionKeepsShaped({}, k, ColumnSet(SchemaNames(k)));
  }

  // ---------------------------------------------------------------------------------------------
  // `_updateDatabase`

  /** The catalog holds well-formed snapshots, and the shared table, when present, is shaped. */
  predicate Ready(catalog: map<string, Frame>)
  {
    && (forall n :: n in catalog ==> catalog[n].WellFormed())
    && (TableName in catalog ==> Shaped(ColumnSet(catalog[TableName].columns)))
  }

  /** What the indicator reads back: the stored table, or the empty one it has just created. */
  function Stored(catalog: map<string, Frame>, k: MetricKind): (f: Frame)
    requires Ready(catalog)
    ensures f.WellFormed() && Shaped(ColumnSet(f.columns))
    ensures TableName !in catalog ==> f.rows == [] && DateColumn in f.columns
  {
    if TableName in catalog then catalog[TableName]
    else
      SchemaHoldsObservation(k);
      SchemaIsShaped(k);
      Frame(SchemaNames(k), [])
  }

  /** The snapshot `_updateDatabase` writes back, or the exception it raises. */
  function Recorded(catalog: map<string, Frame>, k: MetricKind, today: string, xs: seq<Option<real>>): (r: Result<Frame>)
    requires Ready(catalog) && |xs| == Arity(k)
    ensures r.Ok? ==> r.value.WellFormed() && Shaped(ColumnSet(r.value.columns))
    ensures r.Err? <==> TableName in catalog && DateColumn !in catalog[TableName].columns
  {
    var before := Stored(catalog, k);
    ObservationIsObservation(k, today, xs);
    ShapedIsMergeReady(before, k, today, xs);
    var r := Upsert(before, today, NewData(k, today, xs));
    if r.Ok? then
      UnionKeepsShaped(ColumnSet(before.columns), k, ColumnSet(r.value.columns));
      r
    else r
  }

  /** Reading back the shared table gives what `Recorded` reconciles. */
  lemma RecordedFromRead(catalog: map<string, Frame>, k: MetricKind, today: string, xs: seq<Option<real>>, data: Frame)
    requires Ready(catalog) && |xs| == Arity(k) && data == Stored(catalog, k)
    ensures data.WellFormed() && IsObservation(NewData(k, today, xs), today)
    ensures MergeReady(data, today, NewData(k, today, xs))
    ensures Recorded(catalog, k, today, xs) == Upsert(data, today, NewData(k, today, xs))
  {
    ObservationIsObservation(k, today, xs);
    ShapedIsMergeReady(data, k, today, xs);
  }

  /** `_updateDatabase`: create the table when it is absent, read it, reconcile the observation for
      `today` and write the whole result back. */
  method UpdateDatabase(db: Database, k: MetricKind, today: string, xs: seq<Option<real>>) returns (r: Outcome)
    requires |xs| == Arity(k) && db.Valid() && Ready(db.catalog)
    modifies db
    ensures db.Valid() && Ready(db.catalog)
    ensures var u := Recorded(old(db.catalog), k, today, xs);
      && (u.Ok? ==> r == Done && db.catalog == old(db.catalog)[TableName := u.value])
      && (u.Err? ==> r == Fail(u.error) && db.catalog == old(db.catalog))
    ensures r.Done? ==> TableName in db.catalog
  {
    EnsureTable(db, k);
    var got := db.GetTable(TableName);
    var table := got.value;
    var data := table.Data().value;
    RecordedFromRead(old(db.catalog), k, today, xs, data);
    var u := Upsert(data, today, NewData(k, today, xs));
    if u.Err? {
      return Fail(u.error);
    }
    table.Update(u.value);
    Overwritten(old(db.catalog), TableName, data, u.value);
    return Done;
  }

  lemma Overwritten(m: map<string, Frame>, key: string, a: Frame, b: Frame)
    ensures m[key := a][key := b] == m[key := b]
  {
  }

  lemma Unchanged(m: map<string, Frame>, key: string)
    requires key in m
    ensures m[key := m[key]] == m
  {
  }

  /** Putting the frame the indicator reads back under the shared table's name keeps the catalog ready. */
  lemma StoredKeepsReady(m: map<string, Frame>, k: MetricKind)
    requires Ready(m)
    ensures Ready(m[TableName := Stored(m, k)])
  {
  }

  /** The first step of `_updateDatabase`: `addTable` with the indicator's columns, only when the
      table is absent. Afterwards the table holds what `Stored` describes. */
  method EnsureTable(db: Database, k: MetricKind)
    requires db.Valid() && Ready(db.catalog)
    modifies db
    ensures db.Valid() && Ready(db.catalog)
    ensures db.catalog == old(db.catalog)[TableName := Stored(old(db.catalog), k)]
    ensures TableName in old(db.catalog) ==> db.catalog == old(db.catalog)
  {
    StoredKeepsReady(db.catalog, k);
    if TableName in db.catalog {
      Unchanged(db.catalog, TableName);
    }
    if !Table.Exist(TableName, db) {
      SchemaHoldsObservation(k);
      var columns := MakeColumns(Schema(k));
      var made := db.AddTable(TableName, columns);
    }
  }

  /** The `Column(...)` list literal of `addTable`, one new column per entry. */
  method MakeColumns(spec: seq<(string, PyType)>) returns (cs: seq<Column>)
    ensures |cs| == |spec|
    ensures forall i :: 0 <= i < |cs| ==> fresh(cs[i]) && cs[i].name == spec[i].0 && cs[i].dtype == spec[i].1
    ensures Names(cs) == Labels(spec)
    decreases |spec|
  {
    if spec == [] {
      return [];
    }
    var first := new Column(spec[0].0, spec[0].1);
    var rest := MakeColumns(spec[1..]);
    cs := [first] + rest;
  }

  // ---------------------------------------------------------------------------------------------
  // The indicator objects

  class Fundemental {
    const kind: MetricKind
    const inputs: seq<Option<real>>
    var db: Database?
    var percent: Option<Score>

    /** The constructors. Price to earnings calls the base constructor without a database, which
        sets `_db` to None, and then sets `_db` itself. Every other indicator sets `_db` first, and
        the base constructor it calls next resets it to None. */
    constructor (kind: MetricKind, inputs: seq<Option<real>>, database: Database?)
      ensures this.kind == kind && this.inputs == inputs && percent == None
      ensures db == if kind == PriceToEarnings then database else null
    {
      this.kind := kind;
      this.inputs := inputs;
      percent := None;
      if kind == PriceToEarnings {
        db := null;
        db := database;
      } else {
        db := database;
        db := null;
      }
    }

    /** `_update`: compute the percent, then persist the inputs when there is a database. */
    method Update(today: string) returns (r: Outcome)
      requires |inputs| == Arity(kind)
      requires db != null ==> db.Valid() && Ready(db.catalog)
      modifies this, db
      ensures db == old(db)
      ensures db != null ==> db.Valid() && Ready(db.catalog)
      ensures var p := CalculatePercent(kind, inputs);
        && (p.Err? ==> r == Fail(p.error) && percent == old(percent))
        && (p.Ok? ==> percent == p.value)
        && (p.Ok? && db == null ==> r == Done)
        && (p.Ok? && db != null ==> var u := Recorded(old(db.catalog), kind, today, inputs);
              && (u.Ok? ==> r == Done && db.catalog == old(db.catalog)[TableName := u.value])
              && (u.Err? ==> r == Fail(u.error) && db.catalog == old(db.catalog)))
      ensures (CalculatePercent(kind, inputs).Err? || db == null) && old(db) != null ==>
        db.catalog == old(db.catalog)
    {
      var p := CalculatePercent(kind, inputs);
      if p.Err? {
        return Fail(p.error);
      }
      percent := p.value;
      if db != null {
        r := UpdateDatabase(db, kind, today, inputs);
      } else {
        r := Done;
      }
    }
  }

  /** Constructing an indicator: the constructor, then `_update`. An exception from `_update`
      means no object. Only price to earnings keeps its database, so only it can write to one. */
  method NewFundemental(kind: MetricKind, inputs: seq<Option<real>>, database: Database?, today: string)
    returns (r: Result<Fundemental>)
    requires |inputs| == Arity(kind)
    requires database != null ==> database.Valid() && Ready(database.catalog)
    modifies database
    ensures database != null ==> database.Valid() && Ready(database.catalog)
    ensures kind != PriceToEarnings && database != null ==> database.catalog == old(database.catalog)
    ensures CalculatePercent(kind, inputs).Err? ==>
      r == Err(CalculatePercent(kind, inputs).error) && (database != null ==> database.catalog == old(database.catalog))
    ensures r.Ok? ==> fresh(r.value) && r.value.percent == CalculatePercent(kind, inputs).value
    ensures (kind != PriceToEarnings || database == null) ==> (r.Ok? <==> CalculatePercent(kind, inputs).Ok?)
    ensures kind == PriceToEarnings && database != null && CalculatePercent(kind, inputs).Ok? ==>
      var u := Recorded(old(database.catalog), kind, today, inputs);
      && (u.Ok? ==> r.Ok? && database.catalog == old(database.catalog)[TableName := u.value])
      && (u.Err? ==> r == Err(u.error) && database.catalog == old(database.catalog))
  {
    var f := new Fundemental(kind, inputs, database);
    var done := f.Update(today);
    if done.Fail? {
      return Err(done.error);
    }
    return Ok(f);
  }
}
