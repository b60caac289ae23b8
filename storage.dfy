/** The SQLite storage layer held in memory. A database file is a path in a set of paths. An open
    database holds a catalog that maps each table name to the snapshot stored under that name.
    Every presence rule below raises a TypeError whose message is fixed. */
module Storage {
  import opened Results
  import opened Frames

  /** The Python types a column can be declared with. Only four of them have an SQLite name. */
  datatype PyType = IntType | FloatType | StrType | BoolType | OtherType(name: string)

  /** A column of a table to be created. It is a class because the statement builder compares
      columns by identity (`column == columns[-1]`, and `Column` defines no equality). */
  class Column {
    const name: string
    const dtype: PyType

    constructor (name: string, dtype: PyType)
      ensures this.name == name && this.dtype == dtype
    {
      this.name := name;
      this.dtype := dtype;
    }

    /** `Column._convertType`: the SQLite type name of a Python type. There is none for the
        types the dictionary lacks. */
    static function ConvertType(t: PyType): (r: Option<string>)
      ensures r.None? <==> t.OtherType?
    {
      match t
      case IntType => Some("INTEGER")
      case FloatType => Some("REAL")
      case StrType => Some("TEXT")
      case BoolType => Some("BOOLEAN")
      case OtherType(_) => None
    }

    /** `Column.sql`: the column name, one space, then the SQLite type. The f-string writes a
        missing type as `None`. */
    function Sql(): string
    {
      name + " " + TypeText(dtype)
    }
  }

  /** The text the f-string puts after the column name. */
  function TypeText(t: PyType): string
  {
    match Column.ConvertType(t)
    case Some(s) => s
    case None => "None"
  }

  /** SQLite type names read back as Python types: the inverse of `Column.ConvertType`. */
  function ParseType(s: string): Option<PyType>
  {
    if s == "INTEGER" then Some(IntType)
    else if s == "REAL" then Some(FloatType)
    else if s == "TEXT" then Some(StrType)
    else if s == "BOOLEAN" then Some(BoolType)
    else None
  }

  /** Every SQLite name `Column.ConvertType` produces reads back as the type it came from. */
  lemma ConvertTypeRoundTrip(t: PyType)
    ensures Column.ConvertType(t).Some? ==> ParseType(Column.ConvertType(t).value) == Some(t)
  {
  }

  /** Two types with the same SQLite name are the same type. */
  lemma ConvertTypeInjective(s: PyType, t: PyType)
    requires Column.ConvertType(s).Some? && Column.ConvertType(s) == Column.ConvertType(t)
    ensures s == t
  {
    ConvertTypeRoundTrip(s);
    ConvertTypeRoundTrip(t);
  }

  /** A type text is one word: it holds no space. */
  lemma TypeTextIsOneWord(t: PyType)
    ensures ' ' !in TypeText(t)
  {
  }

  /** A declaration split at its last space: the column name and the type text. */
  function SplitDeclaration(d: string): (string, string)
  {
    if d == [] then ("", "")
    else if d[|d| - 1] == ' ' then (d[..|d| - 1], "")
    else
      var (n, t) := SplitDeclaration(d[..|d| - 1]);
      (n, t + [d[|d| - 1]])
  }

  /** Splitting `name + " " + t` at its last space recovers the name and `t`, provided `t` has no
      space of its own. */
  lemma {:induction false} SplitAppended(n: string, t: string)
    requires ' ' !in t
    ensures SplitDeclaration(n + " " + t) == (n, t)
  {
    if t == [] {
      assert (n + " " + t)[..|n + " " + t| - 1] == n;
    } else {
      var d := n + " " + t;
      assert d[..|d| - 1] == n + " " + t[..|t| - 1];
      SplitAppended(n, t[..|t| - 1]);
      assert t[..|t| - 1] + [t[|t| - 1]] == t;
    }
  }

  /** A column declaration determines the column's name and its type text, even when the name
      itself contains spaces. */
  lemma SqlRoundTrip(c: Column)
    ensures SplitDeclaration(c.Sql()) == (c.name, TypeText(c.dtype))
  {
    TypeTextIsOneWord(c.dtype);
    SplitAppended(c.name, TypeText(c.dtype));
  }

  function Names(cs: seq<Column>): (ns: seq<string>)
    ensures |ns| == |cs| && forall i :: 0 <= i < |cs| ==> ns[i] == cs[i].name
  {
    seq(|cs|, i requires 0 <= i < |cs| => cs[i].name)
  }

  /** What the loop of `Table.create` appends for one column. A column identical to the last one
      gets no separator. */
  function Piece(c: Column, last: Column): string
  {
    if c == last then c.Sql() else c.Sql() + ", "
  }

  /** The column part of the CREATE statement, built piece by piece as the loop does. */
  function ColumnList(cs: seq<Column>, last: Column): string
  {
    if cs == [] then "" else ColumnList(cs[..|cs| - 1], last) + Piece(cs[|cs| - 1], last)
  }

  /** The statement `Table.create` runs. */
  function Statement(tableName: string, cs: seq<Column>): string
  {
    "CREATE TABLE " + tableName + " (" + (if cs == [] then "" else ColumnList(cs, cs[|cs| - 1])) + ") ;"
  }

  function Sqls(cs: seq<Column>): (r: seq<string>)
    ensures |r| == |cs| && forall i :: 0 <= i < |cs| ==> r[i] == cs[i].Sql()
  {
    seq(|cs|, i requires 0 <= i < |cs| => cs[i].Sql())
  }

  /** The declarations separated by `", "`, with no separator after the last: the reference
      form of the column list. */
  function Join(xs: seq<string>): string
  {
    if xs == [] then ""
    else if |xs| == 1 then xs[0]
    else Join(xs[..|xs| - 1]) + ", " + xs[|xs| - 1]
  }

  /** Each declaration followed by a separator. */
  function Terminated(xs: seq<string>): string
  {
    if xs == [] then "" else Terminated(xs[..|xs| - 1]) + xs[|xs| - 1] + ", "
  }

  lemma {:induction false} TerminatedThenLast(xs: seq<string>)
    requires xs != []
    ensures Terminated(xs[..|xs| - 1]) + xs[|xs| - 1] == Join(xs)
  {
    if |xs| > 1 {
      var init := xs[..|xs| - 1];
      assert init[..|init| - 1] == xs[..|xs| - 2];
      TerminatedThenLast(init);
    }
  }

  /** Columns other than `last` each get their declaration and a separator. */
  lemma {:induction false} ColumnListWithoutLast(cs: seq<Column>, last: Column)
    requires forall i :: 0 <= i < |cs| ==> cs[i] != last
    ensures ColumnList(cs, last) == Terminated(Sqls(cs))
  {
    if cs != [] {
      var init := cs[..|cs| - 1];
      var x := cs[|cs| - 1].Sql();
      ColumnListWithoutLast(init, last);
      assert Sqls(cs)[..|cs| - 1] == Sqls(init);
      Associative(Terminated(Sqls(init)), x, ", ");
    }
  }

  /** When the last column object occurs only at the end, the statement lists the declarations
      separated by `", "` with none after the last. */
  lemma StatementJoins(tableName: string, cs: seq<Column>)
    requires forall i :: 0 <= i < |cs| - 1 ==> cs[i] != cs[|cs| - 1]
    ensures Statement(tableName, cs) == "CREATE TABLE " + tableName + " (" + Join(Sqls(cs)) + ") ;"
  {
    if cs != [] {
      var init := cs[..|cs| - 1];
      ColumnListWithoutLast(init, cs[|cs| - 1]);
      assert Sqls(cs)[..|cs| - 1] == Sqls(init);
      TerminatedThenLast(Sqls(cs));
    }
  }

  /** The identity test looks at the object, not its position: when the object that ends the
      list also occurs earlier, the separator after that earlier occurrence is dropped. */
  lemma RepeatedLastDropsSeparator(c: Column, d: Column)
    requires c != d
    ensures ColumnList([c, d, c], c) == c.Sql() + d.Sql() + ", " + c.Sql()
    ensures |ColumnList([c, d, c], c)| + 2 == |Join(Sqls([c, d, c]))|
  {
    var x, y := c.Sql(), d.Sql();
    assert [c, d, c][..2] == [c, d];
    assert [c, d][..1] == [c];
    assert [c][..0] == [];
    assert ColumnList([c], c) == x;
    assert ColumnList([c, d], c) == x + (y + ", ");
    assert ColumnList([c, d, c], c) == x + (y + ", ") + x;
    var s := Sqls([c, d, c]);
    assert s == [x, y, x];
    assert s[..2] == [x, y];
    assert s[..2][..1] == [x];
    assert Join(s[..2][..1]) == x;
    assert Join(s[..2]) == x + ", " + y;
    assert Join(s) == x + ", " + y + ", " + x;
  }

  /** One more pass of the loop appends one more piece. */
  lemma ColumnListStep(cs: seq<Column>, i: nat)
    requires i < |cs|
    ensures ColumnList(cs[..i + 1], cs[|cs| - 1]) == ColumnList(cs[..i], cs[|cs| - 1]) + Piece(cs[i], cs[|cs| - 1])
  {
    assert cs[..i + 1][..i] == cs[..i];
  }

  lemma Associative(a: string, b: string, c: string)
    ensures (a + b) + c == a + (b + c)
  {
  }

  /** The set of paths present on disk. */
  class FileSystem {
    var paths: set<string>

    constructor (paths: set<string>)
      ensures this.paths == paths
    {
      this.paths := paths;
    }
  }

  /** `databaseDirectory[-3:]`: Python's slice keeps the whole string when it is shorter than three. */
  function LastThree(s: string): string
  {
    if |s| >= 3 then s[|s| - 3..] else s
  }

  predicate HasDbSuffix(path: string)
  {
    LastThree(path) == ".db"
  }

  /** The slice test is an ends-with test: a path shorter than the suffix never passes. */
  lemma DbSuffixIsEndsWith(path: string)
    ensures HasDbSuffix(path) <==> |path| >= 3 && path[|path| - 3..] == ".db"
  {
    if |path| < 3 {
      assert |LastThree(path)| < 3;
    }
  }

  /** A table handle: a name and the database it lives in. */
  class Table {
    const name: string
    const db: Database

    constructor (name: string, db: Database)
      ensures this.name == name && this.db == db
    {
      this.name := name;
      this.db := db;
    }

    /** `Table.exist`: the catalog query becomes a lookup. */
    static predicate Exist(tableName: string, db: Database)
      reads db
    {
      tableName in db.catalog
    }

    /** `Table.create`: refuses a name already in the catalog, builds the statement, and stores
        an empty table with the given columns. SQLite rejects an empty column list and a repeated
        column name. */
    static method Create(tableName: string, columns: seq<Column>, db: Database) returns (r: Outcome)
      requires db.Valid()
      modifies db
      ensures db.Valid()
      ensures old(Exist(tableName, db)) ==>
        r == Fail(TypeError("Table Already Exists")) && db.catalog == old(db.catalog)
      ensures !old(Exist(tableName, db)) && (columns == [] || !Distinct(Names(columns))) ==>
        r == Fail(OperationalError) && db.catalog == old(db.catalog)
      ensures !old(Exist(tableName, db)) && columns != [] && Distinct(Names(columns)) ==>
        r == Done && db.catalog == old(db.catalog)[tableName := Frame(Names(columns), [])]
      ensures r.Done? ==> Exist(tableName, db)
    {
      if Exist(tableName, db) {
        return Fail(TypeError("Table Already Exists"));
      }
      var sql := CreateStatement(tableName, columns);
      if columns == [] || !Distinct(Names(columns)) {
        return Fail(OperationalError);
      }
      db.catalog := db.catalog[tableName := Frame(Names(columns), [])];
      return Done;
    }

    /** The text `Table.create` accumulates, one column at a time. */
    static method CreateStatement(tableName: string, columns: seq<Column>) returns (sql: string)
      ensures sql == Statement(tableName, columns)
    {
      var head := "CREATE TABLE " + tableName + " (";
      sql := head;
      var i := 0;
      while i < |columns|
        invariant 0 <= i <= |columns|
        invariant columns == [] ==> sql == head
        invariant columns != [] ==> sql == head + ColumnList(columns[..i], columns[|columns| - 1])
      {
        var column := columns[i];
        ghost var before := sql;
        var decl := column.Sql();
        if column == columns[|columns| - 1] {
          sql := sql + decl;
        } else {
          sql := sql + decl + ", ";
          Associative(before, decl, ", ");
        }
        ColumnListStep(columns, i);
        Associative(head, ColumnList(columns[..i], columns[|columns| - 1]), Piece(column, columns[|columns| - 1]));
        i := i + 1;
      }
      assert columns[..|columns|] == columns;
      sql := sql + ") ;";
    }

    /** `Table.delete`: refuses a missing name and otherwise drops that one table. */
    static method Delete(tableName: string, db: Database) returns (r: Outcome)
      requires db.Valid()
      modifies db
      ensures db.Valid()
      ensures !old(Exist(tableName, db)) ==>
        r == Fail(TypeError(tableName + " Table Does Not Exist")) && db.catalog == old(db.catalog)
      ensures old(Exist(tableName, db)) ==> r == Done && db.catalog == old(db.catalog) - {tableName}
      ensures r.Done? ==> !Exist(tableName, db)
    {
      if !Exist(tableName, db) {
        return Fail(TypeError(tableName + " Table Does Not Exist"));
      }
      db.catalog := db.catalog - {tableName};
      return Done;
    }

    /** `Table.update`: `to_sql(..., if_exists='replace')` stores the whole snapshot under this
        table's name, creating it when missing. Reading it back gives that snapshot. */
    method Update(df: Frame)
      requires db.Valid() && df.WellFormed()
      modifies db
      ensures db.Valid()
      ensures db.catalog == old(db.catalog)[name := df]
      ensures Data() == Ok(df)
    {
      db.catalog := db.catalog[name := df];
    }

    /** `Table.data`: `SELECT *` of this table. Reading a table that is not there fails: sqlite3
        raises OperationalError, which `read_sql_query` re-raises as pandas' DatabaseError. */
    function Data(): (r: Result<Frame>)
      reads db
      ensures r.Ok? <==> name in db.catalog
      ensures r.Err? ==> r.error == OperationalError
    {
      if name in db.catalog then Ok(db.catalog[name]) else Err(OperationalError)
    }
  }

  /** An open database: its path and the tables it holds. */
  class Database {
    const path: string
    var catalog: map<string, Frame>

    /** Every stored snapshot is well formed. */
    ghost predicate Valid()
      reads this
    {
      forall n :: n in catalog ==> catalog[n].WellFormed()
    }

    constructor (path: string, catalog: map<string, Frame>)
      ensures this.path == path && this.catalog == catalog
    {
      this.path := path;
      this.catalog := catalog;
    }

    /** `Database.exist`: the path ends in ".db" and is present. */
    static predicate Exist(fs: FileSystem, path: string)
      reads fs
    {
      HasDbSuffix(path) && path in fs.paths
    }

    /** A path without the suffix never counts as a database, whether or not the file is there. */
    lemma ExistNeedsSuffix(fs: FileSystem, path: string)
      ensures Exist(fs, path) ==> |path| >= 3 && path[|path| - 3..] == ".db"
    {
      DbSuffixIsEndsWith(path);
    }

    /** `Database.create`: the "already exists" test comes first, then the suffix test, then the
        empty file is made. */
    static method Create(fs: FileSystem, path: string) returns (r: Outcome)
      modifies fs
      ensures old(Exist(fs, path)) ==>
        r == Fail(TypeError("Database Already Exists")) && fs.paths == old(fs.paths)
      ensures !HasDbSuffix(path) ==>
        r == Fail(TypeError("That is Not a Database File must end in '.db' ")) && fs.paths == old(fs.paths)
      ensures HasDbSuffix(path) && path !in old(fs.paths) ==>
        r == Done && fs.paths == old(fs.paths) + {path}
      ensures r.Done? ==> Exist(fs, path)
    {
      if Exist(fs, path) {
        return Fail(TypeError("Database Already Exists"));
      }
      if !HasDbSuffix(path) {
        return Fail(TypeError("That is Not a Database File must end in '.db' "));
      }
      fs.paths := fs.paths + {path};
      return Done;
    }

    /** `Database.delete`: removes the file only when `Exist` holds. */
    static method Delete(fs: FileSystem, path: string) returns (r: Outcome)
      modifies fs
      ensures old(Exist(fs, path)) ==> r == Done && fs.paths == old(fs.paths) - {path}
      ensures !old(Exist(fs, path)) ==>
        r == Fail(TypeError("Database Does Not Exist or Wrong Directory")) && fs.paths == old(fs.paths)
      ensures !Exist(fs, path)
    {
      if Exist(fs, path) {
        fs.paths := fs.paths - {path};
        return Done;
      }
      return Fail(TypeError("Database Does Not Exist or Wrong Directory"));
    }

    /** `Database.__init__`: creates the file when `Exist` fails, then connects. `stored` stands
        for the tables an existing file already holds. A freshly made file holds none. */
    static method Open(fs: FileSystem, path: string, stored: map<string, Frame>) returns (r: Result<Database>)
      requires forall n :: n in stored ==> stored[n].WellFormed()
      modifies fs
      ensures !HasDbSuffix(path) ==>
        r == Err(TypeError("That is Not a Database File must end in '.db' ")) && fs.paths == old(fs.paths)
      ensures HasDbSuffix(path) ==> r.Ok? && fresh(r.value) && r.value.path == path && r.value.Valid()
      ensures HasDbSuffix(path) && path in old(fs.paths) ==> r.Ok? && r.value.catalog == stored && fs.paths == old(fs.paths)
      ensures HasDbSuffix(path) && path !in old(fs.paths) ==>
        r.Ok? && r.value.catalog == map[] && fs.paths == old(fs.paths) + {path}
    {
      var catalog := stored;
      if !Exist(fs, path) {
        var made := Create(fs, path);
        if made.Fail? {
          return Err(made.error);
        }
        catalog := map[];
      }
      var db := new Database(path, catalog);
      return Ok(db);
    }

    /** `Database.addTable`: the same "already exists" test as `Table.create`, then the creation. */
    method AddTable(tableName: string, columns: seq<Column>) returns (r: Outcome)
      requires Valid()
      modifies this
      ensures Valid()
      ensures old(Table.Exist(tableName, this)) ==>
        r == Fail(TypeError("Table Already Exists")) && catalog == old(catalog)
      ensures !old(Table.Exist(tableName, this)) && (columns == [] || !Distinct(Names(columns))) ==>
        r == Fail(OperationalError) && catalog == old(catalog)
      ensures !old(Table.Exist(tableName, this)) && columns != [] && Distinct(Names(columns)) ==>
        r == Done && catalog == old(catalog)[tableName := Frame(Names(columns), [])]
    {
      if Table.Exist(tableName, this) {
        return Fail(TypeError("Table Already Exists"));
      }
      r := Table.Create(tableName, columns, this);
    }

    /** `Database.deleteTable`: refuses a missing name with its own message, otherwise drops it. */
    method DeleteTable(tableName: string) returns (r: Outcome)
      requires Valid()
      modifies this
      ensures Valid()
      ensures !old(Table.Exist(tableName, this)) ==>
        r == Fail(TypeError("Table Does Not Exist")) && catalog == old(catalog)
      ensures old(Table.Exist(tableName, this)) ==> r == Done && catalog == old(catalog) - {tableName}
    {
      if !Table.Exist(tableName, this) {
        return Fail(TypeError("Table Does Not Exist"));
      }
      r := Table.Delete(tableName, this);
    }

    /** `Database.getTable`: a handle with the requested name, for a table that exists. */
    method GetTable(tableName: string) returns (r: Result<Table>)
      ensures !Table.Exist(tableName, this) ==> r == Err(TypeError("Table Does Not Exist"))
      ensures Table.Exist(tableName, this) ==>
        r.Ok? && fresh(r.value) && r.value.name == tableName && r.value.db == this
    {
      if !Table.Exist(tableName, this) {
        return Err(TypeError("Table Does Not Exist"));
      }
      var t := new Table(tableName, this);
      return Ok(t);
    }

    /** `Database.tables`: one new handle per table in the catalog, each name once. */
    method Tables() returns (ts: seq<Table>)
      ensures |ts| == |catalog|
      ensures forall i :: 0 <= i < |ts| ==> fresh(ts[i]) && ts[i].db == this && ts[i].name in catalog
      ensures forall n :: n in catalog ==> exists i :: 0 <= i < |ts| && ts[i].name == n
      ensures forall i, j :: 0 <= i < j < |ts| ==> ts[i].name != ts[j].name
    {
      var rest := catalog.Keys;
      ts := [];
      while rest != {}
        invariant rest <= catalog.Keys
        invariant |ts| + |rest| == |catalog.Keys|
        invariant forall i :: 0 <= i < |ts| ==> fresh(ts[i]) && ts[i].db == this
        invariant forall i :: 0 <= i < |ts| ==> ts[i].name in catalog.Keys - rest
        invariant forall n :: n in catalog.Keys - rest ==> exists i :: 0 <= i < |ts| && ts[i].name == n
        invariant forall i, j :: 0 <= i < j < |ts| ==> ts[i].name != ts[j].name
        decreases |rest|
      {
        var n :| n in rest;
        var t := new Table(n, this);
        ghost var before, unseen := ts, rest;
        ts := ts + [t];
        rest := rest - {n};
        assert ts[|ts| - 1].name == n;
        assert forall i :: 0 <= i < |before| ==> ts[i] == before[i];
        forall m | m in catalog.Keys - rest ensures exists i :: 0 <= i < |ts| && ts[i].name == m {
          if m != n {
            assert m in catalog.Keys - unseen;
            var i :| 0 <= i < |before| && before[i].name == m;
            assert ts[i].name == m;
          }
        }
      }
      assert catalog.Keys - rest == catalog.Keys;
    }
  }
}
