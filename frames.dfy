/** An in-memory table snapshot, the shape a pandas DataFrame has when it is read from or written
    to a relation: an ordered list of distinct column names and an ordered list of rows, each row
    holding one cell per column. */
module Frames {

  /** A cell: the missing marker (SQL NULL, pandas None/NaN), a text or a number. */
  datatype Cell = Null | Text(s: string) | Real(x: real)

  /** A row maps each column name of its frame to that row's cell. */
  type Row = map<string, Cell>

  function ColumnSet(cols: seq<string>): set<string>
  {
    set c | c in cols
  }

  predicate Distinct(cols: seq<string>)
  {
    forall i, j :: 0 <= i < j < |cols| ==> cols[i] != cols[j]
  }

  datatype Frame = Frame(columns: seq<string>, rows: seq<Row>)
  {
    /** Column names are distinct and every row has exactly the frame's columns. */
    predicate WellFormed()
    {
      Distinct(columns) && forall i :: 0 <= i < |rows| ==> rows[i].Keys == ColumnSet(columns)
    }
  }

  /** The row laid out on `cols`, holding the missing marker wherever it had no cell. The ensures
      only unfold the definition, for the sequence comprehension in `Concat` that builds rows with it. */
  function Pad(r: Row, cols: seq<string>): (p: Row)
    ensures p.Keys == ColumnSet(cols)
    ensures forall c :: c in p ==> p[c] == if c in r then r[c] else Null
  {
    map c | c in ColumnSet(cols) :: if c in r then r[c] else Null
  }

  /** The names of `added` that `existing` lacks, in the order of `added`. */
  function Unseen(existing: seq<string>, added: seq<string>): (r: seq<string>)
    ensures forall c :: c in r <==> c in added && c !in existing
    ensures Distinct(added) ==> Distinct(r)
  {
    if added == [] then []
    else
      var rest := Unseen(existing, added[..|added| - 1]);
      var c := added[|added| - 1];
      assert forall x :: x in added <==> x in added[..|added| - 1] || x == c;
      if c in existing then rest else rest + [c]
  }

  /** The column union pandas forms: the columns of `a`, then those of `b` that `a` lacks. */
  function Union(a: seq<string>, b: seq<string>): (r: seq<string>)
    ensures ColumnSet(r) == ColumnSet(a) + ColumnSet(b)
    ensures |a| <= |r| && r[..|a|] == a
    ensures Distinct(a) && Distinct(b) ==> Distinct(r)
  {
    var u := Unseen(a, b);
    if Distinct(a) && Distinct(b) then DistinctAppend(a, u); a + u else a + u
  }

  /** Uniting with columns already present adds nothing. */
  lemma UnionCovered(a: seq<string>, b: seq<string>)
    requires forall c :: c in b ==> c in a
    ensures Union(a, b) == a
  {
    UnseenCovered(a, b);
  }

  lemma {:induction false} UnseenCovered(a: seq<string>, b: seq<string>)
    requires forall c :: c in b ==> c in a
    ensures Unseen(a, b) == []
  {
    if b != [] {
      var init := b[..|b| - 1];
      assert forall c :: c in init ==> c in b;
      UnseenCovered(a, init);
      assert b[|b| - 1] in b;
    }
  }

  /** Padding a row that already has exactly the given columns leaves it as it is. */
  lemma PadExact(r: Row, cols: seq<string>)
    requires r.Keys == ColumnSet(cols)
    ensures Pad(r, cols) == r
  {
  }

  lemma DistinctAppend(a: seq<string>, b: seq<string>)
    requires Distinct(a) && Distinct(b)
    requires forall c :: c in b ==> c !in a
    ensures Distinct(a + b)
  {
    forall i, j | 0 <= i < j < |a + b| ensures (a + b)[i] != (a + b)[j] {
      if j >= |a| && i < |a| {
        assert (a + b)[j] in b;
      }
    }
  }
}
