/** Worked examples of the reconciliation on the price to earnings columns. */
module Scenarios {
  import opened Results
  import opened Frames
  import opened Reconcile
  import opened Fundementals

  /** The first observation on a freshly created table becomes its only row. */
  lemma FirstObservationAppends()
    ensures Upsert(Frame(SchemaNames(PriceToEarnings), []), "2024-01-01",
                   NewData(PriceToEarnings, "2024-01-01", [Some(20.0), Some(10.0)]))
      == Ok(Frame(["Date", "TrailingPE", "ForwardPE"],
                  [map["Date" := Text("2024-01-01"), "TrailingPE" := Real(10.0), "ForwardPE" := Real(20.0)]]))
  {
    var xs := [Some(20.0), Some(10.0)];
    var data := Frame(SchemaNames(PriceToEarnings), []);
    var nd := NewData(PriceToEarnings, "2024-01-01", xs);
    ObservationIsObservation(PriceToEarnings, "2024-01-01", xs);
    assert SchemaNames(PriceToEarnings) == ["Date", "TrailingPE", "ForwardPE"];
    UnionCovered(data.columns, nd.columns);
    ObservationRowKeys(PriceToEarnings, "2024-01-01", xs);
    PadExact(nd.rows[0], data.columns);
    assert !HasToday(data, "2024-01-01");
    assert Upsert(data, "2024-01-01", nd) == Ok(Concat(data, nd));
    assert Concat(data, nd).rows == [nd.rows[0]];
    assert nd.rows[0] == map["Date" := Text("2024-01-01"), "TrailingPE" := Real(10.0), "ForwardPE" := Real(20.0)];
  }

  /** Two stored rows carry today's date: both are overwritten, and the missing forward value is
      written as a missing cell over the stored one instead of being skipped. */
  lemma OverwriteEveryTodayRow()
    ensures var row := map["Date" := Text("2024-01-02"), "TrailingPE" := Real(12.0), "ForwardPE" := Null];
      Upsert(Frame(["Date", "TrailingPE", "ForwardPE"],
                   [map["Date" := Text("2024-01-02"), "TrailingPE" := Real(10.0), "ForwardPE" := Real(20.0)],
                    map["Date" := Text("2024-01-02"), "TrailingPE" := Real(11.0), "ForwardPE" := Real(21.0)]]),
             "2024-01-02", NewData(PriceToEarnings, "2024-01-02", [None, Some(12.0)]))
      == Ok(Frame(["Date", "TrailingPE", "ForwardPE"], [row, row]))
  {
    var today, xs := "2024-01-02", [None, Some(12.0)];
    var cols := ["Date", "TrailingPE", "ForwardPE"];
    var r0 := map["Date" := Text(today), "TrailingPE" := Real(10.0), "ForwardPE" := Real(20.0)];
    var r1 := map["Date" := Text(today), "TrailingPE" := Real(11.0), "ForwardPE" := Real(21.0)];
    var data := Frame(cols, [r0, r1]);
    var nd := NewData(PriceToEarnings, today, xs);
    ObservationIsObservation(PriceToEarnings, today, xs);
    ObservationRowKeys(PriceToEarnings, today, xs);
    ObservationDistinct(PriceToEarnings);
    assert data.WellFormed();
    assert OnDate(data.rows[0], today);
    assert Covers(data, nd);
    assert Upsert(data, today, nd) == Ok(Overwrite(data, today, nd));
    var row := nd.rows[0];
    assert r0 + row == row && r1 + row == row;
    assert row == map["Date" := Text(today), "TrailingPE" := Real(12.0), "ForwardPE" := Null];
    assert Overwrite(data, today, nd).rows == [row, row];
  }
}
