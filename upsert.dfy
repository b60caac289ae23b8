/** The date-keyed reconciliation that every `_updateDatabase` block of fundementals.py performs
    between the stored "Fundementals" snapshot and the one-row observation for today. The ten
    blocks differ only in their column names; this module is that block once, over any frames. */
module Reconcile {
  import opened Results
  import opened Frames

  /** The key column every metric row carries. */
  const DateColumn := "Date"

  /** The row is keyed by the date text `today` (exact string comparison, no normalisation). */
  predicate OnDate(r: Row, today: string)
  {
    DateColumn in r && r[DateColumn] == Text(today)
  }

  /** Some stored row already carries today's date. */
  predicate HasToday(data: Frame, today: string)
  {
    exists i :: 0 <= i < |data.rows| && OnDate(data.rows[i], today)
  }

  /** Every column of the observation is already a column of the stored frame. */
  predicate Covers(data: Frame, newData: Frame)
  {
    forall c :: c in newData.columns ==> c in data.columns
  }

  /** A one-row frame keyed by `today`, as each metric builds it. */
  predicate IsObservation(newData: Frame, today: string)
  {
    newData.WellFormed() && |newData.rows| == 1 && OnDate(newData.rows[0], today)
  }

  /** The two sides share no column but the key, so a join needs no `_x`/`_y` renaming. */
  predicate OnlyKeyShared(data: Frame, newData: Frame)
  {
    forall c :: c in newData.columns && c != DateColumn ==> c !in data.columns
  }

  /** Unique keys: no two stored rows carry the same date cell. */
  predicate UniqueDates(data: Frame)
  {
    forall i, j :: 0 <= i < j < |data.rows| && DateColumn in data.rows[i] && DateColumn in data.rows[j] ==>
      data.rows[i][DateColumn] != data.rows[j][DateColumn]
  }

  /** The three branches of the reconciliation. */
  datatype Case = AppendRow | OverwriteToday | MergeToday

  function CaseOf(data: Frame, today: string, newData: Frame): Case
  {
    if !HasToday(data, today) then AppendRow
    else if Covers(data, newData) then OverwriteToday
    else MergeToday
  }

  /** The join of the merge branch needs disjoint non-key columns. */
  predicate MergeReady(data: Frame, today: string, newData: Frame)
  {
    CaseOf(data, today, newData) == MergeToday ==> OnlyKeyShared(data, newData)
  }

  /** `concat([data, newData], axis=0, ignore_index=True)`: the observation becomes a new last
      row and the column sets are united (cells are described by `ConcatCells`). */
  function Concat(data: Frame, newData: Frame): (r: Frame)
    requires data.WellFormed() && newData.WellFormed() && |newData.rows| == 1
    ensures r.WellFormed()
    ensures ColumnSet(r.columns) == ColumnSet(data.columns) + ColumnSet(newData.columns)
    ensures |data.columns| <= |r.columns| && r.columns[..|data.columns|] == data.columns
    ensures |r.rows| == |data.rows| + 1
  {
    var cols := Union(data.columns, newData.columns);
    Frame(cols, seq(|data.rows|, i requires 0 <= i < |data.rows| => Pad(data.rows[i], cols))
                + [Pad(newData.rows[0], cols)])
  }

  /** The stored rows keep every cell they had, the appended row holds the observation's cells,
      and every cell a side lacks is the missing marker. */
  lemma ConcatCells(data: Frame, newData: Frame)
    requires data.WellFormed() && newData.WellFormed() && |newData.rows| == 1
    ensures var r := Concat(data, newData);
      && (forall i, c :: 0 <= i < |data.rows| && c in r.rows[i] ==>
            r.rows[i][c] == if c in data.rows[i] then data.rows[i][c] else Null)
      && (forall c :: c in r.rows[|data.rows|] ==>
            r.rows[|data.rows|][c] == if c in newData.rows[0] then newData.rows[0][c] else Null)
  {
  }

  /** `data.loc[data['Date'] == today, newData.columns] = newData.values`: the columns and the row
      count stay as they were (cells are described by `OverwriteCells`). */
  function Overwrite(data: Frame, today: string, newData: Frame): (r: Frame)
    requires data.WellFormed() && newData.WellFormed() && |newData.rows| == 1
    requires Covers(data, newData)
    ensures r.WellFormed()
    ensures r.columns == data.columns && |r.rows| == |data.rows|
  {
    var nr := newData.rows[0];
    assert forall c :: c in nr ==> c in ColumnSet(data.columns);
    Frame(data.columns, seq(|data.rows|, i requires 0 <= i < |data.rows| =>
                              if OnDate(data.rows[i], today) then data.rows[i] + nr else data.rows[i]))
  }

  /** Every row keyed by today, not only the first, takes the observation's cell in each of the
      observation's columns, a missing marker included; every other cell is left as it was. */
  lemma OverwriteCells(data: Frame, today: string, newData: Frame)
    requires data.WellFormed() && newData.WellFormed() && |newData.rows| == 1
    requires Covers(data, newData)
    ensures var r := Overwrite(data, today, newData);
      forall i, c :: 0 <= i < |data.rows| && c in data.rows[i] ==>
        c in r.rows[i] &&
        r.rows[i][c] == if OnDate(data.rows[i], today) && c in newData.rows[0]
                        then newData.rows[0][c] else data.rows[i][c]
  {
  }

  /** The stored rows keyed by `today`, in their stored order (`MatchingCounts` says how often). */
  function Matching(rows: seq<Row>, today: string): (m: seq<Row>)
    ensures |m| <= |rows|
    ensures forall r :: r in m <==> r in rows && OnDate(r, today)
    ensures forall k :: 0 <= k < |m| ==> m[k] in rows
    ensures (exists i :: 0 <= i < |rows| && !OnDate(rows[i], today)) ==> |m| < |rows|
  {
    if rows == [] then []
    else
      var rest := Matching(rows[..|rows| - 1], today);
      var last := rows[|rows| - 1];
      assert forall r :: r in rows <==> r in rows[..|rows| - 1] || r == last;
      if OnDate(last, today) then rest + [last] else rest
  }

  /** Every stored row keyed by today is kept as often as it is stored, duplicates included, and
      no other row is kept. */
  lemma {:induction false} MatchingCounts(rows: seq<Row>, today: string)
    ensures forall r :: multiset(Matching(rows, today))[r] == if OnDate(r, today) then multiset(rows)[r] else 0
  {
    if rows != [] {
      var init := rows[..|rows| - 1];
      MatchingCounts(init, today);
      assert rows == init + [rows[|rows| - 1]];
    }
  }

  lemma MatchingKeys(data: Frame, today: string)
    requires data.WellFormed()
    ensures forall k :: 0 <= k < |Matching(data.rows, today)| ==>
      Matching(data.rows, today)[k].Keys == ColumnSet(data.columns)
  {
    var m := Matching(data.rows, today);
    forall k | 0 <= k < |m| ensures m[k].Keys == ColumnSet(data.columns) {
      assert m[k] in data.rows;
    }
  }

  /** `merge(data, newData, on='Date')`, pandas' default inner join: one row per stored row keyed
      by today, the column sets united (cells are described by `MergeCells`). */
  function MergeOnDate(data: Frame, today: string, newData: Frame): (r: Frame)
    requires data.WellFormed() && newData.WellFormed() && |newData.rows| == 1
    requires DateColumn in data.columns && OnlyKeyShared(data, newData)
    ensures r.WellFormed()
    ensures ColumnSet(r.columns) == ColumnSet(data.columns) + ColumnSet(newData.columns)
    ensures |data.columns| <= |r.columns| && r.columns[..|data.columns|] == data.columns
    ensures |r.rows| == |Matching(data.rows, today)|
  {
    MatchingKeys(data, today);
    var m := Matching(data.rows, today);
    Frame(Union(data.columns, newData.columns), seq(|m|, k requires 0 <= k < |m| => m[k] + newData.rows[0]))
  }

  /** Only the stored rows keyed by today survive the join, each extended by the observation's
      cells; rows keyed by any other date are gone. */
  lemma MergeCells(data: Frame, today: string, newData: Frame)
    requires data.WellFormed() && IsObservation(newData, today)
    requires DateColumn in data.columns && OnlyKeyShared(data, newData)
    ensures var r := MergeOnDate(data, today, newData);
      && (forall k :: 0 <= k < |r.rows| ==> OnDate(r.rows[k], today))
      && (forall k, c :: 0 <= k < |r.rows| && c in r.rows[k] ==>
            r.rows[k][c] == if c in newData.rows[0] then newData.rows[0][c]
                            else Matching(data.rows, today)[k][c])
  {
    MatchingKeys(data, today);
  }

  /** The reconciliation of one `_updateDatabase` block: `data['Date']` fails when the stored
      frame has no key column; otherwise the branch is chosen by the two tests of `CaseOf`. */
  function Upsert(data: Frame, today: string, newData: Frame): (r: Result<Frame>)
    requires data.WellFormed() && IsObservation(newData, today)
    requires MergeReady(data, today, newData)
    ensures r.Err? <==> DateColumn !in data.columns
    ensures r.Err? ==> r.error == KeyError(DateColumn)
    ensures r.Ok? ==> r.value.WellFormed()
    ensures r.Ok? ==> ColumnSet(r.value.columns) == ColumnSet(data.columns) + ColumnSet(newData.columns)
    ensures r.Ok? ==> |r.value.rows| == match CaseOf(data, today, newData)
                                         case AppendRow => |data.rows| + 1
                                         case OverwriteToday => |data.rows|
                                         case MergeToday => |Matching(data.rows, today)|
  {
    if DateColumn !in data.columns then Err(KeyError(DateColumn))
    else match CaseOf(data, today, newData)
      case AppendRow => Ok(Concat(data, newData))
      case OverwriteToday =>
        assert ColumnSet(data.columns) + ColumnSet(newData.columns) == ColumnSet(data.columns);
        Ok(Overwrite(data, today, newData))
      case MergeToday => Ok(MergeOnDate(data, today, newData))
  }

  /** The row already holds the observation's cell in each of the observation's columns. */
  predicate Agrees(r: Row, nr: Row)
  {
    forall c :: c in nr ==> c in r && r[c] == nr[c]
  }

  /** Overwriting rows that already agree with the observation changes nothing. */
  lemma OverwriteAgreeing(data: Frame, today: string, newData: Frame)
    requires data.WellFormed() && newData.WellFormed() && |newData.rows| == 1
    requires Covers(data, newData)
    requires forall i :: 0 <= i < |data.rows| && OnDate(data.rows[i], today) ==> Agrees(data.rows[i], newData.rows[0])
    ensures Overwrite(data, today, newData) == data
  {
    var r := Overwrite(data, today, newData);
    var nr := newData.rows[0];
    forall i | 0 <= i < |data.rows| ensures r.rows[i] == data.rows[i] {
      if OnDate(data.rows[i], today) {
        assert Agrees(data.rows[i], nr);
        assert (data.rows[i] + nr).Keys == data.rows[i].Keys;
      }
    }
    assert r.rows == data.rows;
  }

  /** A frame on which the observation has already been upserted: it has the key column and every
      column of the observation, some row keyed by today, and every such row holds the
      observation's cells. */
  predicate Settled(f: Frame, today: string, newData: Frame)
    requires |newData.rows| == 1
  {
    && f.WellFormed() && DateColumn in f.columns && HasToday(f, today) && Covers(f, newData)
    && forall i :: 0 <= i < |f.rows| && OnDate(f.rows[i], today) ==> Agrees(f.rows[i], newData.rows[0])
  }

  /** Upserting onto a settled frame takes the overwrite branch and returns the frame unchanged. */
  lemma SettledIsFixed(f: Frame, today: string, newData: Frame)
    requires IsObservation(newData, today) && Settled(f, today, newData)
    ensures CaseOf(f, today, newData) == OverwriteToday
    ensures MergeReady(f, today, newData) && Upsert(f, today, newData) == Ok(f)
  {
    OverwriteAgreeing(f, today, newData);
    UpsertUnfold(f, today, newData);
  }

  /** A frame whose columns are the union of the stored and the observed ones has them all. */
  lemma UnionCovers(f: Frame, data: Frame, newData: Frame)
    requires ColumnSet(f.columns) == ColumnSet(data.columns) + ColumnSet(newData.columns)
    requires DateColumn in data.columns
    ensures Covers(f, newData) && DateColumn in f.columns
  {
    assert DateColumn in ColumnSet(data.columns);
    forall c | c in newData.columns ensures c in f.columns {
      assert c in ColumnSet(newData.columns);
    }
  }

  /** After the append branch, the only row keyed by today is the appended one, which agrees
      with the observation. */
  lemma AppendedAgrees(data: Frame, today: string, newData: Frame)
    requires data.WellFormed() && IsObservation(newData, today)
    requires DateColumn in data.columns && !HasToday(data, today)
    ensures Settled(Concat(data, newData), today, newData)
    ensures forall i :: 0 <= i < |data.rows| ==> !OnDate(Concat(data, newData).rows[i], today)
  {
    var once := Concat(data, newData);
    ConcatCells(data, newData);
    UnionCovers(once, data, newData);
    var nr := newData.rows[0];
    var n := |data.rows|;
    forall i | 0 <= i < n ensures !OnDate(once.rows[i], today) {
      assert once.rows[i][DateColumn] == data.rows[i][DateColumn];
    }
    forall c | c in nr ensures c in once.rows[n] && once.rows[n][c] == nr[c] {
      assert c in ColumnSet(newData.columns);
    }
    assert OnDate(once.rows[n], today);
  }

  /** After the overwrite branch, every row keyed by today agrees with the observation. */
  lemma OverwrittenAgrees(data: Frame, today: string, newData: Frame)
    requires data.WellFormed() && IsObservation(newData, today)
    requires DateColumn in data.columns && HasToday(data, today) && Covers(data, newData)
    ensures Settled(Overwrite(data, today, newData), today, newData)
  {
    var once := Overwrite(data, today, newData);
    OverwriteCells(data, today, newData);
    var nr := newData.rows[0];
    assert DateColumn in newData.columns;
    var w :| 0 <= w < |data.rows| && OnDate(data.rows[w], today);
    assert once.rows[w][DateColumn] == nr[DateColumn];
    forall i | 0 <= i < |once.rows| && OnDate(once.rows[i], today) ensures Agrees(once.rows[i], nr) {
      forall c | c in nr ensures c in once.rows[i] && once.rows[i][c] == nr[c] {
        assert c in ColumnSet(newData.columns);
      }
    }
  }

  /** After the merge branch, the frame is settled. (That every joined row is keyed by today is
      stated by `MergeCells`.) */
  lemma MergedAgrees(data: Frame, today: string, newData: Frame)
    requires data.WellFormed() && IsObservation(newData, today)
    requires DateColumn in data.columns && HasToday(data, today) && OnlyKeyShared(data, newData)
    ensures Settled(MergeOnDate(data, today, newData), today, newData)
  {
    var once := MergeOnDate(data, today, newData);
    MergedRowsAgree(data, today, newData);
    UnionCovers(once, data, newData);
    MergedKeepsToday(data, today, newData);
    assert OnDate(once.rows[0], today);
  }

  /** A stored row keyed by today survives the join, still keyed by today. */
  lemma MergedKeepsToday(data: Frame, today: string, newData: Frame)
    requires data.WellFormed() && IsObservation(newData, today)
    requires DateColumn in data.columns && HasToday(data, today) && OnlyKeyShared(data, newData)
    ensures var r := MergeOnDate(data, today, newData); |r.rows| > 0 && OnDate(r.rows[0], today)
  {
    var w :| 0 <= w < |data.rows| && OnDate(data.rows[w], today);
    assert data.rows[w] in Matching(data.rows, today);
    assert DateColumn in newData.rows[0] by {
      assert DateColumn in ColumnSet(newData.columns);
    }
  }

  /** Each joined row is a stored row extended by the observation, so it holds the observation's cells. */
  lemma MergedRowsAgree(data: Frame, today: string, newData: Frame)
    requires data.WellFormed() && IsObservation(newData, today)
    requires DateColumn in data.columns && OnlyKeyShared(data, newData)
    ensures var r := MergeOnDate(data, today, newData);
      forall k :: 0 <= k < |r.rows| ==> Agrees(r.rows[k], newData.rows[0])
  {
  }

  /** Upserting the same observation a second time leaves the snapshot as the first upsert made it,
      whichever branch the first one took: afterwards a row keyed by today exists, the
      observation's columns are all present and every row keyed by today already holds the
      observation's cells, so the second call takes the overwrite branch and changes nothing. */
  lemma {:induction false} UpsertIdempotent(data: Frame, today: string, newData: Frame, once: Frame)
    requires data.WellFormed() && IsObservation(newData, today)
    requires MergeReady(data, today, newData)
    requires Upsert(data, today, newData) == Ok(once)
    ensures CaseOf(once, today, newData) == OverwriteToday
    ensures MergeReady(once, today, newData) && Upsert(once, today, newData) == Ok(once)
  {
    UpsertSettles(data, today, newData, once);
    SettledIsFixed(once, today, newData);
  }

  /** Whichever branch it takes, an upsert leaves a settled frame. */
  lemma UpsertSettles(data: Frame, today: string, newData: Frame, once: Frame)
    requires data.WellFormed() && IsObservation(newData, today)
    requires MergeReady(data, today, newData)
    requires Upsert(data, today, newData) == Ok(once)
    ensures Settled(once, today, newData)
  {
    UpsertUnfold(data, today, newData);
    if CaseOf(data, today, newData) == AppendRow {
      AppendedAgrees(data, today, newData);
    } else if CaseOf(data, today, newData) == OverwriteToday {
      OverwrittenAgrees(data, today, newData);
    } else {
      MergedAgrees(data, today, newData);
    }
  }

  /** Upsert on a frame with a key column is the branch `CaseOf` selects. */
  lemma UpsertUnfold(data: Frame, today: string, newData: Frame)
    requires data.WellFormed() && IsObservation(newData, today)
    requires MergeReady(data, today, newData)
    requires DateColumn in data.columns
    ensures CaseOf(data, today, newData) == AppendRow ==> Upsert(data, today, newData) == Ok(Concat(data, newData))
    ensures CaseOf(data, today, newData) == OverwriteToday ==>
      Upsert(data, today, newData) == Ok(Overwrite(data, today, newData))
    ensures CaseOf(data, today, newData) == MergeToday ==>
      Upsert(data, today, newData) == Ok(MergeOnDate(data, today, newData))
  {
  }

  /** Among rows with unique dates, at most one is keyed by today. */
  lemma {:induction false} MatchingAtMostOne(rows: seq<Row>, today: string)
    requires forall i, j :: 0 <= i < j < |rows| && DateColumn in rows[i] && DateColumn in rows[j] ==>
      rows[i][DateColumn] != rows[j][DateColumn]
    ensures |Matching(rows, today)| <= 1
  {
    if rows != [] {
      var init := rows[..|rows| - 1];
      var last := rows[|rows| - 1];
      MatchingAtMostOne(init, today);
    }
  }

  /** When the stored dates are unique, they are unique after the upsert too. Row duplication in
      the key column is never introduced; only pre-existing duplicates survive the overwrite. */
  lemma {:induction false} UpsertKeepsDatesUnique(data: Frame, today: string, newData: Frame)
    requires data.WellFormed() && IsObservation(newData, today)
    requires MergeReady(data, today, newData)
    requires DateColumn in data.columns
    requires UniqueDates(data)
    ensures UniqueDates(Upsert(data, today, newData).value)
  {
    UpsertUnfold(data, today, newData);
    if CaseOf(data, today, newData) == AppendRow {
      AppendKeepsDatesUnique(data, today, newData);
    } else if CaseOf(data, today, newData) == OverwriteToday {
      OverwriteKeepsDatesUnique(data, today, newData);
    } else {
      MatchingAtMostOne(data.rows, today);
    }
  }

  /** Appending a row for a date no stored row has keeps the dates unique. */
  lemma AppendKeepsDatesUnique(data: Frame, today: string, newData: Frame)
    requires data.WellFormed() && IsObservation(newData, today)
    requires DateColumn in data.columns && !HasToday(data, today)
    requires UniqueDates(data)
    ensures UniqueDates(Concat(data, newData))
  {
    var once := Concat(data, newData);
    var n := |data.rows|;
    ConcatCells(data, newData);
    assert DateColumn in ColumnSet(once.columns);
    assert forall i :: 0 <= i <= n ==> DateColumn in once.rows[i];
    assert once.rows[n][DateColumn] == Text(today) by {
      assert DateColumn in newData.rows[0];
    }
    forall i | 0 <= i < n
      ensures once.rows[i][DateColumn] == data.rows[i][DateColumn] != Text(today)
    {
      assert DateColumn in data.rows[i];
      assert !OnDate(data.rows[i], today);
    }
    forall i, j | 0 <= i < j < |once.rows| ensures once.rows[i][DateColumn] != once.rows[j][DateColumn] {
      if j < n {
        assert DateColumn in data.rows[i] && DateColumn in data.rows[j];
      }
    }
  }

  /** Overwriting never touches the key column's cells that differ from today's. */
  lemma OverwriteKeepsDatesUnique(data: Frame, today: string, newData: Frame)
    requires data.WellFormed() && IsObservation(newData, today)
    requires DateColumn in data.columns && Covers(data, newData)
    requires UniqueDates(data)
    ensures UniqueDates(Overwrite(data, today, newData))
    ensures forall i :: 0 <= i < |data.rows| ==>
      (DateColumn in data.rows[i] && DateColumn in Overwrite(data, today, newData).rows[i]
       && Overwrite(data, today, newData).rows[i][DateColumn] == data.rows[i][DateColumn])
  {
    var once := Overwrite(data, today, newData);
    OverwriteCells(data, today, newData);
    forall i | 0 <= i < |data.rows| ensures once.rows[i][DateColumn] == data.rows[i][DateColumn] {
      assert DateColumn in ColumnSet(data.columns);
    }
  }

  /** The inner join of the merge branch drops every stored row keyed by another date: when such a
      row exists the snapshot written back is shorter than the one read. */
  lemma MergeDropsOtherDates(data: Frame, today: string, newData: Frame, i: nat)
    requires data.WellFormed() && IsObservation(newData, today)
    requires DateColumn in data.columns && CaseOf(data, today, newData) == MergeToday
    requires OnlyKeyShared(data, newData)
    requires i < |data.rows| && !OnDate(data.rows[i], today)
    ensures |Upsert(data, today, newData).value.rows| < |data.rows|
    ensures forall k :: 0 <= k < |Upsert(data, today, newData).value.rows| ==>
      OnDate(Upsert(data, today, newData).value.rows[k], today)
  {
  }
}
