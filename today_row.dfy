/**
 * findRowForToday: the first row below the header whose first cell names
 * today's date. "Today" is a parameter (the clock and the time zone are not
 * part of this model) and so is the date parser, which is a library call in
 * the service; Dates.ParseDate is the concrete parser used in the example.
 */
module TodayRow {
  import opened Wrappers
  import opened Dates

  type Row = seq<string>

  /** What the scan ends with: the matching row, the "no row found for today"
      error, or the index-out-of-range panic that reading cell 0 of an empty
      row raises. */
  datatype Lookup = Found(row: Row) | NoRowForToday(today: Date) | RowIndexPanic(index: nat)

  /** The row is dated today. */
  predicate IsToday(row: Row, parse: string -> Option<Date>, today: Date) {
    |row| > 0 && parse(row[0]) == Some(today)
  }

  /** The scan reads the row and moves on: cell 0 exists and either does not
      parse or names another day. */
  predicate PassedOver(row: Row, parse: string -> Option<Date>, today: Date) {
    |row| > 0 && parse(row[0]) != Some(today)
  }

  /** The outcome of scanning rows[from..] in order. */
  function ScanFrom(rows: seq<Row>, from: nat, parse: string -> Option<Date>, today: Date): (r: Lookup)
    requires from <= |rows|
    ensures r.Found? ==> IsToday(r.row, parse, today)
    ensures r.RowIndexPanic? ==> from <= r.index < |rows| && |rows[r.index]| == 0
    decreases |rows| - from
  {
    if from == |rows| then NoRowForToday(today)
    else if |rows[from]| == 0 then RowIndexPanic(from)
    else if parse(rows[from][0]) == Some(today) then Found(rows[from])
    else ScanFrom(rows, from + 1, parse, today)
  }

  /** The loop of findRowForToday over rows[header + 1..]: unparseable rows
      are skipped, the first row dated today is returned. */
  method FindRowForToday(rows: seq<Row>, header: int, parse: string -> Option<Date>, today: Date)
    returns (r: Lookup)
    requires -1 <= header < |rows|
    ensures r == ScanFrom(rows, header + 1, parse, today)
    ensures r.Found? ==> IsToday(r.row, parse, today)
  {
    var i := header + 1;
    while i < |rows|
      invariant header + 1 <= i <= |rows|
      invariant ScanFrom(rows, header + 1, parse, today) == ScanFrom(rows, i, parse, today)
    {
      var row := rows[i];
      if |row| == 0 {
        return RowIndexPanic(i);
      }
      var date := parse(row[0]);
      if date.None? {
        i := i + 1;
        continue;
      }
      if date.value == today {
        return Found(row);
      }
      i := i + 1;
    }
    return NoRowForToday(today);
  }

  /** A row dated today with only passed-over rows before it is the one found. */
  lemma {:induction false} ScanFindsFirstMatch(rows: seq<Row>, from: nat, parse: string -> Option<Date>, today: Date, k: nat)
    requires from <= k < |rows|
    requires IsToday(rows[k], parse, today)
    requires forall j :: from <= j < k ==> PassedOver(rows[j], parse, today)
    ensures ScanFrom(rows, from, parse, today) == Found(rows[k])
    decreases k - from
  {
    if from < k {
      ScanFindsFirstMatch(rows, from + 1, parse, today, k);
    }
  }

  /** A found row is dated today, and every row scanned before it was passed over. */
  lemma {:induction false} ScanFoundIsFirstMatch(rows: seq<Row>, from: nat, parse: string -> Option<Date>, today: Date)
    requires from <= |rows|
    requires ScanFrom(rows, from, parse, today).Found?
    ensures exists k :: from <= k < |rows| && rows[k] == ScanFrom(rows, from, parse, today).row
                        && IsToday(rows[k], parse, today)
                        && forall j :: from <= j < k ==> PassedOver(rows[j], parse, today)
    decreases |rows| - from
  {
    if parse(rows[from][0]) == Some(today) {
      assert IsToday(rows[from], parse, today);
    } else {
      ScanFoundIsFirstMatch(rows, from + 1, parse, today);
    }
  }

  /** The scan fails with "no row found for today" exactly when every row is
      passed over; an unparseable row never causes the failure by itself. */
  lemma {:induction false} ScanNotFoundIff(rows: seq<Row>, from: nat, parse: string -> Option<Date>, today: Date)
    requires from <= |rows|
    ensures ScanFrom(rows, from, parse, today) == NoRowForToday(today)
            <==> forall j :: from <= j < |rows| ==> PassedOver(rows[j], parse, today)
    decreases |rows| - from
  {
    if from < |rows| {
      ScanNotFoundIff(rows, from + 1, parse, today);
    }
  }

  /** The scan panics at row k exactly when row k is empty and every row
      before it was passed over. */
  lemma {:induction false} ScanPanicIff(rows: seq<Row>, from: nat, parse: string -> Option<Date>, today: Date, k: nat)
    requires from <= k < |rows|
    ensures ScanFrom(rows, from, parse, today) == RowIndexPanic(k)
            <==> |rows[k]| == 0 && forall j :: from <= j < k ==> PassedOver(rows[j], parse, today)
    decreases k - from
  {
    if from < k {
      ScanPanicIff(rows, from + 1, parse, today, k);
      if PassedOver(rows[from], parse, today) {
        assert ScanFrom(rows, from, parse, today) == ScanFrom(rows, from + 1, parse, today);
        assert (forall j :: from <= j < k ==> PassedOver(rows[j], parse, today))
               <==> (forall j :: from + 1 <= j < k ==> PassedOver(rows[j], parse, today));
      } else {
        assert ScanFrom(rows, from, parse, today) != RowIndexPanic(k);
        assert !(forall j :: from <= j < k ==> PassedOver(rows[j], parse, today));
      }
    }
  }

  /** The example dates written in the layout. */
  lemma FormatsExampleDates()
    ensures FormatDate(Date(2021, 1, 1)) == "2021-01-01"
    ensures FormatDate(Date(2021, 1, 2)) == "2021-01-02"
  {
    assert Digits(202, 3) == "202";
    assert Digits(0, 1) == "0";
  }

  /** ParseDate reads the two example dates. */
  lemma ParsesExampleDates()
    ensures ParseDate("2021-01-01") == Some(Date(2021, 1, 1))
    ensures ParseDate("2021-01-02") == Some(Date(2021, 1, 2))
  {
    FormatsExampleDates();
    ParseFormat(Date(2021, 1, 1));
    ParseFormat(Date(2021, 1, 2));
  }

  /** A header row followed by rows dated 2021-01-01, 2021-01-02, "bad-date"
      and 2021-01-02: on 2021-01-02 the first of the two matching rows is
      returned and the malformed row causes no error. */
  lemma ExampleFirstMatchWins()
    ensures var rows := [["date", "Alice"], ["2021-01-01", "BLT"], ["2021-01-02", "Soup"],
                         ["bad-date", "x"], ["2021-01-02", "Salad"]];
            ScanFrom(rows, 1, ParseDate, Date(2021, 1, 2)) == Found(["2021-01-02", "Soup"])
  {
    var rows := [["date", "Alice"], ["2021-01-01", "BLT"], ["2021-01-02", "Soup"],
                 ["bad-date", "x"], ["2021-01-02", "Salad"]];
    ParsesExampleDates();
    assert PassedOver(rows[1], ParseDate, Date(2021, 1, 2));
    assert IsToday(rows[2], ParseDate, Date(2021, 1, 2));
    ScanFindsFirstMatch(rows, 1, ParseDate, Date(2021, 1, 2), 2);
  }
}
