/** The backing file of the second version, `lots_and_samples.csv`, and how
    `load_data` sorts its rows into lots and samples (LaS3.py). The file is
    modelled as its rows below the header, each row as the record of its seven
    named columns; a column absent from a written record is the empty string,
    as the CSV writer leaves it. */
module LaS3Rows {
  import opened Lists

  /** One row of the file, columns in the order of the header
      `datetime, Lot, Serial, FullCode, Name, Notes, Active`. */
  datatype Row = Row(datetime: string, lot: string, serial: string, fullCode: string,
                     name: string, notes: string, active: string)

  /** A record with every column empty. */
  const BlankRow := Row("", "", "", "", "", "", "")

  /** The timestamp-only row written under the header when the file is created. */
  function BootstrapRow(timestamp: string): Row
  {
    BlankRow.(datetime := timestamp)
  }

  /** A lot: a `Lot` code and no `Serial`. */
  predicate IsLotRow(r: Row)
  {
    r.lot != "" && r.serial == ""
  }

  /** A sample: any row with a `Serial`. */
  predicate IsSampleRow(r: Row)
  {
    r.serial != ""
  }

  /** Neither lot nor sample: dropped by the load (the bootstrap row among them). */
  predicate IsIgnoredRow(r: Row)
  {
    r.lot == "" && r.serial == ""
  }

  /** The load turns `Active` into the boolean `Active == 'True'`, which the file
      holds again as `True` or `False`. */
  function NormalizeActive(r: Row): (n: Row)
    ensures n.active == "True" || n.active == "False"
    ensures n.active == "True" <==> r.active == "True"
    ensures n == r.(active := n.active)
  {
    r.(active := if r.active == "True" then "True" else "False")
  }

  /** A sample as it is held after a load: a `Serial` and a normalised `Active`. */
  predicate IsLoadedSample(r: Row)
  {
    IsSampleRow(r) && (r.active == "True" || r.active == "False")
  }

  /** The lots a load finds in `rows`, in file order. */
  function LotRows(rows: seq<Row>): (lots: seq<Row>)
    ensures forall k :: 0 <= k < |lots| ==> IsLotRow(lots[k])
  {
    Filter(rows, IsLotRow)
  }

  function NormalizeAll(rows: seq<Row>): (n: seq<Row>)
  {
    seq(|rows|, k requires 0 <= k < |rows| => NormalizeActive(rows[k]))
  }

  /** The samples a load finds in `rows`, in file order, with `Active` normalised. */
  function SampleRows(rows: seq<Row>): (samples: seq<Row>)
    ensures forall k :: 0 <= k < |samples| ==> IsLoadedSample(samples[k])
  {
    var found := Filter(rows, IsSampleRow);
    assert forall k :: 0 <= k < |found| ==> IsSampleRow(found[k]);
    NormalizeAll(found)
  }

  /** Loading one more row adds it to the lots if it is a lot, to the samples if
      it is a sample, and to neither otherwise. */
  lemma ClassifyAppend(rows: seq<Row>, r: Row)
    ensures LotRows(rows + [r]) == LotRows(rows) + (if IsLotRow(r) then [r] else [])
    ensures SampleRows(rows + [r]) == SampleRows(rows) + (if IsSampleRow(r) then [NormalizeActive(r)] else [])
  {
    assert (rows + [r])[..|rows|] == rows;
  }

  /** Every row is a lot, a sample or ignored, and never two of these: the load
      neither loses nor duplicates a row. */
  lemma {:induction false} ClassificationPartition(rows: seq<Row>)
    ensures |LotRows(rows)| + |SampleRows(rows)| + |Filter(rows, IsIgnoredRow)| == |rows|
    decreases |rows|
  {
    if rows != [] {
      var init := rows[..|rows| - 1];
      ClassificationPartition(init);
      assert init + [rows[|rows| - 1]] == rows;
      ClassifyAppend(init, rows[|rows| - 1]);
    }
  }

  /** The lots a load finds in "all lots, then all samples" are the lots. */
  lemma RewriteKeepsLots(lots: seq<Row>, samples: seq<Row>)
    requires forall k :: 0 <= k < |lots| ==> IsLotRow(lots[k])
    requires forall k :: 0 <= k < |samples| ==> IsSampleRow(samples[k])
    ensures LotRows(lots + samples) == lots
  {
    FilterAppend(lots, samples, IsLotRow);
    FilterKeepsAll(lots, IsLotRow);
    FilterDropsAll(samples, IsLotRow);
    assert lots + [] == lots;
  }

  /** The samples a load finds in "all lots, then all loaded samples" are the samples. */
  lemma RewriteKeepsSamples(lots: seq<Row>, samples: seq<Row>)
    requires forall k :: 0 <= k < |lots| ==> IsLotRow(lots[k])
    requires forall k :: 0 <= k < |samples| ==> IsLoadedSample(samples[k])
    ensures SampleRows(lots + samples) == samples
  {
    FilterAppend(lots, samples, IsSampleRow);
    FilterDropsAll(lots, IsSampleRow);
    FilterKeepsAll(samples, IsSampleRow);
    assert [] + samples == samples;
    assert NormalizeAll(samples) == samples;
  }

  /** Rewriting the store as all lots followed by all samples and loading it
      again gives back the same two lists. */
  lemma RewriteRoundTrip(lots: seq<Row>, samples: seq<Row>)
    requires forall k :: 0 <= k < |lots| ==> IsLotRow(lots[k])
    requires forall k :: 0 <= k < |samples| ==> IsLoadedSample(samples[k])
    ensures LotRows(lots + samples) == lots
    ensures SampleRows(lots + samples) == samples
  {
    RewriteKeepsLots(lots, samples);
    RewriteKeepsSamples(lots, samples);
  }

  /** The loop of `load_data`: each row goes to the lots when it has a `Lot` and no
      `Serial`, to the samples (with `Active` normalised) when it has a `Serial`. */
  method ClassifyRows(rows: seq<Row>) returns (lots: seq<Row>, samples: seq<Row>)
    ensures lots == LotRows(rows)
    ensures samples == SampleRows(rows)
  {
    lots, samples := [], [];
    var i := 0;
    while i < |rows|
      invariant 0 <= i <= |rows|
      invariant lots == LotRows(rows[..i])
      invariant samples == SampleRows(rows[..i])
    {
      var row := rows[i];
      ClassifyAppend(rows[..i], row);
      assert rows[..i + 1] == rows[..i] + [row];
      if row.lot != "" && row.serial == "" {
        lots := lots + [row];
      }
      if row.serial != "" {
        samples := samples + [NormalizeActive(row)];
      }
      i := i + 1;
    }
    assert rows[..i] == rows;
  }
}
