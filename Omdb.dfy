/**
  The merge step of fill_omdb in src/utils.py: how a reply already received from the
  OMDb metadata service is written into one row of the movie table.
*/
module Omdb {
  import opened Wrappers
  import PyText

  /** One row of the table: column name to cell, None being a missing cell (NaN). */
  type Row = map<string, Option<string>>

  /**
    A reply of the service: the HTTP status code and the JSON body; body is None when
    response.json() cannot decode it into an object of strings.
  */
  datatype Reply = Reply(status: int, body: Option<map<string, string>>)

  /** How a call ends: it returns the row, or raises KeyError or a JSON decoding error. */
  datatype Outcome = Returned | KeyError(labels: seq<string>) | DecodeError

  /** The three columns the body fills, in the order it fills them; also the default columns_to_fill. */
  const Targets: seq<string> := ["IMDB_Rating", "Revenue", "Genre"]

  /** The reply field each target column is filled from. */
  function ReplyKey(column: string): string
    requires column in Targets
  {
    if column == "IMDB_Rating" then "imdbRating"
    else if column == "Revenue" then "BoxOffice"
    else "Genre"
  }

  /** The part of `g` before its first comma, which is g.split(",")[0]. */
  function BeforeComma(g: string): (r: string)
    ensures ',' !in r
    ensures |r| <= |g| && r == g[..|r|]
    ensures |r| < |g| ==> g[|r|] == ','
  {
    if g == [] || g[0] == ',' then [] else [g[0]] + BeforeComma(g[1..])
  }

  /** g.split(",")[0].strip(): the first genre of a comma-separated list. */
  function FirstGenre(g: string): (r: string)
    ensures ',' !in r
    ensures PyText.IsTrimmed(PyText.StrSpaces, r)
  {
    PyText.TrimOmits(PyText.StrSpaces, BeforeComma(g), ',');
    PyText.Strip(BeforeComma(g))
  }

  /** The genre before the first comma, trimmed, is what is kept. */
  lemma {:induction false} FirstGenreOfList(first: string, rest: string)
    requires ',' !in first
    ensures FirstGenre(first + "," + rest) == PyText.Strip(first)
  {
    var g := first + "," + rest;
    var r := BeforeComma(g);
    assert g[|first|] == ',';
    assert forall k :: 0 <= k < |first| ==> g[k] == first[k];
    assert |r| == |first|;
    assert r == first;
  }

  /** "Action, Drama" keeps only "Action". */
  lemma {:induction false} FirstGenreExample()
    ensures FirstGenre("Action, Drama") == "Action"
  {
    var first, rest := "Action", " Drama";
    assert first + "," + rest == "Action, Drama";
    FirstGenreOfList(first, rest);
    assert PyText.IsTrimmed(PyText.StrSpaces, first) by { assert first[0] == 'A' && first[5] == 'n'; }
    PyText.TrimTrimmed(PyText.StrSpaces, first);
  }

  /**
    The labels of `columns` that are not columns of the row, in order; row[columns_to_fill]
    raises KeyError when there is one.
  */
  function MissingLabels(row: Row, columns: seq<string>): (r: seq<string>)
    ensures forall c :: c in r <==> c in columns && c !in row
    ensures r == [] <==> forall c :: c in columns ==> c in row
  {
    if columns == [] then []
    else (if columns[0] in row then [] else [columns[0]]) + MissingLabels(row, columns[1..])
  }

  /** row[columns_to_fill].isnull().any(). */
  predicate AnyMissing(row: Row, columns: seq<string>)
    requires forall c :: c in columns ==> c in row
  {
    exists c :: c in columns && row[c].None?
  }

  /** data.get("Response") == "True": the service found the title. */
  predicate Found(data: map<string, string>) {
    "Response" in data && data["Response"] == "True"
  }

  /**
    The value the reply offers for a target column: nothing when its field is absent or
    "N/A", the first genre for Genre, the field itself otherwise.
  */
  function Offered(column: string, data: map<string, string>): (r: Option<string>)
    requires column in Targets
    ensures r.Some? <==> ReplyKey(column) in data && data[ReplyKey(column)] != "N/A"
    ensures r.Some? && column != "Genre" ==> r.value == data[ReplyKey(column)]
    ensures r.Some? && column == "Genre" ==> ',' !in r.value && r.value == FirstGenre(data["Genre"])
  {
    var key := ReplyKey(column);
    if key in data && data[key] != "N/A" then
      Some(if column == "Genre" then FirstGenre(data[key]) else data[key])
    else
      None
  }

  /** A target cell after the merge: a present cell is kept, a missing one takes what is offered. */
  function MergedCell(column: string, cell: Option<string>, data: map<string, string>): (r: Option<string>)
    requires column in Targets
    ensures cell.Some? ==> r == cell
    ensures r.None? <==> cell.None? && Offered(column, data).None?
  {
    if cell.Some? then cell else Offered(column, data)
  }

  /** How many of the targets, in fill order, are columns of the row before the first that is not. */
  function PresentTargets(row: Row): (n: nat)
    ensures n <= |Targets|
    ensures forall j :: 0 <= j < n ==> Targets[j] in row
    ensures n < |Targets| ==> Targets[n] !in row
  {
    if Targets[0] !in row then 0
    else if Targets[1] !in row then 1
    else if Targets[2] !in row then 2
    else 3
  }

  /**
    The body after a reply that found the title: each target column reached is merged;
    reading a target column that the row lacks raises KeyError, and the merges done
    before it stay in the row.
  */
  function Merge(row: Row, data: map<string, string>): (res: (Outcome, Row))
    ensures res.1.Keys == row.Keys
    ensures forall k :: k in row && (k !in Targets || row[k].Some?) ==> res.1[k] == row[k]
    ensures res.0 == Returned <==> forall t :: t in Targets ==> t in row
    ensures forall j :: 0 <= j < |Targets| && Targets[j] !in row && (forall i :: 0 <= i < j ==> Targets[i] in row) ==>
      res.0 == KeyError([Targets[j]])
  {
    var n := PresentTargets(row);
    var merged := map k | k in row :: if k in Targets[..n] then MergedCell(k, row[k], data) else row[k];
    (if n < |Targets| then KeyError([Targets[n]]) else Returned, merged)
  }

  /** Merge spelled out column by column, in the order the body visits the targets. */
  lemma {:induction false} MergeInSteps(row: Row, data: map<string, string>)
    ensures "IMDB_Rating" !in row ==> Merge(row, data) == (KeyError(["IMDB_Rating"]), row)
    ensures "IMDB_Rating" in row ==>
      var r1 := row["IMDB_Rating" := MergedCell("IMDB_Rating", row["IMDB_Rating"], data)];
      && ("Revenue" !in row ==> Merge(row, data) == (KeyError(["Revenue"]), r1))
      && ("Revenue" in row ==>
        var r2 := r1["Revenue" := MergedCell("Revenue", row["Revenue"], data)];
        && ("Genre" !in row ==> Merge(row, data) == (KeyError(["Genre"]), r2))
        && ("Genre" in row ==>
          Merge(row, data) == (Returned, r2["Genre" := MergedCell("Genre", row["Genre"], data)])))
  {
    var n := PresentTargets(row);
    var merged := Merge(row, data).1;
    var expected :=
      if n == 0 then row
      else
        var r1 := row["IMDB_Rating" := MergedCell("IMDB_Rating", row["IMDB_Rating"], data)];
        if n == 1 then r1
        else
          var r2 := r1["Revenue" := MergedCell("Revenue", row["Revenue"], data)];
          if n == 2 then r2 else r2["Genre" := MergedCell("Genre", row["Genre"], data)];
    assert Targets[..n] == if n == 0 then [] else if n == 1 then ["IMDB_Rating"]
      else if n == 2 then ["IMDB_Rating", "Revenue"] else Targets;
    assert merged.Keys == expected.Keys;
    forall k | k in merged
      ensures merged[k] == expected[k]
    {
    }
    assert merged == expected;
  }

  /**
    fill_omdb(row, columns_to_fill) given the service's reply: how the call ends and
    the row it leaves.
  */
  function Enrich(row: Row, columns: seq<string>, reply: Reply): (Outcome, Row) {
    var absent := MissingLabels(row, columns);
    if absent != [] then (KeyError(absent), row)
    else if !AnyMissing(row, columns) then (Returned, row)
    else if "Title" !in row then (KeyError(["Title"]), row)
    else if reply.status != 200 then (Returned, row)
    else if reply.body.None? then (DecodeError, row)
    else if !Found(reply.body.value) then (Returned, row)
    else Merge(row, reply.body.value)
  }

  /** A row with every requested column present is returned as it is, whatever the reply: no lookup is needed. */
  lemma {:induction false} NothingMissingNoLookup(row: Row, columns: seq<string>, reply: Reply)
    requires forall c :: c in columns ==> c in row && row[c].Some?
    ensures Enrich(row, columns, reply) == (Returned, row)
  {
  }

  /** A transport failure or a title the service did not find leaves the row as it was. */
  lemma {:induction false} UnsuccessfulReplyKeepsRow(row: Row, columns: seq<string>, reply: Reply)
    requires reply.status != 200 || (reply.body.Some? && !Found(reply.body.value))
    ensures Enrich(row, columns, reply).1 == row
    ensures Enrich(row, columns, reply).0 == Returned || Enrich(row, columns, reply).0.KeyError?
  {
  }

  /** No call adds or removes a column, and only the three target columns can change. */
  lemma {:induction false} OnlyTargetsChange(row: Row, columns: seq<string>, reply: Reply)
    ensures Enrich(row, columns, reply).1.Keys == row.Keys
    ensures forall k :: k in row && k !in Targets ==> Enrich(row, columns, reply).1[k] == row[k]
  {
  }

  /** A cell that was present is never overwritten. */
  lemma {:induction false} PresentCellsKept(row: Row, columns: seq<string>, reply: Reply)
    ensures forall k :: k in row && row[k].Some? ==> Enrich(row, columns, reply).1[k] == row[k]
  {
  }

  /**
    After a reply that found the title, a missing target cell is set exactly when the
    reply has its field and the field is not "N/A": to the field for IMDB_Rating and
    Revenue, to the first genre for Genre.
  */
  lemma {:induction false} MissingTargetFilled(row: Row, columns: seq<string>, data: map<string, string>, column: string)
    requires forall t :: t in Targets ==> t in row
    requires forall c :: c in columns ==> c in row
    requires AnyMissing(row, columns) && "Title" in row
    requires Found(data)
    requires column in Targets && row[column].None?
    ensures var (outcome, after) := Enrich(row, columns, Reply(200, Some(data)));
      && outcome == Returned
      && (after[column].Some? <==> ReplyKey(column) in data && data[ReplyKey(column)] != "N/A")
      && (after[column].Some? && column != "Genre" ==> after[column].value == data[ReplyKey(column)])
      && (after[column].Some? && column == "Genre" ==> after[column].value == FirstGenre(data["Genre"]))
  {
    assert Targets[..PresentTargets(row)] == Targets;
  }

  /**
    columns_to_fill only decides whether to look the title up: once a lookup happens the
    three target columns are merged whichever columns were asked for.
  */
  lemma {:induction false} ColumnsOnlyGateTheLookup(row: Row, columns1: seq<string>, columns2: seq<string>, reply: Reply)
    requires forall c :: c in columns1 ==> c in row
    requires forall c :: c in columns2 ==> c in row
    requires AnyMissing(row, columns1) && AnyMissing(row, columns2)
    ensures Enrich(row, columns1, reply) == Enrich(row, columns2, reply)
  {
  }

  /** A row of the table, which fill_omdb updates in place. */
  class MovieRow {
    var cells: Row

    constructor (cells: Row)
      ensures this.cells == cells
    {
      this.cells := cells;
    }

    /**
      One of the three guarded updates of fill_omdb's body: a missing cell whose reply
      field is present takes the field (the first genre for Genre), or NaN when the field
      is "N/A".
    */
    method FillCell(column: string, data: map<string, string>)
      requires column in Targets && column in cells
      modifies this
      ensures cells == old(cells)[column := MergedCell(column, old(cells)[column], data)]
    {
      var key := ReplyKey(column);
      if cells[column].None? && key in data {
        if data[key] != "N/A" {
          cells := cells[column := Some(if column == "Genre" then FirstGenre(data[key]) else data[key])];
        } else {
          cells := cells[column := None];
        }
      } else {
        assert cells[column := cells[column]] == cells;
      }
    }

    /** fill_omdb(row, columns_to_fill), with the service's reply to the title lookup given. */
    method FillOmdb(columns: seq<string>, reply: Reply) returns (outcome: Outcome)
      modifies this
      ensures (outcome, cells) == Enrich(old(cells), columns, reply)
    {
      var absent := MissingLabels(cells, columns);
      if absent != [] {
        return KeyError(absent);
      }
      if !AnyMissing(cells, columns) {
        return Returned;
      }
      if "Title" !in cells {
        return KeyError(["Title"]);
      }
      if reply.status == 200 {
        if reply.body.None? {
          return DecodeError;
        }
        var data := reply.body.value;
        if Found(data) {
          ghost var before := cells;
          assert Enrich(old(cells), columns, reply) == Merge(before, data);
          MergeInSteps(before, data);
          if "IMDB_Rating" !in cells {
            return KeyError(["IMDB_Rating"]);
          }
          FillCell("IMDB_Rating", data);
          if "Revenue" !in cells {
            return KeyError(["Revenue"]);
          }
          FillCell("Revenue", data);
          if "Genre" !in cells {
            return KeyError(["Genre"]);
          }
          FillCell("Genre", data);
        }
      }
      return Returned;
    }
  }
}
