/**
 * `load_data`: reading the voter CSV file into the `Voter` table. The file is
 * its sequence of lines; the table is an object whose row list grows as
 * voters are saved.
 */
module VoterLoader {
  import opened Wrappers
  import opened Seqs
  import opened Voters

  /** The database table of voters (`Voter.objects`). */
  class VoterTable {
    var rows: seq<Voter>

    constructor ()
      ensures rows == []
    {
      rows := [];
    }

    /** `voter.save()` of a new voter: one more row, at the end. */
    method Save(v: Voter)
      modifies this
      ensures rows == old(rows) + [v]
    {
      rows := rows + [v];
    }
  }

  /** What happens to each row: the voter it gives, or `None` when it is skipped. */
  function Outcomes(lines: seq<string>): (r: seq<Option<Voter>>)
    ensures |r| == |lines|
    ensures forall i :: 0 <= i < |lines| ==> r[i] == ParseRow(lines[i])
  {
    seq(|lines|, i requires 0 <= i < |lines| => ParseRow(lines[i]))
  }

  /** Whether the loader saves a voter for `line`. */
  predicate IsVoterRow(line: string)
  {
    ParseRow(line).Some?
  }

  /** The voters the rows `lines` give, in order, skipping every row that does not parse. */
  function LoadedVoters(lines: seq<string>): seq<Voter>
  {
    Present(Outcomes(lines))
  }

  /** The lines after the header line (`f.readline()` consumes the first one). */
  function DataLines(lines: seq<string>): (r: seq<string>)
    ensures |lines| > 0 ==> r == lines[1..] && |r| == |lines| - 1
    ensures |lines| == 0 ==> r == []
  {
    if lines == [] then [] else lines[1..]
  }

  lemma OutcomesAppend(a: seq<string>, b: seq<string>)
    ensures Outcomes(a + b) == Outcomes(a) + Outcomes(b)
  {
  }

  /** Rows are loaded independently: the voters of two stretches of the file are those of each, in order. */
  lemma LoadedVotersAppend(a: seq<string>, b: seq<string>)
    ensures LoadedVoters(a + b) == LoadedVoters(a) + LoadedVoters(b)
  {
    OutcomesAppend(a, b);
    PresentAppend(Outcomes(a), Outcomes(b));
  }

  /** Loading one more row appends the voter it gives, if any. */
  lemma LoadedVotersSnoc(a: seq<string>, line: string)
    ensures LoadedVoters(a + [line])
         == LoadedVoters(a) + (if ParseRow(line).Some? then [ParseRow(line).value] else [])
  {
    LoadedVotersAppend(a, [line]);
    var o := ParseRow(line);
    assert Outcomes([line]) == [o];
    assert Present([o]) == if o.Some? then [o.value] else [] by {
      assert [o][1..] == [];
    }
  }

  /** A row that does not parse is skipped and changes nothing for the rows before or after it. */
  lemma SkippedRowIsolated(before: seq<string>, bad: string, after: seq<string>)
    requires ParseRow(bad).None?
    ensures LoadedVoters(before + [bad] + after) == LoadedVoters(before) + LoadedVoters(after)
  {
    LoadedVotersAppend(before + [bad], after);
    LoadedVotersAppend(before, [bad]);
    var skipped: seq<Option<Voter>> := [None];
    assert Outcomes([bad]) == skipped;
    assert Present(skipped) == [] by {
      assert skipped[1..] == [];
    }
  }

  /** One voter is saved per row that parses, and none for the others. */
  lemma {:induction false} LoadedVotersCount(lines: seq<string>)
    ensures |LoadedVoters(lines)| == |Filter(lines, IsVoterRow)|
  {
    if lines != [] {
      LoadedVotersCount(lines[1..]);
      LoadedVotersFirst(lines);
    }
  }

  /** The first row contributes one voter when it parses and none otherwise. */
  lemma LoadedVotersFirst(lines: seq<string>)
    requires lines != []
    ensures |LoadedVoters(lines)| == (if IsVoterRow(lines[0]) then 1 else 0) + |LoadedVoters(lines[1..])|
  {
    var line, rest := lines[0], lines[1..];
    assert lines == [line] + rest;
    LoadedVotersAppend([line], rest);
    LoadedVotersSnoc([], line);
    assert [] + [line] == [line];
  }

  /** When every row parses, the table gains exactly one voter per row, row `i` giving voter `i`. */
  lemma AllRowsLoaded(lines: seq<string>)
    requires forall i :: 0 <= i < |lines| ==> ParseRow(lines[i]).Some?
    ensures |LoadedVoters(lines)| == |lines|
    ensures forall i :: 0 <= i < |lines| ==> LoadedVoters(lines)[i] == ParseRow(lines[i]).value
  {
    PresentAll(Outcomes(lines));
  }

  /**
   * `load_data()`: skip the header line, then for each later line in order
   * save the voter it parses to, or skip it (the exception handler). The
   * reported count is that of the whole table afterwards, earlier rows
   * included.
   */
  method LoadData(table: VoterTable, lines: seq<string>) returns (reported: nat)
    modifies table
    ensures table.rows == old(table.rows) + LoadedVoters(DataLines(lines))
    ensures reported == |table.rows| == |old(table.rows)| + |Filter(DataLines(lines), IsVoterRow)|
  {
    var body := DataLines(lines);
    assert LoadedVoters(body[..0]) == [] by {
      assert Outcomes(body[..0]) == [];
    }
    for k := 0 to |body|
      invariant table.rows == old(table.rows) + LoadedVoters(body[..k])
    {
      var voter := ParseRow(body[k]);
      LoadedVotersSnoc(body[..k], body[k]);
      assert body[..k + 1] == body[..k] + [body[k]];
      if voter.Some? {
        table.Save(voter.value);
      }
    }
    assert body[..|body|] == body;
    LoadedVotersCount(body);
    reported := |table.rows|;
  }
}
