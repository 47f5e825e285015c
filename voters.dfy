/**
 * The `Voter` record of the voter-analytics app, its text form, and the
 * translation of one line of the voter CSV file into a `Voter`.
 */
module Voters {
  import opened Wrappers
  import opened Text
  import opened Dates

  /** The five historical elections a voter may have taken part in. */
  datatype Election = V20State | V21Town | V21Primary | V22General | V23Town

  /** The name of an election as it appears in a request's `elections` list. */
  function ElectionName(e: Election): string
  {
    match e
    case V20State => "v20state"
    case V21Town => "v21town"
    case V21Primary => "v21primary"
    case V22General => "v22general"
    case V23Town => "v23town"
  }

  /** A registered voter. */
  datatype Voter = Voter(
    lastName: string,
    firstName: string,
    streetNumber: string,
    streetName: string,
    apartment: Option<string>,
    zipCode: string,
    birthDate: Date,
    registrationDate: Date,
    party: string,
    precinct: string,
    v20state: bool,
    v21town: bool,
    v21primary: bool,
    v22general: bool,
    v23town: bool,
    score: int)
  {
    /** Whether this voter's participation flag for `e` is set. */
    predicate Voted(e: Election)
    {
      match e
      case V20State => v20state
      case V21Town => v21town
      case V21Primary => v21primary
      case V22General => v22general
      case V23Town => v23town
    }

    /** `Voter.__str__`: `first last (party, YYYY-MM-DD), zip`. */
    function ToString(): (r: string)
      ensures |r| == |firstName| + |lastName| + |party| + |DateToString(birthDate)| + |zipCode| + 8
      ensures r[..|firstName|] == firstName
      ensures r[|r| - |zipCode|..] == zipCode
    {
      firstName + " " + lastName + " (" + party + ", " + DateToString(birthDate) + "), " + zipCode
    }

    /** Where the birth date starts in `ToString()`. */
    function BirthDateOffset(): nat
    {
      |firstName| + |lastName| + |party| + 5
    }
  }

  /** A voter's text form holds each field at its own offset, between the fixed separators. */
  lemma ToStringLayout(v: Voter)
    ensures var r, f, l, p, d := v.ToString(), |v.firstName|, |v.lastName|, |v.party|, DateToString(v.birthDate);
      && r[..f] == v.firstName
      && r[f..f + 1] == " "
      && r[f + 1..f + 1 + l] == v.lastName
      && r[f + 1 + l..f + 3 + l] == " ("
      && r[f + 3 + l..f + 3 + l + p] == v.party
      && r[f + 3 + l + p..f + 5 + l + p] == ", "
      && r[f + 5 + l + p..f + 5 + l + p + |d|] == d
      && r[f + 5 + l + p + |d|..f + 8 + l + p + |d|] == "), "
      && r[f + 8 + l + p + |d|..] == v.zipCode
  {
    LabelLayout(v.firstName, v.lastName, v.party, DateToString(v.birthDate), v.zipCode);
  }

  /** The layout of `ToString()` for any five pieces. */
  lemma LabelLayout(first: string, last: string, party: string, d: string, zip: string)
    ensures var r, f, l, p := first + " " + last + " (" + party + ", " + d + "), " + zip, |first|, |last|, |party|;
      && r[..f] == first
      && r[f..f + 1] == " "
      && r[f + 1..f + 1 + l] == last
      && r[f + 1 + l..f + 3 + l] == " ("
      && r[f + 3 + l..f + 3 + l + p] == party
      && r[f + 3 + l + p..f + 5 + l + p] == ", "
      && r[f + 5 + l + p..f + 5 + l + p + |d|] == d
      && r[f + 5 + l + p + |d|..f + 8 + l + p + |d|] == "), "
      && r[f + 8 + l + p + |d|..] == zip
  {
    var p1 := first + " ";
    var p2 := p1 + last;
    var p3 := p2 + " (";
    var p4 := p3 + party;
    var p5 := p4 + ", ";
    var p6 := p5 + d;
    var p7 := p6 + "), ";
    var r := p7 + zip;
    assert r[..|p7|] == p7;
    assert r[..|p6|] == p6 by { assert p7[..|p6|] == p6; }
    assert r[..|p5|] == p5 by { assert p6[..|p5|] == p5; }
    assert r[..|p4|] == p4 by { assert p5[..|p4|] == p4; }
    assert r[..|p3|] == p3 by { assert p4[..|p3|] == p3; }
    assert r[..|p2|] == p2 by { assert p3[..|p2|] == p2; }
    assert r[..|p1|] == p1 by { assert p2[..|p1|] == p1; }
    assert r[..|first|] == first by { assert p1[..|first|] == first; }
    assert r[|first|..|p1|] == " " by { assert r[..|p1|][|first|..] == " "; }
    assert r[|p1|..|p2|] == last by { assert r[..|p2|][|p1|..] == last; }
    assert r[|p2|..|p3|] == " (" by { assert r[..|p3|][|p2|..] == " ("; }
    assert r[|p3|..|p4|] == party by { assert r[..|p4|][|p3|..] == party; }
    assert r[|p4|..|p5|] == ", " by { assert r[..|p5|][|p4|..] == ", "; }
    assert r[|p5|..|p6|] == d by { assert r[..|p6|][|p5|..] == d; }
    assert r[|p6|..|p7|] == "), " by { assert r[..|p7|][|p6|..] == "), "; }
  }

  /** The birth date in a voter's text form is one the loader's date parser reads back. */
  lemma ToStringShowsBirthDate(v: Voter)
    requires ValidDate(v.birthDate)
    ensures var r, k := v.ToString(), v.BirthDateOffset();
      k + 10 <= |r| && ParseDate(r[k..k + 10]) == Some(v.birthDate)
  {
    ShowNatLength(v.birthDate.year);
    ShowNatLength(v.birthDate.month);
    ShowNatLength(v.birthDate.day);
    PadFacts(v.birthDate.year, 4);
    PadFacts(v.birthDate.month, 2);
    PadFacts(v.birthDate.day, 2);
    var d := DateToString(v.birthDate);
    var r, k := v.ToString(), v.BirthDateOffset();
    assert r == (v.firstName + " " + v.lastName + " (" + v.party + ", ") + d + ("), " + v.zipCode);
    assert r[k..k + 10] == d;
    ParseDateToString(v.birthDate);
  }

  /** `field.upper() == 'Y'`: true for `Y` and `y`, false for anything else. */
  function FlagOf(field: string): (b: bool)
    ensures b <==> field == "Y" || field == "y"
  {
    UpperIsY(field);
    Upper(field) == "Y"
  }

  /** `field or None`: an empty field is no apartment; any other is kept as it is. */
  function ApartmentOf(field: string): (a: Option<string>)
    ensures a.None? <==> field == ""
    ensures a.Some? ==> a.value == field
  {
    if field == "" then None else Some(field)
  }

  /**
   * The `Voter(...)` call of the loader on the comma-separated fields of one
   * line: column 0 is ignored, columns 1 through 16 are the voter's fields in
   * declaration order, later columns are ignored. `None` is any exception the
   * call raises: too few columns, a date `strptime` refuses, a score `int`
   * refuses.
   */
  function VoterOfFields(fields: seq<string>): (r: Option<Voter>)
    ensures r.Some? <==>
      && |fields| >= 17
      && ParseDate(fields[7]).Some? && ParseDate(fields[8]).Some?
      && ParseInt(fields[16]).Some?
    ensures r.Some? ==>
      var v := r.value;
      && v.lastName == fields[1] && v.firstName == fields[2]
      && v.streetNumber == fields[3] && v.streetName == fields[4]
      && (v.apartment.None? <==> fields[5] == "")
      && (v.apartment.Some? ==> v.apartment.value == fields[5])
      && v.zipCode == fields[6]
      && Some(v.birthDate) == ParseDate(fields[7])
      && Some(v.registrationDate) == ParseDate(fields[8])
      && v.party == fields[9] && v.precinct == fields[10]
      && (v.v20state <==> fields[11] == "Y" || fields[11] == "y")
      && (v.v21town <==> fields[12] == "Y" || fields[12] == "y")
      && (v.v21primary <==> fields[13] == "Y" || fields[13] == "y")
      && (v.v22general <==> fields[14] == "Y" || fields[14] == "y")
      && (v.v23town <==> fields[15] == "Y" || fields[15] == "y")
      && Some(v.score) == ParseInt(fields[16])
  {
    if |fields| < 17 then None
    else
      var birth := ParseDate(fields[7]);
      var registration := ParseDate(fields[8]);
      var score := ParseInt(fields[16]);
      if birth.None? || registration.None? || score.None? then None
      else
        Some(Voter(
          lastName := fields[1],
          firstName := fields[2],
          streetNumber := fields[3],
          streetName := fields[4],
          apartment := ApartmentOf(fields[5]),
          zipCode := fields[6],
          birthDate := birth.value,
          registrationDate := registration.value,
          party := fields[9],
          precinct := fields[10],
          v20state := FlagOf(fields[11]),
          v21town := FlagOf(fields[12]),
          v21primary := FlagOf(fields[13]),
          v22general := FlagOf(fields[14]),
          v23town := FlagOf(fields[15]),
          score := score.value))
  }

  /** The fields of one line of the file: `line.strip().split(',')`. */
  function Fields(line: string): (fields: seq<string>)
    ensures |fields| >= 1
    ensures forall i :: 0 <= i < |fields| ==> ',' !in fields[i]
    ensures Join(fields, ',') == Strip(line)
  {
    JoinSplit(Strip(line), ',');
    Split(Strip(line), ',')
  }

  /**
   * One line of the voter file as a voter, or `None` when the loader skips
   * it: too few columns, or a date or the score that does not parse.
   */
  function ParseRow(line: string): (r: Option<Voter>)
    ensures var f := Fields(line);
      r.Some? <==>
        && |f| >= 17
        && ParseDate(f[7]).Some? && ParseDate(f[8]).Some?
        && ParseInt(f[16]).Some?
    ensures var f := Fields(line);
      r.Some? ==>
        && r.value.lastName == f[1] && r.value.firstName == f[2]
        && r.value.zipCode == f[6] && r.value.party == f[9]
        && Some(r.value.birthDate) == ParseDate(f[7])
        && Some(r.value.registrationDate) == ParseDate(f[8])
        && Some(r.value.score) == ParseInt(f[16])
  {
    VoterOfFields(Fields(line))
  }

  /** Columns after the seventeenth never change the voter a row gives. */
  lemma ExtraFieldsIgnored(fields: seq<string>, extra: seq<string>)
    requires |fields| >= 17
    ensures VoterOfFields(fields + extra) == VoterOfFields(fields)
  {
    var all := fields + extra;
    assert all[..17] == fields[..17];
    assert forall i :: 0 <= i < 17 ==> all[i] == fields[i];
  }

  /** Appending `,extra` to a stripped line of at least seventeen fields gives the same voter. */
  lemma ParseRowExtraColumns(line: string, extra: string)
    requires Strip(line) == line
    requires |Fields(line)| >= 17
    ensures ParseRow(line + [','] + extra) == ParseRow(line)
  {
    assert line != [] by {
      if line == [] {
        StripNoop([]);
        SplitNoSeparator([], ',');
      }
    }
    var e := StripRight(extra, IsSpace);
    StripExtraColumns(line, extra);
    SplitAppend(line, e, ',');
    ExtraFieldsIgnored(Fields(line), Split(e, ','));
  }

  /** `strip()` of a stripped line followed by `,extra` trims only the end of `extra`. */
  lemma StripExtraColumns(line: string, extra: string)
    requires line != [] && Strip(line) == line
    ensures Strip(line + [','] + extra) == line + [','] + StripRight(extra, IsSpace)
  {
    var t := line + [','] + extra;
    var e := StripRight(extra, IsSpace);
    var post := extra[|e|..];
    var rest := line + [','] + e;
    assert !IsSpace(line[0]) by {
      assert Strip(line)[0] == line[0];
    }
    assert t[0] == line[0];
    assert StripLeft(t, IsSpace) == t;
    assert extra == e + post;
    assert t == rest + post;
    assert rest[|rest| - 1] == if e == [] then ',' else e[|e| - 1];
    StripRightSkips(rest, post, IsSpace);
  }

  /** A row whose text is its fields joined by commas is read field by field. */
  lemma ParseJoinedRow(fields: seq<string>)
    requires |fields| >= 1
    requires forall i :: 0 <= i < |fields| ==> ',' !in fields[i]
    requires Strip(Join(fields, ',')) == Join(fields, ',')
    ensures ParseRow(Join(fields, ',')) == VoterOfFields(fields)
  {
    SplitJoin(fields, ',');
  }

  /** The text of a participation flag in the file. */
  function FlagText(b: bool): string
  {
    if b then "Y" else "N"
  }

  /** No text field of `v` holds a comma, and an apartment, when present, is not empty. */
  predicate CommaFree(v: Voter)
  {
    && ',' !in v.lastName && ',' !in v.firstName
    && ',' !in v.streetNumber && ',' !in v.streetName
    && (v.apartment.Some? ==> v.apartment.value != "" && ',' !in v.apartment.value)
    && ',' !in v.zipCode && ',' !in v.party && ',' !in v.precinct
  }

  /** A voter that has a CSV row: comma-free fields and real dates. */
  predicate Writable(v: Voter)
  {
    CommaFree(v) && ValidDate(v.birthDate) && ValidDate(v.registrationDate)
  }

  /** The text of the apartment column: empty when there is none. */
  function ApartmentText(a: Option<string>): string
  {
    if a.Some? then a.value else ""
  }

  /**
   * `fields` are the columns of the voter file for `v`: any comma-free text
   * not starting with whitespace in column 0, then the voter's fields, with the
   * apartment empty when there is none, dates as `YYYY-MM-DD`, flags as `Y`
   * or `N` and the score in decimal.
   */
  predicate IsRowOf(fields: seq<string>, v: Voter)
  {
    && |fields| == 17
    && |fields[0]| > 0 && !IsSpace(fields[0][0]) && ',' !in fields[0]
    && fields[1] == v.lastName && fields[2] == v.firstName
    && fields[3] == v.streetNumber && fields[4] == v.streetName
    && fields[5] == ApartmentText(v.apartment) && fields[6] == v.zipCode
    && fields[7] == DateToString(v.birthDate) && fields[8] == DateToString(v.registrationDate)
    && fields[9] == v.party && fields[10] == v.precinct
    && fields[11] == FlagText(v.v20state) && fields[12] == FlagText(v.v21town)
    && fields[13] == FlagText(v.v21primary) && fields[14] == FlagText(v.v22general)
    && fields[15] == FlagText(v.v23town)
    && fields[16] == ShowInt(v.score)
  }

  /** The loader inverts the file's row format: every writable voter is read back unchanged from its row. */
  lemma ParseRowOfRow(fields: seq<string>, v: Voter)
    requires Writable(v) && IsRowOf(fields, v)
    ensures ParseRow(Join(fields, ',')) == Some(v)
  {
    RowFieldsHaveNoComma(fields, v);
    RowIsStripped(fields, v);
    ParseJoinedRow(fields);
    VoterOfRowFields(fields, v);
  }

  lemma RowFieldsHaveNoComma(fields: seq<string>, v: Voter)
    requires CommaFree(v) && IsRowOf(fields, v)
    ensures forall i :: 0 <= i < 17 ==> ',' !in fields[i]
  {
    DateHasNoComma(v.birthDate);
    DateHasNoComma(v.registrationDate);
    IntHasNoComma(v.score);
  }

  lemma RowIsStripped(fields: seq<string>, v: Voter)
    requires IsRowOf(fields, v)
    ensures Strip(Join(fields, ',')) == Join(fields, ',')
  {
    var m: nat := if v.score < 0 then -v.score else v.score;
    var last := ShowInt(v.score);
    assert last[|last| - 1] == ShowNat(m)[|ShowNat(m)| - 1];
    JoinEnds(fields, ',');
    StripNoop(Join(fields, ','));
  }

  lemma VoterOfRowFields(fields: seq<string>, v: Voter)
    requires Writable(v) && IsRowOf(fields, v)
    ensures VoterOfFields(fields) == Some(v)
  {
    ParseDateToString(v.birthDate);
    ParseDateToString(v.registrationDate);
    ParseShowInt(v.score);
  }

  lemma DateHasNoComma(d: Date)
    ensures ',' !in DateToString(d)
  {
    var y, m, dd := Pad(d.year, 4), Pad(d.month, 2), Pad(d.day, 2);
    assert AllDigits(y) && AllDigits(m) && AllDigits(dd);
    assert DateToString(d) == y + "-" + m + "-" + dd;
  }

  lemma IntHasNoComma(n: int)
    ensures ',' !in ShowInt(n)
  {
    var d := ShowNat(if n < 0 then -n else n);
    assert forall i :: 0 <= i < |d| ==> IsDigit(d[i]);
  }
}
