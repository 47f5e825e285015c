/**
 * The voter list view: the filter a request's query string selects, the
 * order the list is shown in, and the year and score menus of the list and
 * search pages.
 */
module VoterViews {
  import opened Wrappers
  import opened Seqs
  import opened Text
  import opened Dates
  import opened Voters

  /**
   * The query string of a request: `GET.get(name)` for each single-valued
   * parameter (`None` when it is absent) and `GET.getlist('elections')`.
   */
  datatype Request = Request(
    party: Option<string>,
    minYear: Option<string>,
    maxYear: Option<string>,
    minScore: Option<string>,
    elections: seq<string>)

  /** A parameter Python's `if` treats as true: present and not empty. */
  predicate Given(p: Option<string>)
  {
    p.Some? && p.value != ""
  }

  /** The `ValueError` raised when an integer lookup gets text `int()` refuses. */
  datatype ParamError = NotAnInteger(parameter: string, text: string)

  /** A parameter that is given but is not an integer. */
  predicate Malformed(p: Option<string>)
  {
    Given(p) && ParseInt(p.value).None?
  }

  /** The filter a request asks for: each criterion, if any, with its bound as a number. */
  datatype Criteria = Criteria(
    party: Option<string>,
    minYear: Option<int>,
    maxYear: Option<int>,
    minScore: Option<int>,
    elections: set<Election>)

  /** No criterion at all. */
  const Unfiltered := Criteria(None, None, None, None, {})

  const AllElections: seq<Election> := [V20State, V21Town, V21Primary, V22General, V23Town]

  /** The elections, of the five, that `names` names; other names are ignored. */
  function NamedElections(names: seq<string>): (r: set<Election>)
    ensures forall e :: e in r <==> ElectionName(e) in names
  {
    set e | e in AllElections && ElectionName(e) in names
  }

  /** An integer parameter: no bound when it is not given, an error when it is given but not an integer. */
  function IntegerParameter(name: string, p: Option<string>): Result<Option<int>, ParamError>
  {
    if !Given(p) then Success(None)
    else if ParseInt(p.value).None? then Failure(NotAnInteger(name, p.value))
    else Success(Some(ParseInt(p.value).value))
  }

  /**
   * The criteria a request selects. A bound that is given must be an integer;
   * the first of `min_year`, `max_year`, `min_score` that is not is reported.
   */
  function ReadCriteria(req: Request): (r: Result<Criteria, ParamError>)
    ensures r.Failure? <==> Malformed(req.minYear) || Malformed(req.maxYear) || Malformed(req.minScore)
    ensures r.Failure? ==>
      r.error == if Malformed(req.minYear) then NotAnInteger("min_year", req.minYear.value)
                 else if Malformed(req.maxYear) then NotAnInteger("max_year", req.maxYear.value)
                 else NotAnInteger("min_score", req.minScore.value)
  {
    var minYear := IntegerParameter("min_year", req.minYear);
    var maxYear := IntegerParameter("max_year", req.maxYear);
    var minScore := IntegerParameter("min_score", req.minScore);
    if minYear.Failure? then Failure(minYear.error)
    else if maxYear.Failure? then Failure(maxYear.error)
    else if minScore.Failure? then Failure(minScore.error)
    else
      Success(Criteria(
        party := if Given(req.party) then Some(req.party.value) else None,
        minYear := minYear.value,
        maxYear := maxYear.value,
        minScore := minScore.value,
        elections := if |req.elections| > 0 then NamedElections(req.elections) else {}))
  }

  /** The criteria read field by field are those of the request. */
  lemma CriteriaRead(req: Request, c: Criteria)
    requires c.party == if Given(req.party) then Some(req.party.value) else None
    requires IntegerParameter("min_year", req.minYear) == Success(c.minYear)
    requires IntegerParameter("max_year", req.maxYear) == Success(c.maxYear)
    requires IntegerParameter("min_score", req.minScore) == Success(c.minScore)
    requires c.elections == if |req.elections| > 0 then NamedElections(req.elections) else {}
    ensures ReadCriteria(req) == Success(c)
  {
  }

  /**
   * The voter satisfies every criterion: the party exactly, the birth year
   * within the inclusive bounds, the score at least the minimum, and at least
   * one of the named elections when some are named.
   */
  predicate Matches(v: Voter, c: Criteria)
  {
    && (c.party.Some? ==> v.party == c.party.value)
    && (c.minYear.Some? ==> c.minYear.value <= v.birthDate.year)
    && (c.maxYear.Some? ==> v.birthDate.year <= c.maxYear.value)
    && (c.minScore.Some? ==> c.minScore.value <= v.score)
    && (c.elections != {} ==> exists e :: e in c.elections && v.Voted(e))
  }

  function Selector(c: Criteria): Voter -> bool
  {
    v => Matches(v, c)
  }

  /** The voters, in table order, that satisfy the criteria. */
  function Select(voters: seq<Voter>, c: Criteria): seq<Voter>
  {
    Filter(voters, Selector(c))
  }

  /** Exactly the voters that satisfy the criteria are selected. */
  lemma SelectMembers(voters: seq<Voter>, c: Criteria)
    ensures forall v :: v in Select(voters, c) <==> v in voters && Matches(v, c)
  {
  }

  /** A `Q` object over election flags: the disjunction of its flags, and `Q()`, with none, matches everyone. */
  predicate AnyOf(q: seq<Election>, v: Voter)
  {
    q == [] || exists i :: 0 <= i < |q| && v.Voted(q[i])
  }

  /** `order_by('last_name', 'first_name')`: by last name, then by first name. */
  predicate NameLe(a: Voter, b: Voter)
  {
    if a.lastName == b.lastName then StrLe(a.firstName, b.firstName) else StrLe(a.lastName, b.lastName)
  }

  /** The name order is a total preorder, so sorting by it puts the list in order. */
  lemma NameOrder()
    ensures Total(NameLe) && Transitive(NameLe)
  {
    forall a: Voter, b: Voter
      ensures NameLe(a, b) || NameLe(b, a)
    {
      StrLeTotal(a.lastName, b.lastName);
      StrLeTotal(a.firstName, b.firstName);
    }
    forall a: Voter, b: Voter, c: Voter | NameLe(a, b) && NameLe(b, c)
      ensures NameLe(a, c)
    {
      if a.lastName == b.lastName && b.lastName == c.lastName {
        StrLeTransitive(a.firstName, b.firstName, c.firstName);
      } else if a.lastName != b.lastName && b.lastName != c.lastName {
        StrLeTransitive(a.lastName, b.lastName, c.lastName);
        if a.lastName == c.lastName {
          StrLeAntisymmetric(a.lastName, b.lastName);
        }
      }
    }
  }

  /**
   * The list page shows exactly the voters the criteria select, each as
   * often as in the table, in name order.
   */
  ghost predicate Listing(r: seq<Voter>, voters: seq<Voter>, c: Criteria)
  {
    && Sorted(r, NameLe)
    && multiset(r) == multiset(Select(voters, c))
    && (forall v :: v in r <==> v in voters && Matches(v, c))
  }

  /** `order_by('last_name', 'first_name')` on the selection lists it. */
  lemma OrderByName(voters: seq<Voter>, c: Criteria)
    ensures Listing(SortBy(Select(voters, c), NameLe), voters, c)
  {
    var qs := Select(voters, c);
    NameOrder();
    SortBySorted(qs, NameLe);
    SelectMembers(voters, c);
    SortByMembers(qs, NameLe);
  }

  /** Narrowing by one more criterion, as a `qs.filter(...)` step does. */
  lemma Narrow(voters: seq<Voter>, c: Criteria, p: Voter -> bool, c': Criteria)
    requires forall v :: Matches(v, c') == (Matches(v, c) && p(v))
    ensures Filter(Select(voters, c), p) == Select(voters, c')
  {
    FilterThen(voters, Selector(c), p, Selector(c'));
  }

  /** `filter(party=party)` */
  function PartyIs(party: string): Voter -> bool
  {
    (v: Voter) => v.party == party
  }

  /** `filter(dob__year__gte=min_year)` */
  function BornFrom(year: int): Voter -> bool
  {
    (v: Voter) => year <= v.birthDate.year
  }

  /** `filter(dob__year__lte=max_year)` */
  function BornUntil(year: int): Voter -> bool
  {
    (v: Voter) => v.birthDate.year <= year
  }

  /** `filter(voter_score__gte=min_score)` */
  function ScoreFrom(score: int): Voter -> bool
  {
    (v: Voter) => score <= v.score
  }

  /** `filter(q)` for the `Q` object over the elections in `q`. */
  function VotedInAny(q: seq<Election>): Voter -> bool
  {
    v => AnyOf(q, v)
  }

  lemma NarrowParty(voters: seq<Voter>, c: Criteria, party: string)
    requires c.party.None?
    ensures Filter(Select(voters, c), PartyIs(party)) == Select(voters, c.(party := Some(party)))
  {
    Narrow(voters, c, PartyIs(party), c.(party := Some(party)));
  }

  lemma NarrowBornFrom(voters: seq<Voter>, c: Criteria, year: int)
    requires c.minYear.None?
    ensures Filter(Select(voters, c), BornFrom(year)) == Select(voters, c.(minYear := Some(year)))
  {
    Narrow(voters, c, BornFrom(year), c.(minYear := Some(year)));
  }

  lemma NarrowBornUntil(voters: seq<Voter>, c: Criteria, year: int)
    requires c.maxYear.None?
    ensures Filter(Select(voters, c), BornUntil(year)) == Select(voters, c.(maxYear := Some(year)))
  {
    Narrow(voters, c, BornUntil(year), c.(maxYear := Some(year)));
  }

  lemma NarrowScoreFrom(voters: seq<Voter>, c: Criteria, score: int)
    requires c.minScore.None?
    ensures Filter(Select(voters, c), ScoreFrom(score)) == Select(voters, c.(minScore := Some(score)))
  {
    Narrow(voters, c, ScoreFrom(score), c.(minScore := Some(score)));
  }

  /** The `Q` object built from the elections named is the criterion on those elections. */
  lemma NarrowElections(voters: seq<Voter>, c: Criteria, q: seq<Election>, named: set<Election>)
    requires c.elections == {}
    requires forall e :: e in q <==> e in named
    ensures Filter(Select(voters, c), VotedInAny(q)) == Select(voters, c.(elections := named))
  {
    forall v: Voter
      ensures AnyOf(q, v) <==> (named == {} || exists e :: e in named && v.Voted(e))
    {
      if e :| e in named && v.Voted(e) {
        var i :| 0 <= i < |q| && q[i] == e;
      }
      if q != [] {
        assert q[0] in named;
      }
    }
    Narrow(voters, c, VotedInAny(q), c.(elections := named));
  }

  /**
   * The elections whose names the request lists, each checked by name in
   * turn, as the view builds its `Q` object.
   */
  method ElectionFilters(names: seq<string>) returns (q: seq<Election>)
    ensures forall e :: e in q <==> e in NamedElections(names)
  {
    q := [];
    if "v20state" in names {
      q := q + [V20State];
    }
    if "v21town" in names {
      q := q + [V21Town];
    }
    if "v21primary" in names {
      q := q + [V21Primary];
    }
    if "v22general" in names {
      q := q + [V22General];
    }
    if "v23town" in names {
      q := q + [V23Town];
    }
  }

  /**
   * The filtering part of `VotersListView.get_queryset`: start from every
   * voter and narrow by each parameter that is given. The result is the
   * voters the request's criteria select, in table order; a bound that is
   * not an integer raises instead.
   */
  method ApplyFilters(voters: seq<Voter>, req: Request) returns (r: Result<seq<Voter>, ParamError>)
    ensures ReadCriteria(req).Failure? ==> r == Failure(ReadCriteria(req).error)
    ensures ReadCriteria(req).Success? ==> r == Success(Select(voters, ReadCriteria(req).value))
  {
    var qs := voters;
    ghost var applied := Unfiltered;
    FilterKeepsAll(voters, Selector(Unfiltered));

    if Given(req.party) {
      var party := req.party.value;
      NarrowParty(voters, applied, party);
      qs, applied := Filter(qs, PartyIs(party)), applied.(party := Some(party));
    }
    assert qs == Select(voters, applied);
    assert applied == Unfiltered.(party := if Given(req.party) then Some(req.party.value) else None);

    if Given(req.minYear) {
      var year := ParseInt(req.minYear.value);
      if year.None? {
        return Failure(NotAnInteger("min_year", req.minYear.value));
      }
      NarrowBornFrom(voters, applied, year.value);
      qs, applied := Filter(qs, BornFrom(year.value)), applied.(minYear := Some(year.value));
    }
    assert qs == Select(voters, applied);
    assert IntegerParameter("min_year", req.minYear) == Success(applied.minYear);

    if Given(req.maxYear) {
      var year := ParseInt(req.maxYear.value);
      if year.None? {
        return Failure(NotAnInteger("max_year", req.maxYear.value));
      }
      NarrowBornUntil(voters, applied, year.value);
      qs, applied := Filter(qs, BornUntil(year.value)), applied.(maxYear := Some(year.value));
    }
    assert qs == Select(voters, applied);
    assert IntegerParameter("max_year", req.maxYear) == Success(applied.maxYear);

    if Given(req.minScore) {
      var score := ParseInt(req.minScore.value);
      if score.None? {
        return Failure(NotAnInteger("min_score", req.minScore.value));
      }
      NarrowScoreFrom(voters, applied, score.value);
      qs, applied := Filter(qs, ScoreFrom(score.value)), applied.(minScore := Some(score.value));
    }
    assert qs == Select(voters, applied);
    assert IntegerParameter("min_score", req.minScore) == Success(applied.minScore);

    var electionFilters := ElectionFilters(req.elections);
    if |req.elections| > 0 {
      NarrowElections(voters, applied, electionFilters, NamedElections(req.elections));
      qs, applied := Filter(qs, VotedInAny(electionFilters)), applied.(elections := NamedElections(req.elections));
    }
    assert qs == Select(voters, applied);
    CriteriaRead(req, applied);
    r := Success(qs);
  }

  /**
   * `VotersListView.get_queryset`: the filtered voters ordered by name. The
   * result lists exactly the voters the request's criteria select, in name
   * order; a bound that is not an integer raises instead.
   */
  method GetQueryset(voters: seq<Voter>, req: Request) returns (r: Result<seq<Voter>, ParamError>)
    ensures ReadCriteria(req).Failure? ==> r == Failure(ReadCriteria(req).error)
    ensures ReadCriteria(req).Success? ==> r.Success?
    ensures r.Success? ==> Listing(r.value, voters, ReadCriteria(req).value)
  {
    var qs := ApplyFilters(voters, req);
    if qs.Failure? {
      return Failure(qs.error);
    }
    OrderByName(voters, ReadCriteria(req).value);
    r := Success(SortBy(qs.value, NameLe));
  }

  /** No voter is listed twice over: each appears as often as in the table, or not at all. */
  lemma SelectCount(voters: seq<Voter>, c: Criteria, v: Voter)
    ensures multiset(Select(voters, c))[v] == if Matches(v, c) then multiset(voters)[v] else 0
  {
    FilterCount(voters, Selector(c), v);
  }

  /**
   * Membership in the list in the request's own terms: the party exactly,
   * both year bounds and the score bound inclusive, and, when the request
   * names known elections, at least one of them voted in.
   */
  lemma SelectedIff(voters: seq<Voter>, req: Request, v: Voter)
    requires ReadCriteria(req).Success?
    ensures v in Select(voters, ReadCriteria(req).value) <==>
      && v in voters
      && (Given(req.party) ==> v.party == req.party.value)
      && (Given(req.minYear) ==> ParseInt(req.minYear.value).value <= v.birthDate.year)
      && (Given(req.maxYear) ==> v.birthDate.year <= ParseInt(req.maxYear.value).value)
      && (Given(req.minScore) ==> ParseInt(req.minScore.value).value <= v.score)
      && (NamedElections(req.elections) != {} ==>
            exists e :: ElectionName(e) in req.elections && v.Voted(e))
  {
    SelectMembers(voters, ReadCriteria(req).value);
  }

  /** A request with no parameter, or only empty ones, lists every voter. */
  lemma NoCriteriaSelectsAll(voters: seq<Voter>, req: Request)
    requires !Given(req.party) && !Given(req.minYear) && !Given(req.maxYear) && !Given(req.minScore)
    requires NamedElections(req.elections) == {}
    ensures ReadCriteria(req) == Success(Unfiltered)
    ensures Select(voters, ReadCriteria(req).value) == voters
  {
    FilterKeepsAll(voters, Selector(Unfiltered));
  }

  /** An election list that names none of the five elections excludes nobody: it is as if there were none. */
  lemma UnknownElectionsIgnored(req: Request)
    requires NamedElections(req.elections) == {}
    ensures ReadCriteria(req) == ReadCriteria(req.(elections := []))
  {
    assert NamedElections([]) == {};
  }

  /** Naming more elections can only add voters: the election criterion is a disjunction. */
  lemma MoreElectionsWiden(voters: seq<Voter>, c: Criteria, more: set<Election>)
    requires c.elections != {}
    ensures multiset(Select(voters, c)) <= multiset(Select(voters, c.(elections := c.elections + more)))
  {
    var c' := c.(elections := c.elections + more);
    forall v | v in voters && Selector(c)(v)
      ensures Selector(c')(v)
    {
      var e :| e in c.elections && v.Voted(e);
      assert e in c'.elections;
    }
    FilterMonotone(voters, Selector(c), Selector(c'));
  }

  /** Giving a party as well can only remove voters: the criteria are a conjunction. */
  lemma PartyNarrows(voters: seq<Voter>, c: Criteria, party: string)
    requires c.party.None?
    ensures multiset(Select(voters, c.(party := Some(party)))) <= multiset(Select(voters, c))
  {
    FilterMonotone(voters, Selector(c.(party := Some(party))), Selector(c));
  }

  /**
   * Voters A (voted in the 2020 state election, party D), B (voted in the
   * 2022 general election, party R) and C (neither, party D): asking for
   * party D and either of those two elections lists A alone.
   */
  lemma ElectionsExample(v: Voter)
    ensures
      var blank := v.(v20state := false, v21town := false, v21primary := false, v22general := false, v23town := false);
      var a := blank.(party := "D", v20state := true);
      var b := blank.(party := "R", v22general := true);
      var c := blank.(party := "D");
      var req := Request(Some("D"), None, None, None, ["v20state", "v22general"]);
      && ReadCriteria(req).Success?
      && Select([a, b, c], ReadCriteria(req).value) == [a]
  {
    var blank := v.(v20state := false, v21town := false, v21primary := false, v22general := false, v23town := false);
    var a := blank.(party := "D", v20state := true);
    var b := blank.(party := "R", v22general := true);
    var c := blank.(party := "D");
    var req := Request(Some("D"), None, None, None, ["v20state", "v22general"]);
    var named := NamedElections(req.elections);
    assert ElectionName(V20State) in req.elections;
    assert ElectionName(V22General) in req.elections;
    assert ElectionName(V21Town) !in req.elections;
    assert ElectionName(V21Primary) !in req.elections;
    assert ElectionName(V23Town) !in req.elections;
    var crit := Criteria(Some("D"), None, None, None, named);
    assert ReadCriteria(req) == Success(crit);
    assert Matches(a, crit) by {
      assert V20State in named && a.Voted(V20State);
    }
    assert !Matches(b, crit);
    assert !Matches(c, crit) by {
      forall e | e in named
        ensures !c.Voted(e)
      {
      }
    }
    var keep := Selector(crit);
    assert Filter([a, b, c], keep) == [a] + Filter([b, c], keep);
    assert Filter([b, c], keep) == Filter([c], keep);
    assert Filter([c], keep) == Filter([], keep);
  }

  /** `range(lo, hi)`: the integers from `lo` up to but excluding `hi`, in increasing order. */
  function Range(lo: int, hi: int): (r: seq<int>)
    ensures |r| == if lo <= hi then hi - lo else 0
    ensures forall i :: 0 <= i < |r| ==> r[i] == lo + i
    decreases hi - lo
  {
    if hi <= lo then [] else [lo] + Range(lo + 1, hi)
  }

  /** The birth-year menu, 1920 to 2020 inclusive. */
  const YearChoices := Range(1920, 2021)

  /** The score menu, 0 to 5 inclusive. */
  const ScoreChoices := Range(0, 6)

  lemma MenuChoices()
    ensures forall y :: y in YearChoices <==> 1920 <= y <= 2020
    ensures forall s :: s in ScoreChoices <==> 0 <= s <= 5
    ensures |YearChoices| == 101 && |ScoreChoices| == 6
  {
    forall y | 1920 <= y <= 2020
      ensures y in YearChoices
    {
      assert YearChoices[y - 1920] == y;
    }
    forall s | 0 <= s <= 5
      ensures s in ScoreChoices
    {
      assert ScoreChoices[s] == s;
    }
  }

  /** A value in a template context: one of the menus, or whatever the framework put there. */
  datatype ContextValue = Choices(values: seq<int>) | FrameworkValue(token: nat)

  /**
   * `VotersListView.get_context_data`: the framework's context with the
   * year and score menus added; every other entry is left as it was.
   */
  method GetContextData(base: map<string, ContextValue>) returns (context: map<string, ContextValue>)
    ensures context.Keys == base.Keys + {"years", "scores"}
    ensures context["years"] == Choices(YearChoices) && context["scores"] == Choices(ScoreChoices)
    ensures forall k :: k in base && k != "years" && k != "scores" ==> context[k] == base[k]
    ensures context["years"] == SearchContext()["years"] && context["scores"] == SearchContext()["scores"]
  {
    context := base;
    context := context["years" := Choices(Range(1920, 2021))];
    context := context["scores" := Choices(Range(0, 6))];
  }

  /** The context of `search_view`: the same two menus and nothing else. */
  function SearchContext(): (r: map<string, ContextValue>)
    ensures r.Keys == {"years", "scores"}
  {
    map["years" := Choices(YearChoices), "scores" := Choices(ScoreChoices)]
  }

  /**
   * Any integer bound sent as the decimal text a form submits for it, as
   * every year and score menu choice is, reads back as that number: a search
   * built from the menus never raises.
   */
  lemma DecimalBoundsAccepted(party: Option<string>, from: int, until: int, score: int, elections: seq<string>)
    ensures
      var req := Request(party, Some(ShowInt(from)), Some(ShowInt(until)), Some(ShowInt(score)), elections);
      && ReadCriteria(req).Success?
      && ReadCriteria(req).value.minYear == Some(from)
      && ReadCriteria(req).value.maxYear == Some(until)
      && ReadCriteria(req).value.minScore == Some(score)
  {
    ParseShowInt(from);
    ParseShowInt(until);
    ParseShowInt(score);
    var req := Request(party, Some(ShowInt(from)), Some(ShowInt(until)), Some(ShowInt(score)), elections);
    assert IntegerParameter("min_year", req.minYear) == Success(Some(from));
    assert IntegerParameter("max_year", req.maxYear) == Success(Some(until));
    assert IntegerParameter("min_score", req.minScore) == Success(Some(score));
    CriteriaRead(req, Criteria(
      if Given(party) then Some(party.value) else None, Some(from), Some(until), Some(score),
      if |elections| > 0 then NamedElections(elections) else {}));
  }
}
