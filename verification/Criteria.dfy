/**
 Which memories a search may return: the PostgreSQL criteria of its arms, the Python recheck of its candidates
 (retrieval.py), and the constraints pushed to the vector index (eligibility.py).
 */
module Criteria {
  import opened Options
  import opened Json
  import opened Filters
  import FilterSql

  type Time = int

  datatype Row = Row(
    kind: Text, agentId: Option<Text>, subjectId: Option<Text>, context: Object, tags: seq<JSON>,
    sourceRole: Text, active: bool, validUntil: Option<Time>,
    documentDate: Option<Time>, eventStart: Option<Time>, eventEnd: Option<Time>)

  datatype Window = Window(since: Option<Time>, until: Option<Time>)

  function Nullable(text: Option<Text>): JSON {
    if text.Some? then JStr(text.value) else JNull
  }

  const KIND: Text := [107, 105, 110, 100]                                             // kind
  const AGENT_ID: Text := [97, 103, 101, 110, 116, 95, 105, 100]                       // agent_id
  const CONTEXT: Text := [99, 111, 110, 116, 101, 120, 116]                            // context
  const TAGS: Text := [116, 97, 103, 115]                                              // tags
  const SUBJECT_ID: Text := [115, 117, 98, 106, 101, 99, 116, 95, 105, 100]            // subject_id
  const SOURCE_ROLE: Text := [115, 111, 117, 114, 99, 101, 95, 114, 111, 108, 101]     // source_role

  /** The names of the columns. */
  lemma Columns()
    ensures KIND == Ascii("kind") && AGENT_ID == Ascii("agent_id") && CONTEXT == Ascii("context") && TAGS == Ascii("tags")
    ensures SUBJECT_ID == Ascii("subject_id") && SOURCE_ROLE == Ascii("source_role")
  {
  }

  function Document(row: Row): Object {
    map[KIND := JStr(row.kind), AGENT_ID := Nullable(row.agentId), CONTEXT := JObj(row.context),
        TAGS := JArr(row.tags), SUBJECT_ID := Nullable(row.subjectId)]
  }

  // ---- the recheck ----

  predicate MemoryActive(row: Row, now: Time) {
    row.active && (row.validUntil.None? || row.validUntil.value > now)
  }

  /** The interval a memory is about: its events, or the day it was said. */
  function When(row: Row): (Option<Time>, Option<Time>) {
    if row.eventStart.Some? || row.eventEnd.Some? then (row.eventStart, row.eventEnd)
    else (row.documentDate, row.documentDate)
  }

  function Or(first: Option<Time>, second: Option<Time>): Option<Time> {
    if first.Some? then first else second
  }

  predicate InRange(row: Row, window: Option<Window>) {
    window.None?
    || var (start, end) := When(row);
       && (start.Some? || end.Some?)
       && (window.value.since.Some? ==> Or(end, start).value >= window.value.since.value)
       && (window.value.until.Some? ==> Or(start, end).value <= window.value.until.value)
  }

  /** A candidate the recheck keeps. No kinds, or an empty list of them, is no constraint. */
  predicate Kept(row: Row, expression: JSON, kinds: seq<Text>, roles: Option<set<Text>>, now: Time, window: Option<Window>)
    requires Filter(expression)
  {
    && MemoryActive(row, now)
    && (roles.Some? ==> row.sourceRole in roles.value)
    && (kinds != [] ==> row.kind in kinds)
    && Meaning(Document(row), expression)
    && InRange(row, window)
  }

  /** The recheck, with the interval of a memory written out: only active and unexpired memories of an admitted kind and role
      that match; and under a window one that has a date, ends no earlier than it opens and begins no later than it closes. */
  lemma KeptExactly(row: Row, expression: JSON, kinds: seq<Text>, roles: Option<set<Text>>, now: Time, window: Option<Window>)
    requires Filter(expression)
    ensures var dated := row.eventStart.Some? || row.eventEnd.Some? || row.documentDate.Some?;
            var first := if row.eventStart.Some? then row.eventStart
                         else if row.eventEnd.Some? then row.eventEnd else row.documentDate;
            var last := if row.eventEnd.Some? then row.eventEnd
                        else if row.eventStart.Some? then row.eventStart else row.documentDate;
            Kept(row, expression, kinds, roles, now, window) <==>
              && row.active && !(row.validUntil.Some? && row.validUntil.value <= now)
              && (kinds == [] || row.kind in kinds) && (roles.None? || row.sourceRole in roles.value)
              && Meaning(Document(row), expression)
              && (window.None? || (dated && (window.value.since.None? || window.value.since.value <= last.value)
                                         && (window.value.until.None? || first.value <= window.value.until.value)))
  {
  }

  // ---- the same in SQL, under three-valued logic ----

  datatype Tri = No | Unknown | Yes

  function Both(a: Tri, b: Tri): Tri {
    if a.No? || b.No? then No else if a.Yes? && b.Yes? then Yes else Unknown
  }

  function Either(a: Tri, b: Tri): Tri {
    if a.Yes? || b.Yes? then Yes else if a.No? && b.No? then No else Unknown
  }

  function Sure(b: bool): Tri {
    if b then Yes else No
  }

  function Greater(a: Option<Time>, b: Time): Tri {
    if a.None? then Unknown else Sure(a.value > b)
  }

  function AtLeast(a: Option<Time>, b: Time): Tri {
    if a.None? then Unknown else Sure(a.value >= b)
  }

  function AtMost(a: Option<Time>, b: Time): Tri {
    if a.None? then Unknown else Sure(a.value <= b)
  }

  function Coalesce3(a: Option<Time>, b: Option<Time>, c: Option<Time>): Option<Time> {
    if a.Some? then a else if b.Some? then b else c
  }

  datatype Clause =
    | StillValid              // (m.valid_until IS NULL OR m.valid_until > %s)
    | Matching(sql: FilterSql.Pred)
    | KindAny                 // m.kind=ANY(%s)
    | RoleAny                 // m.source_role=ANY(%s)
    | StartKnown              // COALESCE(event_start, event_end, document_date) IS NOT NULL
    | EndFrom                 // COALESCE(event_end, event_start, document_date) >= %s
    | StartUntil              // COALESCE(event_start, event_end, document_date) <= %s

  datatype Bound = Moment(time: Time) | Names(names: set<Text>) | Of(param: FilterSql.Param)

  function Params(values: seq<Bound>): Option<seq<FilterSql.Param>> {
    if values == [] then Some([])
    else
      var rest := Params(values[1..]);
      if !values[0].Of? || rest.None? then None else Some([values[0].param] + rest.value)
  }

  predicate NamesStorable(names: set<Text>) {
    forall name | name in names :: Storable(name)
  }

  /** One clause on one row: its truth and the parameters it leaves; none: the statement is an error. */
  function Test(clause: Clause, row: Row, values: seq<Bound>): Option<(Tri, seq<Bound>)> {
    var start := Coalesce3(row.eventStart, row.eventEnd, row.documentDate);
    var end := Coalesce3(row.eventEnd, row.eventStart, row.documentDate);
    match clause
    case StartKnown => Some((Sure(start.Some?), values))
    case Matching(sql) =>
      if |values| < FilterSql.Slots(sql) || Params(values[..FilterSql.Slots(sql)]).None? then None
      else
        var r := FilterSql.Select(FilterSql.Compiled(sql, Params(values[..FilterSql.Slots(sql)]).value), JObj(Document(row)));
        if r.None? then None else Some((Sure(r.value), values[FilterSql.Slots(sql)..]))
    case KindAny =>
      if values == [] || !values[0].Names? || !NamesStorable(values[0].names) then None
      else Some((Sure(row.kind in values[0].names), values[1..]))
    case RoleAny =>
      if values == [] || !values[0].Names? || !NamesStorable(values[0].names) then None
      else Some((Sure(row.sourceRole in values[0].names), values[1..]))
    case StillValid =>
      if values == [] || !values[0].Moment? then None
      else Some((Either(Sure(row.validUntil.None?), Greater(row.validUntil, values[0].time)), values[1..]))
    case EndFrom => if values == [] || !values[0].Moment? then None else Some((AtLeast(end, values[0].time), values[1..]))
    case StartUntil => if values == [] || !values[0].Moment? then None else Some((AtMost(start, values[0].time), values[1..]))
  }

  function Where(clauses: seq<Clause>, row: Row, values: seq<Bound>): Option<(Tri, seq<Bound>)> {
    if clauses == [] then Some((Yes, values))
    else
      var first := Test(clauses[0], row, values);
      if first.None? then None else
      var rest := Where(clauses[1..], row, first.value.1);
      if rest.None? then None else Some((Both(first.value.0, rest.value.0), rest.value.1))
  }

  /** A query returns the rows its condition is true of, neither false nor unknown. */
  predicate Returned(clauses: seq<Clause>, values: seq<Bound>, row: Row) {
    Where(clauses, row, values) == Some((Yes, []))
  }

  /** On this row the clauses consume exactly the values and come out true exactly when `kept` holds; none: they
      make the statement an error. */
  ghost predicate Decides(clauses: seq<Clause>, values: seq<Bound>, row: Row, kept: Option<bool>) {
    forall rest: seq<Bound> {:trigger Where(clauses, row, values + rest)} ::
      var outcome := Where(clauses, row, values + rest);
      if kept.None? then outcome.None?
      else outcome.Some? && outcome.value.1 == rest && (outcome.value.0.Yes? <==> kept.value)
  }

  function AndAlso(p: Option<bool>, q: Option<bool>): Option<bool> {
    if p.None? || q.None? then None else Some(p.value && q.value)
  }

  lemma {:induction false} WhereAppends(a: seq<Clause>, b: seq<Clause>, row: Row, values: seq<Bound>)
    ensures Where(a + b, row, values) ==
            var first := Where(a, row, values);
            if first.None? then None else
            var second := Where(b, row, first.value.1);
            if second.None? then None else Some((Both(first.value.0, second.value.0), second.value.1))
  {
    if a == [] {
      assert a + b == b;
    } else {
      assert (a + b)[1..] == a[1..] + b;
      var first := Test(a[0], row, values);
      if first.Some? {
        WhereAppends(a[1..], b, row, first.value.1);
      }
    }
  }

  /** Appending clauses with their values conjoins what the two decide. */
  lemma DecidesBoth(a: seq<Clause>, av: seq<Bound>, p: Option<bool>, b: seq<Clause>, bv: seq<Bound>, q: Option<bool>, row: Row)
    requires Decides(a, av, row, p) && Decides(b, bv, row, q)
    ensures Decides(a + b, av + bv, row, AndAlso(p, q))
  {
    forall rest: seq<Bound>
      ensures var outcome := Where(a + b, row, av + bv + rest);
              if AndAlso(p, q).None? then outcome.None?
              else outcome.Some? && outcome.value.1 == rest && (outcome.value.0.Yes? <==> p.value && q.value)
    {
      assert av + bv + rest == av + (bv + rest);
      WhereAppends(a, b, row, av + (bv + rest));
      assert Where(a, row, av + (bv + rest)).Some? <==> p.Some?;
      assert Where(b, row, bv + rest).Some? <==> q.Some?;
    }
  }

  /** A clause with one slot of its own. */
  predicate Fits(clause: Clause, value: Bound) {
    match clause
    case StillValid => value.Moment?
    case EndFrom => value.Moment?
    case StartUntil => value.Moment?
    case KindAny => value.Names?
    case RoleAny => value.Names?
    case _ => false
  }

  /** What a clause with its own value decides on a row. */
  function Alone(clause: Clause, value: Bound, row: Row): Option<bool> {
    var t := Test(clause, row, [value]);
    if t.None? then None else Some(t.value.0.Yes?)
  }

  lemma DecidesOne(clause: Clause, value: Bound, row: Row)
    requires Fits(clause, value)
    ensures Decides([clause], [value], row, Alone(clause, value, row))
  {
    var t := Test(clause, row, [value]);
    forall rest: seq<Bound>
      ensures Where([clause], row, [value] + rest) == if t.None? then None else Some((t.value.0, rest))
    {
      assert ([value] + rest)[1..] == rest && [clause][1..] == [];
      assert Where([], row, rest) == Some((Yes, rest));
    }
  }

  function Wrap(params: seq<FilterSql.Param>): seq<Bound> {
    if params == [] then [] else [Of(params[0])] + Wrap(params[1..])
  }

  lemma {:induction false} WrapRoundTrip(params: seq<FilterSql.Param>)
    ensures |Wrap(params)| == |params| && Params(Wrap(params)) == Some(params)
  {
    if params != [] {
      var rest := Wrap(params[1..]);
      WrapRoundTrip(params[1..]);
      assert Wrap(params) == [Of(params[0])] + rest;
      assert ([Of(params[0])] + rest)[0] == Of(params[0]) && ([Of(params[0])] + rest)[1..] == rest;
      assert params == [params[0]] + params[1..];
      hide Wrap;
    }
  }

  /** What the compiled filter decides on a row. */
  function Verdict(row: Row, expression: JSON): Option<bool>
    requires Filter(expression)
  {
    if FilterSql.Sendable(expression) then Some(Meaning(Document(row), expression)) else None
  }

  /** The compiled filter takes its own parameters from the front. */
  lemma MatchingTest(row: Row, sql: FilterSql.Pred, params: seq<FilterSql.Param>, rest: seq<Bound>)
    requires FilterSql.Slots(sql) == |params| == |Wrap(params)| && Params(Wrap(params)) == Some(params)
    ensures var r := FilterSql.Select(FilterSql.Compiled(sql, params), JObj(Document(row)));
            Test(Matching(sql), row, Wrap(params) + rest) == if r.None? then None else Some((Sure(r.value), rest))
  {
    hide FilterSql.Select, FilterSql.Slots, Document, Params, Wrap, Sure;
    assert (Wrap(params) + rest)[..|params|] == Wrap(params) && (Wrap(params) + rest)[|params|..] == rest;
  }

  lemma FilterDecides(expression: JSON, row: Row)
    requires Filter(expression) && FilterSql.FieldsDecoded(expression)
    ensures var c := FilterSql.Compile(expression);
            Decides([Matching(c.sql)], Wrap(c.params), row, Verdict(row, expression))
  {
    var c := FilterSql.Compile(expression);
    FilterSql.SlotsMatchParameters(expression);
    WrapRoundTrip(c.params);
    FilterSql.CompilerIsFaithful(Document(row), expression);
    hide FilterSql.Compile, FilterSql.Select, FilterSql.Slots, FilterSql.Sendable, FilterSql.FieldsDecoded, Document, Meaning,
      Filter, Params, Wrap, Test;
    forall rest: seq<Bound>
      ensures Where([Matching(c.sql)], row, Wrap(c.params) + rest)
              == if Verdict(row, expression).Some? then Some((Sure(Verdict(row, expression).value), rest)) else None
    {
      MatchingTest(row, c.sql, c.params, rest);
      assert Where([], row, rest) == Some((Yes, rest));
    }
  }

  predicate Unexpired(row: Row, now: Time) {
    row.validUntil.None? || row.validUntil.value > now
  }

  predicate Admitted(row: Row, kinds: seq<Text>, roles: Option<set<Text>>) {
    (kinds != [] ==> row.kind in kinds) && (roles.Some? ==> row.sourceRole in roles.value)
  }

  /** PostgreSQL can hold every kind and role the arms would be sent. */
  predicate AdmissionStorable(kinds: seq<Text>, roles: Option<set<Text>>) {
    NamesStorable(set kind | kind in kinds) && (roles.Some? ==> NamesStorable(roles.value))
  }

  function Admission(row: Row, kinds: seq<Text>, roles: Option<set<Text>>): Option<bool> {
    if AdmissionStorable(kinds, roles) then Some(Admitted(row, kinds, roles)) else None
  }

  function Standing(row: Row, expression: JSON, kinds: seq<Text>, roles: Option<set<Text>>, now: Time): Option<bool>
    requires Filter(expression)
  {
    AndAlso(AndAlso(Some(Unexpired(row, now)), Verdict(row, expression)), Admission(row, kinds, roles))
  }

  lemma KindsAdmit(row: Row, expression: JSON, kinds: seq<Text>, now: Time, names: set<Text>)
    requires Filter(expression) && kinds != [] && names == set k | k in kinds
    ensures AndAlso(Standing(row, expression, [], None, now), Alone(KindAny, Names(names), row))
            == Standing(row, expression, kinds, None, now)
  {
    NothingStorable();
    hide Verdict, Filter, Unexpired, NamesStorable;
  }

  lemma NothingStorable()
    ensures AdmissionStorable([], None)
  {
  }

  lemma RolesAdmit(row: Row, expression: JSON, kinds: seq<Text>, roles: set<Text>, now: Time)
    requires Filter(expression)
    ensures AndAlso(Standing(row, expression, kinds, None, now), Alone(RoleAny, Names(roles), row))
            == Standing(row, expression, kinds, Some(roles), now)
  {
    hide Verdict, Filter, Unexpired, NamesStorable;
  }

  /** memory_sql: the criteria of every PostgreSQL arm, before the time window. */
  method MemorySql(expression: JSON, kinds: seq<Text>, roles: Option<set<Text>>, now: Time)
    returns (clauses: seq<Clause>, values: seq<Bound>)
    requires Filter(expression) && FilterSql.FieldsDecoded(expression)
    ensures forall row :: Decides(clauses, values, row, Standing(row, expression, kinds, roles, now))
  {
    hide FilterSql.Compile, Verdict, Filter, Where, Decides;
    var c := FilterSql.Compile(expression);
    clauses, values := [StillValid, Matching(c.sql)], [Moment(now)] + Wrap(c.params);
    forall row: Row
      ensures Decides(clauses, values, row, Standing(row, expression, [], None, now))
    {
      DecidesOne(StillValid, Moment(now), row);
      FilterDecides(expression, row);
      assert clauses == [StillValid] + [Matching(c.sql)];
      DecidesBoth([StillValid], [Moment(now)], Some(Unexpired(row, now)),
                  [Matching(c.sql)], Wrap(c.params), Verdict(row, expression), row);
    }
    if kinds != [] {
      var names := set k | k in kinds;
      forall row: Row
        ensures Decides(clauses + [KindAny], values + [Names(names)], row, Standing(row, expression, kinds, None, now))
      {
        DecidesOne(KindAny, Names(names), row);
        DecidesBoth(clauses, values, Standing(row, expression, [], None, now),
                    [KindAny], [Names(names)], Alone(KindAny, Names(names), row), row);
        KindsAdmit(row, expression, kinds, now, names);
      }
      clauses, values := clauses + [KindAny], values + [Names(names)];
    }
    if roles.Some? {
      forall row: Row
        ensures Decides(clauses + [RoleAny], values + [Names(roles.value)], row, Standing(row, expression, kinds, roles, now))
      {
        DecidesOne(RoleAny, Names(roles.value), row);
        DecidesBoth(clauses, values, Standing(row, expression, kinds, None, now),
                    [RoleAny], [Names(roles.value)], Alone(RoleAny, Names(roles.value), row), row);
        RolesAdmit(row, expression, kinds, roles.value, now);
      }
      clauses, values := clauses + [RoleAny], values + [Names(roles.value)];
    }
  }

  /** _range_sql: no window, no clause; otherwise rows without any date are out, whatever the bounds. */
  method RangeSql(window: Option<Window>) returns (clauses: seq<Clause>, values: seq<Bound>)
    ensures forall row :: Decides(clauses, values, row, Some(InRange(row, window)))
  {
    hide Where, Decides;
    clauses, values := [], [];
    forall row: Row { DecidesNothing(row); }
    if window.None? { return; }
    clauses := [StartKnown];
    forall row: Row { DecidesStart(row); }
    if window.value.since.Some? {
      var since := Moment(window.value.since.value);
      forall row: Row
        ensures Decides(clauses + [EndFrom], values + [since], row, Some(InRange(row, Some(Window(window.value.since, None)))))
      {
        DecidesOne(EndFrom, since, row);
        DecidesBoth(clauses, values, Some(InRange(row, Some(Window(None, None)))), [EndFrom], [since],
                    Alone(EndFrom, since, row), row);
      }
      clauses, values := clauses + [EndFrom], values + [since];
    }
    if window.value.until.Some? {
      var until := Moment(window.value.until.value);
      forall row: Row
        ensures Decides(clauses + [StartUntil], values + [until], row, Some(InRange(row, window)))
      {
        DecidesOne(StartUntil, until, row);
        DecidesBoth(clauses, values, Some(InRange(row, Some(Window(window.value.since, None)))), [StartUntil], [until],
                    Alone(StartUntil, until, row), row);
      }
      clauses, values := clauses + [StartUntil], values + [until];
    }
  }

  lemma DecidesNothing(row: Row)
    ensures Decides([], [], row, Some(true))
  {
    assert forall rest: seq<Bound> :: [] + rest == rest;
  }

  lemma DecidesStart(row: Row)
    ensures Decides([StartKnown], [], row, Some(InRange(row, Some(Window(None, None)))))
  {
    forall rest: seq<Bound>
      ensures Where([StartKnown], row, [] + rest)
              == Some((Sure(Coalesce3(row.eventStart, row.eventEnd, row.documentDate).Some?), rest))
    {
      assert [] + rest == rest && Where([], row, rest) == Some((Yes, rest));
    }
  }

  /** PostgreSQL can hold everything the arms of this search would be sent. */
  predicate Askable(expression: JSON, kinds: seq<Text>, roles: Option<set<Text>>)
    requires Filter(expression)
  {
    FilterSql.Sendable(expression) && AdmissionStorable(kinds, roles)
  }

  /** What the PostgreSQL arms of a search may propose is exactly what the recheck keeps, over every combination of
      missing dates, expiry, kinds, roles and window bounds; and every arm is an error exactly when the filter, a kind or a
      role cannot be sent. */
  method SearchCriteria(expression: JSON, kinds: seq<Text>, roles: Option<set<Text>>, now: Time, window: Option<Window>)
    returns (clauses: seq<Clause>, values: seq<Bound>)
    requires Filter(expression) && FilterSql.FieldsDecoded(expression)
    ensures Askable(expression, kinds, roles) ==> forall row: Row | row.active ::
              Where(clauses, row, values).Some?
              && (Returned(clauses, values, row) <==> Kept(row, expression, kinds, roles, now, window))
    ensures !Askable(expression, kinds, roles) ==> forall row: Row :: Where(clauses, row, values).None?
  {
    hide AdmissionStorable, FilterSql.Sendable, Filter, Meaning, Document, Decides, InRange, Where;
    clauses, values := MemorySql(expression, kinds, roles, now);
    var moreClauses, moreValues := RangeSql(window);
    forall row: Row
      ensures Decides(clauses + moreClauses, values + moreValues, row,
                      AndAlso(Standing(row, expression, kinds, roles, now), Some(InRange(row, window))))
    {
      DecidesBoth(clauses, values, Standing(row, expression, kinds, roles, now),
                  moreClauses, moreValues, Some(InRange(row, window)), row);
    }
    clauses, values := clauses + moreClauses, values + moreValues;
    forall row: Row
      ensures !Askable(expression, kinds, roles) ==> Where(clauses, row, values).None?
      ensures Askable(expression, kinds, roles) && row.active ==>
                Where(clauses, row, values).Some?
                && (Returned(clauses, values, row) <==> Kept(row, expression, kinds, roles, now, window))
    {
      DecidedReturned(clauses, values, row, AndAlso(Standing(row, expression, kinds, roles, now), Some(InRange(row, window))));
    }
  }

  lemma DecidedReturned(clauses: seq<Clause>, values: seq<Bound>, row: Row, kept: Option<bool>)
    requires Decides(clauses, values, row, kept)
    ensures if kept.Some? then Where(clauses, row, values).Some? && (Returned(clauses, values, row) <==> kept.value)
            else Where(clauses, row, values).None?
  {
    assert values + [] == values;
  }

  /** A second kind that holds a NUL, with no filter at all: the recheck keeps a row of the first, and the arms that should
      propose it are an error. */
  lemma UnstorableKind(row: Row, now: Time)
    requires MemoryActive(row, now)
    ensures var none, kinds: seq<Text> := JObj(map[]), [row.kind, [0]];
            && Filter(none) && FilterSql.Sendable(none) && Kept(row, none, kinds, None, now, None)
            && Where([StillValid, Matching(FilterSql.Compile(none).sql), KindAny], row,
                     [Moment(now), Names(set kind | kind in kinds)]).None?
  {
    var kinds: seq<Text> := [row.kind, [0]];
    var names := set kind | kind in kinds;
    var unstorable: Text := [0];
    assert kinds[1] == unstorable && unstorable in names;
    assert !Holdable(unstorable[0]);
    assert FilterSql.Compile(JObj(map[])).params == [] && FilterSql.Compile(JObj(map[])).sql == FilterSql.True;
    var matching := Matching(FilterSql.True);
    var clauses, values := [StillValid, matching, KindAny], [Moment(now), Names(names)];
    assert clauses[1..] == [matching, KindAny] && clauses[1..][1..] == [KindAny] && values[1..] == [Names(names)];
    assert Test(KindAny, row, [Names(names)]).None?;
    assert Where([KindAny], row, [Names(names)]).None?;
    assert Test(matching, row, [Names(names)]) == Some((Yes, [Names(names)])) by { TrueTest(row, [Names(names)]); }
    hide Test, Document;
    assert Where([matching, KindAny], row, [Names(names)]).None?;
    assert Where(clauses, row, values).None? by { FirstPasses(row, now, names, clauses, values); }
  }

  lemma TrueTest(row: Row, values: seq<Bound>)
    ensures Test(Matching(FilterSql.True), row, values) == Some((Yes, values))
  {
    assert values[..0] == [] && values[0..] == values;
  }

  lemma FirstPasses(row: Row, now: Time, names: set<Text>, clauses: seq<Clause>, values: seq<Bound>)
    requires clauses != [] && clauses[0] == StillValid && values == [Moment(now), Names(names)]
    requires Where(clauses[1..], row, [Names(names)]).None?
    ensures Where(clauses, row, values).None?
  {
    assert values[1..] == [Names(names)];
  }
}
