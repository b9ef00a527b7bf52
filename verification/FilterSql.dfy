/** The filter algebra compiled to a parameterised SQL predicate, and that predicate's meaning (eligibility.py). */
module FilterSql {
  import opened Options
  import opened Json
  import opened Filters
  import JsonPath

  /** What a %s slot is bound to: a jsonpath, or a jsonb value. */
  datatype Param = Path(text: string) | Jsonb(value: JSON)

  /** jsonb-valued SQL; the document is the row's jsonb_build_object. */
  datatype Expr =
    | PathValue     // COALESCE(jsonb_path_query_first(document, %s::jsonpath, '{}', true), 'null')
    | JsonSlot      // %s::jsonb
    | NullLiteral   // 'null'::jsonb

  datatype Pred =
    | True
    | And(conjuncts: seq<Pred>)
    | Equals(left: Expr, right: Expr)
    | Differs(left: Expr, right: Expr)
    // EXISTS (SELECT 1 FROM jsonb_array_elements(CASE WHEN jsonb_typeof(test)='array' THEN elements
    //   ELSE jsonb_build_array(scalar) END) item WHERE item.value IN (SELECT value FROM jsonb_array_elements(list)))
    | AnyIn(test: Expr, elements: Expr, scalar: Expr, list: Expr)

  datatype Compiled = Compiled(sql: Pred, params: seq<Param>)
  datatype Compilation = Compiles(result: Compiled) | Raises(verdict: Verdict)

  // ---- the compiler ----

  function FilterSql(expression: JSON): Compilation
    requires expression.JObj?
  {
    if Validate(expression).Valid? then Compiles(Compile(expression)) else Compilation.Raises(Validate(expression))
  }

  function Compile(expression: JSON): Compiled
    requires Filter(expression)
    decreases expression, 1
  {
    var e := expression.fields;
    if e == map[] then Compiled(True, [])
    else if ALL in e then
      ValidChildren(e[ALL].items);
      var children := CompileAll(e[ALL].items);
      Compiled(if children.0 == [] then True else And(children.0), children.1)
    else
      var path := Path(JsonPath.PathText(Split(e[FIELD].text)));
      var op := e[OP].text;
      if op == EXISTS then Compiled(Differs(PathValue, NullLiteral), [path])
      else if op == ABSENT then Compiled(Equals(PathValue, NullLiteral), [path])
      else if op == EQ then Compiled(Equals(PathValue, JsonSlot), [path, Jsonb(Expected(e))])
      else Compiled(AnyIn(PathValue, PathValue, PathValue, JsonSlot), [path, path, path, Jsonb(e[VALUE])])
  }

  /** Each child on its own, and their parameters one after the other. */
  function CompileAll(children: seq<JSON>): (r: (seq<Pred>, seq<Param>))
    requires forall i | 0 <= i < |children| :: Filter(children[i])
    decreases children, 0
  {
    if children == [] then ([], [])
    else
      var first := Compile(children[0]);
      var rest := CompileAll(children[1..]);
      ([first.sql] + rest.0, first.params + rest.1)
  }

  // ---- what the database does ----

  /** jsonb_path_query_first with a strict path and errors suppressed: no row where a step fails. */
  function QueryFirst(value: JSON, path: seq<Text>): Option<JSON>
    decreases |path|
  {
    if path == [] then Some(value)
    else if value.JObj? && path[0] in value.fields then QueryFirst(value.fields[path[0]], path[1..])
    else None
  }

  function Coalesce(value: Option<JSON>, otherwise: JSON): JSON {
    if value.Some? then value.value else otherwise
  }

  /** item.value IN (SELECT value FROM jsonb_array_elements(list)), for some item. */
  predicate SomeIn(items: seq<JSON>, candidates: seq<JSON>) {
    exists i | 0 <= i < |items| :: items[i] in candidates
  }

  /** Evaluation takes the parameters it needs from the front and hands on the rest; none: the statement is an error. */
  function Value(expr: Expr, document: JSON, params: seq<Param>): Option<(JSON, seq<Param>)> {
    match expr
    case NullLiteral => Some((JNull, params))
    case PathValue =>
      if params == [] || !params[0].Path? || JsonPath.ReadPath(params[0].text).None? then None
      else Some((Coalesce(QueryFirst(document, JsonPath.ReadPath(params[0].text).value), JNull), params[1..]))
    case JsonSlot =>
      if params == [] || !params[0].Jsonb? || !AllStorable(params[0].value) then None
      else Some((params[0].value, params[1..]))
  }

  function Truth(pred: Pred, document: JSON, params: seq<Param>): Option<(bool, seq<Param>)>
    decreases pred, 1
  {
    match pred
    case True => Some((true, params))
    case And(conjuncts) => AllTrue(conjuncts, document, params)
    case Equals(left, right) =>
      var l := Value(left, document, params);
      if l.None? then None else
      var r := Value(right, document, l.value.1);
      if r.None? then None else Some((l.value.0 == r.value.0, r.value.1))
    case Differs(left, right) =>
      var l := Value(left, document, params);
      if l.None? then None else
      var r := Value(right, document, l.value.1);
      if r.None? then None else Some((l.value.0 != r.value.0, r.value.1))
    case AnyIn(test, elements, scalar, list) =>
      var t := Value(test, document, params);
      if t.None? then None else
      var es := Value(elements, document, t.value.1);
      if es.None? then None else
      var sc := Value(scalar, document, es.value.1);
      if sc.None? then None else
      var li := Value(list, document, sc.value.1);
      if li.None? || !li.value.0.JArr? || (t.value.0.JArr? && !es.value.0.JArr?) then None
      else
        var items := if t.value.0.JArr? then es.value.0.items else [sc.value.0];
        Some((SomeIn(items, li.value.0.items), li.value.1))
  }

  function AllTrue(conjuncts: seq<Pred>, document: JSON, params: seq<Param>): Option<(bool, seq<Param>)>
    decreases conjuncts, 0
  {
    if conjuncts == [] then Some((true, params))
    else
      var first := Truth(conjuncts[0], document, params);
      if first.None? then None else
      var rest := AllTrue(conjuncts[1..], document, first.value.1);
      if rest.None? then None else Some((first.value.0 && rest.value.0, rest.value.1))
  }

  /** A whole condition: every parameter must be used up. */
  function Select(compiled: Compiled, document: JSON): Option<bool> {
    var r := Truth(compiled.sql, document, compiled.params);
    if r.None? || r.value.1 != [] then None else Some(r.value.0)
  }

  function Slots(pred: Pred): nat
    decreases pred, 1
  {
    match pred
    case True => 0
    case And(conjuncts) => SlotsAll(conjuncts)
    case Equals(left, right) => SlotOf(left) + SlotOf(right)
    case Differs(left, right) => SlotOf(left) + SlotOf(right)
    case AnyIn(test, elements, scalar, list) => SlotOf(test) + SlotOf(elements) + SlotOf(scalar) + SlotOf(list)
  }

  function SlotsAll(conjuncts: seq<Pred>): nat
    decreases conjuncts, 0
  {
    if conjuncts == [] then 0 else Slots(conjuncts[0]) + SlotsAll(conjuncts[1..])
  }

  function SlotOf(expr: Expr): nat {
    if expr.NullLiteral? then 0 else 1
  }

  // ---- what the compiler preserves ----

  /** PostgreSQL can hold every string this filter would send it: no NUL, no unpaired surrogate,
      and no number that is not finite. */
  predicate Sendable(expression: JSON)
    requires Filter(expression)
    decreases expression
  {
    var e := expression.fields;
    if e == map[] then true
    else if ALL in e then
      ValidChildren(e[ALL].items);
      forall i | 0 <= i < |e[ALL].items| :: Sendable(e[ALL].items[i])
    else Storable(e[FIELD].text) && (e[OP].text in {EQ, IN} ==> AllStorable(Expected(e)))
  }

  /** The fields a filter names came out of JSON decoding. */
  predicate FieldsDecoded(expression: JSON)
    requires Filter(expression)
    decreases expression
  {
    var e := expression.fields;
    if e == map[] then true
    else if ALL in e then
      ValidChildren(e[ALL].items);
      forall i | 0 <= i < |e[ALL].items| :: FieldsDecoded(e[ALL].items[i])
    else Decoded(e[FIELD].text)
  }

  lemma {:induction false} QueryFirstIsAt(value: JSON, path: seq<Text>)
    ensures Coalesce(QueryFirst(value, path), JNull) == At(value, path)
    decreases |path|
  {
    if path != [] && value.JObj? && path[0] in value.fields {
      QueryFirstIsAt(value.fields[path[0]], path[1..]);
    }
  }

  /** Splitting keeps the characters but the dots, and pairs up none. */
  lemma {:induction false} SplitStorable(field: Text)
    ensures Storable(field) <==> forall part :: part in Split(field) ==> Storable(part)
  {
    if field == [] {
      assert forall part :: part in Split(field) ==> part == [];
    } else {
      SplitStorable(field[1..]);
      var rest := Split(field[1..]);
      JsonPath.StorableStep(field);
      assert rest == [rest[0]] + rest[1..];
      hide Storable;
      if field[0] == DOT {
        assert Split(field) == [[]] + rest;
        assert Storable([]) && Holdable(DOT) by { DotStorable(); }
      } else {
        var head := [field[0]] + rest[0];
        assert Split(field) == [head] + rest[1..];
        assert head[1..] == rest[0];
        JsonPath.StorableStep(head);
        assert head in Split(field) && rest[0] in rest;
      }
    }
  }

  lemma DotStorable()
    ensures Storable([]) && Holdable(DOT)
  {
  }

  lemma {:induction false} SplitDecoded(field: Text)
    requires Decoded(field)
    ensures forall part :: part in Split(field) ==> Decoded(part)
    ensures Split(field)[0] != [] ==> field != [] && Split(field)[0][0] == field[0]
  {
    if field != [] {
      assert forall i | 0 < i < |field[1..]| :: field[1..][i - 1] == field[i] && field[1..][i] == field[i + 1];
      assert Decoded(field[1..]);
      SplitDecoded(field[1..]);
      var rest := Split(field[1..]);
      assert rest == [rest[0]] + rest[1..];
      if field[0] == DOT {
        assert Split(field) == [[]] + rest;
      } else {
        var head := [field[0]] + rest[0];
        assert Split(field) == [head] + rest[1..];
        assert Decoded(rest[0]);
        forall i | 0 < i < |head|
          ensures !(High(head[i - 1]) && Low(head[i]))
        {
          assert head[i] == rest[0][i - 1];
          if i == 1 { assert rest[0][0] == field[1]; } else { assert head[i - 1] == rest[0][i - 2]; }
        }
        assert Decoded(head);
      }
    }
  }

  /** The path slot of a leaf reads the field of the document, or is an error when the field cannot be stored. */
  lemma PathSlot(document: JSON, field: Text, rest: seq<Param>)
    requires Decoded(field)
    ensures Value(PathValue, document, [Path(JsonPath.PathText(Split(field)))] + rest)
            == if Storable(field) then Some((At(document, Split(field)), rest)) else None
  {
    SplitDecoded(field);
    SplitStorable(field);
    JsonPath.PathRoundTrip(Split(field));
    QueryFirstIsAt(document, Split(field));
    assert ([Path(JsonPath.PathText(Split(field)))] + rest)[1..] == rest;
    hide Split, Storable, Decoded, QueryFirst, At;
  }

  lemma JsonSlotValue(document: JSON, value: JSON, rest: seq<Param>)
    ensures Value(JsonSlot, document, [Jsonb(value)] + rest) == if AllStorable(value) then Some((value, rest)) else None
  {
    assert ([Jsonb(value)] + rest)[1..] == rest;
  }

  predicate IsLeaf(expression: JSON) {
    Filter(expression) && expression.fields != map[] && ALL !in expression.fields
  }

  lemma SomeInIsLeaf(value: JSON, expected: JSON)
    requires expected.JArr? && AllStorable(expected)
    ensures SomeIn(if value.JArr? then value.items else [value], expected.items) <==> Leaf(value, IN, expected)
  {
    StorableReflexive(expected);
    hide AllStorable;
    assert [value][0] == value && (SomeIn([value], expected.items) <==> value in expected.items);
    assert forall item :: item in expected.items ==> Reflexive(item);
  }

  /** Membership over jsonb_array_elements is the membership of the filter algebra. */
  lemma AnyInTruth(doc: JSON, value: JSON, expected: JSON, p0: seq<Param>, p1: seq<Param>, p2: seq<Param>, p3: seq<Param>,
                   p4: seq<Param>)
    requires expected.JArr? && AllStorable(expected)
    requires Value(PathValue, doc, p0) == Some((value, p1)) && Value(PathValue, doc, p1) == Some((value, p2))
    requires Value(PathValue, doc, p2) == Some((value, p3)) && Value(JsonSlot, doc, p3) == Some((expected, p4))
    ensures Truth(AnyIn(PathValue, PathValue, PathValue, JsonSlot), doc, p0) == Some((Leaf(value, IN, expected), p4))
  {
    SomeInIsLeaf(value, expected);
    hide Value, AllStorable, Leaf, SomeIn;
  }

  lemma AnyInSlots(doc: JSON, field: Text, expected: JSON, rest: seq<Param>)
    requires expected.JArr? && Decoded(field)
    ensures var path := Path(JsonPath.PathText(Split(field)));
            Truth(AnyIn(PathValue, PathValue, PathValue, JsonSlot), doc, [path, path, path, Jsonb(expected)] + rest)
            == if Storable(field) && AllStorable(expected) then Some((Leaf(At(doc, Split(field)), IN, expected), rest)) else None
  {
    hide Value, JsonPath.PathText, AllStorable, Storable, Decoded, At, Split, Leaf;
    var path, p3 := Path(JsonPath.PathText(Split(field))), [Jsonb(expected)] + rest;
    var p2 := [path] + p3;
    var p1 := [path] + p2;
    assert [path, path, path, Jsonb(expected)] + rest == [path] + p1;
    PathSlot(doc, field, p1);
    PathSlot(doc, field, p2);
    PathSlot(doc, field, p3);
    JsonSlotValue(doc, expected, rest);
    if Storable(field) && AllStorable(expected) {
      AnyInTruth(doc, At(doc, Split(field)), expected, [path] + p1, p1, p2, p3, rest);
    }
  }

  lemma EqualsSlots(doc: JSON, field: Text, expected: JSON, rest: seq<Param>)
    requires Decoded(field)
    ensures Truth(Equals(PathValue, JsonSlot), doc, [Path(JsonPath.PathText(Split(field))), Jsonb(expected)] + rest)
            == if Storable(field) && AllStorable(expected) then Some((At(doc, Split(field)) == expected, rest)) else None
  {
    hide Value, JsonPath.PathText, AllStorable, Storable, Decoded, At, Split;
    var path := Path(JsonPath.PathText(Split(field)));
    assert [path, Jsonb(expected)] + rest == [path] + ([Jsonb(expected)] + rest);
    PathSlot(doc, field, [Jsonb(expected)] + rest);
    JsonSlotValue(doc, expected, rest);
  }

  lemma NullSlots(doc: JSON, field: Text, rest: seq<Param>)
    requires Decoded(field)
    ensures var params := [Path(JsonPath.PathText(Split(field)))] + rest;
            && Truth(Equals(PathValue, NullLiteral), doc, params)
               == (if Storable(field) then Some((At(doc, Split(field)).JNull?, rest)) else None)
            && Truth(Differs(PathValue, NullLiteral), doc, params)
               == (if Storable(field) then Some((!At(doc, Split(field)).JNull?, rest)) else None)
  {
    PathSlot(doc, field, rest);
    hide JsonPath.PathText, JsonPath.ReadPath, QueryFirst, At, Split;
  }

  lemma LeafPositional(document: Object, expression: JSON, rest: seq<Param>)
    requires IsLeaf(expression) && FieldsDecoded(expression)
    ensures var c := Compile(expression);
            Truth(c.sql, JObj(document), c.params + rest)
            == if Sendable(expression) then Some((Meaning(document, expression), rest)) else None
  {
    hide Truth, AllStorable, Storable, Decoded, At, Split, JsonPath.PathText;
    var e := expression.fields;
    NullSlots(JObj(document), e[FIELD].text, rest);
    EqualsSlots(JObj(document), e[FIELD].text, Expected(e), rest);
    if AllStorable(Expected(e)) {
      StorableReflexive(Expected(e));
    }
    if e[OP].text == IN {
      AnyInSlots(JObj(document), e[FIELD].text, Expected(e), rest);
    }
  }

  lemma {:induction false} Positional(document: Object, expression: JSON, rest: seq<Param>)
    requires Filter(expression) && FieldsDecoded(expression)
    ensures var c := Compile(expression);
            Truth(c.sql, JObj(document), c.params + rest)
            == if Sendable(expression) then Some((Meaning(document, expression), rest)) else None
    decreases expression, 1
  {
    var e := expression.fields;
    if e == map[] {
      assert [] + rest == rest;
    } else if ALL in e {
      ValidChildren(e[ALL].items);
      PositionalAll(document, e[ALL].items, rest);
      if CompileAll(e[ALL].items).0 == [] {
        assert e[ALL].items == [];
        assert [] + rest == rest;
      }
    } else {
      LeafPositional(document, expression, rest);
    }
  }

  lemma ChildrenSplit(document: Object, children: seq<JSON>)
    requires children != [] && forall i | 0 <= i < |children| :: Filter(children[i])
    ensures forall i | 0 <= i < |children[1..]| :: Filter(children[1..][i])
    ensures (forall i | 0 <= i < |children| :: Sendable(children[i]))
            <==> Sendable(children[0]) && forall i | 0 <= i < |children[1..]| :: Sendable(children[1..][i])
    ensures (forall i | 0 <= i < |children| :: Meaning(document, children[i]))
            <==> Meaning(document, children[0]) && forall i | 0 <= i < |children[1..]| :: Meaning(document, children[1..][i])
  {
    hide *;
    assert forall i | 0 < i < |children| :: children[i] == children[1..][i - 1];
    assert forall i | 0 <= i < |children[1..]| :: children[1..][i] == children[i + 1];
  }

  lemma {:induction false} PositionalAll(document: Object, children: seq<JSON>, rest: seq<Param>)
    requires forall i | 0 <= i < |children| :: Filter(children[i]) && FieldsDecoded(children[i])
    ensures var c := CompileAll(children);
            AllTrue(c.0, JObj(document), c.1 + rest)
            == if forall i | 0 <= i < |children| :: Sendable(children[i])
               then Some((forall i | 0 <= i < |children| :: Meaning(document, children[i]), rest))
               else None
    decreases children, 0
  {
    if children == [] {
      assert [] + rest == rest;
    } else {
      var first, others := Compile(children[0]), CompileAll(children[1..]);
      hide Sendable, Meaning, Compile, Filter, FieldsDecoded;
      assert first.params + others.1 + rest == first.params + (others.1 + rest);
      assert forall i | 0 <= i < |children[1..]| :: children[1..][i] == children[i + 1];
      Positional(document, children[0], others.1 + rest);
      PositionalAll(document, children[1..], rest);
      hide Truth;
      ChildrenSplit(document, children);
    }
  }

  /** Compiling keeps the meaning: on every document the condition with its parameters bound in order decides
      what the filter means, unless the filter holds a NUL, an unpaired surrogate or a number that is not finite, and
      then it is an error on every document. */
  lemma CompilerIsFaithful(document: Object, expression: JSON)
    requires Filter(expression) && FieldsDecoded(expression)
    ensures Select(Compile(expression), JObj(document))
            == if Sendable(expression) then Some(Meaning(document, expression)) else None
  {
    Positional(document, expression, []);
    assert Compile(expression).params + [] == Compile(expression).params;
  }

  /** The compiler raises exactly where the matcher does, with the same verdict, and otherwise compiles to a condition that
      decides what the matcher answers. */
  lemma FilterSqlExactly(document: Object, expression: JSON)
    requires expression.JObj? && (Filter(expression) ==> FieldsDecoded(expression))
    ensures match FilterSql(expression)
            case Raises(verdict) => !Filter(expression) && verdict == Validate(expression) && !verdict.Valid?
            case Compiles(result) =>
              && Filter(expression)
              && Select(result, JObj(document)) == if Sendable(expression) then Some(Meaning(document, expression)) else None
  {
    if Filter(expression) {
      CompilerIsFaithful(document, expression);
    }
  }

  lemma {:induction false} SlotsMatchParameters(expression: JSON)
    requires Filter(expression)
    ensures Slots(Compile(expression).sql) == |Compile(expression).params|
    decreases expression, 1
  {
    var e := expression.fields;
    if e != map[] && ALL in e {
      ValidChildren(e[ALL].items);
      SlotsMatchAll(e[ALL].items);
    }
  }

  lemma {:induction false} SlotsMatchAll(children: seq<JSON>)
    requires forall i | 0 <= i < |children| :: Filter(children[i])
    ensures SlotsAll(CompileAll(children).0) == |CompileAll(children).1|
    decreases children, 0
  {
    if children != [] {
      SlotsMatchParameters(children[0]);
      SlotsMatchAll(children[1..]);
    }
  }
}
