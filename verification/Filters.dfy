/** The filter algebra over JSON documents: what is a filter, and when a document meets it (filters.py). */
module Filters {
  import opened Json

  type Object = map<Text, JSON>

  datatype Verdict = Valid | InvalidFilter | TypeError
  datatype Outcome = Holds(bool) | Raises(verdict: Verdict)

  const ALL: Text := [97, 108, 108]                        // all
  const FIELD: Text := [102, 105, 101, 108, 100]           // field
  const OP: Text := [111, 112]                             // op
  const VALUE: Text := [118, 97, 108, 117, 101]            // value
  const EXISTS: Text := [101, 120, 105, 115, 116, 115]     // exists
  const ABSENT: Text := [97, 98, 115, 101, 110, 116]       // absent
  const EQ: Text := [101, 113]                             // eq
  const IN: Text := [105, 110]                             // in
  const DOT: CodePoint := 46

  const LEAF_KEYS := {FIELD, OP, VALUE}
  const OPERATORS := {EXISTS, ABSENT, EQ, IN}

  /** A filter is an empty object, a conjunction, or a leaf. */
  function Validate(expression: JSON): (v: Verdict)
    requires expression.JObj?
    decreases expression, 1
  {
    var e := expression.fields;
    if e == map[] then Valid
    else if e.Keys == {ALL} then
      if !e[ALL].JArr? then InvalidFilter else ValidateAll(e[ALL].items)
    else if !(e.Keys <= LEAF_KEYS) || FIELD !in e || OP !in e then InvalidFilter
    else if !e[FIELD].JStr? || e[FIELD].text == [] then InvalidFilter
    else if e[OP].JArr? || e[OP].JObj? then TypeError   // not hashable, so not comparable with the set
    else if !e[OP].JStr? || e[OP].text !in OPERATORS then InvalidFilter
    else if e[OP].text == IN && !(VALUE in e && e[VALUE].JArr?) then InvalidFilter
    else Valid
  }

  /** Children are checked in order; the first fault is the one raised. */
  function ValidateAll(children: seq<JSON>): (v: Verdict)
    decreases children, 0
  {
    if children == [] then Valid
    else if !children[0].JObj? then InvalidFilter
    else
      var first := Validate(children[0]);
      if first.Valid? then ValidateAll(children[1..]) else first
  }

  function Ascii(word: string): (text: Text)
    requires forall i | 0 <= i < |word| :: word[i] as int < 0x80
    ensures |text| == |word| && forall i | 0 <= i < |word| :: text[i] as int == word[i] as int
  {
    seq(|word|, i requires 0 <= i < |word| => word[i] as int as CodePoint)
  }

  /** The words of the filter language. */
  lemma Words()
    ensures ALL == Ascii("all") && FIELD == Ascii("field") && OP == Ascii("op") && VALUE == Ascii("value")
    ensures EXISTS == Ascii("exists") && ABSENT == Ascii("absent") && EQ == Ascii("eq") && IN == Ascii("in")
    ensures [DOT] == Ascii(".")
  {
  }

  /** What validation says of every object. Nothing is a filter but the empty object, a conjunction of filters, and a leaf: a
      nonempty field, one of the four operators, and with `in` an array of values; a leaf has no other key. Everything else
      is refused, as a type error where the operator cannot be looked up in a set. */
  lemma ValidateExactly(expression: JSON)
    requires expression.JObj?
    ensures var e, verdict := expression.fields, Validate(expression);
            if e == map[] then verdict == Valid
            else if e.Keys == {ALL} then
              if e[ALL].JArr? then verdict == ValidateAll(e[ALL].items) else verdict == InvalidFilter
            else if FIELD !in e || OP !in e || !(forall key | key in e :: key == FIELD || key == OP || key == VALUE)
                    || !e[FIELD].JStr? || e[FIELD].text == [] then
              verdict == InvalidFilter
            else if e[OP].JArr? || e[OP].JObj? then verdict == TypeError
            else if e[OP] == JStr(EXISTS) || e[OP] == JStr(ABSENT) || e[OP] == JStr(EQ) then verdict == Valid
            else if e[OP] == JStr(IN) && VALUE in e && e[VALUE].JArr? then verdict == Valid
            else verdict == InvalidFilter
  {
    assert EXISTS != IN && ABSENT != IN && EQ != IN by { assert |EXISTS| != |IN| && |ABSENT| != |IN| && EQ[0] != IN[0]; }
  }

  /** A conjunction is refused for its first child that is not a filter, as that child would be. */
  lemma {:induction false} FirstFault(children: seq<JSON>, i: nat)
    requires i < |children| && (forall j | 0 <= j < i :: Filter(children[j])) && !Filter(children[i])
    ensures ValidateAll(children) == if children[i].JObj? then Validate(children[i]) else InvalidFilter
  {
    if i > 0 {
      assert Filter(children[0]);
      assert forall j | 0 <= j < i - 1 :: children[1..][j] == children[j + 1];
      FirstFault(children[1..], i - 1);
    }
  }

  predicate Filter(expression: JSON) {
    expression.JObj? && Validate(expression).Valid?
  }

  lemma {:induction false} ValidChildren(children: seq<JSON>)
    ensures ValidateAll(children).Valid? <==> forall i | 0 <= i < |children| :: Filter(children[i])
  {
    if children != [] {
      ValidChildren(children[1..]);
      assert forall i | 0 < i < |children| :: children[i] == children[1..][i - 1];
      if forall i | 0 <= i < |children| :: Filter(children[i]) {
        assert forall i | 0 <= i < |children[1..]| :: children[1..][i] == children[i + 1];
      }
    }
  }

  function Expected(e: Object): JSON {
    if VALUE in e then e[VALUE] else JNull
  }

  // ---- field paths ----

  /** str.split("."): never empty, and a leading, trailing or doubled dot gives an empty part. */
  function Split(field: Text): (parts: seq<Text>)
    ensures parts != [] && Join(parts, [DOT]) == field && forall part :: part in parts ==> DOT !in part
  {
    if field == [] then [[]]
    else
      var rest := Split(field[1..]);
      if field[0] == DOT then [[]] + rest else [[field[0]] + rest[0]] + rest[1..]
  }

  function Join(parts: seq<Text>, separator: Text): Text
    requires parts != []
  {
    if |parts| == 1 then parts[0] else parts[0] + separator + Join(parts[1..], separator)
  }

  /** The value at a path of object keys; null where a key is missing or a step meets no object. */
  function At(value: JSON, path: seq<Text>): JSON
    decreases |path|
  {
    if path == [] then value
    else if value.JObj? && path[0] in value.fields then At(value.fields[path[0]], path[1..])
    else JNull
  }

  // ---- meaning ----

  /** A NaN is among nothing. */
  predicate Among(value: JSON, candidates: seq<JSON>) {
    value in candidates && Reflexive(value)
  }

  predicate AnyOf(items: seq<JSON>, candidates: seq<JSON>) {
    exists i | 0 <= i < |items| :: Among(items[i], candidates)
  }

  /** One leaf. */
  predicate Leaf(value: JSON, op: Text, expected: JSON) {
    if op == EXISTS then !value.JNull?
    else if op == ABSENT then value.JNull?
    else if op == EQ then value == expected && Reflexive(value)
    else
      op == IN && expected.JArr?
      && if value.JArr? then AnyOf(value.items, expected.items)
         else Among(value, expected.items)
  }

  /** What a filter means. */
  predicate Meaning(document: Object, expression: JSON)
    requires Filter(expression)
    decreases expression
  {
    var e := expression.fields;
    if e == map[] then true
    else if e.Keys == {ALL} then
      ValidChildren(e[ALL].items);
      forall i | 0 <= i < |e[ALL].items| :: Meaning(document, e[ALL].items[i])
    else Leaf(At(JObj(document), Split(e[FIELD].text)), e[OP].text, Expected(e))
  }

  // ---- the checks as they are carried out ----

  method Traverse(document: Object, field: Text) returns (value: JSON)
    ensures value == At(JObj(document), Split(field))
  {
    value := JObj(document);
    var parts := Split(field);
    for i := 0 to |parts|
      invariant At(JObj(document), parts) == At(value, parts[i..])
    {
      assert parts[i..][1..] == parts[i + 1..];
      if !value.JObj? || parts[i] !in value.fields {
        value := JNull;
        break;
      }
      value := value.fields[parts[i]];
    }
  }

  method Candidate(value: JSON, candidates: seq<JSON>) returns (found: bool)
    ensures found <==> Among(value, candidates)
  {
    found := false;
    for i := 0 to |candidates|
      invariant !found && !Among(value, candidates[..i])
    {
      EqualIsEquality(value, candidates[i]);
      if Equal(value, candidates[i]) { return true; }
    }
  }

  method AnyCandidate(items: seq<JSON>, candidates: seq<JSON>) returns (found: bool)
    ensures found <==> AnyOf(items, candidates)
  {
    found := false;
    for i := 0 to |items|
      invariant !found && forall j | 0 <= j < i :: !Among(items[j], candidates)
    {
      found := Candidate(items[i], candidates);
      if found { return; }
    }
  }

  /** matches: raises exactly what validation raises, and otherwise decides the meaning. */
  method Matches(document: Object, expression: JSON) returns (outcome: Outcome)
    requires expression.JObj?
    ensures outcome == if Filter(expression) then Holds(Meaning(document, expression)) else Raises(Validate(expression))
    decreases expression
  {
    var verdict := Validate(expression);
    if !verdict.Valid? { return Raises(verdict); }
    var e := expression.fields;
    if e == map[] { return Holds(true); }
    if e.Keys == {ALL} {
      var children := e[ALL].items;
      ValidChildren(children);
      for i := 0 to |children|
        invariant forall j | 0 <= j < i :: Meaning(document, children[j])
      {
        var child := Matches(document, children[i]);
        if child == Holds(false) { return Holds(false); }
      }
      return Holds(true);
    }
    var value := Traverse(document, e[FIELD].text);
    var expected := Expected(e);
    if e[OP].text == EXISTS {
      outcome := Holds(!value.JNull?);
    } else if e[OP].text == ABSENT {
      outcome := Holds(value.JNull?);
    } else if e[OP].text == EQ {
      EqualIsEquality(value, expected);
      outcome := Holds(Equal(value, expected));
    } else {
      var found;
      if value.JArr? {
        found := AnyCandidate(value.items, expected.items);
      } else {
        found := Candidate(value, expected.items);
      }
      outcome := Holds(found);
    }
  }
}
