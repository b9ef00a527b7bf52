/** The part of a filter that is pushed to the vector index (eligibility.py), which must never reject a match. */
module VectorFilters {
  import opened Options
  import opened Json
  import opened Filters
  import opened Criteria

  /** A condition on a field of a point's payload; an array field meets it when one of its elements does. */
  datatype Condition =
    | MatchValue(key: Text, value: JSON)
    | MatchAny(key: Text, values: set<Text>)
    | NumberRange(key: Text, gte: real, lte: real)
    | NotExpired(now: Time)

  datatype Point = Point(payload: Object, validUntil: Option<Time>)

  const DOCUMENT_KEYS := {KIND, AGENT_ID, SUBJECT_ID, TAGS}
  const MEMORY_ONLY := {KIND, SUBJECT_ID, TAGS}
  const EXACT_INTEGERS := 9007199254740992.0   // 2 ** 53

  predicate Pushable(key: Text, raw: bool) {
    && !(raw && key in MEMORY_ONLY)
    && (key in DOCUMENT_KEYS || CONTEXT + [DOT] <= key)
  }

  predicate SmallInteger(value: JSON) {
    value.JNum? && value.number == value.number.Floor as real && -EXACT_INTEGERS <= value.number <= EXACT_INTEGERS
  }

  /** The whole numbers up to the fifty-third power of two, either way. */
  lemma SmallIntegers(value: JSON)
    ensures SmallInteger(value) <==>
              value.JNum? && value.number.Floor as real == value.number
              && -0x20_0000_0000_0000 <= value.number.Floor <= 0x20_0000_0000_0000
  {
  }

  predicate AllStrings(items: seq<JSON>) {
    forall i | 0 <= i < |items| :: items[i].JStr?
  }

  function Strings(items: seq<JSON>): set<Text>
    requires AllStrings(items)
  {
    set i | 0 <= i < |items| :: items[i].text
  }

  function VectorFilters(expression: JSON, raw: bool): seq<Condition>
    requires Filter(expression)
    decreases expression, 1
  {
    var e := expression.fields;
    if e == map[] then []
    else if ALL in e then
      ValidChildren(e[ALL].items);
      VectorFiltersAll(e[ALL].items, raw)
    else
      var key, op, value := e[FIELD].text, e[OP].text, Expected(e);
      if !Pushable(key, raw) then []
      else if op == EQ && (value.JStr? || value.JBool?) then [MatchValue(key, value)]
      else if op == EQ && SmallInteger(value) then [NumberRange(key, value.number, value.number)]
      else if op == IN && value.items != [] && AllStrings(value.items) then [MatchAny(key, Strings(value.items))]
      else []
  }

  function VectorFiltersAll(children: seq<JSON>, raw: bool): seq<Condition>
    requires forall i | 0 <= i < |children| :: Filter(children[i])
    decreases children, 0
  {
    if children == [] then [] else VectorFilters(children[0], raw) + VectorFiltersAll(children[1..], raw)
  }

  function Elements(value: JSON): seq<JSON> {
    if value.JArr? then value.items else [value]
  }

  predicate Meets(value: JSON, condition: Condition) {
    match condition
    case MatchValue(_, expected) => value == expected
    case MatchAny(_, values) => value.JStr? && value.text in values
    case NumberRange(_, gte, lte) => value.JNum? && gte <= value.number <= lte
    case NotExpired(_) => false
  }

  // ---- how the index reads a key ----

  /** A step of a payload path: an object key, an array index, or every element of an array. */
  datatype Item = Key(name: Text) | Index(n: nat) | Every

  const QUOTE: CodePoint := 34
  const OPEN: CodePoint := 91
  const CLOSE: CodePoint := 93

  predicate Digit(c: CodePoint) {
    48 <= c <= 57
  }

  /** A letter, a digit, `_` or `-`. */
  predicate WordChar(c: CodePoint) {
    Digit(c) || 65 <= c <= 90 || 97 <= c <= 122 || c == 95 || c == 45
  }

  /** The characters these are. */
  lemma Characters(c: CodePoint)
    ensures Digit(c) <==> '0' as int <= c as int <= '9' as int
    ensures WordChar(c) <==> '0' as int <= c as int <= '9' as int || 'A' as int <= c as int <= 'Z' as int
                             || 'a' as int <= c as int <= 'z' as int || c as int == '_' as int || c as int == '-' as int
    ensures QUOTE as int == '"' as int && OPEN as int == '[' as int && CLOSE as int == ']' as int
  {
  }

  function WordLength(s: Text): (n: nat)
    ensures n <= |s| && (forall i | 0 <= i < n :: WordChar(s[i])) && (n < |s| ==> !WordChar(s[n]))
  {
    if s == [] || !WordChar(s[0]) then 0 else 1 + WordLength(s[1..])
  }

  function DigitLength(s: Text): (n: nat)
    ensures n <= |s| && forall i | 0 <= i < n :: Digit(s[i])
  {
    if s == [] || !Digit(s[0]) then 0 else 1 + DigitLength(s[1..])
  }

  function Number(digits: Text): nat
    requires forall i | 0 <= i < |digits| :: Digit(digits[i])
  {
    if digits == [] then 0
    else
      var last := |digits| - 1;
      assert Digit(digits[last]);
      Number(digits[..last]) * 10 + (digits[last] as int - 48)
  }

  /** Up to the closing quote, if there is one. */
  function QuotedLength(s: Text): (n: Option<nat>)
    ensures n.Some? ==> n.value < |s|
  {
    if s == [] then None
    else if s[0] == QUOTE then Some(0)
    else
      var rest := QuotedLength(s[1..]);
      if rest.None? then None else Some(1 + rest.value)
  }

  function Then(item: Item, rest: Option<seq<Item>>): Option<seq<Item>> {
    if rest.None? then None else Some([item] + rest.value)
  }

  /** A word or a quoted name after a dot, a number in brackets, or empty brackets; none: not a path, and the query is
      an error. */
  function ReadItems(s: Text): Option<seq<Item>>
    decreases |s|
  {
    if s == [] then Some([])
    else if s[0] == DOT then
      var n := WordLength(s[1..]);
      if n > 0 then Then(Key(s[1..1 + n]), ReadItems(s[1 + n..]))
      else if |s| < 2 || s[1] != QUOTE || QuotedLength(s[2..]).None? then None
      else
        var m := QuotedLength(s[2..]).value;
        Then(Key(s[2..2 + m]), ReadItems(s[3 + m..]))
    else if s[0] == OPEN then
      var n := DigitLength(s[1..]);
      if |s| < n + 2 || s[n + 1] != CLOSE then None
      else Then(if n == 0 then Every else Index(Number(s[1..1 + n])), ReadItems(s[n + 2..]))
    else None
  }

  /** A key is a name and then any steps. */
  function ReadKey(key: Text): Option<seq<Item>> {
    ReadItems([DOT] + key)
  }

  /** What a payload holds along a path. */
  function Values(value: JSON, items: seq<Item>): seq<JSON>
    decreases |items|, 0
  {
    if items == [] then [value]
    else match items[0]
      case Key(name) =>
        if value.JObj? && name in value.fields then Values(value.fields[name], items[1..]) else []
      case Index(n) => if value.JArr? && n < |value.items| then Values(value.items[n], items[1..]) else []
      case Every => if value.JArr? then ValuesAll(value.items, items[1..], |value.items|) else []
  }

  function ValuesAll(elements: seq<JSON>, items: seq<Item>, n: nat): seq<JSON>
    requires n <= |elements|
    decreases |items|, n + 1
  {
    if n == 0 then [] else ValuesAll(elements, items, n - 1) + Values(elements[n - 1], items)
  }

  /** The value lies at the end of the path: through a member of an object, an element of an array by its index, or any. */
  predicate Reaches(value: JSON, items: seq<Item>, end: JSON)
    decreases |items|
  {
    if items == [] then end == value
    else match items[0]
      case Key(name) => value.JObj? && name in value.fields && Reaches(value.fields[name], items[1..], end)
      case Index(n) => value.JArr? && n < |value.items| && Reaches(value.items[n], items[1..], end)
      case Every => value.JArr? && exists i | 0 <= i < |value.items| :: Reaches(value.items[i], items[1..], end)
  }

  /** The values of a path are exactly those at its end. */
  lemma {:induction false} ValuesExactly(value: JSON, items: seq<Item>, end: JSON)
    ensures end in Values(value, items) <==> Reaches(value, items, end)
    decreases |items|
  {
    if items != [] {
      if items[0].Every? && value.JArr? {
        forall i | 0 <= i < |value.items| { ValuesExactly(value.items[i], items[1..], end); }
        AllExactly(value.items, items[1..], |value.items|, end);
      } else if items[0].Key? && value.JObj? && items[0].name in value.fields {
        ValuesExactly(value.fields[items[0].name], items[1..], end);
      } else if items[0].Index? && value.JArr? && items[0].n < |value.items| {
        ValuesExactly(value.items[items[0].n], items[1..], end);
      }
    }
  }

  lemma {:induction false} AllExactly(elements: seq<JSON>, items: seq<Item>, n: nat, end: JSON)
    requires n <= |elements|
    ensures end in ValuesAll(elements, items, n) <==> exists i :: 0 <= i < n && end in Values(elements[i], items)
  {
    if n > 0 {
      AllExactly(elements, items, n - 1, end);
    }
  }

  predicate MeetsAny(values: seq<JSON>, condition: Condition) {
    exists k | 0 <= k < |values| :: exists i | 0 <= i < |Elements(values[k])| :: Meets(Elements(values[k])[i], condition)
  }

  predicate Satisfied(point: Point, condition: Condition) {
    if condition.NotExpired? then point.validUntil.None? || point.validUntil.value > condition.now
    else ReadKey(condition.key).Some? && MeetsAny(Values(JObj(point.payload), ReadKey(condition.key).value), condition)
  }

  // ---- the keys it reads as the filter does ----

  predicate PlainPart(part: Text) {
    part != [] && forall i | 0 <= i < |part| :: WordChar(part[i])
  }

  /** Nonempty parts of letters, digits, `_` and `-`. */
  predicate PlainKey(key: Text) {
    forall part | part in Split(key) :: PlainPart(part)
  }

  predicate PlainCondition(condition: Condition) {
    condition.NotExpired? || PlainKey(condition.key)
  }

  function AsKeys(parts: seq<Text>): (items: seq<Item>)
    ensures |items| == |parts|
  {
    if parts == [] then [] else [Key(parts[0])] + AsKeys(parts[1..])
  }

  function Dotted(parts: seq<Text>): Text {
    if parts == [] then [] else [DOT] + parts[0] + Dotted(parts[1..])
  }

  lemma {:induction false} DottedJoin(parts: seq<Text>)
    requires parts != []
    ensures Dotted(parts) == [DOT] + Join(parts, [DOT])
  {
    if |parts| > 1 {
      DottedJoin(parts[1..]);
    }
  }

  lemma {:induction false} WordThen(word: Text, rest: Text)
    requires (forall i | 0 <= i < |word| :: WordChar(word[i])) && (rest != [] ==> !WordChar(rest[0]))
    ensures WordLength(word + rest) == |word|
  {
    if word == [] {
      assert word + rest == rest;
    } else {
      assert (word + rest)[1..] == word[1..] + rest;
      WordThen(word[1..], rest);
    }
  }

  lemma ReadStep(s: Text, n: nat)
    requires s != [] && s[0] == DOT && n == WordLength(s[1..]) && n > 0
    ensures ReadItems(s) == Then(Key(s[1..1 + n]), ReadItems(s[1 + n..]))
  {
    hide WordLength;
  }

  lemma ReadWord(word: Text, rest: Text, s: Text)
    requires PlainPart(word) && (rest != [] ==> !WordChar(rest[0])) && s == [DOT] + word + rest
    ensures ReadItems(s) == Then(Key(word), ReadItems(rest))
  {
    WordThen(word, rest);
    hide ReadItems, WordLength, WordChar;
    assert s[1..] == word + rest;
    ReadStep(s, |word|);
    assert s[1..1 + |word|] == word && s[1 + |word|..] == rest;
  }

  lemma {:induction false} PlainRead(parts: seq<Text>)
    requires forall part | part in parts :: PlainPart(part)
    ensures ReadItems(Dotted(parts)) == Some(AsKeys(parts))
  {
    if parts != [] {
      PlainRead(parts[1..]);
      assert PlainPart(parts[0]);
      ReadWord(parts[0], Dotted(parts[1..]), Dotted(parts));
    }
  }

  function Decimal(n: nat): (digits: Text)
    ensures digits != [] && forall i | 0 <= i < |digits| :: Digit(digits[i])
  {
    if n < 10 then [48 + n as CodePoint] else Decimal(n / 10) + [48 + (n % 10) as CodePoint]
  }

  /** How a step is written: a plain name as it is, any other in quotes. */
  function ItemText(item: Item): Text {
    match item
    case Key(name) => if PlainPart(name) then [DOT] + name else [DOT, QUOTE] + name + [QUOTE]
    case Index(n) => [OPEN] + Decimal(n) + [CLOSE]
    case Every => [OPEN, CLOSE]
  }

  function Written(items: seq<Item>): Text {
    if items == [] then [] else ItemText(items[0]) + Written(items[1..])
  }

  lemma {:induction false} NumberOfDecimal(n: nat)
    ensures Number(Decimal(n)) == n
  {
    if n >= 10 {
      NumberOfDecimal(n / 10);
      assert Decimal(n)[..|Decimal(n)| - 1] == Decimal(n / 10);
    } else {
      assert [48 + n as CodePoint][..0] == [];
      assert Number([]) == 0;
    }
  }

  lemma {:induction false} DigitsThen(digits: Text, rest: Text)
    requires (forall i | 0 <= i < |digits| :: Digit(digits[i])) && (rest != [] ==> !Digit(rest[0]))
    ensures DigitLength(digits + rest) == |digits|
  {
    if digits == [] {
      assert digits + rest == rest;
    } else {
      assert (digits + rest)[1..] == digits[1..] + rest;
      DigitsThen(digits[1..], rest);
    }
  }

  lemma {:induction false} QuoteThen(name: Text, rest: Text)
    requires QUOTE !in name
    ensures QuotedLength(name + [QUOTE] + rest) == Some(|name|)
  {
    var s := name + [QUOTE] + rest;
    if name != [] {
      assert s[0] == name[0] && s[1..] == name[1..] + [QUOTE] + rest;
      QuoteThen(name[1..], rest);
    }
  }

  lemma ReadQuoted(name: Text, rest: Text, s: Text)
    requires QUOTE !in name && s == [DOT, QUOTE] + name + [QUOTE] + rest
    ensures ReadItems(s) == Then(Key(name), ReadItems(rest))
  {
    QuoteThen(name, rest);
    assert s[2..] == name + [QUOTE] + rest && s[1..][0] == QUOTE;
    assert s[2..2 + |name|] == name && s[3 + |name|..] == rest;
    assert WordLength(s[1..]) == 0;
    hide QuotedLength, WordLength;
  }

  lemma ReadBrackets(digits: Text, rest: Text, s: Text)
    requires (forall i | 0 <= i < |digits| :: Digit(digits[i])) && s == [OPEN] + digits + [CLOSE] + rest
    ensures ReadItems(s) == Then(if digits == [] then Every else Index(Number(digits)), ReadItems(rest))
  {
    DigitsThen(digits, [CLOSE] + rest);
    assert s[1..] == digits + ([CLOSE] + rest);
    assert s[1..1 + |digits|] == digits && s[|digits| + 2..] == rest && s[|digits| + 1] == CLOSE;
    hide DigitLength, Number;
  }

  lemma ReadItem(item: Item, rest: Text, s: Text)
    requires (item.Key? ==> QUOTE !in item.name) && s == ItemText(item) + rest && (rest != [] ==> !WordChar(rest[0]))
    ensures ReadItems(s) == Then(item, ReadItems(rest))
  {
    hide ReadItems, WordChar, Then, Number, Decimal;
    match item
    case Key(name) =>
      if PlainPart(name) {
        ReadWord(name, rest, s);
      } else {
        ReadQuoted(name, rest, s);
      }
    case Index(n) =>
      NumberOfDecimal(n);
      ReadBrackets(Decimal(n), rest, s);
    case Every =>
      assert [OPEN] + [] + [CLOSE] + rest == s;
      ReadBrackets([], rest, s);
  }

  lemma WrittenStarts(items: seq<Item>)
    ensures Written(items) != [] ==> !WordChar(Written(items)[0])
  {
  }

  /** Names, indices and empty brackets are read back as they were written, and any name without a quote can be. */
  lemma {:induction false} KeyRoundTrip(items: seq<Item>)
    requires forall i | 0 <= i < |items| :: items[i].Key? ==> QUOTE !in items[i].name
    ensures ReadItems(Written(items)) == Some(items)
  {
    if items != [] {
      KeyRoundTrip(items[1..]);
      WrittenStarts(items[1..]);
      ReadItem(items[0], Written(items[1..]), Written(items));
      hide ReadItems, Written;
      assert [items[0]] + items[1..] == items;
    }
  }

  /** A text that names this step: a nonempty word or a quoted name after a dot, digits in brackets, or empty brackets. */
  predicate Spells(text: Text, item: Item) {
    match item
    case Key(name) => (PlainPart(name) && text == [DOT] + name) || (QUOTE !in name && text == [DOT, QUOTE] + name + [QUOTE])
    case Index(n) =>
      && |text| > 2 && text[0] == OPEN && text[|text| - 1] == CLOSE
      && (forall i | 0 < i < |text| - 1 :: Digit(text[i])) && Number(text[1..|text| - 1]) == n
    case Every => text == [OPEN, CLOSE]
  }

  function Concat(texts: seq<Text>): Text {
    if texts == [] then [] else texts[0] + Concat(texts[1..])
  }

  lemma {:induction false} QuotedHasNoQuote(s: Text)
    requires QuotedLength(s).Some?
    ensures var n := QuotedLength(s).value; s[n] == QUOTE && QUOTE !in s[..n]
  {
    if s[0] != QUOTE {
      QuotedHasNoQuote(s[1..]);
      var n := QuotedLength(s[1..]).value;
      assert s[..n + 1] == [s[0]] + s[1..][..n];
    }
  }

  /** What begins a text that reads as a path spells the first step, and the rest reads as the others. */
  lemma FirstSpelled(s: Text) returns (n: nat)
    requires s != [] && ReadItems(s).Some?
    ensures 0 < n <= |s|
    ensures var items := ReadItems(s).value; items != [] && Spells(s[..n], items[0]) && ReadItems(s[n..]) == Some(items[1..])
  {
    hide Number, WordChar, Digit;
    if s[0] == DOT {
      var m := WordLength(s[1..]);
      if m > 0 {
        assert s[..1 + m] == [DOT] + s[1..1 + m];
        assert PlainPart(s[1..1 + m]) by { assert forall i | 0 <= i < m :: s[1..1 + m][i] == s[1..][i]; }
        n := 1 + m;
      } else {
        QuotedHasNoQuote(s[2..]);
        m := QuotedLength(s[2..]).value;
        assert s[2..][..m] == s[2..2 + m];
        assert s[..3 + m] == [DOT, QUOTE] + s[2..2 + m] + [QUOTE];
        n := 3 + m;
      }
    } else {
      n := BracketsSpelled(s);
    }
  }

  lemma BracketsSpelled(s: Text) returns (n: nat)
    requires s != [] && s[0] != DOT && ReadItems(s).Some?
    ensures 0 < n <= |s|
    ensures var items := ReadItems(s).value; items != [] && Spells(s[..n], items[0]) && ReadItems(s[n..]) == Some(items[1..])
  {
    hide Number, WordChar, Digit, WordLength, QuotedLength, PlainPart;
    var m := DigitLength(s[1..]);
    n := m + 2;
    var text := s[..n];
    assert text[1..|text| - 1] == s[1..1 + m];
    assert forall i | 0 < i < n - 1 :: text[i] == s[1..][i - 1];
  }

  /** The index reads nothing else: a text is a path only if it is spelled step by step. */
  lemma {:induction false} ReadIsSpelled(s: Text) returns (texts: seq<Text>)
    requires ReadItems(s).Some?
    ensures var items := ReadItems(s).value;
            |texts| == |items| && Concat(texts) == s && forall i | 0 <= i < |items| :: Spells(texts[i], items[i])
    decreases |s|
  {
    hide Spells;
    if s == [] { return []; }
    var items := ReadItems(s).value;
    var n := FirstSpelled(s);
    var rest := ReadIsSpelled(s[n..]);
    texts := [s[..n]] + rest;
    assert s[..n] + s[n..] == s;
    forall i | 0 <= i < |items|
      ensures Spells(texts[i], items[i])
    {
      if i > 0 { assert Spells(rest[i - 1], items[1..][i - 1]); }
    }
  }

  /** Reading the parts of a key back takes at least the text of the parts, and just that only if they are plain. */
  lemma {:induction false} ReadIsLonger(s: Text, parts: seq<Text>)
    requires ReadItems(s) == Some(AsKeys(parts))
    ensures |Dotted(parts)| <= |s|
    ensures |Dotted(parts)| == |s| ==> forall part | part in parts :: PlainPart(part)
    decreases |s|
  {
    hide WordChar, WordLength, QuotedLength, DigitLength, Digit, Number;
    if parts != [] {
      assert parts == [parts[0]] + parts[1..];
      assert AsKeys(parts)[0] == Key(parts[0]) && AsKeys(parts)[1..] == AsKeys(parts[1..]);
      var n := WordLength(s[1..]);
      if n > 0 {
        assert parts[0] == s[1..1 + n];
        ReadIsLonger(s[1 + n..], parts[1..]);
        assert forall i | 0 <= i < n :: parts[0][i] == s[1..][i];
      } else {
        var m := QuotedLength(s[2..]).value;
        assert parts[0] == s[2..2 + m];
        ReadIsLonger(s[3 + m..], parts[1..]);
      }
    }
  }

  /** The index reads a key as the parts of the field if and only if the key is plain. */
  lemma ReadsAsSplit(key: Text)
    ensures ReadKey(key) == Some(AsKeys(Split(key))) <==> PlainKey(key)
  {
    var parts := Split(key);
    DottedJoin(parts);
    assert Dotted(parts) == [DOT] + key;
    if PlainKey(key) {
      PlainRead(parts);
    }
    if ReadKey(key) == Some(AsKeys(parts)) {
      ReadIsLonger([DOT] + key, parts);
    }
  }

  lemma {:induction false} KeyValuesAny(value: JSON, parts: seq<Text>)
    ensures Values(value, AsKeys(parts)) == [] || Values(value, AsKeys(parts)) == [At(value, parts)]
    decreases |parts|
  {
    if parts != [] {
      assert AsKeys(parts)[1..] == AsKeys(parts[1..]);
      if value.JObj? && parts[0] in value.fields {
        KeyValuesAny(value.fields[parts[0]], parts[1..]);
      }
    }
  }

  lemma {:induction false} KeyValues(value: JSON, parts: seq<Text>)
    requires !At(value, parts).JNull?
    ensures Values(value, AsKeys(parts)) == [At(value, parts)]
    decreases |parts|
  {
    if parts != [] {
      assert AsKeys(parts)[1..] == AsKeys(parts[1..]);
      KeyValues(value.fields[parts[0]], parts[1..]);
    }
  }

  /** The point carries what its row says: an index that is up to date with the row. */
  predicate Describes(point: Point, row: Row, raw: bool) {
    && (forall key | key in Document(row) && !(raw && key in MEMORY_ONLY) ::
          key in point.payload && point.payload[key] == Document(row)[key])
    && (!raw ==> point.validUntil == row.validUntil
                 && SOURCE_ROLE in point.payload && point.payload[SOURCE_ROLE] == JStr(row.sourceRole))
  }

  lemma {:induction false} SplitPrefix(prefix: Text, rest: Text)
    requires DOT !in prefix
    ensures Split(prefix + [DOT] + rest) == [prefix] + Split(rest)
  {
    var field := prefix + [DOT] + rest;
    if prefix == [] {
      assert field[1..] == rest;
    } else {
      assert field[1..] == prefix[1..] + [DOT] + rest;
      SplitPrefix(prefix[1..], rest);
      assert prefix == [prefix[0]] + prefix[1..];
    }
  }

  lemma {:induction false} SplitWord(word: Text)
    requires DOT !in word
    ensures Split(word) == [word]
  {
    if word != [] {
      SplitWord(word[1..]);
      assert word == [word[0]] + word[1..];
    }
  }

  lemma AtStep(fields: Object, key: Text, rest: seq<Text>)
    requires key in fields
    ensures At(JObj(fields), [key] + rest) == At(fields[key], rest) && [key] + [] == [key]
  {
    assert ([key] + rest)[1..] == rest;
  }

  /** A pushable field is read alike from the document and from the payload. */
  lemma SameField(point: Point, row: Row, raw: bool, key: Text)
    requires Describes(point, row, raw) && Pushable(key, raw)
    ensures At(JObj(point.payload), Split(key)) == At(JObj(Document(row)), Split(key))
  {
    if key in DOCUMENT_KEYS {
      SplitWord(key);
      assert key in Document(row);
      AtStep(point.payload, key, []);
      AtStep(Document(row), key, []);
    } else {
      assert key == CONTEXT + [DOT] + key[8..];
      SplitPrefix(CONTEXT, key[8..]);
      assert CONTEXT in Document(row);
      AtStep(point.payload, CONTEXT, Split(key[8..]));
      AtStep(Document(row), CONTEXT, Split(key[8..]));
    }
  }

  /** Under a plain key a point meets a condition when an element of the value at the field does. */
  lemma MeetsAt(point: Point, condition: Condition, value: JSON, i: nat)
    requires !condition.NotExpired? && PlainKey(condition.key) && value == At(JObj(point.payload), Split(condition.key))
    requires !value.JNull? && i < |Elements(value)| && Meets(Elements(value)[i], condition)
    ensures Satisfied(point, condition)
  {
    ReadsAsSplit(condition.key);
    KeyValues(JObj(point.payload), Split(condition.key));
    hide Meets, At, Split, ReadKey, Values, PlainKey;
    assert [value][0] == value;
  }

  /** Every condition pushed for one leaf under a plain key holds of every point whose row matches the leaf. */
  lemma LeafPushed(point: Point, row: Row, expression: JSON, raw: bool, condition: Condition)
    requires Filter(expression) && expression.fields != map[] && ALL !in expression.fields
    requires Describes(point, row, raw) && Meaning(Document(row), expression)
    requires condition in VectorFilters(expression, raw) && PlainCondition(condition)
    ensures Satisfied(point, condition)
  {
    var e := expression.fields;
    var value := At(JObj(Document(row)), Split(e[FIELD].text));
    SameField(point, row, raw, e[FIELD].text);
    hide At, Split, PlainKey, Satisfied, Document, Describes, Pushable;
    if e[OP].text == IN {
      if value.JArr? {
        var i :| 0 <= i < |value.items| && value.items[i] in Expected(e).items;
        MeetsAt(point, condition, value, i);
      } else {
        MeetsAt(point, condition, value, 0);
      }
    } else {
      MeetsAt(point, condition, value, 0);
    }
  }

  /** The pushdown over-approximates: an up-to-date point whose row matches the filter meets every condition pushed under a
      plain key. */
  lemma {:induction false} NeverRejectsAMatch(point: Point, row: Row, expression: JSON, raw: bool, condition: Condition)
    requires Filter(expression) && Describes(point, row, raw) && Meaning(Document(row), expression)
    requires condition in VectorFilters(expression, raw) && PlainCondition(condition)
    ensures Satisfied(point, condition)
    decreases expression, 1
  {
    var e := expression.fields;
    if e != map[] && ALL in e {
      ValidChildren(e[ALL].items);
      NeverRejectsAny(point, row, e[ALL].items, raw, condition);
    } else {
      LeafPushed(point, row, expression, raw, condition);
    }
  }

  lemma {:induction false} NeverRejectsAny(point: Point, row: Row, children: seq<JSON>, raw: bool, condition: Condition)
    requires forall i | 0 <= i < |children| :: Filter(children[i]) && Meaning(Document(row), children[i])
    requires Describes(point, row, raw) && condition in VectorFiltersAll(children, raw) && PlainCondition(condition)
    ensures Satisfied(point, condition)
    decreases children, 0
  {
    if condition in VectorFilters(children[0], raw) {
      NeverRejectsAMatch(point, row, children[0], raw, condition);
    } else {
      NeverRejectsAny(point, row, children[1..], raw, condition);
    }
  }

  // ---- and what the conditions still ask for ----

  /** A leaf that a match of the filter must meet. */
  predicate Asks(expression: JSON, leaf: JSON)
    requires Filter(expression)
    decreases expression
  {
    var e := expression.fields;
    if e == map[] then false
    else if ALL in e then
      ValidChildren(e[ALL].items);
      exists i | 0 <= i < |e[ALL].items| :: Asks(e[ALL].items[i], leaf)
    else expression == leaf
  }

  /** The fields a point has under the same key as a row: for memories the scalar columns, the tags and the context, for raw
      messages the agent and the context. */
  predicate OnPoint(key: Text, raw: bool) {
    key == AGENT_ID || CONTEXT + [DOT] <= key || (!raw && (key == KIND || key == SUBJECT_ID || key == TAGS))
  }

  /** What an index can compare exactly: strings, booleans, integers up to 2 ** 53, and nonempty lists of strings. */
  predicate Comparable(op: Text, value: JSON) {
    if op == EQ then
      value.JStr? || value.JBool?
      || (value.JNum? && value.number == value.number.Floor as real && -9007199254740992.0 <= value.number <= 9007199254740992.0)
    else op == IN && value.JArr? && value.items != [] && forall i | 0 <= i < |value.items| :: value.items[i].JStr?
  }

  /** The payload's value at the field, or one of its elements, is the expected value or one of the listed ones. */
  predicate Reflected(payload: Object, leaf: JSON)
    requires FilterSql.IsLeaf(leaf)
  {
    var e := leaf.fields;
    var found := Elements(At(JObj(payload), Split(e[FIELD].text)));
    exists i | 0 <= i < |found| :: if e[OP].text == IN then found[i] in Expected(e).items else found[i] == Expected(e)
  }

  ghost predicate MeetsAll(point: Point, conditions: seq<Condition>) {
    forall i :: 0 <= i < |conditions| ==> Satisfied(point, conditions[i])
  }

  lemma {:induction false} AskedIsLeaf(expression: JSON, leaf: JSON)
    requires Filter(expression) && Asks(expression, leaf)
    ensures FilterSql.IsLeaf(leaf)
    decreases expression
  {
    var e := expression.fields;
    if ALL in e {
      ValidChildren(e[ALL].items);
      var i :| 0 <= i < |e[ALL].items| && Asks(e[ALL].items[i], leaf);
      AskedIsLeaf(e[ALL].items[i], leaf);
    }
  }

  lemma {:induction false} AskedHolds(document: Object, expression: JSON, leaf: JSON)
    requires Filter(expression) && Meaning(document, expression) && Asks(expression, leaf)
    ensures Filter(leaf) && Meaning(document, leaf)
    decreases expression
  {
    var e := expression.fields;
    if ALL in e {
      ValidChildren(e[ALL].items);
      assert e.Keys == {ALL};
      var i :| 0 <= i < |e[ALL].items| && Asks(e[ALL].items[i], leaf);
      AskedHolds(document, e[ALL].items[i], leaf);
    }
  }

  lemma {:induction false} HoldsIfAsked(document: Object, expression: JSON)
    requires Filter(expression)
    requires forall leaf :: Asks(expression, leaf) ==> Filter(leaf) && Meaning(document, leaf)
    ensures Meaning(document, expression)
    decreases expression
  {
    var e := expression.fields;
    if ALL in e {
      ValidChildren(e[ALL].items);
      assert e.Keys == {ALL};
      forall i | 0 <= i < |e[ALL].items|
        ensures Meaning(document, e[ALL].items[i])
      {
        assert forall leaf :: Asks(e[ALL].items[i], leaf) ==> Asks(expression, leaf);
        HoldsIfAsked(document, e[ALL].items[i]);
      }
    } else if e != map[] {
      assert Asks(expression, expression);
    }
  }

  /** A filter means that everything it asks for holds. */
  lemma AskedAreMeant(document: Object, expression: JSON)
    requires Filter(expression)
    ensures Meaning(document, expression) <==> forall leaf :: Asks(expression, leaf) ==> Filter(leaf) && Meaning(document, leaf)
  {
    hide Asks, Meaning, Filter;
    if Meaning(document, expression) {
      forall leaf | Asks(expression, leaf) ensures Filter(leaf) && Meaning(document, leaf) {
        AskedHolds(document, expression, leaf);
      }
    }
    if forall leaf :: Asks(expression, leaf) ==> Filter(leaf) && Meaning(document, leaf) {
      HoldsIfAsked(document, expression);
    }
  }

  lemma OnPointPushable(key: Text, raw: bool)
    ensures OnPoint(key, raw) <==> Pushable(key, raw)
  {
    assert KIND[0] == 107 && SUBJECT_ID[0] == 115 && TAGS[0] == 116;
    assert CONTEXT + [DOT] <= key ==> key[0] == (CONTEXT + [DOT])[0] == 99;
    assert key == AGENT_ID ==> key[0] == 97;
  }

  /** A leaf the index can compare is pushed. */
  lemma LeafIsPushed(leaf: JSON, raw: bool)
    requires FilterSql.IsLeaf(leaf) && OnPoint(leaf.fields[FIELD].text, raw)
    requires Comparable(leaf.fields[OP].text, Expected(leaf.fields))
    ensures |VectorFilters(leaf, raw)| == 1
    ensures var c := VectorFilters(leaf, raw)[0];
            !c.NotExpired? && c.key == leaf.fields[FIELD].text
            && forall x: JSON :: Meets(x, c) ==>
                 if leaf.fields[OP].text == IN then x in Expected(leaf.fields).items else x == Expected(leaf.fields)
  {
    var e := leaf.fields;
    assert EQ != IN by { assert EQ[0] != IN[0]; }
    OnPointPushable(e[FIELD].text, raw);
    hide Split, Pushable, OnPoint;
    if e[OP].text == IN {
      assert AllStrings(Expected(e).items);
    }
  }

  lemma LeafReflected(point: Point, leaf: JSON, raw: bool)
    requires FilterSql.IsLeaf(leaf) && OnPoint(leaf.fields[FIELD].text, raw)
    requires Comparable(leaf.fields[OP].text, Expected(leaf.fields)) && PlainKey(leaf.fields[FIELD].text)
    requires MeetsAll(point, VectorFilters(leaf, raw))
    ensures Reflected(point.payload, leaf)
  {
    LeafIsPushed(leaf, raw);
    var c := VectorFilters(leaf, raw)[0];
    var parts := Split(c.key);
    assert Satisfied(point, c);
    ReadsAsSplit(c.key);
    KeyValuesAny(JObj(point.payload), parts);
    hide Split, PlainKey, Comparable, OnPoint, VectorFilters, ReadKey, At, Meets, FilterSql.IsLeaf;
    assert [At(JObj(point.payload), parts)][0] == At(JObj(point.payload), parts);
  }

  lemma {:induction false} PushedReflected(point: Point, expression: JSON, leaf: JSON, raw: bool)
    requires Filter(expression) && Asks(expression, leaf) && FilterSql.IsLeaf(leaf)
    requires OnPoint(leaf.fields[FIELD].text, raw) && PlainKey(leaf.fields[FIELD].text)
    requires Comparable(leaf.fields[OP].text, Expected(leaf.fields)) && MeetsAll(point, VectorFilters(expression, raw))
    ensures Reflected(point.payload, leaf)
    decreases expression
  {
    hide Reflected, Comparable, OnPoint, PlainKey, Satisfied;
    var e := expression.fields;
    if ALL in e {
      ValidChildren(e[ALL].items);
      var i :| 0 <= i < |e[ALL].items| && Asks(e[ALL].items[i], leaf);
      ChildPushed(e[ALL].items, i, raw);
      forall j | 0 <= j < |VectorFilters(e[ALL].items[i], raw)|
        ensures Satisfied(point, VectorFilters(e[ALL].items[i], raw)[j])
      {
        var c := VectorFilters(e[ALL].items[i], raw)[j];
        assert c in VectorFilters(expression, raw);
      }
      PushedReflected(point, e[ALL].items[i], leaf, raw);
    } else {
      LeafReflected(point, leaf, raw);
    }
  }

  lemma {:induction false} ChildPushed(children: seq<JSON>, i: nat, raw: bool)
    requires (forall j | 0 <= j < |children| :: Filter(children[j])) && i < |children|
    ensures forall c :: c in VectorFilters(children[i], raw) ==> c in VectorFiltersAll(children, raw)
    decreases |children|
  {
    if i > 0 {
      assert forall j | 0 <= j < |children[1..]| :: children[1..][j] == children[j + 1];
      ChildPushed(children[1..], i - 1, raw);
    }
  }

  /** A point that has one of these names under a column of its own. */
  predicate Named(payload: Object, column: Text, names: set<Text>) {
    column in payload
    && exists i | 0 <= i < |Elements(payload[column])| ::
         Elements(payload[column])[i].JStr? && Elements(payload[column])[i].text in names
  }

  lemma NamedIfMet(point: Point, column: Text, names: set<Text>)
    requires PlainKey(column) && DOT !in column && Satisfied(point, MatchAny(column, names))
    ensures Named(point.payload, column, names)
  {
    SplitWord(column);
    ReadsAsSplit(column);
    KeyValuesAny(JObj(point.payload), [column]);
    hide ReadKey, Split, PlainKey;
    AtColumn(point.payload, column);
  }

  lemma AtColumn(payload: Object, column: Text)
    ensures At(JObj(payload), [column]) == if column in payload then payload[column] else JNull
  {
    assert [column][1..] == [];
  }

  lemma RolePlain()
    ensures PlainKey(SOURCE_ROLE) && DOT !in SOURCE_ROLE && PlainKey(KIND) && DOT !in KIND
  {
    assert PlainPart(SOURCE_ROLE) && DOT !in SOURCE_ROLE;
    WordsPlain();
    hide PlainPart;
    SplitWord(SOURCE_ROLE);
    SplitWord(KIND);
  }

  /** A point that shows, at each field of the filter that the index can compare, what the filter expects there. */
  ghost predicate ReflectsAll(point: Point, expression: JSON, raw: bool)
    requires Filter(expression)
  {
    forall leaf :: FilterSql.IsLeaf(leaf) && Asks(expression, leaf) && OnPoint(leaf.fields[FIELD].text, raw)
                   && PlainKey(leaf.fields[FIELD].text) && Comparable(leaf.fields[OP].text, Expected(leaf.fields))
                   ==> Reflected(point.payload, leaf)
  }

  lemma AllReflected(point: Point, expression: JSON, raw: bool)
    requires Filter(expression) && MeetsAll(point, VectorFilters(expression, raw))
    ensures ReflectsAll(point, expression, raw)
  {
    hide Reflected, Comparable, OnPoint, PlainKey, Satisfied, VectorFilters;
    forall leaf | FilterSql.IsLeaf(leaf) && Asks(expression, leaf) && OnPoint(leaf.fields[FIELD].text, raw)
                  && PlainKey(leaf.fields[FIELD].text) && Comparable(leaf.fields[OP].text, Expected(leaf.fields))
      ensures Reflected(point.payload, leaf)
    {
      PushedReflected(point, expression, leaf, raw);
    }
  }

  lemma ByNames(point: Point, column: Text, names: set<Text>, conditions: seq<Condition>)
    requires (column == KIND || column == SOURCE_ROLE) && conditions == [MatchAny(column, names)] && MeetsAll(point, conditions)
    ensures Named(point.payload, column, names)
  {
    RolePlain();
    hide PlainKey, Satisfied, Named;
    assert Satisfied(point, conditions[0]);
    NamedIfMet(point, column, names);
  }

  lemma ByTime(point: Point, now: Time, conditions: seq<Condition>)
    requires conditions == [NotExpired(now)] && MeetsAll(point, conditions)
    ensures point.validUntil.None? || point.validUntil.value > now
  {
    assert Satisfied(point, conditions[0]);
  }

  /** One of the conditions added to the filter's own holds of the point of a kept row. */
  lemma AddedHolds(point: Point, row: Row, expression: JSON, kinds: seq<Text>, roles: Option<set<Text>>, now: Time,
                   window: Option<Window>, condition: Condition)
    requires Filter(expression) && Describes(point, row, false) && Kept(row, expression, kinds, roles, now, window)
    requires condition == NotExpired(now) || (kinds != [] && condition == MatchAny(KIND, set k | k in kinds))
             || (roles.Some? && condition == MatchAny(SOURCE_ROLE, roles.value))
    ensures Satisfied(point, condition)
  {
    if condition.MatchAny? {
      RolePlain();
      KeyPushed(point, row, condition);
    }
  }

  /** memory_vectors: the dense arm can propose every up-to-date point whose row the recheck keeps, as far as the filter names
      its fields by plain keys; and a point that meets what it asks for is unexpired, of one of the kinds and roles, and
      shows at each field of the filter that the index can compare what the filter expects there. */
  method MemoryVectors(expression: JSON, kinds: seq<Text>, roles: Option<set<Text>>, now: Time)
    returns (conditions: seq<Condition>)
    requires Filter(expression)
    ensures forall point: Point, row: Row, window: Option<Window>, i: nat ::
              Describes(point, row, false) && Kept(row, expression, kinds, roles, now, window)
              && i < |conditions| && PlainCondition(conditions[i])
              ==> Satisfied(point, conditions[i])
    ensures forall point: Point {:trigger MeetsAll(point, conditions)} :: MeetsAll(point, conditions) ==>
              && (point.validUntil.None? || point.validUntil.value > now)
              && (kinds != [] ==> Named(point.payload, KIND, set k | k in kinds))
              && (roles.Some? ==> Named(point.payload, SOURCE_ROLE, roles.value))
              && ReflectsAll(point, expression, false)
  {
    hide *;
    var pushed := VectorFilters(expression, false);
    var byKind, byRole := [], [];
    if kinds != [] {
      byKind := [MatchAny(KIND, set k | k in kinds)];
    }
    if roles.Some? {
      byRole := [MatchAny(SOURCE_ROLE, roles.value)];
    }
    conditions := pushed + byKind + byRole + [NotExpired(now)];
    forall point: Point, row: Row, window: Option<Window>, i: nat
      | Describes(point, row, false) && Kept(row, expression, kinds, roles, now, window) && i < |conditions|
        && PlainCondition(conditions[i])
      ensures Satisfied(point, conditions[i])
    {
      if i < |pushed| {
        KeptMeans(row, expression, kinds, roles, now, window);
        NeverRejectsAMatch(point, row, expression, false, pushed[i]);
      } else {
        AddedHolds(point, row, expression, kinds, roles, now, window, conditions[i]);
      }
    }
    forall point: Point | MeetsAll(point, conditions)
      ensures point.validUntil.None? || point.validUntil.value > now
      ensures kinds != [] ==> Named(point.payload, KIND, set k | k in kinds)
      ensures roles.Some? ==> Named(point.payload, SOURCE_ROLE, roles.value)
      ensures ReflectsAll(point, expression, false)
    {
      MeetsParts(point, pushed, byKind, byRole, [NotExpired(now)]);
      ByTime(point, now, [NotExpired(now)]);
      if kinds != [] { ByNames(point, KIND, (set k | k in kinds), byKind); }
      if roles.Some? { ByNames(point, SOURCE_ROLE, roles.value, byRole); }
      AllReflected(point, expression, false);
    }
  }

  lemma KeptMeans(row: Row, expression: JSON, kinds: seq<Text>, roles: Option<set<Text>>, now: Time, window: Option<Window>)
    requires Filter(expression) && Kept(row, expression, kinds, roles, now, window)
    ensures Meaning(Document(row), expression)
  {
  }

  lemma MeetsParts(point: Point, a: seq<Condition>, b: seq<Condition>, c: seq<Condition>, d: seq<Condition>)
    requires MeetsAll(point, a + b + c + d)
    ensures MeetsAll(point, a) && MeetsAll(point, b) && MeetsAll(point, c) && MeetsAll(point, d)
  {
    hide Satisfied;
    var all := a + b + c + d;
    assert forall i :: 0 <= i < |a| ==> all[i] == a[i];
    assert forall i :: 0 <= i < |b| ==> all[|a| + i] == b[i];
    assert forall i :: 0 <= i < |c| ==> all[|a| + |b| + i] == c[i];
    assert forall i :: 0 <= i < |d| ==> all[|a| + |b| + |c| + i] == d[i];
  }

  lemma KeyPushed(point: Point, row: Row, condition: Condition)
    requires Describes(point, row, false) && condition.MatchAny? && PlainKey(condition.key)
    requires (condition.key == KIND && row.kind in condition.values)
             || (condition.key == SOURCE_ROLE && row.sourceRole in condition.values)
    ensures Satisfied(point, condition)
  {
    hide PlainKey, Satisfied;
    SplitWord(condition.key);
    assert KIND in Document(row);
    AtStep(point.payload, condition.key, []);
    MeetsAt(point, condition, point.payload[condition.key], 0);
  }

  // ---- when the pushdown rejects a match ----

  /** The field context.a[0] names one key of the context, and is read as an element of an array. */
  lemma BracketKey(a: CodePoint, tail: Text)
    requires WordChar(a) && tail == [a, OPEN, 48, CLOSE]
    ensures Split(CONTEXT + [DOT] + tail) == [CONTEXT, tail]
    ensures ReadKey(CONTEXT + [DOT] + tail) == Some([Key(CONTEXT), Key([a]), Index(0)])
  {
    hide *;
    WordsPlain();
    LetterPlain(a, tail);
    SplitPrefix(CONTEXT, tail);
    SplitWord(tail);
    var key, bracket: Text := CONTEXT + [DOT] + tail, [OPEN, 48, CLOSE];
    IndexRead(bracket);
    assert [DOT] + key == [DOT] + CONTEXT + ([DOT] + tail);
    ReadWord(CONTEXT, [DOT] + tail, [DOT] + key);
    ReadWord([a], bracket, [DOT] + tail);
    Started(key, [DOT] + key, Key(CONTEXT), Key([a]), Index(0), ReadItems([DOT] + tail), ReadItems(bracket));
  }

  lemma LetterPlain(a: CodePoint, tail: Text)
    requires WordChar(a) && tail == [a, OPEN, 48, CLOSE]
    ensures PlainPart([a]) && DOT !in tail && !WordChar(OPEN) && !WordChar(DOT)
  {
  }

  lemma Started(key: Text, s: Text, a: Item, b: Item, c: Item, middle: Option<seq<Item>>, end: Option<seq<Item>>)
    requires s == [DOT] + key && ReadItems(s) == Then(a, middle) && middle == Then(b, end) && end == Some([c])
    ensures ReadKey(key) == Some([a, b, c])
  {
    hide ReadItems;
    assert [a] + ([b] + [c]) == [a, b, c];
  }

  lemma BracketStep(s: Text, n: nat)
    requires s != [] && s[0] == OPEN && n == DigitLength(s[1..]) && |s| >= n + 2 && s[n + 1] == CLOSE && n > 0
    ensures ReadItems(s) == Then(Index(Number(s[1..1 + n])), ReadItems(s[n + 2..]))
  {
    hide DigitLength, Number;
  }

  lemma IndexRead(bracket: Text)
    requires bracket == [OPEN, 48, CLOSE]
    ensures ReadItems(bracket) == Some([Index(0)])
  {
    var s, digits := bracket[1..], bracket[1..2];
    assert s == [48, CLOSE] && s[1..] == [CLOSE] && digits == [48] && digits[..0] == [] && bracket[3..] == [];
    assert DigitLength([CLOSE]) == 0;
    assert DigitLength(s) == 1;
    assert Digit(digits[0]);
    assert Number(digits) == 0;
    assert ReadItems([]) == Some([]);
    hide DigitLength, Number, ReadItems;
    BracketStep(bracket, 1);
    assert [Index(0)] + [] == [Index(0)];
  }

  /** A document that holds one value, at these keys. */
  function Chain(parts: seq<Text>, value: JSON): JSON {
    if parts == [] then value else JObj(map[parts[0] := Chain(parts[1..], value)])
  }

  lemma {:induction false} ChainAt(parts: seq<Text>, value: JSON)
    ensures At(Chain(parts, value), parts) == value
  {
    if parts != [] {
      ChainAt(parts[1..], value);
    }
  }

  predicate AllObjects(values: seq<JSON>) {
    forall k | 0 <= k < |values| :: values[k].JObj?
  }

  /** Along any other path there is nothing, or an object. */
  lemma {:induction false} ChainElsewhere(parts: seq<Text>, value: JSON, items: seq<Item>)
    requires !value.JObj? && !value.JArr? && items != AsKeys(parts)
    ensures AllObjects(Values(Chain(parts, value), items))
    decreases |parts|
  {
    if parts != [] && items != [] && items[0] == Key(parts[0]) {
      assert items == [items[0]] + items[1..];
      ChainElsewhere(parts[1..], value, items[1..]);
    }
  }

  /** A value that meets the one condition a leaf pushes, and the leaf itself. */
  function Sample(expression: JSON, raw: bool): JSON
    requires IsPushed(expression, raw)
  {
    if expression.fields[OP].text == IN then Expected(expression.fields).items[0] else Expected(expression.fields)
  }

  /** A leaf for which something is pushed. */
  predicate IsPushed(expression: JSON, raw: bool) {
    FilterSql.IsLeaf(expression) && VectorFilters(expression, raw) != []
  }

  function SampleRow(context: Object): Row {
    Row([], None, None, context, [], [], true, None, None, None, None)
  }

  function PointOf(row: Row): Point {
    Point(Document(row)[SOURCE_ROLE := JStr(row.sourceRole)], row.validUntil)
  }

  lemma PointDescribes(row: Row, raw: bool)
    ensures Describes(PointOf(row), row, raw)
  {
  }

  ghost predicate NeverRejects(expression: JSON, raw: bool)
    requires Filter(expression)
  {
    forall point: Point, row: Row, condition: Condition {:trigger Satisfied(point, condition), Describes(point, row, raw)} ::
      Describes(point, row, raw) && Meaning(Document(row), expression) && condition in VectorFilters(expression, raw)
      ==> Satisfied(point, condition)
  }

  /** What is pushed for a leaf: a condition on its field that the sample meets and no object does. */
  lemma PushedCondition(expression: JSON, raw: bool, condition: Condition)
    requires IsPushed(expression, raw) && condition in VectorFilters(expression, raw)
    ensures !condition.NotExpired? && condition.key == expression.fields[FIELD].text && Pushable(condition.key, raw)
    ensures !Sample(expression, raw).JObj? && !Sample(expression, raw).JArr?
    ensures forall x: JSON :: x.JObj? ==> !Meets(x, condition)
  {
    hide Split, PlainKey, Pushable;
    var e := expression.fields;
    if e[OP].text == IN {
      assert AllStrings(Expected(e).items);
    }
  }

  lemma DocumentKeyPlain(key: Text)
    requires key in DOCUMENT_KEYS
    ensures PlainKey(key)
  {
    assert PlainPart(key) && DOT !in key by { WordsPlain(); }
    hide PlainPart;
    SplitWord(key);
  }

  lemma WordsPlain()
    ensures PlainPart(KIND) && PlainPart(AGENT_ID) && PlainPart(SUBJECT_ID) && PlainPart(TAGS) && PlainPart(CONTEXT)
    ensures DOT !in KIND && DOT !in AGENT_ID && DOT !in SUBJECT_ID && DOT !in TAGS && DOT !in CONTEXT
  {
  }

  lemma ContextPrefix(key: Text, raw: bool)
    requires Pushable(key, raw) && key !in DOCUMENT_KEYS
    ensures |key| >= 8 && key == CONTEXT + [DOT] + key[8..]
  {
  }

  /** A key that is pushed and not plain names a field of the context, however it is read. */
  lemma NotPlainIsContext(key: Text, raw: bool)
    requires Pushable(key, raw) && !PlainKey(key)
    ensures |key| >= 8 && Split(key) == [CONTEXT] + Split(key[8..])
    ensures ReadKey(key).Some? ==> ReadKey(key).value != [] && ReadKey(key).value[0] == Key(CONTEXT)
  {
    if key in DOCUMENT_KEYS {
      DocumentKeyPlain(key);
    } else {
      ContextPrefix(key, raw);
      WordsPlain();
      hide PlainKey, Pushable;
      SplitPrefix(CONTEXT, key[8..]);
      FirstWord(CONTEXT, key[8..], key);
    }
  }

  lemma FirstWord(word: Text, rest: Text, key: Text)
    requires PlainPart(word) && key == word + [DOT] + rest
    ensures ReadKey(key).Some? ==> ReadKey(key).value != [] && ReadKey(key).value[0] == Key(word)
  {
    var s := [DOT] + key;
    assert s[1..] == word + ([DOT] + rest);
    WordThen(word, [DOT] + rest);
    assert s[1..1 + |word|] == word;
    hide WordLength;
  }

  /** A row whose context holds the sample where the filter looks for it. */
  ghost predicate HoldsSample(row: Row, expression: JSON, raw: bool)
    requires IsPushed(expression, raw)
  {
    var key := expression.fields[FIELD].text;
    && |key| >= 8 && Split(key) == [CONTEXT] + Split(key[8..])
    && JObj(row.context) == Chain(Split(key[8..]), Sample(expression, raw))
  }

  /** It matches the leaf, and its point does not meet what the leaf pushes. */
  lemma MatchRejected(expression: JSON, raw: bool) returns (row: Row, condition: Condition)
    requires IsPushed(expression, raw) && !PlainKey(expression.fields[FIELD].text)
    ensures Describes(PointOf(row), row, raw) && Meaning(Document(row), expression)
    ensures condition in VectorFilters(expression, raw) && !Satisfied(PointOf(row), condition)
  {
    condition := SomePushed(expression, raw);
    hide *;
    PushedCondition(expression, raw, condition);
    NotPlainIsContext(condition.key, raw);
    row := SomeRow(expression, raw);
    PointDescribes(row, raw);
    SampleMeets(expression, raw, row);
    SampleMissed(expression, raw, row, condition);
  }

  lemma SomePushed(expression: JSON, raw: bool) returns (condition: Condition)
    requires IsPushed(expression, raw)
    ensures condition in VectorFilters(expression, raw) && FIELD in expression.fields
  {
    condition := VectorFilters(expression, raw)[0];
    hide VectorFilters;
  }

  lemma SomeRow(expression: JSON, raw: bool) returns (row: Row)
    requires IsPushed(expression, raw)
    requires var key := expression.fields[FIELD].text; |key| >= 8 && Split(key) == [CONTEXT] + Split(key[8..])
    ensures HoldsSample(row, expression, raw)
  {
    hide VectorFilters, Split;
    row := SampleRow(Chain(Split(expression.fields[FIELD].text[8..]), Sample(expression, raw)).fields);
  }

  lemma SampleMeets(expression: JSON, raw: bool, row: Row)
    requires IsPushed(expression, raw) && HoldsSample(row, expression, raw)
    ensures Meaning(Document(row), expression)
  {
    var e := expression.fields;
    var parts := Split(e[FIELD].text[8..]);
    ChainAt(parts, Sample(expression, raw));
    assert CONTEXT in Document(row) && Document(row)[CONTEXT] == JObj(row.context);
    AtStep(Document(row), CONTEXT, parts);
    hide At, Split, Chain, Document, Pushable;
  }

  lemma SampleMissed(expression: JSON, raw: bool, row: Row, condition: Condition)
    requires IsPushed(expression, raw) && condition in VectorFilters(expression, raw)
    requires HoldsSample(row, expression, raw) && !condition.NotExpired? && !PlainKey(condition.key)
    ensures !Satisfied(PointOf(row), condition)
  {
    PushedCondition(expression, raw, condition);
    ReadsAsSplit(condition.key);
    NotPlainIsContext(condition.key, raw);
    var value, parts := Sample(expression, raw), Split(condition.key[8..]);
    assert JObj(row.context) == Chain(parts, value);
    hide *;
    MissedElsewhere(row, parts, value, condition);
  }

  lemma MissedElsewhere(row: Row, parts: seq<Text>, value: JSON, condition: Condition)
    requires !condition.NotExpired? && (forall x: JSON :: x.JObj? ==> !Meets(x, condition))
    requires ReadKey(condition.key).Some? ==>
               var items := ReadKey(condition.key).value;
               items != [] && items[0] == Key(CONTEXT) && items != AsKeys([CONTEXT] + parts)
    requires JObj(row.context) == Chain(parts, value) && !value.JObj? && !value.JArr?
    ensures !Satisfied(PointOf(row), condition)
  {
    hide ReadKey, PointOf, Values, Chain, Meets, AsKeys, MeetsAny;
    if ReadKey(condition.key).Some? {
      var items := ReadKey(condition.key).value;
      ElsewhereInPoint(row, parts, value, items);
      NoneMeets(Values(JObj(PointOf(row).payload), items), condition);
    }
  }

  lemma NoneMeets(found: seq<JSON>, condition: Condition)
    requires AllObjects(found) && forall x: JSON :: x.JObj? ==> !Meets(x, condition)
    ensures !MeetsAny(found, condition)
  {
    hide Meets;
  }

  lemma ElsewhereInPoint(row: Row, parts: seq<Text>, value: JSON, items: seq<Item>)
    requires items != AsKeys([CONTEXT] + parts) && items != [] && items[0] == Key(CONTEXT)
    requires JObj(row.context) == Chain(parts, value) && !value.JObj? && !value.JArr?
    ensures AllObjects(Values(JObj(PointOf(row).payload), items))
  {
    assert items == [items[0]] + items[1..] && ([CONTEXT] + parts)[1..] == parts;
    ContextOfPoint(row);
    ChainElsewhere(parts, value, items[1..]);
    hide Chain, PointOf;
  }

  lemma ContextOfPoint(row: Row)
    ensures CONTEXT in PointOf(row).payload && PointOf(row).payload[CONTEXT] == JObj(row.context)
  {
  }

  /** What a leaf pushes never rejects a match if and only if its field is a plain key. */
  lemma NeverRejectsExactly(expression: JSON, raw: bool)
    requires IsPushed(expression, raw)
    ensures NeverRejects(expression, raw) <==> PlainKey(expression.fields[FIELD].text)
  {
    if PlainKey(expression.fields[FIELD].text) {
      forall point: Point, row: Row, condition: Condition |
        Describes(point, row, raw) && Meaning(Document(row), expression) && condition in VectorFilters(expression, raw)
        ensures Satisfied(point, condition)
      {
        LeafPushed(point, row, expression, raw, condition);
      }
    } else {
      var row, condition := MatchRejected(expression, raw);
    }
  }
}
