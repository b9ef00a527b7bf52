/** JSON values (section 3 of RFC 8259) and the equality the filter algebra uses (filters.py). */
module Json {
  /** A character of a Python string: any code point, surrogates included (section 8.2 of RFC 8259). */
  newtype CodePoint = n: int | 0 <= n < 0x110000

  type Text = seq<CodePoint>

  /** What Python decodes NaN, Infinity and numbers beyond its floats to. */
  datatype NonFinite = Infinity | NegativeInfinity | NotANumber

  datatype JSON =
    | JNull
    | JBool(flag: bool)
    | JNum(number: real)
    | JNonFinite(which: NonFinite)
    | JStr(text: Text)
    | JArr(items: seq<JSON>)
    | JObj(fields: map<Text, JSON>)

  /** Booleans and numbers are different value types, at every depth. */
  function Equal(left: JSON, right: JSON): bool
    decreases left
  {
    if left.JBool? || right.JBool? then
      left.JBool? && right.JBool? && left.flag == right.flag
    else if left.JObj? && right.JObj? then
      left.fields.Keys == right.fields.Keys
      && forall key | key in left.fields && key in right.fields :: Equal(left.fields[key], right.fields[key])
    else if left.JArr? && right.JArr? then
      |left.items| == |right.items|
      && forall i | 0 <= i < |left.items| && i < |right.items| :: Equal(left.items[i], right.items[i])
    else match (left, right)
      case (JNull, JNull) => true
      case (JNum(a), JNum(b)) => a == b
      case (JNonFinite(a), JNonFinite(b)) => a == b && !a.NotANumber?
      case (JStr(a), JStr(b)) => a == b
      case _ => false
  }

  /** No NaN anywhere, which alone does not equal itself. */
  predicate Reflexive(value: JSON) {
    match value
    case JNonFinite(which) => !which.NotANumber?
    case JArr(items) => forall i | 0 <= i < |items| :: Reflexive(items[i])
    case JObj(fields) => forall key | key in fields :: Reflexive(fields[key])
    case _ => true
  }

  /** The recursive comparison is equality of JSON values, but for those with a NaN. */
  lemma {:induction false} EqualIsEquality(left: JSON, right: JSON)
    ensures Equal(left, right) <==> left == right && Reflexive(left)
    decreases left
  {
    match (left, right)
    case (JObj(a), JObj(b)) =>
      forall key | key in a && key in b
        ensures Equal(a[key], b[key]) <==> a[key] == b[key] && Reflexive(a[key])
      {
        EqualIsEquality(a[key], b[key]);
      }
      if a.Keys == b.Keys && forall key | key in a && key in b :: Equal(a[key], b[key]) {
        assert a == b;
      }
    case (JArr(a), JArr(b)) =>
      forall i | 0 <= i < |a| && i < |b|
        ensures Equal(a[i], b[i]) <==> a[i] == b[i] && Reflexive(a[i])
      {
        EqualIsEquality(a[i], b[i]);
      }
    case _ =>
  }

  // ---- text that PostgreSQL can hold ----

  predicate High(c: CodePoint) {
    0xd800 <= c < 0xdc00
  }

  predicate Low(c: CodePoint) {
    0xdc00 <= c < 0xe000
  }

  /** Neither a NUL nor a surrogate: what PostgreSQL text and jsonb can hold. */
  predicate Holdable(c: CodePoint) {
    c != 0 && !High(c) && !Low(c)
  }

  predicate Storable(text: Text) {
    forall i | 0 <= i < |text| :: Holdable(text[i])
  }

  /** What jsonb can hold: no number that is not finite, and no text it cannot store. */
  predicate AllStorable(value: JSON) {
    match value
    case JNonFinite(_) => false
    case JStr(text) => Storable(text)
    case JArr(items) => forall i | 0 <= i < |items| :: AllStorable(items[i])
    case JObj(fields) => forall key | key in fields :: Storable(key) && AllStorable(fields[key])
    case _ => true
  }

  /** A value cannot be stored for one of its texts, names included, that holds a NUL or a surrogate, or for a number that is
      not finite, anywhere in it. */
  lemma StorableExactly(value: JSON, text: Text, fields: map<Text, JSON>)
    ensures Storable(text) <==> forall i | 0 <= i < |text| :: 0 < text[i] < 0xd800 || 0xe000 <= text[i]
    ensures AllStorable(JStr(text)) <==> Storable(text)
    ensures AllStorable(JObj(fields)) <==> forall key | key in fields :: AllStorable(JStr(key)) && AllStorable(fields[key])
    ensures AllStorable(JArr([value])) <==> AllStorable(value)
    ensures value.JNull? || value.JBool? || value.JNum? ==> AllStorable(value)
    ensures value.JNonFinite? ==> !AllStorable(value)
  {
    assert [value][0] == value;
  }

  lemma {:induction false} StorableReflexive(value: JSON)
    requires AllStorable(value)
    ensures Reflexive(value)
  {
    match value
    case JArr(items) => forall i | 0 <= i < |items| ensures Reflexive(items[i]) { StorableReflexive(items[i]); }
    case JObj(fields) => forall key | key in fields ensures Reflexive(fields[key]) { StorableReflexive(fields[key]); }
    case _ =>
  }

  /** Every surrogate is unpaired. */
  predicate Decoded(text: Text) {
    forall i | 0 < i < |text| :: !(High(text[i - 1]) && Low(text[i]))
  }

  /** What decoding makes of the code units of a JSON string: a pair of surrogates is one character. */
  function Decode(units: seq<CodePoint>): Text {
    if units == [] then []
    else if |units| > 1 && High(units[0]) && Low(units[1]) then
      [0x10000 + (units[0] - 0xd800) * 0x400 + (units[1] - 0xdc00)] + Decode(units[2..])
    else [units[0]] + Decode(units[1..])
  }

  /** UTF-16: a character beyond the first plane is a pair of surrogates. */
  function CodeUnits(text: Text): (units: seq<CodePoint>)
    ensures text != [] ==> units != [] && (Low(units[0]) <==> Low(text[0]))
  {
    if text == [] then []
    else if text[0] < 0x10000 then [text[0]] + CodeUnits(text[1..])
    else [0xd800 + (text[0] - 0x10000) / 0x400, 0xdc00 + (text[0] - 0x10000) % 0x400] + CodeUnits(text[1..])
  }

  /** Decoding gives back the text that was encoded, unpaired surrogates included. */
  lemma {:induction false} DecodeRoundTrip(text: Text)
    requires Decoded(text)
    ensures Decode(CodeUnits(text)) == text
  {
    if text != [] {
      var units, rest := CodeUnits(text), CodeUnits(text[1..]);
      DecodeRoundTrip(text[1..]);
      if text[0] < 0x10000 {
        assert units[1..] == rest;
        assert |text| > 1 ==> !(High(text[0]) && Low(text[1..][0]));
      } else {
        assert units[2..] == rest;
      }
    }
  }

  /** So every surrogate in decoded text is unpaired. */
  lemma {:induction false} DecodedText(units: seq<CodePoint>)
    ensures Decoded(Decode(units))
    ensures units != [] && Low(Decode(units)[0]) ==> Low(units[0])
  {
    if units != [] {
      if |units| > 1 && High(units[0]) && Low(units[1]) {
        DecodedText(units[2..]);
      } else {
        DecodedText(units[1..]);
      }
    }
  }
}
