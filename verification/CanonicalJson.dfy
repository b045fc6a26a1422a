/** The canonical text of a request body, whose digest identifies the request. */
module CanonicalJson {
  import opened Sorting
  import opened JsonText

  predicate NumberUnit(u: CodeUnit) {
    0x30 <= u <= 0x39 || u == 0x2D || u == 0x2B || u == 0x2E || u == 0x65 || u == 0x45
  }

  predicate IsNumber(t: Text) {
    t != [] && forall u | u in t :: NumberUnit(u)
  }

  /** The printed form of a finite number. */
  type NumberText = t: Text | IsNumber(t) witness [0x30]

  /** A body value. Fields are in insertion order; a field may hold undefined. */
  datatype Json =
    | Null
    | Undefined
    | NotFinite
    | Bool(b: bool)
    | Number(digits: NumberText)
    | String(units: Text)
    | Array(items: seq<Json>)
    | Object(fields: seq<Field>)

  datatype Field = Field(key: Text, value: Json)

  /** How keys are compared: whether the first sorts before the second. */
  type KeyOrder = (Text, Text) -> bool

  function ByKey(order: KeyOrder): (Field, Field) -> bool {
    (a: Field, b: Field) => order(a.key, b.key)
  }

  // ----- Which values can be printed -----

  /** Undefined is dropped as a field and refused anywhere else; so are numbers that are not finite. */
  predicate Serializable(v: Json) {
    match v
    case Undefined => false
    case NotFinite => false
    case Array(items) => forall i | 0 <= i < |items| :: Serializable(items[i])
    case Object(fields) => forall i | 0 <= i < |fields| :: fields[i].value.Undefined? || Serializable(fields[i].value)
    case _ => true
  }

  /** Nesting depth. */
  function Depth(v: Json): nat {
    match v
    case Array(items) => 1 + DepthOfItems(items)
    case Object(fields) => 1 + DepthOfFields(fields)
    case _ => 0
  }

  function Max(a: nat, b: nat): nat {
    if a < b then b else a
  }

  function DepthOfItems(items: seq<Json>): (d: nat)
    ensures forall x | x in items :: Depth(x) <= d
  {
    if items == [] then 0 else Max(Depth(items[0]), DepthOfItems(items[1..]))
  }

  function DepthOfFields(fields: seq<Field>): (d: nat)
    ensures forall f | f in fields :: Depth(f.value) <= d
  {
    if fields == [] then 0 else Max(Depth(fields[0].value), DepthOfFields(fields[1..]))
  }

  function Defined(fields: seq<Field>): (kept: seq<Field>)
    ensures forall f :: f in kept <==> f in fields && !f.value.Undefined?
  {
    if fields == [] then []
    else if fields[0].value.Undefined? then Defined(fields[1..])
    else [fields[0]] + Defined(fields[1..])
  }

  /** The fields that are printed, in the order they are printed. */
  function Entries(order: KeyOrder, fields: seq<Field>): (entries: seq<Field>)
    ensures forall f :: f in entries <==> f in fields && !f.value.Undefined?
  {
    SortMembers(ByKey(order), Defined(fields));
    Sort(ByKey(order), Defined(fields))
  }

  ghost predicate ItemsBelow(items: seq<Json>, d: nat) {
    forall x | x in items :: Serializable(x) && Depth(x) <= d
  }

  ghost predicate FieldsBelow(fields: seq<Field>, d: nat) {
    forall f | f in fields :: Serializable(f.value) && Depth(f.value) <= d
  }

  // ----- Printing -----

  const COMMA: CodeUnit := 0x2C
  const COLON: CodeUnit := 0x3A
  const OPEN_BRACKET: CodeUnit := 0x5B
  const CLOSE_BRACKET: CodeUnit := 0x5D
  const OPEN_BRACE: CodeUnit := 0x7B
  const CLOSE_BRACE: CodeUnit := 0x7D
  const NULL_TEXT: Text := [0x6E, 0x75, 0x6C, 0x6C]
  const TRUE_TEXT: Text := [0x74, 0x72, 0x75, 0x65]
  const FALSE_TEXT: Text := [0x66, 0x61, 0x6C, 0x73, 0x65]

  function Print(order: KeyOrder, v: Json): Text
    requires Serializable(v)
    decreases Depth(v), 0
  {
    match v
    case Null => NULL_TEXT
    case Bool(b) => if b then TRUE_TEXT else FALSE_TEXT
    case Number(digits) => digits
    case String(units) => Quoted(units)
    case Array(items) => [OPEN_BRACKET] + PrintItems(order, items, DepthOfItems(items)) + [CLOSE_BRACKET]
    case Object(fields) => [OPEN_BRACE] + PrintFields(order, Entries(order, fields), DepthOfFields(fields)) + [CLOSE_BRACE]
  }

  /** Items separated by commas; d bounds their depth. */
  function PrintItems(order: KeyOrder, items: seq<Json>, ghost d: nat): Text
    requires ItemsBelow(items, d)
    decreases d, |items|
  {
    if items == [] then []
    else if |items| == 1 then Print(order, items[0])
    else Print(order, items[0]) + ([COMMA] + PrintItems(order, items[1..], d))
  }

  function PrintField(order: KeyOrder, f: Field, ghost d: nat): Text
    requires Serializable(f.value) && Depth(f.value) <= d
    decreases d, 1
  {
    Quoted(f.key) + ([COLON] + Print(order, f.value))
  }

  function PrintFields(order: KeyOrder, fields: seq<Field>, ghost d: nat): Text
    requires FieldsBelow(fields, d)
    decreases d, |fields| + 1
  {
    if fields == [] then []
    else if |fields| == 1 then PrintField(order, fields[0], d)
    else PrintField(order, fields[0], d) + ([COMMA] + PrintFields(order, fields[1..], d))
  }

  // ----- What the text says -----

  /** The value as printed: undefined fields dropped, fields in printing order, all the way down. */
  function Normal(order: KeyOrder, v: Json): Json
    requires Serializable(v)
    decreases Depth(v), 0
  {
    match v
    case Array(items) => Array(NormalItems(order, items, DepthOfItems(items)))
    case Object(fields) => Object(NormalFields(order, Entries(order, fields), DepthOfFields(fields)))
    case _ => v
  }

  function NormalItems(order: KeyOrder, items: seq<Json>, ghost d: nat): (r: seq<Json>)
    requires ItemsBelow(items, d)
    ensures |r| == |items| && forall i | 0 <= i < |r| :: r[i] == Normal(order, items[i])
    decreases d, |items|
  {
    if items == [] then [] else [Normal(order, items[0])] + NormalItems(order, items[1..], d)
  }

  function NormalFields(order: KeyOrder, fields: seq<Field>, ghost d: nat): (r: seq<Field>)
    requires FieldsBelow(fields, d)
    ensures |r| == |fields|
    ensures forall i | 0 <= i < |r| :: r[i] == Field(fields[i].key, Normal(order, fields[i].value))
    decreases d, |fields|
  {
    if fields == [] then []
    else [Field(fields[0].key, Normal(order, fields[0].value))] + NormalFields(order, fields[1..], d)
  }

  // ----- Reading: the grammar of RFC 8259, sections 4, 5 and 7, without whitespace -----

  function RunLength(text: Text): (n: nat)
    ensures n <= |text| && forall u | u in text[..n] :: NumberUnit(u)
  {
    if text == [] || !NumberUnit(text[0]) then 0
    else
      var n := RunLength(text[1..]);
      assert text[..n + 1] == [text[0]] + text[1..][..n];
      n + 1
  }

  function ReadLiteral(text: Text, literal: Text, v: Json): (r: Parsed<Json>)
    requires literal != []
    ensures r.Done? ==> |r.rest| < |text|
  {
    if literal <= text then Done(v, text[|literal|..]) else Fail
  }

  function ReadNumber(text: Text): (r: Parsed<Json>)
    ensures r.Done? ==> |r.rest| < |text|
  {
    var n := RunLength(text);
    if n == 0 then Fail else Done(Number(text[..n]), text[n..])
  }

  function ReadValue(text: Text): (r: Parsed<Json>)
    ensures r.Done? ==> |r.rest| < |text|
    decreases |text|, 2
  {
    if text == [] then Fail
    else if text[0] == 0x6E then ReadLiteral(text, NULL_TEXT, Null)
    else if text[0] == 0x74 then ReadLiteral(text, TRUE_TEXT, Bool(true))
    else if text[0] == 0x66 then ReadLiteral(text, FALSE_TEXT, Bool(false))
    else if text[0] == QUOTATION_MARK then
      var s := ReadString(text);
      if s.Fail? then Fail else Done(String(s.value), s.rest)
    else if text[0] == OPEN_BRACKET then
      if |text| > 1 && text[1] == CLOSE_BRACKET then Done(Array([]), text[2..])
      else
        var items := ReadItems(text[1..]);
        if items.Fail? then Fail else Done(Array(items.value), items.rest)
    else if text[0] == OPEN_BRACE then
      if |text| > 1 && text[1] == CLOSE_BRACE then Done(Object([]), text[2..])
      else
        var fields := ReadFields(text[1..]);
        if fields.Fail? then Fail else Done(Object(fields.value), fields.rest)
    else ReadNumber(text)
  }

  /** One or more values separated by commas, and the closing bracket. */
  function ReadItems(text: Text): (r: Parsed<seq<Json>>)
    ensures r.Done? ==> |r.rest| < |text|
    decreases |text|, 3
  {
    var first := ReadValue(text);
    if first.Fail? || first.rest == [] then Fail
    else if first.rest[0] == CLOSE_BRACKET then Done([first.value], first.rest[1..])
    else if first.rest[0] != COMMA then Fail
    else
      var others := ReadItems(first.rest[1..]);
      if others.Fail? then Fail else Done([first.value] + others.value, others.rest)
  }

  function ReadField(text: Text): (r: Parsed<Field>)
    ensures r.Done? ==> |r.rest| < |text|
    decreases |text|, 3
  {
    var key := ReadString(text);
    if key.Fail? || key.rest == [] || key.rest[0] != COLON then Fail
    else
      var value := ReadValue(key.rest[1..]);
      if value.Fail? then Fail else Done(Field(key.value, value.value), value.rest)
  }

  function ReadFields(text: Text): (r: Parsed<seq<Field>>)
    ensures r.Done? ==> |r.rest| < |text|
    decreases |text|, 4
  {
    var first := ReadField(text);
    if first.Fail? || first.rest == [] then Fail
    else if first.rest[0] == CLOSE_BRACE then Done([first.value], first.rest[1..])
    else if first.rest[0] != COMMA then Fail
    else
      var others := ReadFields(first.rest[1..]);
      if others.Fail? then Fail else Done([first.value] + others.value, others.rest)
  }
}
