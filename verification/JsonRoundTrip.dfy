/** The canonical text is JSON and can be read back: reading it gives the value as it was printed. */
module JsonRoundTrip {
  import Sorting
  import opened JsonText
  import opened CanonicalJson

  /** The text after a value does not run on from a number. */
  predicate Ends(rest: Text) {
    rest == [] || !NumberUnit(rest[0])
  }

  lemma {:induction false} NumberRun(t: Text, rest: Text)
    requires forall u | u in t :: NumberUnit(u)
    requires Ends(rest)
    ensures RunLength(t + rest) == |t|
  {
    if t == [] {
      assert t + rest == rest;
    } else {
      assert (t + rest)[1..] == t[1..] + rest;
      NumberRun(t[1..], rest);
    }
  }

  lemma {:induction false} NumberRead(t: Text, rest: Text)
    requires IsNumber(t) && Ends(rest)
    ensures ReadValue(t + rest) == Done(Number(t), rest)
  {
    NumberRun(t, rest);
    assert NumberUnit(t[0]) && (t + rest)[0] == t[0];
    assert (t + rest)[..|t|] == t && (t + rest)[|t|..] == rest;
    assert ReadValue(t + rest) == ReadNumber(t + rest);
  }

  lemma {:induction false} LiteralRead(literal: Text, v: Json, rest: Text)
    requires literal != []
    ensures ReadLiteral(literal + rest, literal, v) == Done(v, rest)
  {
    assert literal <= literal + rest;
    assert (literal + rest)[|literal|..] == rest;
  }

  lemma {:induction false} StringRead(s: Text, rest: Text)
    ensures ReadValue(Quoted(s) + rest) == Done(String(s), rest)
  {
    QuotedRead(s, rest);
    assert (Quoted(s) + rest)[0] == QUOTATION_MARK;
  }

  /** No printed value begins like the end of an array or of an object. */
  lemma {:induction false} PrintStarts(order: KeyOrder, v: Json)
    requires Serializable(v)
    ensures Print(order, v) != [] && Print(order, v)[0] != CLOSE_BRACKET
  {
    match v
    case Number(digits) => assert digits[0] in digits;
    case _ =>
  }

  lemma {:induction false} ItemsStart(order: KeyOrder, items: seq<Json>, d: nat)
    requires ItemsBelow(items, d) && items != []
    ensures PrintItems(order, items, d) != [] && PrintItems(order, items, d)[0] != CLOSE_BRACKET
  {
    PrintStarts(order, items[0]);
  }

  lemma {:induction false} FieldsStart(order: KeyOrder, fields: seq<Field>, d: nat)
    requires FieldsBelow(fields, d) && fields != []
    ensures PrintFields(order, fields, d) != [] && PrintFields(order, fields, d)[0] == QUOTATION_MARK
  {
  }

  lemma {:induction false} FrameText(open: CodeUnit, body: Text, close: CodeUnit, rest: Text)
    requires body != []
    ensures
      var text := [open] + body + [close] + rest;
      text[0] == open && text[1] == body[0] && text[1..] == body + ([close] + rest)
  {
  }

  lemma {:induction false} ArrayFrame(body: Text, items: seq<Json>, rest: Text)
    requires body != [] && body[0] != CLOSE_BRACKET
    requires ReadItems(body + ([CLOSE_BRACKET] + rest)) == Done(items, rest)
    ensures ReadValue([OPEN_BRACKET] + body + [CLOSE_BRACKET] + rest) == Done(Array(items), rest)
  {
    FrameText(OPEN_BRACKET, body, CLOSE_BRACKET, rest);
  }

  lemma {:induction false} ObjectFrame(body: Text, fields: seq<Field>, rest: Text)
    requires body != [] && body[0] == QUOTATION_MARK
    requires ReadFields(body + ([CLOSE_BRACE] + rest)) == Done(fields, rest)
    ensures ReadValue([OPEN_BRACE] + body + [CLOSE_BRACE] + rest) == Done(Object(fields), rest)
  {
    FrameText(OPEN_BRACE, body, CLOSE_BRACE, rest);
  }

  lemma {:induction false} EmptyFrames(rest: Text)
    ensures ReadValue([OPEN_BRACKET] + [] + [CLOSE_BRACKET] + rest) == Done(Array([]), rest)
    ensures ReadValue([OPEN_BRACE] + [] + [CLOSE_BRACE] + rest) == Done(Object([]), rest)
  {
    var a := [OPEN_BRACKET] + [] + [CLOSE_BRACKET] + rest;
    var o := [OPEN_BRACE] + [] + [CLOSE_BRACE] + rest;
    assert a[2..] == rest && o[2..] == rest;
  }

  lemma {:induction false} ItemsStep(first: Text, others: Text, tail: Text, item: Json, items: seq<Json>)
    requires tail != []
    requires ReadValue(first + ([COMMA] + (others + tail))) == Done(item, [COMMA] + (others + tail))
    requires ReadItems(others + tail) == Done(items, tail[1..])
    ensures ReadItems(first + ([COMMA] + others) + tail) == Done([item] + items, tail[1..])
  {
    var after := [COMMA] + (others + tail);
    assert first + ([COMMA] + others) + tail == first + after;
    assert after[1..] == others + tail;
  }

  lemma {:induction false} FieldsLast(text: Text, field: Field, tail: Text)
    requires tail != [] && tail[0] == CLOSE_BRACE && ReadField(text) == Done(field, tail)
    ensures ReadFields(text) == Done([field], tail[1..])
  {
  }

  lemma {:induction false} FieldsStep(first: Text, others: Text, tail: Text, field: Field, fields: seq<Field>)
    requires tail != []
    requires ReadField(first + ([COMMA] + (others + tail))) == Done(field, [COMMA] + (others + tail))
    requires ReadFields(others + tail) == Done(fields, tail[1..])
    ensures ReadFields(first + ([COMMA] + others) + tail) == Done([field] + fields, tail[1..])
  {
    var after := [COMMA] + (others + tail);
    assert first + ([COMMA] + others) + tail == first + after;
    assert after[1..] == others + tail;
  }

  lemma {:induction false} FieldFrame(key: Text, body: Text, value: Json, rest: Text)
    requires ReadValue(body + rest) == Done(value, rest)
    ensures ReadField(Quoted(key) + ([COLON] + body) + rest) == Done(Field(key, value), rest)
  {
    var after := [COLON] + body + rest;
    assert after[1..] == body + rest;
    QuotedRead(key, after);
    FieldParts(Quoted(key) + after, key, after, value, rest);
    Regroup(Quoted(key), [COLON] + body, rest);
  }

  lemma {:induction false} FieldParts(text: Text, key: Text, after: Text, value: Json, rest: Text)
    requires ReadString(text) == Done(key, after) && after != [] && after[0] == COLON
    requires ReadValue(after[1..]) == Done(value, rest)
    ensures ReadField(text) == Done(Field(key, value), rest)
  {
  }

  /** Reading the text of a value gives the value as printed, and leaves the rest alone. */
  lemma {:induction false} ValueRead(order: KeyOrder, v: Json, rest: Text)
    requires Serializable(v) && Ends(rest)
    ensures ReadValue(Print(order, v) + rest) == Done(Normal(order, v), rest)
    decreases Depth(v), 0
  {
    match v
    case Null => LiteralRead(NULL_TEXT, Null, rest);
    case Bool(b) =>
      LiteralRead(TRUE_TEXT, Bool(true), rest);
      LiteralRead(FALSE_TEXT, Bool(false), rest);
    case Number(digits) => NumberRead(digits, rest);
    case String(units) => StringRead(units, rest);
    case Array(items) =>
      var d := DepthOfItems(items);
      if items == [] {
        EmptyFrames(rest);
      } else {
        var tail := [CLOSE_BRACKET] + rest;
        assert tail[1..] == rest;
        ItemsRead(order, items, d, tail);
        ItemsStart(order, items, d);
        ArrayFrame(PrintItems(order, items, d), NormalItems(order, items, d), rest);
      }
    case Object(fields) =>
      var entries, d := Entries(order, fields), DepthOfFields(fields);
      if entries == [] {
        EmptyFrames(rest);
      } else {
        var tail := [CLOSE_BRACE] + rest;
        assert tail[1..] == rest;
        FieldsRead(order, entries, d, tail);
        FieldsStart(order, entries, d);
        ObjectFrame(PrintFields(order, entries, d), NormalFields(order, entries, d), rest);
      }
  }

  lemma {:induction false} ItemsRead(order: KeyOrder, items: seq<Json>, d: nat, tail: Text)
    requires ItemsBelow(items, d) && items != [] && tail != [] && tail[0] == CLOSE_BRACKET
    ensures ReadItems(PrintItems(order, items, d) + tail) == Done(NormalItems(order, items, d), tail[1..])
    decreases d, |items|
  {
    if |items| == 1 {
      ValueRead(order, items[0], tail);
      assert NormalItems(order, items, d) == [Normal(order, items[0])];
    } else {
      var others := PrintItems(order, items[1..], d);
      ValueRead(order, items[0], [COMMA] + (others + tail));
      ItemsRead(order, items[1..], d, tail);
      ItemsStep(Print(order, items[0]), others, tail, Normal(order, items[0]), NormalItems(order, items[1..], d));
    }
  }

  lemma {:induction false} FieldRead(order: KeyOrder, f: Field, d: nat, rest: Text)
    requires Serializable(f.value) && Depth(f.value) <= d && Ends(rest)
    ensures ReadField(PrintField(order, f, d) + rest) == Done(Field(f.key, Normal(order, f.value)), rest)
    decreases d, 1
  {
    ValueRead(order, f.value, rest);
    FieldFrame(f.key, Print(order, f.value), Normal(order, f.value), rest);
  }

  lemma {:induction false} FieldsRead(order: KeyOrder, fields: seq<Field>, d: nat, tail: Text)
    requires FieldsBelow(fields, d) && fields != [] && tail != [] && tail[0] == CLOSE_BRACE
    ensures ReadFields(PrintFields(order, fields, d) + tail) == Done(NormalFields(order, fields, d), tail[1..])
    decreases d, |fields| + 1
  {
    if |fields| == 1 {
      FieldRead(order, fields[0], d, tail);
      FieldsLast(PrintField(order, fields[0], d) + tail, Field(fields[0].key, Normal(order, fields[0].value)), tail);
      assert NormalFields(order, fields, d) == [Field(fields[0].key, Normal(order, fields[0].value))];
    } else {
      var others := PrintFields(order, fields[1..], d);
      var first := Field(fields[0].key, Normal(order, fields[0].value));
      FieldRead(order, fields[0], d, [COMMA] + (others + tail));
      FieldsRead(order, fields[1..], d, tail);
      FieldsStep(PrintField(order, fields[0], d), others, tail, first, NormalFields(order, fields[1..], d));
    }
  }

  /** The canonical text of a value is one JSON text, and reading it gives the value as printed. */
  lemma {:induction false} CanonicalTextRoundTrip(order: KeyOrder, v: Json)
    requires Serializable(v)
    ensures ReadValue(Print(order, v)) == Done(Normal(order, v), [])
  {
    ValueRead(order, v, []);
    assert Print(order, v) + [] == Print(order, v);
  }

  // ----- The punctuation and the literals -----

  /** The code units of ASCII text. */
  function Units(ascii: string): (text: Text)
    requires forall i | 0 <= i < |ascii| :: ascii[i] as int < 0x80
    ensures |text| == |ascii| && forall i | 0 <= i < |text| :: text[i] == ascii[i] as int
  {
    seq(|ascii|, i requires 0 <= i < |ascii| => ascii[i] as int)
  }

  lemma {:induction false} PrintedLiterals(order: KeyOrder)
    ensures Print(order, Null) == Units("null")
    ensures Print(order, Bool(true)) == Units("true") && Print(order, Bool(false)) == Units("false")
    ensures Print(order, Array([])) == Units("[]") && Print(order, Object([])) == Units("{}")
    ensures Quoted(Units("\"\n")) == Units("\"\\\"\\n\"")
  {
    var s := Units("\"\n");
    assert Escape(s) == EscapeUnit(s[0]) + (EscapeUnit(s[1]) + []) by {
      assert s[1..][0] == s[1] && s[1..][1..] == [];
    }
  }

  /** The punctuation of a list: items in order, nothing around them but brackets and one comma between two. */
  lemma {:induction false} PrintedList(order: KeyOrder, v: Json, w: Json)
    requires Serializable(v) && Serializable(w)
    ensures Serializable(Array([v, w]))
    ensures Print(order, Array([v, w])) == Units("[") + (Print(order, v) + (Units(",") + Print(order, w))) + Units("]")
  {
    var items, d := [v, w], DepthOfItems([v, w]);
    assert items[1..] == [w];
    assert PrintItems(order, [w], d) == Print(order, w);
    assert [COMMA] == Units(",") && [OPEN_BRACKET] == Units("[") && [CLOSE_BRACKET] == Units("]");
  }

  /** And of an object. */
  lemma {:induction false} PrintedObject(order: KeyOrder, key: Text, v: Json)
    requires Serializable(v)
    ensures Serializable(Object([Field(key, v)]))
    ensures
      Print(order, Object([Field(key, v)])) ==
      Units("{") + (Quoted(key) + (Units(":") + Print(order, v))) + Units("}")
  {
    var f := Field(key, v);
    var fields := [f];
    assert Defined(fields[1..]) == [];
    assert Defined(fields) == fields && fields[1..] == [];
    Sorting.SortPermutes(ByKey(order), fields);
    assert Entries(order, fields)[0] in Entries(order, fields);
    assert Entries(order, fields) == [f];
    assert PrintFields(order, [f], DepthOfFields(fields)) == PrintField(order, f, DepthOfFields(fields));
    assert [COLON] == Units(":") && [OPEN_BRACE] == Units("{") && [CLOSE_BRACE] == Units("}");
  }
}
