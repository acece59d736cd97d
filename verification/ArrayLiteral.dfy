/**
 PostgreSQL array literals (packages/database/src/config.ts): the serializer of
 nested arrays, and the reading of a literal by section 8.15.6 (Array Input and
 Output Syntax) of the PostgreSQL manual. Reading what was written gives back
 the same nested structure.
 */
module ArrayLiteral {
  import opened Basics

  // ----- the values -----

  /** An item of a JavaScript array of elements of type `E`. */
  datatype Item<E> = Undefined | Null | Elem(value: E) | Nested(items: seq<Item<E>>)

  /** What a caller hands to the serializer: an array, a ready literal or a bare element. */
  datatype Input<E> = Array(items: seq<Item<E>>) | Literal(text: string) | Bare(value: E)

  /** What a database array holds. */
  datatype Value = NullValue | Text(text: string) | SubArray(values: seq<Value>)

  datatype SerializeError = UndefinedValue

  // ----- the serializer -----

  /** `replace` with a global one-character pattern. */
  function ReplaceAll(s: string, c: char, replacement: string): string {
    if s == "" then ""
    else (if s[0] == c then replacement else [s[0]]) + ReplaceAll(s[1..], c, replacement)
  }

  /** Backslashes first, then quotes. */
  function Escaped(value: string): string {
    ReplaceAll(ReplaceAll(value, '\\', "\\\\"), '"', "\\\"")
  }

  function QuoteArrayElement(value: string): string {
    "\"" + Escaped(value) + "\""
  }

  function Join(parts: seq<string>, separator: string): string {
    if parts == [] then ""
    else if |parts| == 1 then parts[0]
    else parts[0] + separator + Join(parts[1..], separator)
  }

  function ItemLiteral<E>(element: E -> string, item: Item<E>): Result<string, SerializeError>
    decreases item, 1
  {
    match item
    case Undefined => Err(UndefinedValue)
    case Null => Ok("null")
    case Nested(items) => ArrayLiteral(element, items)
    case Elem(value) => Ok(QuoteArrayElement(element(value)))
  }

  function ItemLiterals<E>(element: E -> string, items: seq<Item<E>>): (r: Result<seq<string>, SerializeError>)
    ensures r.Ok? ==> |r.value| == |items|
    decreases items, 0
  {
    if items == [] then Ok([])
    else
      match ItemLiteral(element, items[0])
      case Err(e) => Err(e)
      case Ok(first) =>
        match ItemLiterals(element, items[1..])
        case Err(e) => Err(e)
        case Ok(rest) => Ok([first] + rest)
  }

  function ArrayLiteral<E>(element: E -> string, items: seq<Item<E>>): Result<string, SerializeError>
    decreases items, 1
  {
    match ItemLiterals(element, items)
    case Err(e) => Err(e)
    case Ok(parts) => Ok("{" + Join(parts, ",") + "}")
  }

  function Serialize<E>(element: E -> string, x: Input<E>): Result<string, SerializeError> {
    match x
    case Literal(text) => Ok(text)
    case Bare(value) => Ok(element(value))
    case Array(items) => ArrayLiteral(element, items)
  }

  // ----- the meaning of a JavaScript array -----

  /** No item at any depth is undefined. */
  ghost predicate Defined<E>(items: seq<Item<E>>)
    decreases items, 1
  {
    forall item :: item in items ==> IsDefined(item)
  }

  ghost predicate IsDefined<E>(item: Item<E>)
    decreases item, 0
  {
    !item.Undefined? && (item.Nested? ==> Defined(item.items))
  }

  function ValueOf<E>(element: E -> string, item: Item<E>): Value
    requires IsDefined(item)
    decreases item, 1
  {
    match item
    case Null => NullValue
    case Elem(value) => Text(element(value))
    case Nested(items) => SubArray(ValuesOf(element, items))
  }

  function ValuesOf<E>(element: E -> string, items: seq<Item<E>>): seq<Value>
    requires Defined(items)
    decreases items, 0
  {
    if items == [] then [] else [ValueOf(element, items[0])] + ValuesOf(element, items[1..])
  }

  // ----- reading a literal -----

  predicate IsSpace(c: char) {
    c == ' ' || c == '\t' || c == '\n' || c == '\r' || c == '\U{000B}' || c == '\U{000C}'
  }

  function SkipSpaces(s: string): (r: string)
    ensures |r| <= |s|
  {
    if s != "" && IsSpace(s[0]) then SkipSpaces(s[1..]) else s
  }

  /** What was read, and the text after it. */
  datatype Read<T> = Read(value: T, rest: string)

  /** The inside of a quoted element, after its opening quote: a backslash protects the next character. */
  function ReadQuoted(s: string): (r: Option<Read<string>>)
    ensures r.Some? ==> |r.value.rest| < |s|
  {
    if s == "" then None
    else if s[0] == '"' then Some(Read("", s[1..]))
    else
      var skip := if s[0] == '\\' then 1 else 0;
      if |s| <= skip then None
      else match ReadQuoted(s[skip + 1..])
        case None => None
        case Some(more) => Some(Read([s[skip]] + more.value, more.rest))
  }

  /** A character of an unquoted element, and whether a backslash protected it. */
  datatype BareChar = BareChar(c: char, escaped: bool)

  /** The characters up to the next delimiter; a quote or an opening brace is malformed. */
  function ReadBareChars(s: string): (r: Option<Read<seq<BareChar>>>)
    ensures r.Some? ==> |r.value.rest| <= |s|
    ensures r.Some? && r.value.value != [] ==> |r.value.rest| < |s|
  {
    if s == "" || s[0] == '"' || s[0] == '{' then None
    else if s[0] == ',' || s[0] == '}' then Some(Read([], s))
    else
      var skip := if s[0] == '\\' then 1 else 0;
      if |s| <= skip then None
      else match ReadBareChars(s[skip + 1..])
        case None => None
        case Some(more) => Some(Read([BareChar(s[skip], skip == 1)] + more.value, more.rest))
  }

  /** Without its trailing white space. */
  function TrimEnd(cs: seq<BareChar>): seq<BareChar> {
    if cs != [] && !cs[|cs| - 1].escaped && IsSpace(cs[|cs| - 1].c) then TrimEnd(cs[..|cs| - 1]) else cs
  }

  function BareText(cs: seq<BareChar>): string {
    seq(|cs|, i requires 0 <= i < |cs| => cs[i].c)
  }

  /** NULL in upper or lower case, with no backslash. */
  predicate IsNullWord(cs: seq<BareChar>) {
    && |cs| == 4
    && (forall i :: 0 <= i < 4 ==> !cs[i].escaped)
    && cs[0].c in "nN" && cs[1].c in "uU" && cs[2].c in "lL" && cs[3].c in "lL"
  }

  function ReadBare(s: string): (r: Option<Read<Value>>)
    ensures r.Some? ==> |r.value.rest| < |s|
  {
    match ReadBareChars(s)
    case None => None
    case Some(read) =>
      var cs := TrimEnd(read.value);
      if cs == [] then None
      else Some(Read(if IsNullWord(cs) then NullValue else Text(BareText(cs)), read.rest))
  }

  function ReadItem(s: string): (r: Option<Read<Value>>)
    ensures r.Some? ==> |r.value.rest| < |s|
    decreases |s|, 1
  {
    var t := SkipSpaces(s);
    if t == "" then None
    else if t[0] == '{' then
      match ReadArray(t)
      case None => None
      case Some(read) => Some(Read(SubArray(read.value), read.rest))
    else if t[0] == '"' then
      match ReadQuoted(t[1..])
      case None => None
      case Some(read) => Some(Read(Text(read.value), read.rest))
    else
      ReadBare(t)
  }

  /** Items separated by commas, up to and including the closing brace. */
  function ReadItems(s: string): (r: Option<Read<seq<Value>>>)
    ensures r.Some? ==> |r.value.rest| < |s|
    decreases |s|, 2
  {
    match ReadItem(s)
    case None => None
    case Some(first) =>
      var t := SkipSpaces(first.rest);
      if t == "" then None
      else if t[0] == '}' then Some(Read([first.value], t[1..]))
      else if t[0] == ',' then
        match ReadItems(t[1..])
        case None => None
        case Some(more) => Some(Read([first.value] + more.value, more.rest))
      else None
  }

  function ReadArray(s: string): (r: Option<Read<seq<Value>>>)
    requires s != "" && s[0] == '{'
    ensures r.Some? ==> |r.value.rest| < |s|
    decreases |s|, 0
  {
    var t := SkipSpaces(s[1..]);
    if t == "" then None
    else if t[0] == '}' then Some(Read([], t[1..]))
    else ReadItems(t)
  }

  /** The array a literal denotes; nothing but white space may surround it. */
  function ReadLiteral(s: string): Option<seq<Value>> {
    var t := SkipSpaces(s);
    if t == "" || t[0] != '{' then None
    else match ReadArray(t)
      case None => None
      case Some(read) => if SkipSpaces(read.rest) == "" then Some(read.value) else None
  }

  // ----- quoting -----

  lemma {:induction false} ReplaceAllAppend(a: string, b: string, c: char, replacement: string)
    ensures ReplaceAll(a + b, c, replacement) == ReplaceAll(a, c, replacement) + ReplaceAll(b, c, replacement)
  {
    if a == "" {
      assert a + b == b;
    } else {
      ReplaceAllAppend(a[1..], b, c, replacement);
      assert (a + b)[0] == a[0] && (a + b)[1..] == a[1..] + b;
      var first, rest := if a[0] == c then replacement else [a[0]], ReplaceAll(a[1..], c, replacement);
      Regroup(first, rest, ReplaceAll(b, c, replacement));
    }
  }

  lemma Regroup(x: string, y: string, z: string)
    ensures x + (y + z) == (x + y) + z
  {
  }

  lemma {:induction false} NothingToReplace(s: string, c: char, replacement: string)
    requires c !in s
    ensures ReplaceAll(s, c, replacement) == s
  {
    if s != "" {
      NothingToReplace(s[1..], c, replacement);
      assert [s[0]] + s[1..] == s;
    }
  }

  /** One character, escaped. */
  function EscapedChar(c: char): string {
    if c == '\\' || c == '"' then ['\\', c] else [c]
  }

  lemma ReplaceOne(c: char, replacement: string)
    ensures ReplaceAll([c], c, replacement) == replacement
  {
    assert [c][1..] == "";
  }

  lemma EscapedSingle(c: char)
    ensures Escaped([c]) == EscapedChar(c)
  {
    if c == '\\' {
      ReplaceOne(c, "\\\\");
      NothingToReplace("\\\\", '"', "\\\"");
    } else {
      NothingToReplace([c], '\\', "\\\\");
      if c == '"' {
        ReplaceOne(c, "\\\"");
      } else {
        NothingToReplace([c], '"', "\\\"");
      }
    }
  }

  /** The two replacements, one after the other, escape each character on its own. */
  lemma EscapedFirst(c: char, s: string)
    ensures Escaped([c] + s) == EscapedChar(c) + Escaped(s)
  {
    ReplaceAllAppend([c], s, '\\', "\\\\");
    ReplaceAllAppend(ReplaceAll([c], '\\', "\\\\"), ReplaceAll(s, '\\', "\\\\"), '"', "\\\"");
    EscapedSingle(c);
  }

  lemma ReadEscapedChar(c: char, tail: string, s: string, rest: string)
    requires ReadQuoted(tail) == Some(Read(s, rest))
    ensures ReadQuoted(EscapedChar(c) + tail) == Some(Read([c] + s, rest))
  {
    var text := EscapedChar(c) + tail;
    assert text[|EscapedChar(c)|..] == tail;
  }

  lemma QuotedStep(c: char, s: string, rest: string)
    requires ReadQuoted(Escaped(s) + "\"" + rest) == Some(Read(s, rest))
    ensures ReadQuoted(Escaped([c] + s) + "\"" + rest) == Some(Read([c] + s, rest))
  {
    EscapedFirst(c, s);
    var tail := Escaped(s) + "\"" + rest;
    ReadEscapedChar(c, tail, s, rest);
    assert EscapedChar(c) + Escaped(s) + "\"" + rest == EscapedChar(c) + tail;
  }

  /** A quoted element reads back as the element. */
  lemma {:induction false} QuotedReadsBack(s: string, rest: string)
    ensures ReadQuoted(Escaped(s) + "\"" + rest) == Some(Read(s, rest))
  {
    if s == "" {
      assert Escaped(s) + "\"" + rest == "\"" + rest;
      assert ("\"" + rest)[1..] == rest;
    } else {
      var c, tail := s[0], s[1..];
      assert s == [c] + tail;
      QuotedReadsBack(tail, rest);
      QuotedStep(c, tail, rest);
    }
  }

  /** The characters of a word without backslashes. */
  function Plain(word: string): seq<BareChar> {
    if word == "" then [] else [BareChar(word[0], false)] + Plain(word[1..])
  }

  lemma {:induction false} ReadPlainWord(word: string, rest: string)
    requires forall c :: c in word ==> c !in "\"{,}\\"
    requires AtDelimiter(rest)
    ensures ReadBareChars(word + rest) == Some(Read(Plain(word), rest))
  {
    if word == "" {
      assert word + rest == rest;
    } else {
      ReadPlainWord(word[1..], rest);
      assert word[0] in word;
      assert (word + rest)[1..] == word[1..] + rest;
    }
  }

  lemma PlainNull()
    ensures IsNullWord(Plain("null")) && TrimEnd(Plain("null")) == Plain("null")
  {
    assert "null"[1..] == "ull" && "ull"[1..] == "ll" && "ll"[1..] == "l" && "l"[1..] == "";
    assert Plain("l") == [BareChar('l', false)];
    assert Plain("ll") == [BareChar('l', false), BareChar('l', false)];
    assert Plain("ull") == [BareChar('u', false), BareChar('l', false), BareChar('l', false)];
  }

  lemma NullReadsBack(rest: string)
    requires AtDelimiter(rest)
    ensures ReadItem("null" + rest) == Some(Read(NullValue, rest))
  {
    ReadPlainWord("null", rest);
    PlainNull();
    assert SkipSpaces("null" + rest) == "null" + rest;
  }

  // ----- round trip -----

  predicate AtDelimiter(rest: string) {
    rest != "" && (rest[0] == ',' || rest[0] == '}')
  }

  lemma DefinedFirst<E>(items: seq<Item<E>>)
    requires items != []
    ensures Defined(items) <==> IsDefined(items[0]) && Defined(items[1..])
  {
    assert items == [items[0]] + items[1..];
  }

  /** Serializing succeeds exactly when no item at any depth is undefined. */
  lemma {:induction false} SerializesExactly<E>(element: E -> string, items: seq<Item<E>>)
    ensures ItemLiterals(element, items).Ok? <==> Defined(items)
    decreases items
  {
    if items != [] {
      DefinedFirst(items);
      SerializesExactly(element, items[1..]);
      var first := ItemLiteral(element, items[0]);
      if items[0].Nested? {
        SerializesExactly(element, items[0].items);
        assert first == ArrayLiteral(element, items[0].items);
      }
    }
  }

  lemma {:induction false} ItemReadsBack<E>(element: E -> string, item: Item<E>, rest: string)
    requires IsDefined(item) && AtDelimiter(rest)
    ensures ItemLiteral(element, item).Ok?
    ensures ReadItem(ItemLiteral(element, item).value + rest) == Some(Read(ValueOf(element, item), rest))
    decreases item, 1
  {
    match item
    case Null => NullReadsBack(rest);
    case Elem(value) =>
      QuotedReadsBack(element(value), rest);
      var s := QuoteArrayElement(element(value)) + rest;
      assert s[1..] == Escaped(element(value)) + "\"" + rest;
    case Nested(items) =>
      ArrayReadsBack(element, items, rest);
  }

  lemma ReadLast(text: string, v: Value, rest: string)
    requires ReadItem(text + ("}" + rest)) == Some(Read(v, "}" + rest))
    ensures ReadItems(text + ("}" + rest)) == Some(Read([v], rest))
  {
    assert ("}" + rest)[1..] == rest;
  }

  lemma ReadMore(text: string, v: Value, tail: string, vs: seq<Value>, rest: string)
    requires ReadItem(text + ("," + tail)) == Some(Read(v, "," + tail))
    requires ReadItems(tail) == Some(Read(vs, rest))
    ensures ReadItems(text + ("," + tail)) == Some(Read([v] + vs, rest))
  {
    assert ("," + tail)[1..] == tail;
  }

  lemma JoinFirst(parts: seq<string>, rest: string)
    requires |parts| > 1
    ensures Join(parts, ",") + "}" + rest == parts[0] + ("," + (Join(parts[1..], ",") + "}" + rest))
  {
  }

  lemma JoinOne(parts: seq<string>, rest: string)
    requires |parts| == 1
    ensures Join(parts, ",") + "}" + rest == parts[0] + ("}" + rest)
  {
  }

  lemma PartsOf<E>(element: E -> string, items: seq<Item<E>>)
    requires Defined(items) && items != []
    ensures ItemLiterals(element, items).Ok? && ItemLiterals(element, items[1..]).Ok?
    ensures ItemLiteral(element, items[0]).Ok?
    ensures ItemLiterals(element, items).value[0] == ItemLiteral(element, items[0]).value
    ensures ItemLiterals(element, items).value[1..] == ItemLiterals(element, items[1..]).value
  {
    SerializesExactly(element, items);
  }

  lemma {:induction false} ItemsReadBack<E>(element: E -> string, items: seq<Item<E>>, rest: string)
    requires Defined(items) && items != []
    ensures ItemLiterals(element, items).Ok?
    ensures ReadItems(Join(ItemLiterals(element, items).value, ",") + "}" + rest) == Some(Read(ValuesOf(element, items), rest))
    decreases items, 0
  {
    PartsOf(element, items);
    DefinedFirst(items);
    var parts := ItemLiterals(element, items).value;
    if |items| == 1 {
      ItemReadsBack(element, items[0], "}" + rest);
      ReadLast(parts[0], ValueOf(element, items[0]), rest);
      JoinOne(parts, rest);
      assert ValuesOf(element, items) == [ValueOf(element, items[0])];
    } else {
      ItemsReadBack(element, items[1..], rest);
      var tail := Join(parts[1..], ",") + "}" + rest;
      ItemReadsBack(element, items[0], "," + tail);
      ReadMore(parts[0], ValueOf(element, items[0]), tail, ValuesOf(element, items[1..]), rest);
      JoinFirst(parts, rest);
    }
  }

  lemma {:induction false} ArrayReadsBack<E>(element: E -> string, items: seq<Item<E>>, rest: string)
    requires Defined(items)
    ensures ArrayLiteral(element, items).Ok?
    ensures var literal := ArrayLiteral(element, items).value + rest;
            literal != "" && literal[0] == '{' && ReadArray(literal) == Some(Read(ValuesOf(element, items), rest))
    decreases items, 1
  {
    SerializesExactly(element, items);
    var parts := ItemLiterals(element, items).value;
    var literal := ArrayLiteral(element, items).value + rest;
    assert literal[1..] == Join(parts, ",") + "}" + rest;
    if items != [] {
      ItemsReadBack(element, items, rest);
      DefinedFirst(items);
      FirstCharacter(element, items);
    }
  }

  /** A joined list of items starts with neither white space nor a closing brace. */
  lemma FirstCharacter<E>(element: E -> string, items: seq<Item<E>>)
    requires items != [] && ItemLiterals(element, items).Ok?
    ensures var text := Join(ItemLiterals(element, items).value, ",");
            text != "" && text[0] in "{\"n"
  {
    var parts := ItemLiterals(element, items).value;
    assert parts[0] == ItemLiteral(element, items[0]).value;
  }

  /**
   Reading the literal of an array gives back its nested structure: every depth,
   every element text, and null apart from the text "null".
   */
  lemma LiteralReadsBack<E>(element: E -> string, items: seq<Item<E>>)
    requires Defined(items)
    ensures Serialize(element, Array(items)).Ok?
    ensures ReadLiteral(Serialize(element, Array(items)).value) == Some(ValuesOf(element, items))
  {
    ArrayReadsBack(element, items, "");
    var literal := ArrayLiteral(element, items).value;
    assert literal + "" == literal;
  }

  /** Two arrays with the same literal hold the same values. */
  lemma LiteralIsInjective<E>(element: E -> string, a: seq<Item<E>>, b: seq<Item<E>>)
    requires Defined(a) && Defined(b)
    requires Serialize(element, Array(a)) == Serialize(element, Array(b))
    ensures ValuesOf(element, a) == ValuesOf(element, b)
  {
    LiteralReadsBack(element, a);
    LiteralReadsBack(element, b);
  }

  /** An undefined item is refused, at any depth, and nothing else is. */
  lemma UndefinedIsRefused<E>(element: E -> string, items: seq<Item<E>>)
    ensures Serialize(element, Array(items)).Err? <==> !Defined(items)
  {
    SerializesExactly(element, items);
  }
}
