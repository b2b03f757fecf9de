/**
 The canonical JSON text the evidence hashes are taken of: keys sorted, no spaces, only what must be
 escaped escaped. A reader of such texts shows that they determine the value.
 */
module CanonicalJson {

  /** A number is its literal, as it is written and read back; the fields of an object are in insertion order. */
  datatype Json =
    | Null
    | Bool(value: bool)
    | Number(literal: string)
    | Text(text: string)
    | List(items: Items)
    | Object(fields: Fields)

  datatype Items = NoItems | Item(first: Json, rest: Items)

  datatype Fields = NoFields | Field(key: string, value: Json, rest: Fields)

  // ----- Objects -----

  predicate HasKey(fields: Fields, key: string) {
    fields.Field? && (fields.key == key || HasKey(fields.rest, key))
  }

  datatype Found = Missing | Found(value: Json)

  function Lookup(fields: Fields, key: string): Found {
    if fields.NoFields? then Missing else if fields.key == key then Found.Found(fields.value)
        else Lookup(fields.rest, key)
  }

  /** `fields | {key: value}` */
  function Put(fields: Fields, key: string, value: Json): Fields {
    match fields
    case NoFields => Field(key, value, NoFields)
    case Field(k, v, rest) => if k == key then Field(k, value, rest) else Field(k, v, Put(rest, key, value))
  }

  function Remove(fields: Fields, key: string): Fields {
    match fields
    case NoFields => NoFields
    case Field(k, v, rest) => if k == key then Remove(rest, key) else Field(k, v, Remove(rest, key))
  }

  predicate NumericChar(c: char) {
    '0' <= c <= '9' || c == '+' || c == '-' || c == '.' || c == 'e' || c == 'E'
  }

  predicate IsNumeral(s: string) {
    s != "" && ('0' <= s[0] <= '9' || s[0] == '-') && forall c | c in s :: NumericChar(c)
  }

  /** Numbers are written as numerals and no object has a key twice. */
  predicate Valid(j: Json) {
    match j
    case Number(literal) => IsNumeral(literal)
    case List(items) => ValidItems(items)
    case Object(fields) => ValidFields(fields)
    case _ => true
  }

  predicate ValidItems(items: Items) {
    items.Item? ==> Valid(items.first) && ValidItems(items.rest)
  }

  predicate ValidFields(fields: Fields) {
    fields.Field? ==> Valid(fields.value) && !HasKey(fields.rest, fields.key) && ValidFields(fields.rest)
  }

  // ----- Sorting the keys -----

  /** The order of strings by code points. */
  predicate Less(a: string, b: string)
    decreases |a|
  {
    b != "" && (a == "" || a[0] < b[0] || (a[0] == b[0] && Less(a[1..], b[1..])))
  }

  /** A proper prefix comes first; otherwise the first difference decides. */
  lemma {:induction false} LessIsLexicographic(a: string, b: string)
    ensures Less(a, b) <==>
            (a <= b && a != b) || exists k :: 0 <= k < |a| && k < |b| && a[..k] == b[..k] && a[k] < b[k]
    decreases |a|
  {
    if a != "" && b != "" && a[0] == b[0] {
      LessIsLexicographic(a[1..], b[1..]);
      assert a == [a[0]] + a[1..] && b == [b[0]] + b[1..];
      if k :| 0 <= k < |a| - 1 && k < |b| - 1 && a[1..][..k] == b[1..][..k] && a[1..][k] < b[1..][k] {
        assert a[..k + 1] == [a[0]] + a[1..][..k] && b[..k + 1] == [b[0]] + b[1..][..k];
        assert a[k + 1] < b[k + 1];
      }
      if k :| 0 <= k < |a| && k < |b| && a[..k] == b[..k] && a[k] < b[k] {
        assert a[1..][..k - 1] == a[..k][1..] && b[1..][..k - 1] == b[..k][1..];
        assert a[1..][k - 1] < b[1..][k - 1];
      }
    } else if a != "" && b != "" {
      assert a[..0] == b[..0];
    }
  }

  lemma {:induction false} LessTransitive(a: string, b: string, c: string)
    requires Less(a, b) && Less(b, c)
    ensures Less(a, c)
    decreases |a|
  {
    if a != "" && a[0] == b[0] == c[0] {
      LessTransitive(a[1..], b[1..], c[1..]);
    }
  }

  lemma {:induction false} LessTotal(a: string, b: string)
    ensures Less(a, b) || Less(b, a) || a == b
    ensures !(Less(a, b) && Less(b, a)) && !Less(a, a)
    decreases |a|
  {
    if a != "" {
      LessTotal(a[1..], a[1..]);
      if b != "" && a[0] == b[0] {
        LessTotal(a[1..], b[1..]);
        if a[1..] == b[1..] {
          assert a == [a[0]] + a[1..] && b == [b[0]] + b[1..];
        }
      }
    }
  }

  function Insert(key: string, value: Json, fields: Fields): Fields {
    match fields
    case NoFields => Field(key, value, NoFields)
    case Field(k, v, rest) => if Less(k, key) then Field(k, v, Insert(key, value, rest)) else Field(key, value, fields)
  }

  /** The value with the keys of every object in it sorted. */
  function Sorted(j: Json): Json {
    match j
    case List(items) => List(SortedItems(items))
    case Object(fields) => Object(SortedFields(fields))
    case _ => j
  }

  function SortedItems(items: Items): Items {
    match items
    case NoItems => NoItems
    case Item(first, rest) => Item(Sorted(first), SortedItems(rest))
  }

  function SortedFields(fields: Fields): Fields {
    match fields
    case NoFields => NoFields
    case Field(key, value, rest) => Insert(key, Sorted(value), SortedFields(rest))
  }

  predicate AllAbove(key: string, fields: Fields) {
    fields.Field? ==> Less(key, fields.key) && AllAbove(key, fields.rest)
  }

  predicate Ascending(fields: Fields) {
    fields.Field? ==> AllAbove(fields.key, fields.rest) && Ascending(fields.rest)
  }

  /** Every object in the value has its keys in ascending order. */
  predicate Normal(j: Json) {
    match j
    case List(items) => NormalItems(items)
    case Object(fields) => NormalFields(fields)
    case _ => true
  }

  predicate NormalItems(items: Items) {
    items.Item? ==> Normal(items.first) && NormalItems(items.rest)
  }

  predicate NormalFields(fields: Fields) {
    fields.Field? ==> Normal(fields.value) && AllAbove(fields.key, fields.rest) && NormalFields(fields.rest)
  }

  lemma {:induction false} AboveLater(low: string, key: string, fields: Fields)
    requires Less(low, key) && AllAbove(key, fields)
    ensures AllAbove(low, fields)
  {
    if fields.Field? {
      LessTransitive(low, key, fields.key);
      AboveLater(low, key, fields.rest);
    }
  }

  lemma {:induction false} AboveHasNot(key: string, fields: Fields, k: string)
    requires AllAbove(key, fields) && HasKey(fields, k)
    ensures Less(key, k)
  {
    if fields.key != k {
      AboveHasNot(key, fields.rest, k);
    }
  }

  lemma {:induction false} InsertAbove(low: string, key: string, value: Json, fields: Fields)
    requires Less(low, key) && AllAbove(low, fields)
    ensures AllAbove(low, Insert(key, value, fields))
  {
    if fields.Field? {
      InsertAbove(low, key, value, fields.rest);
    }
  }

  lemma {:induction false} InsertNormal(key: string, value: Json, fields: Fields)
    requires NormalFields(fields) && Normal(value) && !HasKey(fields, key)
    ensures NormalFields(Insert(key, value, fields))
  {
    if fields.Field? {
      LessTotal(fields.key, key);
      if Less(fields.key, key) {
        InsertNormal(key, value, fields.rest);
        InsertAbove(fields.key, key, value, fields.rest);
      } else {
        AboveLater(key, fields.key, fields.rest);
      }
    }
  }

  lemma {:induction false} InsertLooksUp(key: string, value: Json, fields: Fields, k: string)
    requires !HasKey(fields, key)
    ensures Lookup(Insert(key, value, fields), k) == if k == key then Found.Found(value) else Lookup(fields, k)
    ensures HasKey(Insert(key, value, fields), k) <==> k == key || HasKey(fields, k)
  {
    if fields.Field? {
      InsertLooksUp(key, value, fields.rest, k);
    }
  }

  lemma {:induction false} SortedLooksUp(fields: Fields, k: string)
    requires ValidFields(fields)
    ensures HasKey(SortedFields(fields), k) <==> HasKey(fields, k)
    ensures Lookup(SortedFields(fields), k) == match Lookup(fields,
        k) case Missing => Missing case Found(v) => Found.Found(Sorted(v))
  {
    if fields.Field? {
      SortedLooksUp(fields.rest, k);
      SortedLooksUp(fields.rest, fields.key);
      InsertLooksUp(fields.key, Sorted(fields.value), SortedFields(fields.rest), k);
    }
  }

  lemma {:induction false} LookupHasKey(fields: Fields, k: string)
    ensures HasKey(fields, k) <==> Lookup(fields, k).Found?
  {
    if fields.Field? {
      LookupHasKey(fields.rest, k);
    }
  }

  lemma {:induction false} SortedIsNormal(j: Json)
    requires Valid(j)
    ensures Normal(Sorted(j))
  {
    match j
    case List(items) => SortedItemsNormal(items);
    case Object(fields) => SortedFieldsNormal(fields);
    case _ =>
  }

  lemma {:induction false} SortedItemsNormal(items: Items)
    requires ValidItems(items)
    ensures NormalItems(SortedItems(items))
  {
    if items.Item? {
      SortedIsNormal(items.first);
      SortedItemsNormal(items.rest);
    }
  }

  lemma {:induction false} SortedFieldsNormal(fields: Fields)
    requires ValidFields(fields)
    ensures NormalFields(SortedFields(fields))
  {
    if fields.Field? {
      SortedIsNormal(fields.value);
      SortedFieldsNormal(fields.rest);
      SortedLooksUp(fields.rest, fields.key);
      InsertNormal(fields.key, Sorted(fields.value), SortedFields(fields.rest));
    }
  }

  /** Sorting what is sorted changes nothing. */
  lemma {:induction false} NormalIsSorted(j: Json)
    requires Normal(j)
    ensures Sorted(j) == j
  {
    match j
    case List(items) => NormalItemsSorted(items);
    case Object(fields) => NormalFieldsSorted(fields);
    case _ =>
  }

  lemma {:induction false} NormalItemsSorted(items: Items)
    requires NormalItems(items)
    ensures SortedItems(items) == items
  {
    if items.Item? {
      NormalIsSorted(items.first);
      NormalItemsSorted(items.rest);
    }
  }

  lemma {:induction false} NormalFieldsSorted(fields: Fields)
    requires NormalFields(fields)
    ensures SortedFields(fields) == fields
  {
    if fields.Field? {
      NormalIsSorted(fields.value);
      NormalFieldsSorted(fields.rest);
      if fields.rest.Field? {
        LessTotal(fields.key, fields.rest.key);
      }
    }
  }

  /** Two sorted objects that answer every lookup alike are the same. */
  lemma {:induction false} NormalUnique(f: Fields, g: Fields)
    requires NormalFields(f) && NormalFields(g) && forall k :: Lookup(f, k) == Lookup(g, k)
    ensures f == g
  {
    assert f.Field? ==> Lookup(f, f.key) == Lookup(g, f.key);
    assert g.Field? ==> Lookup(f, g.key) == Lookup(g, g.key);
    if f.Field? && g.Field? {
      HeadIsLeast(f, g.key);
      HeadIsLeast(g, f.key);
      LessTotal(f.key, g.key);
      forall k ensures Lookup(f.rest, k) == Lookup(g.rest, k) {
        assert Lookup(f, k) == Lookup(g, k);
        if k == f.key {
          HeadOnlyOnce(f);
          HeadOnlyOnce(g);
        }
      }
      NormalUnique(f.rest, g.rest);
    }
  }

  lemma HeadIsLeast(f: Fields, k: string)
    requires NormalFields(f) && f.Field? && Lookup(f, k).Found?
    ensures k == f.key || Less(f.key, k)
  {
    LookupHasKey(f, k);
    if k != f.key {
      AboveHasNot(f.key, f.rest, k);
    }
  }

  lemma HeadOnlyOnce(f: Fields)
    requires NormalFields(f) && f.Field?
    ensures Lookup(f.rest, f.key) == Missing
  {
    LookupHasKey(f.rest, f.key);
    LessTotal(f.key, f.key);
    if HasKey(f.rest, f.key) {
      AboveHasNot(f.key, f.rest, f.key);
    }
  }

  /** The order in which the fields of an object were inserted does not matter. */
  lemma InsertionOrderIrrelevant(f: Fields, g: Fields)
    requires ValidFields(f) && ValidFields(g) && forall k :: Lookup(f, k) == Lookup(g, k)
    ensures SortedFields(f) == SortedFields(g)
  {
    SortedFieldsNormal(f);
    SortedFieldsNormal(g);
    forall k ensures Lookup(SortedFields(f), k) == Lookup(SortedFields(g), k) {
      SortedLooksUp(f, k);
      SortedLooksUp(g, k);
    }
    NormalUnique(SortedFields(f), SortedFields(g));
  }

  // ----- Writing -----

  function HexDigit(n: nat): char
    requires n < 16
  {
    "0123456789abcdef"[n]
  }

  function Escape(c: char): string {
    if c == '\"' then "\\\""
    else if c == '\\' then "\\\\"
    else if c == '\n' then "\\n"
    else if c == '\r' then "\\r"
    else if c == '\t' then "\\t"
    else if c == '\U{000C}' then "\\f"
    else if c == '\U{0008}' then "\\b"
    else if c < ' ' then ['\\', 'u', '0', '0', HexDigit(c as int / 16), HexDigit(c as int % 16)]
    else [c]
  }

  function Escaped(s: string): string {
    if s == "" then "" else Escape(s[0]) + Escaped(s[1..])
  }

  function Quoted(s: string): string {
    "\"" + Escaped(s) + "\""
  }

  function Write(j: Json): string {
    match j
    case Null => "null"
    case Bool(value) => if value then "true" else "false"
    case Number(literal) => literal
    case Text(text) => Quoted(text)
    case List(NoItems) => "[]"
    case List(Item(first, rest)) => "[" + Write(first) + WriteItems(rest)
    case Object(NoFields) => "{}"
    case Object(Field(key, value, rest)) => "{" + Quoted(key) + ":" + Write(value) + WriteFields(rest)
  }

  function WriteItems(items: Items): string {
    match items
    case NoItems => "]"
    case Item(first, rest) => "," + Write(first) + WriteItems(rest)
  }

  function WriteFields(fields: Fields): string {
    match fields
    case NoFields => "}"
    case Field(key, value, rest) => "," + Quoted(key) + ":" + Write(value) + WriteFields(rest)
  }

  /** `canonical_json` */
  function Canonical(j: Json): string {
    Write(Sorted(j))
  }

  // ----- Reading -----

  /** What was read and the rest of the text. */
  datatype Parsed<T> = Parsed(value: T, rest: string) | NoParse

  predicate HexChar(c: char) {
    '0' <= c <= '9' || 'a' <= c <= 'f'
  }

  function HexValue(c: char): nat
    requires HexChar(c)
  {
    if c <= '9' then c as int - '0' as int else c as int - 'a' as int + 10
  }

  function ReadChar(s: string): (r: Parsed<char>)
    ensures r.Parsed? ==> |r.rest| < |s|
  {
    if s == "" || s[0] < ' ' then NoParse
    else if s[0] != '\\' then Parsed(s[0], s[1..])
    else if |s| < 2 then NoParse
    else if s[1] == '\"' || s[1] == '\\' then Parsed(s[1], s[2..])
    else if s[1] == 'n' then Parsed('\n', s[2..])
    else if s[1] == 'r' then Parsed('\r', s[2..])
    else if s[1] == 't' then Parsed('\t', s[2..])
    else if s[1] == 'f' then Parsed('\U{000C}', s[2..])
    else if s[1] == 'b' then Parsed('\U{0008}', s[2..])
    else if |s| < 6 || s[1] != 'u' || s[2] != '0' || s[3] != '0' || !HexChar(s[4]) || !HexChar(s[5]) then NoParse
    else Parsed((16 * HexValue(s[4]) + HexValue(s[5])) as char, s[6..])
  }

  /** The characters of a string up to its closing quote. */
  function ReadText(s: string): (r: Parsed<string>)
    ensures r.Parsed? ==> |r.rest| < |s|
    decreases |s|
  {
    if s != "" && s[0] == '\"' then Parsed("", s[1..])
    else
      match ReadChar(s)
      case NoParse => NoParse
      case Parsed(c, rest) =>
        match ReadText(rest)
        case NoParse => NoParse
        case Parsed(text, after) => Parsed([c] + text, after)
  }

  function ReadNumeral(s: string): (r: Parsed<string>)
    ensures r.Parsed? && |r.rest| <= |s|
  {
    if s == "" || !NumericChar(s[0]) then Parsed("", s)
    else
      var more := ReadNumeral(s[1..]);
      Parsed([s[0]] + more.value, more.rest)
  }

  function Read(s: string): (r: Parsed<Json>)
    ensures r.Parsed? ==> |r.rest| < |s|
    decreases |s|, 0
  {
    if s == "" then NoParse
    else if s[0] == 'n' then if "null" <= s then Parsed(Null, s[4..]) else NoParse
    else if s[0] == 't' then if "true" <= s then Parsed(Bool(true), s[4..]) else NoParse
    else if s[0] == 'f' then if "false" <= s then Parsed(Bool(false), s[5..]) else NoParse
    else if s[0] == '\"' then
      (match ReadText(s[1..])
       case NoParse => NoParse
       case Parsed(text, rest) => Parsed(Text(text), rest))
    else if s[0] == '[' then
      if |s| > 1 && s[1] == ']' then Parsed(List(NoItems), s[2..])
      else
        (match Read(s[1..])
         case NoParse => NoParse
         case Parsed(first, rest) =>
           match ReadItems(rest)
           case NoParse => NoParse
           case Parsed(items, after) => Parsed(List(Item(first, items)), after))
    else if s[0] == '{' then
      if |s| > 1 && s[1] == '}' then Parsed(Object(NoFields), s[2..])
      else
        (match ReadField(s[1..])
         case NoParse => NoParse
         case Parsed(field, rest) =>
           match ReadFields(rest)
           case NoParse => NoParse
           case Parsed(fields, after) => Parsed(Object(Field(field.0, field.1, fields)), after))
    else if '0' <= s[0] <= '9' || s[0] == '-' then
      var numeral := ReadNumeral(s[1..]);
      Parsed(Number([s[0]] + numeral.value), numeral.rest)
    else NoParse
  }

  /** The items after the first. */
  function ReadItems(s: string): (r: Parsed<Items>)
    ensures r.Parsed? ==> |r.rest| < |s|
    decreases |s|, 0
  {
    if s != "" && s[0] == ']' then Parsed(NoItems, s[1..])
    else if s == "" || s[0] != ',' then NoParse
    else
      match Read(s[1..])
      case NoParse => NoParse
      case Parsed(first, rest) =>
        match ReadItems(rest)
        case NoParse => NoParse
        case Parsed(items, after) => Parsed(Item(first, items), after)
  }

  function ReadField(s: string): (r: Parsed<(string, Json)>)
    ensures r.Parsed? ==> |r.rest| < |s|
    decreases |s|, 1
  {
    if s == "" || s[0] != '\"' then NoParse
    else
      match ReadText(s[1..])
      case NoParse => NoParse
      case Parsed(key, rest) =>
        if rest == "" || rest[0] != ':' then NoParse
        else
          match Read(rest[1..])
          case NoParse => NoParse
          case Parsed(value, after) => Parsed((key, value), after)
  }

  /** The fields after the first. */
  function ReadFields(s: string): (r: Parsed<Fields>)
    ensures r.Parsed? ==> |r.rest| < |s|
    decreases |s|, 0
  {
    if s != "" && s[0] == '}' then Parsed(NoFields, s[1..])
    else if s == "" || s[0] != ',' then NoParse
    else
      match ReadField(s[1..])
      case NoParse => NoParse
      case Parsed(field, rest) =>
        match ReadFields(rest)
        case NoParse => NoParse
        case Parsed(fields, after) => Parsed(Field(field.0, field.1, fields), after)
  }

  // ----- Reading back what was written -----

  lemma HexRoundTrip(n: nat)
    requires n < 16
    ensures HexChar(HexDigit(n)) && HexValue(HexDigit(n)) == n
  {
  }

  lemma EscapeReadsBack(c: char, rest: string)
    ensures Escape(c) != "" && Escape(c)[0] != '\"'
    ensures ReadChar(Escape(c) + rest) == Parsed(c, rest)
  {
    hide HexDigit, HexValue, HexChar;
    var s := Escape(c) + rest;
    if c < ' ' {
      HexRoundTrip(c as int / 16);
      HexRoundTrip(c as int % 16);
    }
    assert s[|Escape(c)|..] == rest;
  }

  lemma {:induction false} TextReadsBack(text: string, rest: string)
    ensures ReadText(Escaped(text) + "\"" + rest) == Parsed(text, rest)
    decreases |text|
  {
    hide Escape, ReadChar;
    if text == "" {
      assert Escaped(text) + "\"" + rest == "\"" + rest;
      assert ("\"" + rest)[1..] == rest;
    } else {
      var later := Escaped(text[1..]) + "\"" + rest;
      assert Escaped(text) + "\"" + rest == Escape(text[0]) + later;
      EscapeReadsBack(text[0], later);
      TextReadsBack(text[1..], rest);
      assert text == [text[0]] + text[1..];
    }
  }

  /** A text that does not go on with a numeral. */
  predicate Ends(rest: string) {
    rest == "" || !NumericChar(rest[0])
  }

  lemma {:induction false} NumeralReadsBack(literal: string, rest: string)
    requires Ends(rest) && forall c | c in literal :: NumericChar(c)
    ensures ReadNumeral(literal + rest) == Parsed(literal, rest)
    decreases |literal|
  {
    if literal == "" {
      assert literal + rest == rest;
    } else {
      assert literal[0] in literal;
      assert (literal + rest)[1..] == literal[1..] + rest;
      NumeralReadsBack(literal[1..], rest);
      assert literal == [literal[0]] + literal[1..];
    }
  }

  lemma NumberReadsBack(literal: string, rest: string)
    requires IsNumeral(literal) && Ends(rest)
    ensures Read(literal + rest) == Parsed(Number(literal), rest)
  {
    var s := literal + rest;
    assert s[0] == literal[0] && s[1..] == literal[1..] + rest;
    NumeralReadsBack(literal[1..], rest);
    assert literal == [literal[0]] + literal[1..];
  }

  lemma QuotedReadsBack(text: string, rest: string)
    ensures var s := Quoted(text) + rest; s[0] == '\"' && ReadText(s[1..]) == Parsed(text, rest)
  {
    var s := Quoted(text) + rest;
    assert s[1..] == Escaped(text) + "\"" + rest;
    TextReadsBack(text, rest);
  }

  /** No value starts like the end of a list or of an object. */
  lemma WriteStarts(j: Json)
    requires Valid(j)
    ensures Write(j) != "" && Write(j)[0] != ']' && Write(j)[0] != '}'
  {
    hide Escaped;
  }

  lemma {:induction false} WriteReadsBack(j: Json, rest: string)
    requires Valid(j) && Ends(rest)
    ensures Read(Write(j) + rest) == Parsed(j, rest)
    decreases j, 0
  {
    match j
    case Null => assert ("null" + rest)[4..] == rest;
    case Bool(value) =>
      assert ("true" + rest)[4..] == rest;
      assert ("false" + rest)[5..] == rest;
    case Number(literal) => NumberReadsBack(literal, rest);
    case Text(text) => QuotedReadsBack(text, rest);
    case List(items) => ListReadsBack(items, rest);
    case Object(fields) => ObjectReadsBack(fields, rest);
  }

  lemma {:induction false} ListReadsBack(items: Items, rest: string)
    requires ValidItems(items) && Ends(rest)
    ensures Read(Write(List(items)) + rest) == Parsed(List(items), rest)
    decreases items, 1
  {
    hide ReadText, ReadNumeral, ReadField, ReadFields, Quoted;
    var s := Write(List(items)) + rest;
    match items
    case NoItems => assert s[2..] == rest;
    case Item(first, more) =>
      var later := WriteItems(more) + rest;
      WriteStarts(first);
      assert s[1..] == Write(first) + later;
      assert s[1] == Write(first)[0];
      WriteReadsBack(first, later);
      ItemsReadBack(more, rest);
  }

  lemma {:induction false} ItemsReadBack(items: Items, rest: string)
    requires ValidItems(items) && Ends(rest)
    ensures ReadItems(WriteItems(items) + rest) == Parsed(items, rest)
    decreases items, 0
  {
    hide Read, Write;
    var s := WriteItems(items) + rest;
    match items
    case NoItems => assert s[1..] == rest;
    case Item(first, more) =>
      var later := WriteItems(more) + rest;
      assert s[1..] == Write(first) + later;
      WriteReadsBack(first, later);
      ItemsReadBack(more, rest);
  }

  lemma {:induction false} ObjectReadsBack(fields: Fields, rest: string)
    requires ValidFields(fields) && Ends(rest)
    ensures Read(Write(Object(fields)) + rest) == Parsed(Object(fields), rest)
    decreases fields, 2
  {
    hide Quoted, ReadText, ReadNumeral, ReadItems;
    var s := Write(Object(fields)) + rest;
    match fields
    case NoFields => assert s[2..] == rest;
    case Field(key, value, more) =>
      var later := WriteFields(more) + rest;
      assert s[1..] == Quoted(key) + ":" + Write(value) + later;
      FieldReadsBack(key, value, later);
      FieldsReadBack(more, rest);
  }

  lemma {:induction false} FieldReadsBack(key: string, value: Json, rest: string)
    requires Valid(value) && Ends(rest)
    ensures var s := Quoted(key) + ":" + Write(value) + rest; s[0] == '\"' && ReadField(s) == Parsed((key, value), rest)
    decreases value, 3
  {
    hide Quoted, Read, Write, ReadText;
    var s := Quoted(key) + ":" + Write(value) + rest;
    var later := ":" + Write(value) + rest;
    assert s == Quoted(key) + later;
    QuotedReadsBack(key, later);
    assert later[1..] == Write(value) + rest;
    WriteReadsBack(value, rest);
  }

  lemma {:induction false} FieldsReadBack(fields: Fields, rest: string)
    requires ValidFields(fields) && Ends(rest)
    ensures ReadFields(WriteFields(fields) + rest) == Parsed(fields, rest)
    decreases fields, 2
  {
    hide Quoted, Read, Write, ReadText;
    var s := WriteFields(fields) + rest;
    match fields
    case NoFields => assert s[1..] == rest;
    case Field(key, value, more) =>
      var later := WriteFields(more) + rest;
      assert s[1..] == Quoted(key) + ":" + Write(value) + later;
      FieldReadsBack(key, value, later);
      FieldsReadBack(more, rest);
  }

  // ----- The canonical text determines the value -----

  lemma {:induction false} InsertValid(key: string, value: Json, fields: Fields)
    requires ValidFields(fields) && Valid(value) && !HasKey(fields, key)
    ensures ValidFields(Insert(key, value, fields))
  {
    if fields.Field? {
      InsertValid(key, value, fields.rest);
      InsertLooksUp(key, value, fields.rest, fields.key);
    }
  }

  lemma {:induction false} SortedIsValid(j: Json)
    requires Valid(j)
    ensures Valid(Sorted(j))
  {
    match j
    case List(items) => SortedItemsValid(items);
    case Object(fields) => SortedFieldsValid(fields);
    case _ =>
  }

  lemma {:induction false} SortedItemsValid(items: Items)
    requires ValidItems(items)
    ensures ValidItems(SortedItems(items))
  {
    if items.Item? {
      SortedIsValid(items.first);
      SortedItemsValid(items.rest);
    }
  }

  lemma {:induction false} SortedFieldsValid(fields: Fields)
    requires ValidFields(fields)
    ensures ValidFields(SortedFields(fields))
  {
    if fields.Field? {
      SortedIsValid(fields.value);
      SortedFieldsValid(fields.rest);
      SortedLooksUp(fields.rest, fields.key);
      InsertValid(fields.key, Sorted(fields.value), SortedFields(fields.rest));
    }
  }

  /** Reading a canonical text gives the value back, with its keys sorted. */
  lemma CanonicalReadsBack(j: Json)
    requires Valid(j)
    ensures Read(Canonical(j)) == Parsed(Sorted(j), "")
  {
    hide Read, Write, Sorted, Valid;
    SortedIsValid(j);
    WriteReadsBack(Sorted(j), "");
    assert Canonical(j) + "" == Canonical(j);
  }

  /** Two values have the same canonical text exactly when they are equal up to the order of keys. */
  lemma CanonicalInjective(a: Json, b: Json)
    requires Valid(a) && Valid(b)
    ensures Canonical(a) == Canonical(b) <==> Sorted(a) == Sorted(b)
  {
    hide Read, Write, Sorted, Valid;
    CanonicalReadsBack(a);
    CanonicalReadsBack(b);
  }
}
