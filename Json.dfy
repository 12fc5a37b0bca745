/**
 * The JSON the pipeline exchanges: values, `JSON.stringify` of a flat
 * object whose fields are all strings, and a parser restricted to the
 * same flat objects.  The general `JSON.parse` stays an abstract partial
 * function; what the model assumes about it is stated by the two
 * predicates at the end of the module.
 */
module Json {
  import opened Wrappers

  /** A JSON value; objects are key-to-value maps, so key order is not kept. */
  datatype Json =
    | JNull
    | JBool(b: bool)
    | JNumber(r: real)
    | JString(s: string)
    | JArray(items: seq<Json>)
    | JObject(fields: map<string, Json>)

  /** The lower-case hexadecimal digit `JSON.stringify` writes in a `\u` escape. */
  function HexDigit(n: nat): char
    requires n < 16
  {
    if n < 10 then ('0' as int + n) as char else ('a' as int + n - 10) as char
  }

  /** The value of a hexadecimal digit of either case, if it is one. */
  function HexValue(c: char): Option<nat> {
    if '0' <= c <= '9' then Some(c as int - '0' as int)
    else if 'a' <= c <= 'f' then Some(c as int - 'a' as int + 10)
    else if 'A' <= c <= 'F' then Some(c as int - 'A' as int + 10)
    else None
  }

  /**
   * How `JSON.stringify` writes one character inside a string: the seven
   * short escapes, `\u00xx` for the other control characters, and the
   * character itself otherwise.
   */
  function EscapeChar(c: char): string {
    if c == '"' then "\\\""
    else if c == '\\' then "\\\\"
    else if c as int == 0x08 then "\\b"
    else if c as int == 0x0C then "\\f"
    else if c == '\n' then "\\n"
    else if c == '\r' then "\\r"
    else if c == '\t' then "\\t"
    else if c as int < 0x20 then "\\u00" + [HexDigit(c as int / 16), HexDigit(c as int % 16)]
    else [c]
  }

  function Escape(s: string): string {
    if s == [] then [] else EscapeChar(s[0]) + Escape(s[1..])
  }

  /** `JSON.stringify` of a string. */
  function Quote(s: string): string {
    "\"" + Escape(s) + "\""
  }

  /** The members of a flat object, in insertion order, separated by commas. */
  function Members(fields: seq<(string, string)>): string {
    if fields == [] then []
    else if |fields| == 1 then Quote(fields[0].0) + ":" + Quote(fields[0].1)
    else Quote(fields[0].0) + ":" + Quote(fields[0].1) + "," + Members(fields[1..])
  }

  /** `JSON.stringify` of an object whose every property is a string. */
  function StringifyFlat(fields: seq<(string, string)>): string {
    "{" + Members(fields) + "}"
  }

  /** The fields entered in order into `acc`; a later key overrides an earlier one. */
  function Enter(acc: map<string, string>, fields: seq<(string, string)>): map<string, string>
    decreases |fields|
  {
    if fields == [] then acc else Enter(acc[fields[0].0 := fields[0].1], fields[1..])
  }

  /** The object a sequence of fields denotes. */
  function ToMap(fields: seq<(string, string)>): map<string, string> {
    Enter(map[], fields)
  }

  /** A flat object as a JSON value. */
  function FlatToJson(m: map<string, string>): Json {
    JObject(map k | k in m :: JString(m[k]))
  }

  /** The escape after a backslash: the character it stands for and what follows it. */
  function ParseEscape(s: string): Option<(char, string)> {
    if s == [] then None
    else if s[0] == '"' then Some(('"', s[1..]))
    else if s[0] == '\\' then Some(('\\', s[1..]))
    else if s[0] == '/' then Some(('/', s[1..]))
    else if s[0] == 'b' then Some((0x08 as char, s[1..]))
    else if s[0] == 'f' then Some((0x0C as char, s[1..]))
    else if s[0] == 'n' then Some(('\n', s[1..]))
    else if s[0] == 'r' then Some(('\r', s[1..]))
    else if s[0] == 't' then Some(('\t', s[1..]))
    else if s[0] == 'u' && |s| >= 5 && HexValue(s[1]).Some? && HexValue(s[2]).Some? && HexValue(s[3]).Some? && HexValue(s[4]).Some? then
      var v := ((HexValue(s[1]).value * 16 + HexValue(s[2]).value) * 16 + HexValue(s[3]).value) * 16 + HexValue(s[4]).value;
      // A surrogate code unit is not a character on its own; such input is left to the general parser.
      if 0xD800 <= v < 0xE000 then None else Some((v as char, s[5..]))
    else None
  }

  /** One character of a string body, escaped or not. */
  function ParseChar(s: string): (r: Option<(char, string)>)
    ensures r.Some? ==> |r.value.1| < |s|
  {
    if s == [] then None
    else if s[0] == '\\' then ParseEscape(s[1..])
    else if s[0] == '"' || s[0] as int < 0x20 then None
    else Some((s[0], s[1..]))
  }

  /** A string body up to and including its closing quote. */
  function ParseChars(s: string): (r: Option<(string, string)>)
    ensures r.Some? ==> |r.value.1| < |s|
    decreases |s|
  {
    if s == [] then None
    else if s[0] == '"' then Some(([], s[1..]))
    else
      match ParseChar(s)
      case None => None
      case Some((c, rest)) =>
        match ParseChars(rest)
        case None => None
        case Some((body, after)) => Some(([c] + body, after))
  }

  /** A quoted string and what follows it. */
  function ParseString(s: string): (r: Option<(string, string)>)
    ensures r.Some? ==> |r.value.1| < |s|
  {
    if s != [] && s[0] == '"' then ParseChars(s[1..]) else None
  }

  /** Members after the opening brace, entered into `acc`, up to the closing brace that ends the text. */
  function ParseMembers(s: string, acc: map<string, string>): Option<map<string, string>>
    decreases |s|
  {
    match ParseString(s)
    case None => None
    case Some((key, afterKey)) =>
      if afterKey == [] || afterKey[0] != ':' then None
      else
        match ParseString(afterKey[1..])
        case None => None
        case Some((value, afterValue)) =>
          if afterValue == "}" then Some(acc[key := value])
          else if afterValue != [] && afterValue[0] == ',' then ParseMembers(afterValue[1..], acc[key := value])
          else None
  }

  /** A flat object of string properties written without whitespace, or `None`. */
  function ParseFlat(s: string): Option<map<string, string>> {
    if s == [] || s[0] != '{' then None
    else if s[1..] == "}" then Some(map[])
    else ParseMembers(s[1..], map[])
  }

  /** Every escape `JSON.stringify` writes reads back as the character it stands for. */
  lemma CharRoundTrip(c: char, t: string)
    ensures ParseChar(EscapeChar(c) + t) == Some((c, t))
  {
    var e := EscapeChar(c);
    var s := e + t;
    if c as int < 0x20 && c != '\n' && c != '\r' && c != '\t' && c as int != 0x08 && c as int != 0x0C {
      var hi, lo := c as int / 16, c as int % 16;
      assert s[1..] == ['u', '0', '0', HexDigit(hi), HexDigit(lo)] + t;
      assert HexValue(HexDigit(hi)) == Some(hi);
      assert HexValue(HexDigit(lo)) == Some(lo);
      assert s[6..] == t;
    } else if c == '"' || c == '\\' || c == '\n' || c == '\r' || c == '\t' || c as int == 0x08 || c as int == 0x0C {
      assert s[2..] == t;
    } else {
      assert s[1..] == t;
    }
  }

  /** The first character of an escape is a backslash or the character itself, never a quote. */
  lemma EscapeCharHead(c: char)
    ensures |EscapeChar(c)| >= 1 && EscapeChar(c)[0] != '"'
    ensures EscapeChar(c)[0] == '\\' || EscapeChar(c) == [c]
  {
  }

  /** One character read off the front of a string body, then the rest of the body. */
  lemma ParseCharsStep(s: string, c: char, tail: string, body: string, after: string)
    requires s != [] && s[0] != '"'
    requires ParseChar(s) == Some((c, tail))
    requires ParseChars(tail) == Some((body, after))
    ensures ParseChars(s) == Some(([c] + body, after))
  {
  }

  /** A string body written by `JSON.stringify` reads back as the string, leaving what follows the closing quote. */
  lemma {:induction false} CharsRoundTrip(x: string, rest: string)
    ensures ParseChars(Escape(x) + "\"" + rest) == Some((x, rest))
    decreases |x|
  {
    if x == [] {
      assert Escape(x) + "\"" + rest == "\"" + rest;
    } else {
      var e := EscapeChar(x[0]);
      var tail := Escape(x[1..]) + "\"" + rest;
      assert Escape(x) + "\"" + rest == e + tail;
      EscapeCharHead(x[0]);
      assert (e + tail)[0] == e[0];
      CharRoundTrip(x[0], tail);
      CharsRoundTrip(x[1..], rest);
      ParseCharsStep(e + tail, x[0], tail, x[1..], rest);
      assert [x[0]] + x[1..] == x;
    }
  }

  /** A quoted string reads back as the string. */
  lemma QuoteRoundTrip(x: string, rest: string)
    ensures ParseString(Quote(x) + rest) == Some((x, rest))
  {
    assert Quote(x) + rest == "\"" + (Escape(x) + "\"" + rest);
    CharsRoundTrip(x, rest);
  }

  /** One member `"k":"v"` read off the front of the members, and what the parser does next. */
  lemma MemberStep(k: string, v: string, tail: string, acc: map<string, string>)
    ensures ParseMembers(Quote(k) + ":" + Quote(v) + tail, acc) ==
      if tail == "}" then Some(acc[k := v])
      else if tail != [] && tail[0] == ',' then ParseMembers(tail[1..], acc[k := v])
      else None
  {
    var afterKey := ":" + (Quote(v) + tail);
    assert Quote(k) + ":" + Quote(v) + tail == Quote(k) + afterKey;
    QuoteRoundTrip(k, afterKey);
    assert afterKey[1..] == Quote(v) + tail;
    QuoteRoundTrip(v, tail);
  }

  /** A member followed by a comma: the parser enters it and goes on with the rest. */
  lemma MemberThenMore(k: string, v: string, rest: string, acc: map<string, string>)
    ensures ParseMembers(Quote(k) + ":" + Quote(v) + "," + rest, acc) == ParseMembers(rest, acc[k := v])
  {
    var tail := "," + rest;
    assert Quote(k) + ":" + Quote(v) + "," + rest == Quote(k) + ":" + Quote(v) + tail;
    MemberStep(k, v, tail, acc);
    assert tail != "}" by { assert |tail| == 1 ==> tail[0] == ','; }
    assert tail[1..] == rest;
  }

  /** The members of a non-empty flat object, closed by the brace, read back as their fields entered into `acc`. */
  lemma {:induction false} MembersRoundTrip(fields: seq<(string, string)>, acc: map<string, string>)
    requires fields != []
    ensures ParseMembers(Members(fields) + "}", acc) == Some(Enter(acc, fields))
    decreases |fields|
  {
    var k, v := fields[0].0, fields[0].1;
    if |fields| == 1 {
      MemberStep(k, v, "}", acc);
      assert fields[1..] == [];
    } else {
      var rest := Members(fields[1..]) + "}";
      assert Members(fields) + "}" == Quote(k) + ":" + Quote(v) + "," + rest;
      MemberThenMore(k, v, rest, acc);
      MembersRoundTrip(fields[1..], acc[k := v]);
    }
  }

  /** An object text whose members start with a quote is read member by member. */
  lemma ParseFlatOpen(m: string)
    requires m != [] && m[0] == '"'
    ensures ParseFlat("{" + m + "}") == ParseMembers(m + "}", map[])
  {
    var s := "{" + m + "}";
    assert s[1..] == m + "}";
    assert s[1..][0] == '"';
  }

  /** Round trip: the restricted parser reads `JSON.stringify` of a flat object back as that object. */
  lemma FlatRoundTrip(fields: seq<(string, string)>)
    ensures ParseFlat(StringifyFlat(fields)) == Some(ToMap(fields))
  {
    if fields == [] {
      assert StringifyFlat(fields)[1..] == "}";
    } else {
      var q := Quote(fields[0].0);
      assert Members(fields)[0] == q[0] == '"';
      ParseFlatOpen(Members(fields));
      MembersRoundTrip(fields, map[]);
    }
  }

  /**
   * The first of the two assumptions about `JSON.parse`: wherever the restricted parser
   * reads a flat object, `JSON.parse` returns that same object.
   */
  ghost predicate AgreesWithFlat(parse: string -> Option<Json>) {
    forall s :: ParseFlat(s).Some? ==> parse(s) == Some(FlatToJson(ParseFlat(s).value))
  }

  /** A character that can open the text of a JSON value, whitespace included. */
  predicate StartsValue(c: char) {
    c == '{' || c == '[' || c == '"' || c == '-' || ('0' <= c <= '9') || c == 't' || c == 'f' || c == 'n'
    || c == ' ' || c == '\t' || c == '\n' || c == '\r'
  }

  /** `JSON.parse` throws on empty text and on text whose first character cannot start a value. */
  ghost predicate RejectsProse(parse: string -> Option<Json>) {
    forall s :: (s == [] || !StartsValue(s[0])) ==> parse(s).None?
  }

  /** With the assumption in place, `JSON.parse` of `JSON.stringify` of a flat object is that object. */
  lemma ParseStringified(parse: string -> Option<Json>, fields: seq<(string, string)>)
    requires AgreesWithFlat(parse)
    ensures parse(StringifyFlat(fields)) == Some(FlatToJson(ToMap(fields)))
  {
    FlatRoundTrip(fields);
  }
}
