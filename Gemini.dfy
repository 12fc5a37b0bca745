/**
 * The assistant pipeline of `api/index.js`: the prompt sent upstream, the
 * fail-soft wrapper around the upstream call (`geminiResponse`), and the
 * normaliser that strips code fences from the reply and parses it.
 */
module Gemini {
  import opened Wrappers
  import opened Text
  import opened Json

  // ---------------------------------------------------------------- prompt

  /** The twelve intent kinds the prompt offers the model, in the prompt's order. */
  const Kinds: seq<string> := [
    "general", "google-search", "youtube-search", "youtube-play",
    "get-time", "get-date", "get-day", "get-month",
    "calculator-open", "instagram-open", "facebook-open", "weather-show"
  ]

  /** The `type` alternatives as the prompt spells them: the kinds joined by `|`. */
  const KindList: string := Join(Kinds, '|')

  /** How a template interpolates the command: an absent command prints as `undefined`. */
  function CommandText(command: Option<string>): string {
    if command.Some? then command.value else "undefined"
  }

  /** The prompt: the assistant's and the user's names, the reply format with the kinds, and the command last. */
  function BuildPrompt(assistantName: string, userName: string, command: string): string {
    PromptText(KindList, assistantName, userName, command)
  }

  // The fixed pieces of the prompt's template.
  const PromptIntro: string := "You are a virtual assistant named "
  const PromptCreator: string := " created by "
  const PromptFormat: string := ". \nRespond with JSON only: {\"type\": \""
  const PromptFields: string := "\", \"userInput\": \"<input>\", \"response\": \"<short spoken response>\"}\nUser input: "

  /** The prompt's template, with the list of kinds as a parameter so that it can be reasoned about piece by piece. */
  function PromptText(kindList: string, assistantName: string, userName: string, command: string): string {
    PromptIntro + assistantName + PromptCreator + userName + PromptFormat + kindList + PromptFields + command
  }

  /** The two pieces in front of the names are 34 and 12 characters long. */
  lemma PromptPieceLengths()
    ensures |PromptIntro| == 34 && |PromptCreator| == 12
  {
  }

  /** Where each interpolated part of an eight-part concatenation sits. */
  lemma TemplateSlices(i: string, a: string, c: string, u: string, f: string, k: string, q: string, cmd: string)
    ensures var p := i + a + c + u + f + k + q + cmd;
      var uo := |i| + |a| + |c|;
      var ko := uo + |u| + |f|;
      ko + |k| <= |p| && |cmd| <= |p|
      && p[|i|..|i| + |a|] == a
      && p[uo..uo + |u|] == u
      && p[ko..ko + |k|] == k
      && p[|p| - |cmd|..] == cmd
  {
    var p := i + a + c + u + f + k + q + cmd;
    var x1 := i + a;
    var x3 := x1 + c + u;
    var x5 := x3 + f + k;
    assert p[..|x1|] == x1;
    assert p[..|x3|] == x3;
    assert p[..|x5|] == x5;
    assert x1[|i|..] == a;
    assert x3[|x1| + |c|..] == u;
    assert x5[|x3| + |f|..] == k;
  }

  /** In the template the names and the command appear verbatim, and the command is its very end. */
  lemma TemplateCarriesInputs(kindList: string, assistantName: string, userName: string, command: string)
    ensures var p := PromptText(kindList, assistantName, userName, command);
      var u := 34 + |assistantName| + 12;
      u + |userName| <= |p| && |command| <= |p|
      && p[34..34 + |assistantName|] == assistantName
      && p[u..u + |userName|] == userName
      && p[|p| - |command|..] == command
  {
    PromptPieceLengths();
    TemplateSlices(PromptIntro, assistantName, PromptCreator, userName, PromptFormat, kindList, PromptFields, command);
  }

  /** The prompt carries the assistant's name, the user's name and the command verbatim, the command as its very end. */
  lemma PromptCarriesInputs(assistantName: string, userName: string, command: string)
    ensures var p := BuildPrompt(assistantName, userName, command);
      var u := 34 + |assistantName| + 12;
      u + |userName| <= |p| && |command| <= |p|
      && p[34..34 + |assistantName|] == assistantName
      && p[u..u + |userName|] == userName
      && p[|p| - |command|..] == command
  {
    TemplateCarriesInputs(KindList, assistantName, userName, command);
  }

  /** In the template the list of kinds sits at a fixed offset. */
  lemma TemplateListAt(kindList: string, assistantName: string, userName: string, command: string) returns (off: nat)
    ensures off + |kindList| <= |PromptText(kindList, assistantName, userName, command)|
    ensures PromptText(kindList, assistantName, userName, command)[off..off + |kindList|] == kindList
  {
    TemplateSlices(PromptIntro, assistantName, PromptCreator, userName, PromptFormat, kindList, PromptFields, command);
    off := |PromptIntro| + |assistantName| + |PromptCreator| + |userName| + |PromptFormat|;
  }

  /** A slice of a slice is a slice. */
  lemma SliceWithin(p: string, start: nat, len: nat, inner: nat, n: nat)
    requires start + len <= |p| && inner + n <= len
    ensures p[start + inner..start + inner + n] == p[start..start + len][inner..inner + n]
  {
    var x := p[start..start + len];
    assert forall j :: start + inner <= j < start + inner + n ==> x[j - start] == p[j];
  }

  /** Wherever a `|`-joined list occurs in a text, each of its alternatives occurs whole, at the returned offset. */
  lemma ListPartAt(p: string, at: nat, parts: seq<string>, k: nat) returns (off: nat)
    requires k < |parts|
    requires at + |Join(parts, '|')| <= |p| && p[at..at + |Join(parts, '|')|] == Join(parts, '|')
    ensures off + |parts[k]| <= |p| && p[off..off + |parts[k]|] == parts[k]
  {
    var inner := JoinPartAt(parts, '|', k);
    SliceWithin(p, at, |Join(parts, '|')|, inner, |parts[k]|);
    off := at + inner;
  }

  /** In the template each alternative of a `|`-joined list occurs whole, at the returned offset. */
  lemma TemplateListsPart(parts: seq<string>, assistantName: string, userName: string, command: string, k: nat) returns (off: nat)
    requires k < |parts|
    ensures off + |parts[k]| <= |PromptText(Join(parts, '|'), assistantName, userName, command)|
    ensures PromptText(Join(parts, '|'), assistantName, userName, command)[off..off + |parts[k]|] == parts[k]
  {
    var at := TemplateListAt(Join(parts, '|'), assistantName, userName, command);
    off := ListPartAt(PromptText(Join(parts, '|'), assistantName, userName, command), at, parts, k);
  }

  /** Each of the twelve kinds occurs in the prompt, at the returned offset. */
  lemma PromptListsKind(assistantName: string, userName: string, command: string, k: nat) returns (off: nat)
    requires k < |Kinds|
    ensures off + |Kinds[k]| <= |BuildPrompt(assistantName, userName, command)|
    ensures BuildPrompt(assistantName, userName, command)[off..off + |Kinds[k]|] == Kinds[k]
  {
    off := TemplateListsPart(Kinds, assistantName, userName, command, k);
  }

  /** No kind holds the `|` that separates the alternatives. */
  lemma KindsLackBar()
    ensures forall i :: 0 <= i < |Kinds| ==> '|' !in Kinds[i]
  {
  }

  /** Read back as `|`-separated alternatives, the prompt's list is exactly the twelve kinds. */
  lemma KindListAlternatives()
    ensures Split(KindList, '|') == Kinds
  {
    KindsLackBar();
    SplitJoin(Kinds, '|');
  }

  // ---------------------------------------------------------------- upstream call

  /** What the upstream call gives back: the text of the first candidate's first part, or any failure. */
  datatype Upstream = Replied(text: string) | Failed

  /** The reply text of the catch branch, before `JSON.stringify`: `userInput` is left out when the command is absent. */
  function FallbackFields(command: Option<string>): seq<(string, string)> {
    [("type", "general")]
    + (if command.Some? then [("userInput", command.value)] else [])
    + [("response", "Sorry, error occurred.")]
  }

  /** The catch branch's reply: the serialised `general` intent. */
  function UpstreamFallback(command: Option<string>): string {
    StringifyFlat(FallbackFields(command))
  }

  /**
   * `geminiResponse(command, assistantName, userName)` with the upstream call
   * as a parameter: the reply is passed on as it came, and a failure gives a
   * flat object text that reads back as the `general` intent with the
   * apology, carrying the command exactly when there is one.
   */
  function GeminiResponse(call: string -> Upstream, command: Option<string>, assistantName: string, userName: string): (r: string)
    ensures call(BuildPrompt(assistantName, userName, CommandText(command))).Failed? ==>
      ParseFlat(r).Some? && FlatToJson(ParseFlat(r).value) == GeneralIntent(command, "Sorry, error occurred.")
    ensures call(BuildPrompt(assistantName, userName, CommandText(command))).Replied? ==>
      r == call(BuildPrompt(assistantName, userName, CommandText(command))).text
  {
    match call(BuildPrompt(assistantName, userName, CommandText(command)))
    case Replied(text) => text
    case Failed =>
      FlatRoundTrip(FallbackFields(command));
      FallbackMap(command);
      UpstreamFallback(command)
  }

  // ---------------------------------------------------------------- fences

  /** Three backticks start at position `i`. */
  predicate TicksAt(s: string, i: int) {
    0 <= i && i + 3 <= |s| && s[i] == '`' && s[i + 1] == '`' && s[i + 2] == '`'
  }

  /** The text holds no run of three backticks. */
  predicate NoFence(s: string) {
    forall i :: 0 <= i <= |s| - 3 ==> !TicksAt(s, i)
  }

  /**
   * `s.replace(/```json\n?|\n?```/g, "")`: scanning left to right, remove
   * "```json" with an optional following newline, or else "```" with an
   * optional preceding newline; every other character is kept.
   */
  function StripFences(s: string): string
    decreases |s|
  {
    if TicksAt(s, 0) && |s| >= 7 && s[3] == 'j' && s[4] == 's' && s[5] == 'o' && s[6] == 'n' then
      if |s| >= 8 && s[7] == '\n' then StripFences(s[8..]) else StripFences(s[7..])
    else if |s| >= 4 && s[0] == '\n' && TicksAt(s, 1) then StripFences(s[4..])
    else if TicksAt(s, 0) then StripFences(s[3..])
    else if s == [] then []
    else [s[0]] + StripFences(s[1..])
  }

  /** The text JSON.parse is given: the reply with fences stripped, then trimmed. */
  function Unfenced(response: string): string {
    Trim(StripFences(response))
  }

  /** Text without three backticks in a row passes the stripping unchanged. */
  lemma {:induction false} StripNoFence(s: string)
    requires NoFence(s)
    ensures StripFences(s) == s
    decreases |s|
  {
    if s != [] {
      assert !TicksAt(s, 0);
      if |s| >= 4 && s[0] == '\n' {
        assert !TicksAt(s, 1);
      }
      forall i | 0 <= i <= |s[1..]| - 3 ensures !TicksAt(s[1..], i) {
        assert !TicksAt(s, i + 1);
      }
      StripNoFence(s[1..]);
      assert [s[0]] + s[1..] == s;
    }
  }

  /** On a reply without backticks the stripping changes nothing, and JSON.parse sees the trimmed reply. */
  lemma UnfencedPlain(response: string)
    requires '`' !in response
    ensures StripFences(response) == response
    ensures Unfenced(response) == Trim(response)
  {
    forall i | 0 <= i <= |response| - 3 ensures !TicksAt(response, i) {
      assert response[i] in response;
    }
    StripNoFence(response);
  }

  /** A character that opens no fence is kept, and the scan moves on. */
  lemma StripKeeps(s: string)
    requires s != [] && s[0] != '`'
    requires !(|s| >= 4 && s[0] == '\n' && TicksAt(s, 1))
    ensures StripFences(s) == [s[0]] + StripFences(s[1..])
  {
  }

  /** A non-backtick that no backtick follows is kept, and the scan moves on. */
  lemma StripHead(s: string)
    requires s != [] && s[0] != '`'
    requires |s| == 1 || s[1] != '`'
    ensures StripFences(s) == [s[0]] + StripFences(s[1..])
  {
    StripKeeps(s);
  }

  /** The tail of a backtick-free text is backtick-free. */
  lemma NoTickTail(x: string)
    requires x != [] && '`' !in x
    ensures '`' !in x[1..] && x[0] != '`'
    ensures |x| > 1 ==> x[1] != '`'
  {
    assert x[0] in x;
    if |x| > 1 {
      assert x[1] in x;
    }
    forall m | 0 <= m < |x[1..]| ensures x[1..][m] != '`' {
      assert x[1..][m] == x[m + 1] && x[m + 1] in x;
    }
  }

  /** A backtick-free prefix passes the stripping unchanged, provided what follows does not open with a backtick. */
  lemma {:induction false} StripPlainPrefix(x: string, t: string)
    requires '`' !in x
    requires t == [] || t[0] != '`'
    ensures StripFences(x + t) == x + StripFences(t)
    decreases |x|
  {
    if x == [] {
      assert x + t == t;
    } else {
      var s := x + t;
      NoTickTail(x);
      assert s[0] == x[0];
      assert |s| > 1 ==> s[1] == if |x| > 1 then x[1] else t[0];
      StripHead(s);
      assert s[1..] == x[1..] + t;
      StripPlainPrefix(x[1..], t);
      Regroup([x[0]], x[1..], StripFences(t));
      assert x == [x[0]] + x[1..];
    }
  }

  /** A reply wrapped as "```json\n" + x + "\n```", with no backtick in `x`, is stripped down to `x`. */
  lemma StripWrapped(x: string)
    requires '`' !in x
    ensures StripFences("```json\n" + x + "\n```") == x
  {
    var s := "```json\n" + x + "\n```";
    assert TicksAt(s, 0) && s[3] == 'j' && s[4] == 's' && s[5] == 'o' && s[6] == 'n' && s[7] == '\n';
    assert s[8..] == x + "\n```";
    StripPlainPrefix(x, "\n```");
    assert StripFences("\n```") == StripFences("");
  }

  // ---------------------------------------------------------------- fences in serialised text

  /** Text without backticks has no fence. */
  lemma NoBacktickNoFence(s: string)
    requires '`' !in s
    ensures NoFence(s)
  {
    forall i | 0 <= i <= |s| - 3 ensures !TicksAt(s, i) {
      assert s[i] in s;
    }
  }

  /** Two fence-free texts stay fence-free when they do not meet in backticks. */
  lemma NoFenceConcat(x: string, y: string)
    requires NoFence(x) && NoFence(y)
    requires x == [] || y == [] || x[|x| - 1] != '`' || y[0] != '`'
    ensures NoFence(x + y)
  {
    var s := x + y;
    forall i | 0 <= i <= |s| - 3 ensures !TicksAt(s, i) {
      if i + 3 <= |x| {
        assert !TicksAt(x, i);
      } else if i >= |x| {
        assert !TicksAt(y, i - |x|);
      } else {
        assert s[|x| - 1] == x[|x| - 1] && s[|x|] == y[0];
      }
    }
  }

  /** Only a backtick escapes to a text holding a backtick, and then it is the backtick itself. */
  lemma EscapeCharTicks(c: char)
    ensures c != '`' ==> '`' !in EscapeChar(c)
    ensures c == '`' ==> EscapeChar(c) == "`"
  {
    if c as int < 0x20 && c != '\n' && c != '\r' && c != '\t' && c as int != 0x08 && c as int != 0x0C {
      var e := EscapeChar(c);
      assert e == ['\\', 'u', '0', '0', HexDigit(c as int / 16), HexDigit(c as int % 16)];
    }
  }

  /** An escaped text opens with a backtick exactly when the text does. */
  lemma EscapeHeadTick(y: string)
    requires y != []
    ensures Escape(y) != [] && (Escape(y)[0] == '`' <==> y[0] == '`')
  {
    EscapeCharTicks(y[0]);
    EscapeCharHead(y[0]);
    assert Escape(y)[0] == EscapeChar(y[0])[0];
    assert EscapeChar(y[0])[0] in EscapeChar(y[0]);
  }

  /** Three backticks in an escaped text come from three backticks in the text, at the returned position. */
  lemma {:induction false} FenceInEscape(c: string, i: nat) returns (j: nat)
    requires TicksAt(Escape(c), i)
    ensures TicksAt(c, j)
    decreases |c|
  {
    var e := EscapeChar(c[0]);
    var rest := Escape(c[1..]);
    assert Escape(c) == e + rest;
    EscapeCharTicks(c[0]);
    if c[0] == '`' {
      if i == 0 {
        assert rest != [] && rest[0] == '`';
        assert c[1..] != [];
        EscapeHeadTick(c[1..]);
        var rest2 := Escape(c[2..]);
        assert c[1..][1..] == c[2..];
        EscapeCharTicks(c[1]);
        assert rest == "`" + rest2;
        assert rest2 != [] && rest2[0] == '`';
        assert c[2..] != [];
        EscapeHeadTick(c[2..]);
        j := 0;
      } else {
        assert TicksAt(rest, i - 1);
        var k := FenceInEscape(c[1..], i - 1);
        j := k + 1;
      }
    } else {
      assert forall m :: 0 <= m < |e| ==> e[m] != '`';
      assert Escape(c)[i] == '`';
      assert TicksAt(rest, i - |e|);
      var k := FenceInEscape(c[1..], i - |e|);
      j := k + 1;
    }
  }

  /** Escaping creates no fence. */
  lemma EscapeNoFence(c: string)
    requires NoFence(c)
    ensures NoFence(Escape(c))
  {
    forall i | 0 <= i <= |Escape(c)| - 3 ensures !TicksAt(Escape(c), i) {
      if TicksAt(Escape(c), i) {
        var j := FenceInEscape(c, i);
        assert false;
      }
    }
  }

  /** A quoted fence-free string is fence-free and opens and closes with a quote. */
  lemma QuoteNoFence(c: string)
    requires NoFence(c)
    ensures NoFence(Quote(c)) && Quote(c)[0] == '"' && Quote(c)[|Quote(c)| - 1] == '"'
  {
    EscapeNoFence(c);
    NoBacktickNoFence("\"");
    NoFenceConcat("\"", Escape(c));
    NoFenceConcat("\"" + Escape(c), "\"");
  }

  /** The members of a flat object whose keys and values are fence-free are fence-free and end with a quote. */
  lemma {:induction false} MembersNoFence(fields: seq<(string, string)>)
    requires forall i :: 0 <= i < |fields| ==> NoFence(fields[i].0) && NoFence(fields[i].1)
    ensures NoFence(Members(fields))
    ensures Members(fields) != [] ==> Members(fields)[|Members(fields)| - 1] == '"'
    decreases |fields|
  {
    if fields != [] {
      var k, v := fields[0].0, fields[0].1;
      QuoteNoFence(k);
      QuoteNoFence(v);
      NoBacktickNoFence(":");
      NoFenceConcat(Quote(k), ":");
      NoFenceConcat(Quote(k) + ":", Quote(v));
      var m := Quote(k) + ":" + Quote(v);
      if |fields| > 1 {
        MembersNoFence(fields[1..]);
        NoBacktickNoFence(",");
        NoFenceConcat(m, ",");
        NoFenceConcat(m + ",", Members(fields[1..]));
      }
    }
  }

  /** `JSON.stringify` of a flat object with fence-free keys and values is fence-free and opens and closes with a brace. */
  lemma StringifyNoFence(fields: seq<(string, string)>)
    requires forall i :: 0 <= i < |fields| ==> NoFence(fields[i].0) && NoFence(fields[i].1)
    ensures NoFence(StringifyFlat(fields))
    ensures StringifyFlat(fields)[0] == '{' && StringifyFlat(fields)[|StringifyFlat(fields)| - 1] == '}'
  {
    MembersNoFence(fields);
    NoBacktickNoFence("{");
    NoBacktickNoFence("}");
    NoFenceConcat("{", Members(fields));
    NoFenceConcat("{" + Members(fields), "}");
  }

  /** Serialised flat objects with fence-free fields reach JSON.parse unchanged. */
  lemma UnfencedStringified(fields: seq<(string, string)>)
    requires forall i :: 0 <= i < |fields| ==> NoFence(fields[i].0) && NoFence(fields[i].1)
    ensures Unfenced(StringifyFlat(fields)) == StringifyFlat(fields)
  {
    StringifyNoFence(fields);
    StripNoFence(StringifyFlat(fields));
    TrimOfTrimmed(StringifyFlat(fields));
  }

  // ---------------------------------------------------------------- fences inside a serialised string

  /**
   * What the fence stripping leaves of a string once `JSON.stringify` has
   * escaped it: escaping writes no line feed, so neither newline of the
   * pattern can match, and only "```json" and "```" are removed.
   */
  function StripTicks(s: string): string
    decreases |s|
  {
    if TicksAt(s, 0) && |s| >= 7 && s[3] == 'j' && s[4] == 's' && s[5] == 'o' && s[6] == 'n' then StripTicks(s[7..])
    else if TicksAt(s, 0) then StripTicks(s[3..])
    else if s == [] then []
    else [s[0]] + StripTicks(s[1..])
  }

  /** A string without a fence loses nothing to `StripTicks`. */
  lemma {:induction false} StripTicksNoFence(s: string)
    requires NoFence(s)
    ensures StripTicks(s) == s
    decreases |s|
  {
    if s != [] {
      assert !TicksAt(s, 0);
      forall i | 0 <= i <= |s[1..]| - 3 ensures !TicksAt(s[1..], i) {
        assert !TicksAt(s, i + 1);
      }
      StripTicksNoFence(s[1..]);
      assert [s[0]] + s[1..] == s;
    }
  }

  /** An escaped character holds no line feed, and a backtick only if it is one. */
  lemma EscapeCharClean(c: char)
    ensures '\n' !in EscapeChar(c)
    ensures c != '`' ==> '`' !in EscapeChar(c)
  {
    EscapeCharTicks(c);
    if c as int < 0x20 && c != '\n' && c != '\r' && c != '\t' && c as int != 0x08 && c as int != 0x0C {
      var e := EscapeChar(c);
      assert e == ['\\', 'u', '0', '0', HexDigit(c as int / 16), HexDigit(c as int % 16)];
    }
  }

  /** An escaped string holds no line feed, and no backtick when the string holds none. */
  lemma {:induction false} EscapeClean(c: string)
    ensures '\n' !in Escape(c)
    ensures '`' !in c ==> '`' !in Escape(c)
    decreases |c|
  {
    if c != [] {
      EscapeCharClean(c[0]);
      EscapeClean(c[1..]);
      assert c[0] in c;
      assert forall x :: x in c[1..] ==> x in c;
    }
  }

  /** A prefix with neither backtick nor line feed opens no fence and is kept as it is. */
  lemma {:induction false} StripCleanPrefix(e: string, w: string)
    requires '`' !in e && '\n' !in e
    ensures StripFences(e + w) == e + StripFences(w)
    decreases |e|
  {
    if e == [] {
      assert e + w == w;
    } else {
      var s := e + w;
      assert s[0] == e[0] && e[0] in e;
      assert s[1..] == e[1..] + w;
      assert forall x :: x in e[1..] ==> x in e;
      StripCleanPrefix(e[1..], w);
      Regroup([e[0]], e[1..], StripFences(w));
      assert e == [e[0]] + e[1..];
    }
  }

  /**
   * An escaped string before a closing quote opens with a plain letter or
   * a backtick exactly when the string does, and then the escape of the rest follows.
   */
  lemma EscapeHead(r: string, t: string, x: char)
    requires t != [] && t[0] == '"'
    requires x == '`' || 'a' <= x <= 'z'
    ensures (Escape(r) + t)[0] == x <==> r != [] && r[0] == x
    ensures r != [] && r[0] == x ==> Escape(r) + t == [x] + (Escape(r[1..]) + t)
    ensures (Escape(r) + t)[0] != '\n'
  {
    if r != [] {
      EscapeCharHead(r[0]);
      EscapeCharClean(r[0]);
      assert (Escape(r) + t)[0] == EscapeChar(r[0])[0] && EscapeChar(r[0])[0] in EscapeChar(r[0]);
    }
  }

  /** A character that escapes to itself and cannot open an escape: a backtick or a lower-case letter. */
  predicate Plain(x: char) {
    x == '`' || 'a' <= x <= 'z'
  }

  /** `p` is a prefix of `w`. */
  predicate Opens(w: string, p: string) {
    |w| >= |p| && w[..|p|] == p
  }

  /** A prefix of a text with a given first character past that character. */
  lemma OpensCons(x: char, w: string, p: string)
    requires p != [] && p[0] == x
    ensures Opens([x] + w, p) <==> Opens(w, p[1..])
  {
    if |w| >= |p| - 1 {
      assert ([x] + w)[..|p|] == [x] + w[..|p| - 1];
      assert p == [x] + p[1..];
    }
  }

  /** A text whose first character differs from the prefix's does not open with it. */
  lemma OpensMismatch(w: string, p: string)
    requires p != [] && (w == [] || w[0] != p[0])
    ensures !Opens(w, p)
  {
    if |w| >= |p| {
      assert w[..|p|][0] == w[0];
    }
  }

  /** Concatenation regrouped. */
  lemma Regroup(e: string, r: string, f: string)
    ensures e + (r + f) == (e + r) + f
  {
  }

  /** An escaped string before a quote opens with `p` exactly when the string does, and then the escape of the rest follows. */
  predicate EscapeOpensAs(r: string, t: string, p: string) {
    (Opens(Escape(r) + t, p) <==> Opens(r, p))
    && (Opens(r, p) ==> Escape(r) + t == p + (Escape(r[|p|..]) + t))
  }

  /** The induction step through a matching first character. */
  lemma EscapeOpensStep(r: string, t: string, p: string)
    requires t != [] && t[0] == '"'
    requires p != [] && Plain(p[0]) && r != [] && r[0] == p[0]
    requires EscapeOpensAs(r[1..], t, p[1..])
    ensures EscapeOpensAs(r, t, p)
  {
    var x, w := p[0], Escape(r[1..]) + t;
    EscapeHead(r, t, x);
    assert Escape(r) + t == [x] + w;
    OpensCons(x, w, p);
    OpensCons(x, r[1..], p);
    assert [x] + r[1..] == r;
    if Opens(r, p) {
      var z := Escape(r[|p|..]) + t;
      assert r[1..][|p| - 1..] == r[|p|..];
      assert w == p[1..] + z;
      Regroup([x], p[1..], z);
      assert [x] + p[1..] == p;
    }
  }

  /** A first character that differs: neither side opens with `p`. */
  lemma EscapeOpensMismatch(r: string, t: string, p: string)
    requires t != [] && t[0] == '"'
    requires p != [] && Plain(p[0]) && (r == [] || r[0] != p[0])
    ensures EscapeOpensAs(r, t, p)
  {
    EscapeHead(r, t, p[0]);
    OpensMismatch(Escape(r) + t, p);
    OpensMismatch(r, p);
  }

  /** The same for a prefix of plain characters. */
  lemma {:induction false} EscapePrefix(r: string, t: string, p: string)
    requires t != [] && t[0] == '"'
    requires forall k | 0 <= k < |p| :: Plain(p[k])
    ensures EscapeOpensAs(r, t, p)
    decreases |p|
  {
    if p == [] {
      assert Escape(r) + t == p + (Escape(r[|p|..]) + t);
    } else if r != [] && r[0] == p[0] {
      assert Plain(p[0]);
      EscapePrefix(r[1..], t, p[1..]);
      EscapeOpensStep(r, t, p);
    } else {
      assert Plain(p[0]);
      EscapeOpensMismatch(r, t, p);
    }
  }

  /** "```" opens an escaped string before a quote exactly when it opens the string. */
  lemma EscapeOpensTicks(c: string, t: string)
    requires t != [] && t[0] == '"'
    ensures TicksAt(Escape(c) + t, 0) <==> TicksAt(c, 0)
    ensures TicksAt(c, 0) ==> Escape(c) + t == "```" + (Escape(c[3..]) + t)
  {
    var u := Escape(c) + t;
    EscapePrefix(c, t, "```");
    assert TicksAt(u, 0) <==> Opens(u, "```");
    assert TicksAt(c, 0) <==> Opens(c, "```");
  }

  /** Likewise "```json". */
  lemma EscapeOpensJson(c: string, t: string)
    requires t != [] && t[0] == '"'
    ensures var u := Escape(c) + t;
      (|u| >= 7 && u[3] == 'j' && u[4] == 's' && u[5] == 'o' && u[6] == 'n' && TicksAt(u, 0))
      <==> (|c| >= 7 && c[3] == 'j' && c[4] == 's' && c[5] == 'o' && c[6] == 'n' && TicksAt(c, 0))
    ensures |c| >= 7 && c[3] == 'j' && c[4] == 's' && c[5] == 'o' && c[6] == 'n' && TicksAt(c, 0) ==>
      Escape(c) + t == "```json" + (Escape(c[7..]) + t)
  {
    var u := Escape(c) + t;
    EscapePrefix(c, t, "```json");
    assert (|u| >= 7 && u[3] == 'j' && u[4] == 's' && u[5] == 'o' && u[6] == 'n' && TicksAt(u, 0)) <==> Opens(u, "```json");
    assert (|c| >= 7 && c[3] == 'j' && c[4] == 's' && c[5] == 'o' && c[6] == 'n' && TicksAt(c, 0)) <==> Opens(c, "```json");
  }

  /** An escaped string opening with "```json" loses those seven characters. */
  lemma StripStepJson(c: string, t: string)
    requires t != [] && t[0] == '"'
    requires |c| >= 7 && c[3] == 'j' && c[4] == 's' && c[5] == 'o' && c[6] == 'n' && TicksAt(c, 0)
    ensures StripFences(Escape(c) + t) == StripFences(Escape(c[7..]) + t)
    ensures StripTicks(c) == StripTicks(c[7..])
  {
    var u := Escape(c) + t;
    EscapeOpensJson(c, t);
    EscapeHead(c[7..], t, '`');
    assert u[7..] == Escape(c[7..]) + t;
    assert u[7] != '\n';
  }

  /** An escaped string opening with "```" but not "```json" loses those three characters. */
  lemma StripStepTicks(c: string, t: string)
    requires t != [] && t[0] == '"'
    requires TicksAt(c, 0) && !(|c| >= 7 && c[3] == 'j' && c[4] == 's' && c[5] == 'o' && c[6] == 'n')
    ensures StripFences(Escape(c) + t) == StripFences(Escape(c[3..]) + t)
    ensures StripTicks(c) == StripTicks(c[3..])
  {
    var u := Escape(c) + t;
    EscapeOpensTicks(c, t);
    EscapeOpensJson(c, t);
    assert u[3..] == Escape(c[3..]) + t;
  }

  /** `StripTicks` keeps a first character that opens no "```". */
  lemma StripTicksKeeps(c: string)
    requires c != [] && !TicksAt(c, 0)
    ensures Escape(StripTicks(c)) == EscapeChar(c[0]) + Escape(StripTicks(c[1..]))
  {
    var r := StripTicks(c[1..]);
    assert StripTicks(c) == [c[0]] + r;
    assert ([c[0]] + r)[0] == c[0] && ([c[0]] + r)[1..] == r;
  }

  /** A lone backtick opening an escaped string is kept. */
  lemma StripStepTick(c: string, t: string)
    requires t != [] && t[0] == '"'
    requires c != [] && c[0] == '`' && !TicksAt(c, 0)
    ensures StripFences(Escape(c) + t) == EscapeChar(c[0]) + StripFences(Escape(c[1..]) + t)
  {
    var u := Escape(c) + t;
    EscapeOpensTicks(c, t);
    EscapeHead(c, t, '`');
    assert EscapeChar(c[0]) == "`";
    assert u[1..] == Escape(c[1..]) + t;
  }

  /** Any other first character of an escaped string is kept with its whole escape. */
  lemma StripStepOther(c: string, t: string)
    requires c != [] && c[0] != '`'
    ensures StripFences(Escape(c) + t) == EscapeChar(c[0]) + StripFences(Escape(c[1..]) + t)
  {
    var e := EscapeChar(c[0]);
    var w := Escape(c[1..]) + t;
    assert Escape(c) + t == e + w;
    EscapeCharClean(c[0]);
    StripCleanPrefix(e, w);
  }

  /** Stripping an escaped string followed by a quoted rest takes from the string just what `StripTicks` removes. */
  predicate StripsAsTicks(c: string, t: string) {
    StripFences(Escape(c) + t) == Escape(StripTicks(c)) + StripFences(t)
  }

  /** The induction step past "```json". */
  lemma StripsAfterJson(c: string, t: string)
    requires t != [] && t[0] == '"'
    requires |c| >= 7 && c[3] == 'j' && c[4] == 's' && c[5] == 'o' && c[6] == 'n' && TicksAt(c, 0)
    requires StripsAsTicks(c[7..], t)
    ensures StripsAsTicks(c, t)
  {
    StripStepJson(c, t);
  }

  /** The induction step past "```". */
  lemma StripsAfterTicks(c: string, t: string)
    requires t != [] && t[0] == '"'
    requires TicksAt(c, 0) && !(|c| >= 7 && c[3] == 'j' && c[4] == 's' && c[5] == 'o' && c[6] == 'n')
    requires StripsAsTicks(c[3..], t)
    ensures StripsAsTicks(c, t)
  {
    StripStepTicks(c, t);
  }

  /** The induction step past a lone backtick. */
  lemma StripsAfterTick(c: string, t: string)
    requires t != [] && t[0] == '"'
    requires c != [] && c[0] == '`' && !TicksAt(c, 0)
    requires StripsAsTicks(c[1..], t)
    ensures StripsAsTicks(c, t)
  {
    StripStepTick(c, t);
    StripTicksKeeps(c);
    Regroup(EscapeChar(c[0]), Escape(StripTicks(c[1..])), StripFences(t));
  }

  /** The induction step past any other character. */
  lemma StripsAfterOther(c: string, t: string)
    requires c != [] && c[0] != '`'
    requires StripsAsTicks(c[1..], t)
    ensures StripsAsTicks(c, t)
  {
    StripStepOther(c, t);
    assert !TicksAt(c, 0);
    StripTicksKeeps(c);
    Regroup(EscapeChar(c[0]), Escape(StripTicks(c[1..])), StripFences(t));
  }

  /** Stripping an escaped string followed by a quoted rest: the string loses what `StripTicks` removes. */
  lemma {:induction false} StripEscaped(c: string, t: string)
    requires t != [] && t[0] == '"'
    ensures StripsAsTicks(c, t)
    decreases |c|
  {
    if c == [] {
      assert Escape(c) + t == t;
    } else if |c| >= 7 && c[3] == 'j' && c[4] == 's' && c[5] == 'o' && c[6] == 'n' && TicksAt(c, 0) {
      StripEscaped(c[7..], t);
      StripsAfterJson(c, t);
    } else if TicksAt(c, 0) {
      StripEscaped(c[3..], t);
      StripsAfterTicks(c, t);
    } else if c[0] == '`' {
      StripEscaped(c[1..], t);
      StripsAfterTick(c, t);
    } else {
      StripEscaped(c[1..], t);
      StripsAfterOther(c, t);
    }
  }

  /** The members of a three-member flat object. */
  lemma MembersThree(k1: string, v1: string, k2: string, c: string, k3: string, v3: string)
    ensures Members([(k1, v1), (k2, c), (k3, v3)]) ==
      Quote(k1) + ":" + Quote(v1) + "," + (Quote(k2) + ":" + Quote(c) + "," + (Quote(k3) + ":" + Quote(v3)))
  {
    var fields := [(k1, v1), (k2, c), (k3, v3)];
    assert fields[1..] == [(k2, c), (k3, v3)] && fields[1..][1..] == [(k3, v3)];
    assert Members(fields[1..][1..]) == Quote(k3) + ":" + Quote(v3);
    assert Members(fields[1..]) == Quote(k2) + ":" + Quote(c) + "," + Members(fields[1..][1..]);
    assert Members(fields) == Quote(k1) + ":" + Quote(v1) + "," + Members(fields[1..]);
  }

  /** A three-member object text regrouped around its middle escape. */
  lemma RegroupThree(p1: string, p2: string, p3: string, e: string, p4: string, p5: string)
    ensures "{" + (p1 + ":" + p2 + "," + (p3 + ":" + ("\"" + e + "\"") + "," + (p4 + ":" + p5))) + "}" ==
      ("{" + p1 + ":" + p2 + "," + p3 + ":" + "\"") + (e + ("\"" + "," + p4 + ":" + p5 + "}"))
  {
  }

  /** A three-member flat object, written around the escape of its middle value. */
  lemma ThreeFieldsText(k1: string, v1: string, k2: string, c: string, k3: string, v3: string)
    ensures StringifyFlat([(k1, v1), (k2, c), (k3, v3)]) ==
      ("{" + Quote(k1) + ":" + Quote(v1) + "," + Quote(k2) + ":" + "\"") + (Escape(c) + ("\"" + "," + Quote(k3) + ":" + Quote(v3) + "}"))
  {
    MembersThree(k1, v1, k2, c, k3, v3);
    assert Quote(c) == "\"" + Escape(c) + "\"";
    RegroupThree(Quote(k1), Quote(v1), Quote(k2), Escape(c), Quote(k3), Quote(v3));
  }

  /**
   * Stripping a three-member flat object whose other keys and values hold
   * no backtick: only the middle value changes, as `StripTicks` says, and
   * the result is still that object's serialisation.
   */
  lemma UnfencedMiddle(k1: string, v1: string, k2: string, c: string, k3: string, v3: string)
    requires '`' !in k1 && '`' !in v1 && '`' !in k2 && '`' !in k3 && '`' !in v3
    ensures Unfenced(StringifyFlat([(k1, v1), (k2, c), (k3, v3)])) == StringifyFlat([(k1, v1), (k2, StripTicks(c)), (k3, v3)])
  {
    var head := "{" + Quote(k1) + ":" + Quote(v1) + "," + Quote(k2) + ":" + "\"";
    var tail := "\"" + "," + Quote(k3) + ":" + Quote(v3) + "}";
    ThreeFieldsText(k1, v1, k2, c, k3, v3);
    ThreeFieldsText(k1, v1, k2, StripTicks(c), k3, v3);
    EscapeClean(k1);
    EscapeClean(v1);
    EscapeClean(k2);
    EscapeClean(k3);
    EscapeClean(v3);
    assert '`' !in head && '\n' !in head;
    assert '`' !in tail;
    StripCleanPrefix(head, Escape(c) + tail);
    StripEscaped(c, tail);
    UnfencedPlain(tail);
    var r := head + (Escape(StripTicks(c)) + tail);
    assert r[0] == '{' && r[|r| - 1] == '}';
    TrimOfTrimmed(r);
  }

  /** The command as the catch branch's reply echoes it once the fences are stripped. */
  function StrippedCommand(command: Option<string>): (r: Option<string>)
    ensures r.Some? <==> command.Some?
  {
    if command.Some? then Some(StripTicks(command.value)) else None
  }

  /** A fence-free command is echoed as it is. */
  lemma StrippedFenceFree(command: Option<string>)
    requires command.Some? ==> NoFence(command.value)
    ensures StrippedCommand(command) == command
  {
    if command.Some? {
      StripTicksNoFence(command.value);
    }
  }

  /** A fence inside the command is lost from the echo: "a```b" comes back as "ab". */
  lemma FencedCommandEcho()
    ensures StrippedCommand(Some("a```b")) == Some("ab")
  {
    var s := "a```b";
    assert !TicksAt(s, 0) && s[1..] == "```b";
    assert StripTicks(s) == "a" + StripTicks("```b");
    var t := "```b";
    assert TicksAt(t, 0) && |t| < 7 && t[3..] == "b";
    assert StripTicks(t) == StripTicks("b");
    assert "b"[1..] == [];
    assert StripTicks("b") == "b" + StripTicks([]);
    assert StripTicks([]) == [];
    assert StripTicks(s) == "ab";
  }

  /** The catch branch's reply, stripped and trimmed, is the same object with the command as `StripTicks` leaves it. */
  lemma FallbackStripped(command: Option<string>)
    ensures Unfenced(UpstreamFallback(command)) == UpstreamFallback(StrippedCommand(command))
  {
    if command.None? {
      FallbackUnfenced(command);
    } else {
      var c := command.value;
      assert FallbackFields(command) == [("type", "general"), ("userInput", c), ("response", "Sorry, error occurred.")];
      assert FallbackFields(StrippedCommand(command)) == [("type", "general"), ("userInput", StripTicks(c)), ("response", "Sorry, error occurred.")];
      UnfencedMiddle("type", "general", "userInput", c, "response", "Sorry, error occurred.");
    }
  }

  // ---------------------------------------------------------------- normaliser

  /** The intent the ask route builds when parsing fails; an absent command leaves `userInput` out of the reply. */
  function GeneralIntent(command: Option<string>, response: string): Json {
    var m := map["type" := JString("general"), "response" := JString(response)];
    if command.Some? then JObject(m["userInput" := JString(command.value)]) else JObject(m)
  }

  /** The `type` of an intent object, when it is a string. */
  function KindOf(j: Json): Option<string> {
    if j.JObject? && "type" in j.fields && j.fields["type"].JString? then Some(j.fields["type"].s) else None
  }

  /**
   * `JSON.parse(response.replace(fences, "").trim())`, or on a parse failure
   * the `general` intent carrying the raw, unstripped response.  The parsed
   * value is returned as it is: its `type` is not checked against `Kinds`.
   */
  function Normalise(parse: string -> Option<Json>, response: string, command: Option<string>): Json {
    match parse(Unfenced(response))
    case Some(parsed) => parsed
    case None => GeneralIntent(command, response)
  }

  /** The fallback intent is of the `general` kind, one of the twelve. */
  lemma GeneralIntentKind(command: Option<string>, response: string)
    ensures KindOf(GeneralIntent(command, response)) == Some("general") && "general" in Kinds
    ensures GeneralIntent(command, response).fields["response"] == JString(response)
    ensures command.Some? <==> "userInput" in GeneralIntent(command, response).fields
    ensures command.Some? ==> GeneralIntent(command, response).fields["userInput"] == JString(command.value)
  {
  }

  /** Parse failure: the reply becomes the `general` intent with the raw response, so its kind is one of the twelve. */
  lemma ParseFailureFallsBack(parse: string -> Option<Json>, response: string, command: Option<string>)
    requires parse(Unfenced(response)).None?
    ensures Normalise(parse, response, command) == GeneralIntent(command, response)
    ensures KindOf(Normalise(parse, response, command)) == Some("general") && "general" in Kinds
  {
  }

  /**
   * A prose reply (no backticks, and trimmed it is empty or cannot start a
   * JSON value) falls back to the `general` intent, keeping the reply as it
   * came, surrounding whitespace included.
   */
  lemma ProseFallsBack(parse: string -> Option<Json>, response: string, command: Option<string>)
    requires RejectsProse(parse)
    requires '`' !in response
    requires Trim(response) == [] || !StartsValue(Trim(response)[0])
    ensures Normalise(parse, response, command) == GeneralIntent(command, response)
  {
    UnfencedPlain(response);
  }

  /** A fenced reply "```json\n" + x + "\n```" is parsed as the trimmed `x`, and what parses is returned unchanged. */
  lemma FencedReplyParsed(parse: string -> Option<Json>, x: string, command: Option<string>)
    requires '`' !in x
    requires parse(Trim(x)).Some?
    ensures Normalise(parse, "```json\n" + x + "\n```", command) == parse(Trim(x)).value
  {
    StripWrapped(x);
  }

  /** The entries of the catch-branch object, entered in order. */
  lemma FallbackMap(command: Option<string>)
    ensures FlatToJson(ToMap(FallbackFields(command))) == GeneralIntent(command, "Sorry, error occurred.")
  {
    var m0: map<string, string> := map[];
    if command.Some? {
      var m := map["type" := "general", "userInput" := command.value, "response" := "Sorry, error occurred."];
      assert ToMap(FallbackFields(command)) == m by {
        assert FallbackFields(command) == [("type", "general"), ("userInput", command.value), ("response", "Sorry, error occurred.")];
        assert Enter(m0, FallbackFields(command)) == Enter(m0["type" := "general"], [("userInput", command.value), ("response", "Sorry, error occurred.")]);
      }
    } else {
      var m := map["type" := "general", "response" := "Sorry, error occurred."];
      assert ToMap(FallbackFields(command)) == m by {
        assert FallbackFields(command) == [("type", "general"), ("response", "Sorry, error occurred.")];
        assert Enter(m0, FallbackFields(command)) == Enter(m0["type" := "general"], [("response", "Sorry, error occurred.")]);
      }
    }
  }

  /**
   * Fail-soft round trip: when the command holds no fence, normalising the
   * catch branch's reply gives exactly the `general` intent it serialised.
   */
  lemma FallbackRoundTrip(parse: string -> Option<Json>, command: Option<string>)
    requires AgreesWithFlat(parse)
    requires command.Some? ==> NoFence(command.value)
    ensures Normalise(parse, UpstreamFallback(command), command) == GeneralIntent(command, "Sorry, error occurred.")
    ensures KindOf(Normalise(parse, UpstreamFallback(command), command)) == Some("general")
  {
    var text := UpstreamFallback(command);
    FallbackUnfenced(command);
    ParseStringified(parse, FallbackFields(command));
    FallbackMap(command);
    assert parse(Unfenced(text)) == Some(GeneralIntent(command, "Sorry, error occurred."));
    GeneralIntentKind(command, "Sorry, error occurred.");
  }

  /** The keys and values of the catch-branch object are fence-free when the command is. */
  lemma FallbackFieldsNoFence(command: Option<string>)
    requires command.Some? ==> NoFence(command.value)
    ensures forall i :: 0 <= i < |FallbackFields(command)| ==>
      NoFence(FallbackFields(command)[i].0) && NoFence(FallbackFields(command)[i].1)
  {
    NoBacktickNoFence("type");
    NoBacktickNoFence("general");
    NoBacktickNoFence("userInput");
    NoBacktickNoFence("response");
    NoBacktickNoFence("Sorry, error occurred.");
  }

  /** The catch branch's reply reaches JSON.parse unchanged when the command is fence-free. */
  lemma FallbackUnfenced(command: Option<string>)
    requires command.Some? ==> NoFence(command.value)
    ensures Unfenced(UpstreamFallback(command)) == UpstreamFallback(command)
  {
    FallbackFieldsNoFence(command);
    UnfencedStringified(FallbackFields(command));
  }

  /**
   * Fail-soft for every command: normalising the catch branch's reply gives
   * the `general` intent with the apology, echoing the command as the
   * stripping leaves it.
   */
  lemma FallbackNormalised(parse: string -> Option<Json>, command: Option<string>)
    requires AgreesWithFlat(parse)
    ensures Normalise(parse, UpstreamFallback(command), command) == GeneralIntent(StrippedCommand(command), "Sorry, error occurred.")
    ensures KindOf(Normalise(parse, UpstreamFallback(command), command)) == Some("general")
    ensures Normalise(parse, UpstreamFallback(command), command).fields["response"] == JString("Sorry, error occurred.")
  {
    var echoed := StrippedCommand(command);
    FallbackStripped(command);
    ParseStringified(parse, FallbackFields(echoed));
    FallbackMap(echoed);
    GeneralIntentKind(echoed, "Sorry, error occurred.");
  }

  /**
   * Whatever the upstream call fails with, the ask route's reply is the
   * `general` intent with the apology; the command comes back as the
   * stripping leaves it, which is the command itself when it holds no fence.
   */
  lemma UpstreamFailureYieldsGeneral(parse: string -> Option<Json>, call: string -> Upstream,
                                     command: Option<string>, assistantName: string, userName: string)
    requires AgreesWithFlat(parse)
    requires call(BuildPrompt(assistantName, userName, CommandText(command))).Failed?
    ensures Normalise(parse, GeminiResponse(call, command, assistantName, userName), command) ==
      GeneralIntent(StrippedCommand(command), "Sorry, error occurred.")
    ensures KindOf(Normalise(parse, GeminiResponse(call, command, assistantName, userName), command)) == Some("general")
    ensures (command.Some? ==> NoFence(command.value)) ==>
      Normalise(parse, GeminiResponse(call, command, assistantName, userName), command) == GeneralIntent(command, "Sorry, error occurred.")
  {
    FallbackNormalised(parse, command);
    if command.Some? ==> NoFence(command.value) {
      StrippedFenceFree(command);
    }
  }

  /**
   * The success path does not check the kind: a reply serialising any
   * fence-free `type` comes back with that very `type`, one of the twelve or not.
   */
  lemma SuccessPathKeepsAnyKind(parse: string -> Option<Json>, kind: string, command: Option<string>)
    requires AgreesWithFlat(parse)
    requires NoFence(kind)
    ensures KindOf(Normalise(parse, StringifyFlat([("type", kind)]), command)) == Some(kind)
  {
    var fields := [("type", kind)];
    NoBacktickNoFence("type");
    UnfencedStringified(fields);
    ParseStringified(parse, fields);
    var m0: map<string, string> := map[];
    assert fields[1..] == [];
    assert ToMap(fields) == Enter(m0["type" := kind], []);
  }

  /** "play-music" is no kind of the twelve, and holds no fence. */
  lemma PlayMusicIsNoKind()
    ensures "play-music" !in Kinds && NoFence("play-music")
  {
    NoBacktickNoFence("play-music");
  }

  /** An instance of the gap: a reply whose `type` is "play-music", not one of the twelve kinds, is returned with that kind. */
  lemma UncheckedKindReachesClient(parse: string -> Option<Json>, command: Option<string>) returns (kind: string)
    requires AgreesWithFlat(parse)
    ensures kind == "play-music" && kind !in Kinds
    ensures KindOf(Normalise(parse, StringifyFlat([("type", kind)]), command)) == Some(kind)
  {
    kind := "play-music";
    PlayMusicIsNoKind();
    SuccessPathKeepsAnyKind(parse, kind, command);
  }
}
