/**
 * The session cookie of `api/index.js`: reading the `token` entry out of a
 * `Cookie` request header, and the two `Set-Cookie` values the server emits
 * (issue on signup/signin, clear on logout).
 */
module Cookies {
  import opened Wrappers
  import opened Text

  /** Lifetime of an issued token in seconds: the signer's `expiresIn: "7d"` and the cookie's Max-Age. */
  const TokenLifetimeSeconds: nat := 7 * 24 * 60 * 60

  /** One `[key, value]` pair handed to `Object.fromEntries`; `None` is `undefined`. */
  datatype Entry = Entry(key: string, value: Option<string>)

  /**
   * `c.trim().split("=")` read as an entry: the key is the text before the
   * first `=`, the value the text between the first and the second `=`.
   */
  function ParseEntry(piece: string): Entry {
    var kv := Split(Trim(piece), '=');
    Entry(kv[0], if |kv| > 1 then Some(kv[1]) else None)
  }

  /** `Object.fromEntries(pieces.map(...))`: a later key overrides an earlier one. */
  function FromEntries(pieces: seq<string>): map<string, Option<string>>
    decreases |pieces|
  {
    if pieces == [] then map[]
    else
      var e := ParseEntry(pieces[|pieces| - 1]);
      FromEntries(pieces[..|pieces| - 1])[e.key := e.value]
  }

  /** The object `getTokenFromCookies` builds from a `Cookie` header. */
  function CookieMap(header: string): map<string, Option<string>> {
    FromEntries(Split(header, ';'))
  }

  /** A key maps to the value of the last entry that carries it. */
  lemma {:induction false} FromEntriesLast(pieces: seq<string>, key: string, i: nat)
    requires i < |pieces| && ParseEntry(pieces[i]).key == key
    requires forall j :: i < j < |pieces| ==> ParseEntry(pieces[j]).key != key
    ensures key in FromEntries(pieces) && FromEntries(pieces)[key] == ParseEntry(pieces[i]).value
    decreases |pieces|
  {
    if i < |pieces| - 1 {
      var init := pieces[..|pieces| - 1];
      assert init[i] == pieces[i];
      FromEntriesLast(init, key, i);
    }
  }

  /** A key no entry carries is absent. */
  lemma {:induction false} FromEntriesAbsent(pieces: seq<string>, key: string)
    requires forall j :: 0 <= j < |pieces| ==> ParseEntry(pieces[j]).key != key
    ensures key !in FromEntries(pieces)
    decreases |pieces|
  {
    if pieces != [] {
      FromEntriesAbsent(pieces[..|pieces| - 1], key);
    }
  }

  /**
   * `getTokenFromCookies`: `null` for an absent or empty header; otherwise the
   * value of the last `token` entry, and `null` when that value is missing or empty.
   */
  function GetTokenFromCookies(header: Option<string>): (token: Option<string>)
    ensures header.None? || header == Some("") ==> token.None?
    ensures token.Some? ==> token.value != "" && ';' !in token.value && '=' !in token.value
  {
    if header.None? || header.value == "" then None
    else
      var cookies := CookieMap(header.value);
      if "token" in cookies && cookies["token"].Some? && cookies["token"].value != "" then
        CookieValuesClean(header.value);
        cookies["token"]
      else None
  }

  /**
   * The token is read from the last `;`-piece whose key is `token`: its
   * value when that value is present and non-empty, and `null` otherwise.
   */
  lemma TokenFromLastEntry(header: string, i: nat)
    requires header != "" && i < |Split(header, ';')|
    requires ParseEntry(Split(header, ';')[i]).key == "token"
    requires forall j :: i < j < |Split(header, ';')| ==> ParseEntry(Split(header, ';')[j]).key != "token"
    ensures var v := ParseEntry(Split(header, ';')[i]).value;
      GetTokenFromCookies(Some(header)) == if v.Some? && v.value != "" then v else None
  {
    FromEntriesLast(Split(header, ';'), "token", i);
  }

  /** A header without any `token` piece yields no token. */
  lemma NoTokenEntry(header: string)
    requires forall j :: 0 <= j < |Split(header, ';')| ==> ParseEntry(Split(header, ';')[j]).key != "token"
    ensures GetTokenFromCookies(Some(header)).None?
  {
    FromEntriesAbsent(Split(header, ';'), "token");
  }

  /** Whatever value an entry ends up with comes from one of the pieces. */
  lemma {:induction false} TokenValueFromPiece(pieces: seq<string>)
    requires forall i :: 0 <= i < |pieces| ==> ';' !in pieces[i]
    ensures forall k :: k in FromEntries(pieces) && FromEntries(pieces)[k].Some? ==>
      ';' !in FromEntries(pieces)[k].value && '=' !in FromEntries(pieces)[k].value
    decreases |pieces|
  {
    if pieces != [] {
      TokenValueFromPiece(pieces[..|pieces| - 1]);
      EntryIsClean(pieces[|pieces| - 1]);
    }
  }

  lemma CookieValuesClean(header: string)
    ensures forall k :: k in CookieMap(header) && CookieMap(header)[k].Some? ==>
      ';' !in CookieMap(header)[k].value && '=' !in CookieMap(header)[k].value
  {
    SplitLacksSeparator(header, ';');
    TokenValueFromPiece(Split(header, ';'));
  }

  /** An entry's key and value hold no `=`, and its value holds no `;` when the piece holds none. */
  lemma EntryIsClean(piece: string)
    requires ';' !in piece
    ensures '=' !in ParseEntry(piece).key
    ensures ParseEntry(piece).value.Some? ==> ';' !in ParseEntry(piece).value.value && '=' !in ParseEntry(piece).value.value
  {
    TrimKeepsAbsence(piece, ';');
    var t := Trim(piece);
    var kv := Split(t, '=');
    SplitLacksSeparator(t, '=');
    if |kv| > 1 && ';' in kv[1] {
      JoinSplit(t, '=');
      JoinHasPart(kv, '=', 1, ';');
    }
  }

  /** The header text both `setCookieHeader` and `clearCookieHeader` write, for a token and a Max-Age. */
  function CookieHeader(token: string, maxAge: string): string {
    "token=" + token + AttributeText + maxAge
  }

  /** The attributes both headers share, up to the Max-Age value. */
  const AttributeText: string := "; HttpOnly; Secure; SameSite=None; Path=/; Max-Age="

  /** The Max-Age the issuing header writes: `${7*24*60*60}`, spelled out (see `MaxAgeText`). */
  const IssuedMaxAge: string := "604800"

  /** `setCookieHeader(token)`: the token, lasting as long as the token itself. */
  function SetCookieHeader(token: string): string {
    CookieHeader(token, IssuedMaxAge)
  }

  /** `clearCookieHeader()`: an empty token that expires at once. */
  function ClearCookieHeader(): string {
    "token=; HttpOnly; Secure; SameSite=None; Path=/; Max-Age=0"
  }

  /** A value `setCookieHeader` can carry and `getTokenFromCookies` can read back unchanged. */
  predicate WellFormedToken(t: string) {
    t != [] && ';' !in t && '=' !in t && !IsSpace(t[|t| - 1])
  }

  /** The Max-Age of the issuing header, written out. */
  lemma MaxAgeText()
    ensures NatToDecimal(TokenLifetimeSeconds) == IssuedMaxAge
  {
    assert TokenLifetimeSeconds == 604800;
    assert NatToDecimal(6) == "6";
    assert NatToDecimal(60) == "60";
    assert NatToDecimal(604) == "604";
    assert NatToDecimal(6048) == "6048";
    assert NatToDecimal(60480) == "60480";
  }

  // The header texts, one attribute at a time from the end.

  lemma PeelMaxAge()
    ensures "token=; HttpOnly; Secure; SameSite=None; Path=/; Max-Age=" == "token=; HttpOnly; Secure; SameSite=None; Path=/" + ";" + (" " + "Max-Age" + "=")
    ensures AttributeText == "; HttpOnly; Secure; SameSite=None; Path=/" + ";" + (" " + "Max-Age" + "=")
  {
  }

  lemma PeelPath()
    ensures "token=; HttpOnly; Secure; SameSite=None; Path=/" == "token=; HttpOnly; Secure; SameSite=None" + ";" + (" " + "Path" + "=" + "/")
    ensures "; HttpOnly; Secure; SameSite=None; Path=/" == "; HttpOnly; Secure; SameSite=None" + ";" + (" " + "Path" + "=" + "/")
  {
  }

  lemma PeelSameSite()
    ensures "token=; HttpOnly; Secure; SameSite=None" == "token=; HttpOnly; Secure" + ";" + (" " + "SameSite" + "=" + "None")
    ensures "; HttpOnly; Secure; SameSite=None" == "; HttpOnly; Secure" + ";" + (" " + "SameSite" + "=" + "None")
  {
  }

  lemma PeelSecure()
    ensures "token=; HttpOnly; Secure" == "token=; HttpOnly" + ";" + (" " + "Secure")
    ensures "; HttpOnly; Secure" == "; HttpOnly" + ";" + (" " + "Secure")
  {
  }

  lemma PeelHttpOnly()
    ensures "token=; HttpOnly" == "token=" + ";" + (" " + "HttpOnly")
    ensures "; HttpOnly" == ";" + (" " + "HttpOnly")
  {
  }

  /** The shared attribute text as five `;`-separated pieces. */
  lemma AttributePieces()
    ensures AttributeText == ";" + (" " + "HttpOnly") + ";" + (" " + "Secure") + ";" + (" " + "SameSite" + "=" + "None") + ";" + (" " + "Path" + "=" + "/") + ";" + (" " + "Max-Age" + "=")
  {
    PeelMaxAge();
    PeelPath();
    PeelSameSite();
    PeelSecure();
    PeelHttpOnly();
  }

  // The clearing header's text, one attribute at a time with the token's `=` split off.

  lemma ClearUpToSecure()
    ensures "token=; HttpOnly; Secure" == "token=" + "; HttpOnly; Secure"
  {
    PeelHttpOnly();
    assert "token=; HttpOnly" == "token=" + "; HttpOnly";
    PeelSecure();
  }

  lemma ClearUpToPath()
    ensures "token=; HttpOnly; Secure; SameSite=None; Path=/" == "token=" + "; HttpOnly; Secure; SameSite=None; Path=/"
  {
    ClearUpToSecure();
    PeelSameSite();
    assert "token=; HttpOnly; Secure; SameSite=None" == "token=" + "; HttpOnly; Secure; SameSite=None";
    PeelPath();
  }

  lemma ClearUpToMaxAge()
    ensures "token=; HttpOnly; Secure; SameSite=None; Path=/; Max-Age=" == "token=" + AttributeText
  {
    ClearUpToPath();
    PeelMaxAge();
  }

  /** The clearing header is the shared header text with an empty token and Max-Age zero. */
  lemma ClearCookieIsCookieHeader()
    ensures ClearCookieHeader() == CookieHeader("", "0")
  {
    ClearUpToMaxAge();
    assert "token=" + "" == "token=";
    assert ClearCookieHeader() == "token=; HttpOnly; Secure; SameSite=None; Path=/; Max-Age=" + "0";
  }

  /** Moving the token in front of the attribute pieces and the value behind them. */
  lemma Reassociate(x: string, p1: string, p2: string, p3: string, p4: string, q: string, s: string)
    ensures x + (";" + p1 + ";" + p2 + ";" + p3 + ";" + p4 + ";" + q) + s == x + ";" + p1 + ";" + p2 + ";" + p3 + ";" + p4 + ";" + (q + s)
  {
  }

  /** Splitting six pieces joined by `;`. */
  lemma SplitSix(p0: string, p1: string, p2: string, p3: string, p4: string, p5: string)
    requires ';' !in p0 && ';' !in p1 && ';' !in p2 && ';' !in p3 && ';' !in p4 && ';' !in p5
    ensures Split(p0 + ";" + p1 + ";" + p2 + ";" + p3 + ";" + p4 + ";" + p5, ';') == [p0, p1, p2, p3, p4, p5]
  {
    SplitWhole(p0, ';');
    var q1 := p0 + ";" + p1;
    assert Split(q1, ';') == [p0, p1] by { SplitBefore(p0, p1, ';'); }
    var q2 := q1 + ";" + p2;
    assert Split(q2, ';') == [p0, p1, p2] by { SplitBefore(q1, p2, ';'); }
    var q3 := q2 + ";" + p3;
    assert Split(q3, ';') == [p0, p1, p2, p3] by { SplitBefore(q2, p3, ';'); }
    var q4 := q3 + ";" + p4;
    assert Split(q4, ';') == [p0, p1, p2, p3, p4] by { SplitBefore(q3, p4, ';'); }
    SplitBefore(q4, p5, ';');
  }

  /** The shared header text splits into the token piece and five attribute pieces. */
  lemma CookieHeaderPieces(token: string, maxAge: string)
    requires ';' !in token && ';' !in maxAge
    ensures Split(CookieHeader(token, maxAge), ';') ==
      ["token=" + token, (" " + "HttpOnly"), (" " + "Secure"), " " + "SameSite" + "=" + "None", " " + "Path" + "=" + "/", " " + "Max-Age" + "=" + maxAge]
  {
    AttributePieces();
    Reassociate("token=" + token, (" " + "HttpOnly"), (" " + "Secure"), " " + "SameSite" + "=" + "None", " " + "Path" + "=" + "/", " " + "Max-Age" + "=", maxAge);
    SplitSix("token=" + token, (" " + "HttpOnly"), (" " + "Secure"), " " + "SameSite" + "=" + "None", " " + "Path" + "=" + "/", " " + "Max-Age" + "=" + maxAge);
  }

  /** A piece whose trim is `key=value`, neither holding `=`, reads as that entry. */
  lemma EntryOf(piece: string, key: string, value: string)
    requires Trim(piece) == key + "=" + value
    requires '=' !in key && '=' !in value
    ensures ParseEntry(piece) == Entry(key, Some(value))
  {
    SplitAfter(key, value, '=');
    SplitWhole(value, '=');
  }

  /** A piece whose trim holds no `=` reads as a key without a value. */
  lemma BareEntry(piece: string)
    requires '=' !in Trim(piece)
    ensures ParseEntry(piece) == Entry(Trim(piece), None)
  {
    SplitWhole(Trim(piece), '=');
  }

  /** A piece ` key=value`, neither part holding `=`, reads as that entry. */
  lemma SpacedEntry(key: string, value: string)
    requires key != [] && !IsSpace(key[0]) && '=' !in key
    requires value != [] && !IsSpace(value[|value| - 1]) && '=' !in value
    ensures ParseEntry(" " + key + "=" + value) == Entry(key, Some(value))
  {
    var q := key + "=" + value;
    assert q[0] == key[0] && q[|q| - 1] == value[|value| - 1];
    TrimLeadingSpace(q);
    assert " " + key + "=" + value == " " + q;
    EntryOf(" " + q, key, value);
  }

  /** A piece ` key` without `=` reads as a key without a value. */
  lemma SpacedBareEntry(key: string)
    requires key != [] && !IsSpace(key[0]) && !IsSpace(key[|key| - 1]) && '=' !in key
    ensures ParseEntry(" " + key) == Entry(key, None)
  {
    TrimLeadingSpace(key);
    BareEntry(" " + key);
  }

  /** The token piece of the shared header reads as the `token` entry. */
  lemma TokenPiece(token: string)
    requires '=' !in token && (token != [] ==> !IsSpace(token[|token| - 1]))
    ensures ParseEntry("token=" + token) == Entry("token", Some(token))
  {
    var first := "token" + "=" + token;
    assert first == "token=" + token;
    assert first[|first| - 1] == if token == [] then '=' else token[|token| - 1];
    TrimOfTrimmed(first);
    EntryOf(first, "token", token);
  }

  /** The keys of the four fixed attribute pieces. */
  lemma AttributeKeys()
    ensures ParseEntry(" " + "HttpOnly").key == "HttpOnly"
    ensures ParseEntry(" " + "Secure").key == "Secure"
    ensures ParseEntry(" " + "SameSite" + "=" + "None").key == "SameSite"
    ensures ParseEntry(" " + "Path" + "=" + "/").key == "Path"
  {
    SpacedBareEntry("HttpOnly");
    SpacedBareEntry("Secure");
    SpacedEntry("SameSite", "None");
    SpacedEntry("Path", "/");
  }

  /** What the server reads out of the shared header text: the token entry and the Max-Age entry. */
  lemma {:induction false} CookieHeaderEntries(token: string, maxAge: string)
    requires ';' !in token && '=' !in token && (token != [] ==> !IsSpace(token[|token| - 1]))
    requires maxAge != [] && ';' !in maxAge && '=' !in maxAge && !IsSpace(maxAge[|maxAge| - 1])
    ensures "token" in CookieMap(CookieHeader(token, maxAge)) && CookieMap(CookieHeader(token, maxAge))["token"] == Some(token)
    ensures "Max-Age" in CookieMap(CookieHeader(token, maxAge)) && CookieMap(CookieHeader(token, maxAge))["Max-Age"] == Some(maxAge)
  {
    var pieces := ["token=" + token, (" " + "HttpOnly"), (" " + "Secure"), " " + "SameSite" + "=" + "None", " " + "Path" + "=" + "/", " " + "Max-Age" + "=" + maxAge];
    CookieHeaderPieces(token, maxAge);
    TokenPiece(token);
    AttributeKeys();
    SpacedEntry("Max-Age", maxAge);
    FromEntriesLast(pieces, "token", 0);
    FromEntriesLast(pieces, "Max-Age", 5);
  }

  /**
   * Round trip: the token `setCookieHeader` issues is the token
   * `getTokenFromCookies` reads back, and the cookie lasts exactly the
   * token's lifetime of seven days.
   */
  lemma SetCookieRoundTrip(t: string)
    requires WellFormedToken(t)
    ensures GetTokenFromCookies(Some(SetCookieHeader(t))) == Some(t)
    ensures "Max-Age" in CookieMap(SetCookieHeader(t)) && CookieMap(SetCookieHeader(t))["Max-Age"] == Some(IssuedMaxAge)
    ensures IssuedMaxAge == NatToDecimal(7 * 24 * 60 * 60) && DecimalValue(IssuedMaxAge) == TokenLifetimeSeconds
  {
    MaxAgeText();
    CookieHeaderEntries(t, IssuedMaxAge);
    DecimalRoundTrip(TokenLifetimeSeconds);
  }

  /** A header of the shared shape with an empty token carries `token` with an empty value, which reads as no token. */
  lemma EmptyTokenReadsAsNone(maxAge: string)
    requires maxAge != [] && ';' !in maxAge && '=' !in maxAge && !IsSpace(maxAge[|maxAge| - 1])
    ensures "token" in CookieMap(CookieHeader("", maxAge)) && CookieMap(CookieHeader("", maxAge))["token"] == Some("")
    ensures "Max-Age" in CookieMap(CookieHeader("", maxAge)) && CookieMap(CookieHeader("", maxAge))["Max-Age"] == Some(maxAge)
    ensures GetTokenFromCookies(Some(CookieHeader("", maxAge))).None?
  {
    CookieHeaderEntries("", maxAge);
  }

  /** Logging out: the clearing header carries an empty token, which reads as no token, and expires at once. */
  lemma ClearCookieReadsAsNoToken()
    ensures GetTokenFromCookies(Some(ClearCookieHeader())).None?
    ensures "Max-Age" in CookieMap(ClearCookieHeader()) && CookieMap(ClearCookieHeader())["Max-Age"] == Some("0")
  {
    ClearCookieIsCookieHeader();
    EmptyTokenReadsAsNone("0");
  }

  /** A `token` entry appended to any header overrides whatever token came before it. */
  lemma LaterTokenOverrides(header: string, t: string)
    requires WellFormedToken(t)
    ensures GetTokenFromCookies(Some(header + ";" + " " + "token" + "=" + t)) == Some(t)
  {
    var last := " " + "token" + "=" + t;
    assert header + ";" + " " + "token" + "=" + t == header + [';'] + last;
    SplitBefore(header, last, ';');
    SpacedEntry("token", t);
    var pieces := Split(header, ';') + [last];
    FromEntriesLast(pieces, "token", |pieces| - 1);
  }

  /** The cookie a browser sends back after `setCookieHeader(t)`, `token=t`, reads as the token `t`. */
  lemma RequestCookieCarriesToken(t: string)
    requires WellFormedToken(t)
    ensures GetTokenFromCookies(Some("token=" + t)) == Some(t)
  {
    SplitWhole("token=" + t, ';');
    TokenPiece(t);
    FromEntriesLast(["token=" + t], "token", 0);
  }
}
