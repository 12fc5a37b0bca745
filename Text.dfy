/**
 * The few JavaScript string operations the core relies on, written out:
 * `String.prototype.split` on a one-character separator, `trim`, and the
 * conversion of a natural number to its decimal text (as a template literal
 * does with `${n}`). The functions carry only what termination needs; what
 * they compute is stated by the lemmas beside them.
 */
module Text {

  /** The characters `String.prototype.trim` removes: WhiteSpace and LineTerminator. */
  predicate IsSpace(c: char) {
    var n := c as int;
    n == 0x09 || n == 0x0A || n == 0x0B || n == 0x0C || n == 0x0D || n == 0x20 ||
    n == 0xA0 || n == 0x1680 || (0x2000 <= n <= 0x200A) || n == 0x2028 || n == 0x2029 ||
    n == 0x202F || n == 0x205F || n == 0x3000 || n == 0xFEFF
  }

  predicate AllSpace(s: string) {
    forall k :: 0 <= k < |s| ==> IsSpace(s[k])
  }

  // ---------------------------------------------------------------- split

  /** `s.split(d)` with a one-character separator `d`. */
  function Split(s: string, d: char): (parts: seq<string>)
    ensures |parts| >= 1
    decreases |s|
  {
    if |s| == 0 then [""]
    else if s[0] == d then [""] + Split(s[1..], d)
    else
      var rest := Split(s[1..], d);
      [[s[0]] + rest[0]] + rest[1..]
  }

  /** `parts.join(d)`. */
  function Join(parts: seq<string>, d: char): string
    requires |parts| >= 1
    decreases |parts|
  {
    if |parts| == 1 then parts[0] else parts[0] + [d] + Join(parts[1..], d)
  }

  /** No piece of a split holds the separator. */
  lemma {:induction false} SplitLacksSeparator(s: string, d: char)
    ensures forall i :: 0 <= i < |Split(s, d)| ==> d !in Split(s, d)[i]
    decreases |s|
  {
    if |s| > 0 {
      SplitLacksSeparator(s[1..], d);
      var rest := Split(s[1..], d);
      if s[0] != d {
        var parts := Split(s, d);
        assert parts[0] == [s[0]] + rest[0];
        forall i | 0 <= i < |parts| ensures d !in parts[i] {
          if i > 0 { assert parts[i] == rest[i]; }
        }
      }
    }
  }

  /** Prefixing the first piece with a character prefixes the join with it. */
  lemma JoinConsHead(c: char, rest: seq<string>, d: char)
    requires |rest| >= 1
    ensures Join([[c] + rest[0]] + rest[1..], d) == [c] + Join(rest, d)
  {
    var parts := [[c] + rest[0]] + rest[1..];
    if |rest| > 1 {
      assert parts[1..] == rest[1..];
    }
  }

  /** An empty first piece leaves the separator at the front of the join. */
  lemma JoinEmptyHead(rest: seq<string>, d: char)
    requires |rest| >= 1
    ensures Join([""] + rest, d) == [d] + Join(rest, d)
  {
    assert ([""] + rest)[1..] == rest;
  }

  /** Joining the pieces of a split gives back the string. */
  lemma {:induction false} JoinSplit(s: string, d: char)
    ensures Join(Split(s, d), d) == s
    decreases |s|
  {
    if |s| > 0 {
      var rest := Split(s[1..], d);
      JoinSplit(s[1..], d);
      if s[0] == d {
        JoinEmptyHead(rest, d);
      } else {
        JoinConsHead(s[0], rest, d);
      }
      assert s == [s[0]] + s[1..];
    }
  }

  /** Splitting what `Join` built gives back the pieces, when no piece holds the separator. */
  lemma {:induction false} SplitJoin(parts: seq<string>, d: char)
    requires |parts| >= 1
    requires forall i :: 0 <= i < |parts| ==> d !in parts[i]
    ensures Split(Join(parts, d), d) == parts
    decreases |parts|, |parts[0]|
  {
    var p := parts[0];
    if |p| == 0 {
      if |parts| > 1 {
        var s := Join(parts, d);
        assert s == [d] + Join(parts[1..], d);
        assert s[1..] == Join(parts[1..], d);
        SplitJoin(parts[1..], d);
      }
    } else {
      var s := Join(parts, d);
      var tail := [p[1..]] + parts[1..];
      assert tail[1..] == parts[1..];
      assert forall i :: 0 <= i < |tail| ==> d !in tail[i] by {
        forall i | 0 <= i < |tail| ensures d !in tail[i] {
          if i == 0 { assert forall c :: c in p[1..] ==> c in p; }
        }
      }
      assert s == [p[0]] + Join(tail, d) by {
        if |parts| == 1 {
        } else {
          assert Join(tail, d) == p[1..] + [d] + Join(parts[1..], d);
        }
      }
      assert s[0] == p[0] && s[0] != d;
      assert s[1..] == Join(tail, d);
      SplitJoin(tail, d);
      assert [p[0]] + p[1..] == p;
    }
  }

  /** Every character of a piece occurs in the joined string. */
  lemma {:induction false} JoinHasPart(parts: seq<string>, d: char, i: nat, c: char)
    requires i < |parts| && c in parts[i]
    ensures c in Join(parts, d)
    decreases |parts|
  {
    if i > 0 {
      JoinHasPart(parts[1..], d, i - 1, c);
    }
  }

  /** Each piece occurs whole in the joined string, at the returned offset. */
  lemma {:induction false} JoinPartAt(parts: seq<string>, d: char, i: nat) returns (off: nat)
    requires i < |parts|
    ensures off + |parts[i]| <= |Join(parts, d)| && Join(parts, d)[off..off + |parts[i]|] == parts[i]
    decreases |parts|
  {
    if i == 0 {
      off := 0;
    } else {
      var inner := JoinPartAt(parts[1..], d, i - 1);
      off := |parts[0]| + 1 + inner;
      assert Join(parts, d) == parts[0] + [d] + Join(parts[1..], d);
    }
  }

  /** `Join` of pieces with one more piece at the end. */
  lemma {:induction false} JoinSnoc(parts: seq<string>, b: string, d: char)
    requires |parts| >= 1
    ensures Join(parts + [b], d) == Join(parts, d) + [d] + b
    decreases |parts|
  {
    if |parts| > 1 {
      assert (parts + [b])[1..] == parts[1..] + [b];
      JoinSnoc(parts[1..], b, d);
    }
  }

  /** Splitting `a;b` where `a` holds no separator: `a` and then the pieces of `b`. */
  lemma SplitAfter(a: string, b: string, d: char)
    requires d !in a
    ensures Split(a + [d] + b, d) == [a] + Split(b, d)
  {
    var parts := [a] + Split(b, d);
    JoinSplit(b, d);
    SplitLacksSeparator(b, d);
    assert Join(parts, d) == a + [d] + b by {
      assert parts[1..] == Split(b, d);
    }
    forall i | 0 <= i < |parts| ensures d !in parts[i] {
      if i > 0 { assert parts[i] == Split(b, d)[i - 1]; }
    }
    SplitJoin(parts, d);
  }

  /** Splitting `a;b` where `b` holds no separator: the pieces of `a` and then `b`. */
  lemma SplitBefore(a: string, b: string, d: char)
    requires d !in b
    ensures Split(a + [d] + b, d) == Split(a, d) + [b]
  {
    var parts := Split(a, d) + [b];
    JoinSplit(a, d);
    SplitLacksSeparator(a, d);
    JoinSnoc(Split(a, d), b, d);
    SplitJoin(parts, d);
  }

  /** A string without the separator splits into itself alone. */
  lemma SplitWhole(s: string, d: char)
    requires d !in s
    ensures Split(s, d) == [s]
  {
    SplitJoin([s], d);
  }

  // ---------------------------------------------------------------- trim

  /** `trimStart`. */
  function TrimLeft(s: string): (r: string)
    decreases |s|
  {
    if |s| > 0 && IsSpace(s[0]) then TrimLeft(s[1..]) else s
  }

  /** `trimEnd`. */
  function TrimRight(s: string): (r: string)
    decreases |s|
  {
    if |s| > 0 && IsSpace(s[|s| - 1]) then TrimRight(s[..|s| - 1]) else s
  }

  /** `s.trim()`. */
  function Trim(s: string): string {
    TrimRight(TrimLeft(s))
  }

  /** `trimStart` drops the leading spaces and nothing else. */
  lemma {:induction false} TrimLeftSpec(s: string)
    ensures |TrimLeft(s)| <= |s| && TrimLeft(s) == s[|s| - |TrimLeft(s)|..]
    ensures AllSpace(s[..|s| - |TrimLeft(s)|])
    ensures TrimLeft(s) != [] ==> !IsSpace(TrimLeft(s)[0])
    decreases |s|
  {
    if |s| > 0 && IsSpace(s[0]) {
      TrimLeftSpec(s[1..]);
      var r := TrimLeft(s[1..]);
      assert s[..|s| - |r|] == [s[0]] + s[1..][..|s| - 1 - |r|];
    }
  }

  /** Whitespace followed by one more whitespace character is whitespace. */
  lemma AllSpaceSnoc(t: string, c: char)
    requires AllSpace(t) && IsSpace(c)
    ensures AllSpace(t + [c])
  {
    assert forall k :: 0 <= k < |t| ==> (t + [c])[k] == t[k];
  }

  /** `trimEnd` drops the trailing spaces and nothing else. */
  lemma {:induction false} TrimRightSpec(s: string)
    ensures |TrimRight(s)| <= |s| && TrimRight(s) == s[..|TrimRight(s)|]
    ensures AllSpace(s[|TrimRight(s)|..])
    ensures TrimRight(s) != [] ==> !IsSpace(TrimRight(s)[|TrimRight(s)| - 1])
    decreases |s|
  {
    if |s| > 0 && IsSpace(s[|s| - 1]) {
      var init, c := s[..|s| - 1], s[|s| - 1];
      TrimRightSpec(init);
      var r := TrimRight(init);
      assert TrimRight(s) == r;
      assert s[..|r|] == init[..|r|];
      assert s[|r|..] == init[|r|..] + [c];
      AllSpaceSnoc(init[|r|..], c);
    }
  }


  /**
   * `trim` leaves the slice of `s` that remains once the leading `i` and the
   * trailing spaces are cut away, and that slice neither starts nor ends with
   * a space.
   */
  lemma TrimSpec(s: string) returns (i: nat)
    ensures i + |Trim(s)| <= |s| && Trim(s) == s[i..i + |Trim(s)|]
    ensures AllSpace(s[..i]) && AllSpace(s[i + |Trim(s)|..])
    ensures Trim(s) != [] ==> !IsSpace(Trim(s)[0]) && !IsSpace(Trim(s)[|Trim(s)| - 1])
  {
    var l := TrimLeft(s);
    TrimLeftSpec(s);
    TrimRightSpec(l);
    var r := TrimRight(l);
    i := |s| - |l|;
    assert r == s[i..i + |r|];
    assert s[i + |r|..] == l[|r|..];
  }

  /** A string that neither starts nor ends with a space is its own trim. */
  lemma TrimOfTrimmed(s: string)
    requires s != [] ==> !IsSpace(s[0]) && !IsSpace(s[|s| - 1])
    ensures Trim(s) == s
  {
  }

  /** One leading space is dropped by `trim` from a string that is otherwise trimmed. */
  lemma TrimLeadingSpace(q: string)
    requires q != [] && !IsSpace(q[0]) && !IsSpace(q[|q| - 1])
    ensures Trim(" " + q) == q
  {
    assert (" " + q)[1..] == q;
    assert TrimLeft(" " + q) == TrimLeft(q) == q;
    assert TrimRight(q) == q;
  }

  /** A character missing from `s` is missing from its trim. */
  lemma TrimKeepsAbsence(s: string, c: char)
    requires c !in s
    ensures c !in Trim(s)
  {
    var r := Trim(s);
    var i := TrimSpec(s);
    forall k | 0 <= k < |r| ensures r[k] != c {
      assert r[k] == s[i + k];
    }
  }

  // ---------------------------------------------------------------- numbers

  /** The decimal digit for `n < 10`. */
  function Digit(n: nat): char
    requires n < 10
  {
    ('0' as int + n) as char
  }

  predicate IsDigit(c: char) {
    '0' <= c <= '9'
  }

  /** How a template literal writes a non-negative integer: digits only, no leading zero. */
  function NatToDecimal(n: nat): (r: string)
    ensures r != [] && forall k :: 0 <= k < |r| ==> IsDigit(r[k])
    ensures r[0] == '0' ==> n == 0
  {
    if n < 10 then [Digit(n)] else NatToDecimal(n / 10) + [Digit(n % 10)]
  }

  /** The number a string of decimal digits stands for. */
  function DecimalValue(s: string): nat
    requires forall k :: 0 <= k < |s| ==> IsDigit(s[k])
  {
    if s == [] then 0
    else
      assert IsDigit(s[|s| - 1]);
      DecimalValue(s[..|s| - 1]) * 10 + (s[|s| - 1] as int - '0' as int)
  }

  /** Reading back the decimal text of `n` gives `n`. */
  lemma {:induction false} DecimalRoundTrip(n: nat)
    ensures DecimalValue(NatToDecimal(n)) == n
  {
    if n >= 10 {
      var r := NatToDecimal(n);
      assert r[..|r| - 1] == NatToDecimal(n / 10);
      DecimalRoundTrip(n / 10);
    }
  }
}
