/** The string operations of the JavaScript runtime that the server and the
    admin pages use: `trim`, `split` on one character, `join`, `toLowerCase`,
    `includes` and the digit class of regular expressions. Strings are
    sequences of Unicode scalar values. */
module Text {

  /** WhiteSpace and LineTerminator code points: what `String.prototype.trim`
      and `Number(string)` strip from both ends. */
  predicate IsSpace(c: char) {
    c == '\t' || c == '\n' || c == '\U{000B}' || c == '\U{000C}' || c == '\r' || c == ' '
    || c == '\U{00A0}' || c == '\U{1680}' || ('\U{2000}' <= c <= '\U{200A}')
    || c == '\U{2028}' || c == '\U{2029}' || c == '\U{202F}' || c == '\U{205F}'
    || c == '\U{3000}' || c == '\U{FEFF}'
  }

  predicate IsDigit(c: char) {
    '0' <= c <= '9'
  }

  predicate AllDigits(s: string) {
    forall i :: 0 <= i < |s| ==> IsDigit(s[i])
  }

  /** No white space at either end. */
  predicate IsTrimmed(s: string) {
    |s| == 0 || (!IsSpace(s[0]) && !IsSpace(s[|s| - 1]))
  }

  predicate AllSpace(s: string) {
    forall i :: 0 <= i < |s| ==> IsSpace(s[i])
  }

  function TrimStart(s: string): (r: string)
    ensures |r| <= |s|
  {
    if |s| > 0 && IsSpace(s[0]) then TrimStart(s[1..]) else s
  }

  /** `trimStart` cuts only white space, and leaves a string that starts
      with none. */
  lemma {:induction false} TrimStartCuts(s: string)
    ensures var r := TrimStart(s);
      && r == s[|s| - |r|..]
      && (|r| == 0 || !IsSpace(r[0]))
      && AllSpace(s[..|s| - |r|])
  {
    if |s| > 0 && IsSpace(s[0]) {
      TrimStartCuts(s[1..]);
      var r := TrimStart(s[1..]);
      assert s[..|s| - |r|] == [s[0]] + s[1..][..|s[1..]| - |r|];
    }
  }

  function TrimEnd(s: string): (r: string)
    ensures |r| <= |s|
  {
    if |s| > 0 && IsSpace(s[|s| - 1]) then TrimEnd(s[..|s| - 1]) else s
  }

  /** `trimEnd` cuts only white space, and leaves a string that ends with
      none. */
  lemma {:induction false} TrimEndCuts(s: string)
    ensures var r := TrimEnd(s);
      && r == s[..|r|]
      && (|r| == 0 || !IsSpace(r[|r| - 1]))
      && AllSpace(s[|r|..])
  {
    if |s| > 0 && IsSpace(s[|s| - 1]) {
      TrimEndCuts(s[..|s| - 1]);
      var r := TrimEnd(s[..|s| - 1]);
      assert s[|r|..] == s[..|s| - 1][|r|..] + [s[|s| - 1]];
    }
  }

  /** `String.prototype.trim`: white space cut away at both ends. */
  function Trim(s: string): (r: string)
    ensures IsTrimmed(r) && |r| <= |s|
  {
    TrimStartCuts(s);
    TrimEndCuts(TrimStart(s));
    TrimEnd(TrimStart(s))
  }

  /** How many characters `trim` cuts at the front. */
  function TrimmedLead(s: string): nat
  {
    |s| - |TrimStart(s)|
  }

  /** The trim of `s` is the slice of `s` that starts after the white
      space in front. */
  lemma TrimSlice(s: string)
    ensures |Trim(s)| <= |s| - TrimmedLead(s)
    ensures Trim(s) == s[TrimmedLead(s)..TrimmedLead(s) + |Trim(s)|]
  {
    var a := TrimStart(s);
    var r := TrimEnd(a);
    TrimStartCuts(s);
    TrimEndCuts(a);
    assert r == s[|s| - |a|..][..|r|] == s[|s| - |a|..|s| - |a| + |r|];
  }

  /** Trimming only cuts: a character of the result occurs in the input. */
  lemma TrimKeepsChars(s: string, c: char)
    requires c in Trim(s)
    ensures c in s
  {
    var r := Trim(s);
    var i := TrimmedLead(s);
    TrimSlice(s);
    var k :| 0 <= k < |r| && r[k] == c;
    assert s[i + k] == r[k];
  }

  /** A string with no white space at its ends is its own trim. */
  lemma TrimOfTrimmed(s: string)
    requires IsTrimmed(s)
    ensures Trim(s) == s
  {
  }

  /** `trim()` gives the empty string exactly for all-white-space input. */
  lemma {:induction false} TrimEmptyIffBlank(s: string)
    ensures Trim(s) == "" <==> AllSpace(s)
  {
    var a := TrimStart(s);
    TrimStartCuts(s);
    TrimEndCuts(a);
    if a == "" {
      assert s[..|s|] == s;
    } else {
      assert !IsSpace(a[0]) && a[0] == s[|s| - |a|];
      assert !IsSpace(TrimEnd(a)[0]);
    }
  }

  /** `s.split(sep)` for a one-character separator: the pieces between
      separators, always at least one. */
  function Split(s: string, sep: char): (parts: seq<string>)
    ensures |parts| >= 1
    ensures forall i :: 0 <= i < |parts| ==> sep !in parts[i]
  {
    if |s| == 0 then [""]
    else
      var rest := Split(s[1..], sep);
      if s[0] == sep then [""] + rest
      else [[s[0]] + rest[0]] + rest[1..]
  }

  /** Dropping a one-character prefix gives the rest back. */
  lemma DropOne(p: string, s: string)
    requires |p| == 1
    ensures (p + s)[1..] == s
  {
  }

  /** `parts.join(sep)`. */
  function Join(parts: seq<string>, sep: string): string
  {
    if |parts| == 0 then ""
    else if |parts| == 1 then parts[0]
    else parts[0] + sep + Join(parts[1..], sep)
  }

  lemma {:induction false} SplitWithPrefix(p: string, rest: string, sep: char)
    requires sep !in p
    ensures Split(p + rest, sep) == [p + Split(rest, sep)[0]] + Split(rest, sep)[1..]
  {
    if |p| > 0 {
      var S := Split(rest, sep);
      SplitWithPrefix(p[1..], rest, sep);
      assert (p + rest)[1..] == p[1..] + rest;
      var R := Split(p[1..] + rest, sep);
      assert R == [p[1..] + S[0]] + S[1..];
      assert (p + rest)[0] == p[0] != sep;
      assert Split(p + rest, sep) == [[p[0]] + R[0]] + R[1..];
      assert [p[0]] + (p[1..] + S[0]) == p + S[0];
    } else {
      var r := Split(rest, sep);
      assert p + rest == rest;
      assert p + r[0] == r[0];
      assert [r[0]] + r[1..] == r;
    }
  }

  /** Splitting a join on the same separator gives back the pieces, provided
      no piece contains the separator. */
  lemma {:induction false} SplitJoin(parts: seq<string>, sep: char)
    requires |parts| >= 1
    requires forall i :: 0 <= i < |parts| ==> sep !in parts[i]
    ensures Split(Join(parts, [sep]), sep) == parts
  {
    if |parts| == 1 {
      SplitWithPrefix(parts[0], "", sep);
      assert parts[0] + "" == parts[0];
    } else {
      var tail := Join(parts[1..], [sep]);
      SplitJoin(parts[1..], sep);
      assert ([sep] + tail)[1..] == tail;
      var T := Split([sep] + tail, sep);
      assert T == [""] + Split(tail, sep);
      assert T[0] == "" && T[1..] == parts[1..];
      assert Join(parts, [sep]) == parts[0] + ([sep] + tail);
      SplitWithPrefix(parts[0], [sep] + tail, sep);
      assert parts[0] + "" == parts[0];
      assert [parts[0]] + parts[1..] == parts;
    }
  }

  /** A join contains the characters of its pieces and separators only. */
  lemma {:induction false} JoinChars(parts: seq<string>, sep: string, c: char)
    requires c in Join(parts, sep)
    ensures c in sep || exists i :: 0 <= i < |parts| && c in parts[i]
  {
    if |parts| > 1 {
      var tail := Join(parts[1..], sep);
      if c !in parts[0] && c !in sep {
        assert c in tail;
        JoinChars(parts[1..], sep, c);
        var i :| 0 <= i < |parts[1..]| && c in parts[1..][i];
        assert c in parts[i + 1];
      }
    }
  }

  /** `toLowerCase` on the ASCII letters. */
  function LowerChar(c: char): char {
    if 'A' <= c <= 'Z' then (c as int + 32) as char else c
  }

  function ToLower(s: string): (r: string)
    ensures |r| == |s|
    ensures forall i :: 0 <= i < |s| ==> r[i] == LowerChar(s[i])
  {
    if |s| == 0 then "" else [LowerChar(s[0])] + ToLower(s[1..])
  }

  /** `s.includes(q)`. */
  predicate Contains(s: string, q: string)
  {
    q <= s || (|s| > 0 && Contains(s[1..], q))
  }

  /** `q` occurs in `s` starting at position `i`. */
  predicate OccursAt(s: string, q: string, i: int) {
    0 <= i <= |s| - |q| && s[i..i + |q|] == q
  }

  /** `includes` holds exactly when `q` occurs at some position of `s`. */
  lemma {:induction false} ContainsIffOccurs(s: string, q: string)
    ensures Contains(s, q) <==> exists i :: OccursAt(s, q, i)
  {
    if |s| > 0 {
      ContainsIffOccurs(s[1..], q);
      if exists i :: OccursAt(s, q, i) {
        var i :| OccursAt(s, q, i);
        if i > 0 {
          assert OccursAt(s[1..], q, i - 1);
        } else {
          assert q <= s;
        }
      }
      if exists i :: OccursAt(s[1..], q, i) {
        var i :| OccursAt(s[1..], q, i);
        assert OccursAt(s, q, i + 1);
      }
      if q <= s {
        assert OccursAt(s, q, 0);
      }
    } else if q <= s {
      assert OccursAt(s, q, 0);
    }
  }
}
