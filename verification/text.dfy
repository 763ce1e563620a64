/**
 The string operations the keyword filter is built from: Python's
 `str.split(",")`, `str.strip()`, `str.lower()` and literal substring search.
 Strings are sequences of Unicode scalar values.
 */
module Text {

  /** Python's `str.isspace()` for a single character (the characters `str.strip()` removes). */
  predicate IsSpace(c: char)
  {
    || c == ' ' || ('\t' <= c <= '\r')
    || ('\U{1C}' <= c <= '\U{1F}') || c == '\U{85}' || c == '\U{A0}'
    || c == '\U{1680}' || ('\U{2000}' <= c <= '\U{200A}')
    || c == '\U{2028}' || c == '\U{2029}' || c == '\U{202F}'
    || c == '\U{205F}' || c == '\U{3000}'
  }

  /** Number of leading whitespace characters of `s`. */
  function LeadingSpace(s: string): (n: nat)
    ensures n <= |s|
    ensures forall i :: 0 <= i < n ==> IsSpace(s[i])
    ensures n < |s| ==> !IsSpace(s[n])
    decreases |s|
  {
    if |s| > 0 && IsSpace(s[0]) then 1 + LeadingSpace(s[1..]) else 0
  }

  /** Number of trailing whitespace characters of `s`. */
  function TrailingSpace(s: string): (n: nat)
    ensures n <= |s|
    ensures forall i :: |s| - n <= i < |s| ==> IsSpace(s[i])
    ensures n < |s| ==> !IsSpace(s[|s| - n - 1])
    decreases |s|
  {
    if |s| > 0 && IsSpace(s[|s| - 1]) then 1 + TrailingSpace(s[..|s| - 1]) else 0
  }

  /**
   Python's `str.strip()`: `s` without its leading and trailing whitespace.
   The result is a contiguous piece of `s` that neither begins nor ends with
   whitespace, and everything cut away on either side is whitespace.
   */
  function Strip(s: string): (r: string)
    ensures exists i, j :: 0 <= i <= j <= |s| && r == s[i..j]
                           && (forall k :: 0 <= k < i ==> IsSpace(s[k]))
                           && (forall k :: j <= k < |s| ==> IsSpace(s[k]))
    ensures |r| > 0 ==> !IsSpace(r[0]) && !IsSpace(r[|r| - 1])
  {
    var i := LeadingSpace(s);
    if i == |s| then
      assert s[i..i] == [];
      ""
    else
      var t := TrailingSpace(s[i..]);
      assert t < |s| - i;
      s[i..|s| - t]
  }

  lemma StripIdempotent(s: string)
    ensures Strip(Strip(s)) == Strip(s)
  {
  }

  /** Python's `str.lower()` on one character, for Basic Latin and Latin-1 (where Portuguese lives). */
  function LowerChar(c: char): (r: char)
  {
    if ('A' <= c <= 'Z') || ('\U{C0}' <= c <= '\U{DE}' && c != '\U{D7}')
    then (c as int + 32) as char
    else c
  }

  predicate IsUpper(c: char)
  {
    ('A' <= c <= 'Z') || ('\U{C0}' <= c <= '\U{DE}' && c != '\U{D7}')
  }

  /** Lower-casing removes every upper-case letter and touches nothing else. */
  lemma LowerCharSpec(c: char)
    ensures !IsUpper(LowerChar(c))
    ensures !IsUpper(c) ==> LowerChar(c) == c
    ensures LowerChar(LowerChar(c)) == LowerChar(c)
    ensures IsSpace(LowerChar(c)) <==> IsSpace(c)
  {
  }

  /** Python's `str.lower()`, character by character. */
  function Lower(s: string): (r: string)
    ensures |r| == |s|
    ensures forall i :: 0 <= i < |s| ==> r[i] == LowerChar(s[i])
  {
    seq(|s|, i requires 0 <= i < |s| => LowerChar(s[i]))
  }

  lemma LowerIdempotent(s: string)
    ensures Lower(Lower(s)) == Lower(s)
    ensures forall i :: 0 <= i < |s| ==> !IsUpper(Lower(s)[i])
  {
  }

  /** The inverse of `Split`: the pieces glued back together with `sep` between them. */
  function Join(parts: seq<string>, sep: char): string
    decreases |parts|
  {
    if |parts| == 0 then ""
    else if |parts| == 1 then parts[0]
    else parts[0] + [sep] + Join(parts[1..], sep)
  }

  /**
   Python's `s.split(sep)` for a one-character separator: never empty, no piece
   holds `sep`, and joining the pieces gives `s` back.
   */
  function Split(s: string, sep: char): (r: seq<string>)
    ensures |r| >= 1
    ensures forall i :: 0 <= i < |r| ==> sep !in r[i]
    ensures Join(r, sep) == s
    decreases |s|
  {
    if |s| == 0 then [""]
    else
      var rest := Split(s[1..], sep);
      if s[0] == sep then
        assert s == [sep] + s[1..];
        [""] + rest
      else
        var r := [[s[0]] + rest[0]] + rest[1..];
        assert r[1..] == rest[1..];
        assert s == [s[0]] + s[1..];
        r
  }

  /** `Split` undoes `Join`: the two are inverse on separator-free pieces. */
  lemma {:induction false} SplitJoin(parts: seq<string>, sep: char)
    requires |parts| >= 1
    requires forall i :: 0 <= i < |parts| ==> sep !in parts[i]
    ensures Split(Join(parts, sep), sep) == parts
    decreases |parts|, |parts[0]|
  {
    if |parts| == 1 {
      SplitNoSep(parts[0], sep);
    } else if |parts[0]| == 0 {
      var tail := parts[1..];
      SplitJoin(tail, sep);
      var j := Join(parts, sep);
      assert j == [sep] + Join(tail, sep);
      SplitCons(sep, Join(tail, sep), sep);
      assert parts == [""] + tail;
    } else {
      var p0 := parts[0];
      var shorter := [p0[1..]] + parts[1..];
      assert shorter[1..] == parts[1..];
      SplitJoin(shorter, sep);
      JoinCons(p0, parts[1..], sep);
      assert Join(parts, sep) == [p0[0]] + Join(shorter, sep);
      SplitCons(p0[0], Join(shorter, sep), sep);
      assert p0 == [p0[0]] + p0[1..];
    }
  }

  /** Gluing in the first piece one character at a time. */
  lemma JoinCons(p0: string, rest: seq<string>, sep: char)
    requires |p0| > 0 && |rest| > 0
    ensures Join([p0] + rest, sep) == [p0[0]] + Join([p0[1..]] + rest, sep)
  {
  }

  /** One step of `Split` on a text with a known first character. */
  lemma SplitCons(c: char, s: string, sep: char)
    ensures var rest := Split(s, sep);
            Split([c] + s, sep) == if c == sep then [""] + rest else [[c] + rest[0]] + rest[1..]
  {
  }

  lemma SplitNoSep(s: string, sep: char)
    requires sep !in s
    ensures Split(s, sep) == [s]
  {
  }

  /** `k` occurs in `t` at position `i`. */
  predicate OccursAt(t: string, k: string, i: int)
  {
    0 <= i && i + |k| <= |t| && t[i..i + |k|] == k
  }

  /** Literal substring search, as `str.contains` behaves for a pattern without regex metacharacters. */
  function Contains(t: string, k: string): (b: bool)
    ensures b <==> exists i :: OccursAt(t, k, i)
    decreases |t|
  {
    if |k| > |t| then false
    else if t[..|k|] == k then
      assert OccursAt(t, k, 0);
      true
    else
      var b := Contains(t[1..], k);
      assert b ==> exists i :: OccursAt(t, k, i) by {
        if b {
          var i :| OccursAt(t[1..], k, i);
          assert t[i + 1..i + 1 + |k|] == t[1..][i..i + |k|];
          assert OccursAt(t, k, i + 1);
        }
      }
      assert (exists i :: OccursAt(t, k, i)) ==> b by {
        if exists i :: OccursAt(t, k, i) {
          var i :| OccursAt(t, k, i);
          assert i != 0;
          assert t[1..][i - 1..i - 1 + |k|] == t[i..i + |k|];
          assert OccursAt(t[1..], k, i - 1);
        }
      }
      b
  }

  /** The empty pattern is found in every text. */
  lemma ContainsEmpty(t: string)
    ensures Contains(t, "")
  {
  }
}
