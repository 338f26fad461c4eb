/** Character classes and the few string operations the bot applies to user text,
    restricted to ASCII (see README, "Left out"). */
module Text {

  predicate IsAsciiDigit(c: char)
  {
    '0' <= c <= '9'
  }

  predicate IsAsciiLetter(c: char)
  {
    'a' <= c <= 'z' || 'A' <= c <= 'Z'
  }

  /** The characters Python's `str.strip()` removes that are ASCII. */
  predicate IsSpace(c: char)
  {
    c == ' ' || c == '\t' || c == '\n' || c == '\r' || c == '\U{B}' || c == '\U{C}'
  }

  /** True iff every character of `s` satisfies `p`, decided by one scan. */
  function AllChars(s: string, p: char -> bool): (r: bool)
    ensures r <==> forall i :: 0 <= i < |s| ==> p(s[i])
  {
    if s == [] then true else p(s[0]) && AllChars(s[1..], p)
  }

  function LowerChar(c: char): char
  {
    if 'A' <= c <= 'Z' then (c as int + 32) as char else c
  }

  function UpperChar(c: char): char
  {
    if 'a' <= c <= 'z' then (c as int - 32) as char else c
  }

  /** `str.lower()` on the ASCII letters. */
  function Lower(s: string): string
  {
    seq(|s|, i requires 0 <= i < |s| => LowerChar(s[i]))
  }

  /** `str.upper()` on the ASCII letters. */
  function Upper(s: string): string
  {
    seq(|s|, i requires 0 <= i < |s| => UpperChar(s[i]))
  }

  function StripStart(s: string): string
  {
    if s != [] && IsSpace(s[0]) then StripStart(s[1..]) else s
  }

  function StripEnd(s: string): string
  {
    if s != [] && IsSpace(s[|s| - 1]) then StripEnd(s[..|s| - 1]) else s
  }

  /** `str.strip()`: drops leading and trailing white space. */
  function Strip(s: string): string
  {
    StripEnd(StripStart(s))
  }

  /** A string none of whose characters is white space is its own strip. */
  lemma {:induction false} StripNoSpace(s: string)
    requires forall i :: 0 <= i < |s| ==> !IsSpace(s[i])
    ensures Strip(s) == s
  {
    assert s == [] || !IsSpace(s[0]);
    assert StripStart(s) == s;
    assert s == [] || !IsSpace(s[|s| - 1]);
  }

  /** Dropping one trailing newline before stripping changes nothing. */
  lemma {:induction false} StripFinalNewline(s: string)
    requires forall i :: 0 <= i < |s| ==> !IsSpace(s[i])
    ensures Strip(s + "\n") == s
  {
    var t := s + "\n";
    if s == [] {
      assert t == "\n";
      assert StripStart(t) == StripStart(t[1..]);
      assert t[1..] == [];
    } else {
      assert !IsSpace(t[0]);
      assert StripStart(t) == t;
      assert t[..|t| - 1] == s;
      assert StripEnd(t) == StripEnd(s);
      assert !IsSpace(s[|s| - 1]);
    }
  }

  /** `"\n".join(lines)`. */
  function JoinLines(lines: seq<string>): string
  {
    if |lines| == 0 then ""
    else if |lines| == 1 then lines[0]
    else lines[0] + "\n" + JoinLines(lines[1..])
  }

  /** `needle` occurs in `hay` as a contiguous run starting at `at`. */
  predicate OccursAt(needle: string, hay: string, at: nat)
  {
    at + |needle| <= |hay| && hay[at..at + |needle|] == needle
  }

  /** Every joined line occurs, whole, in the joined text. */
  lemma {:induction false} JoinLinesContains(lines: seq<string>, k: nat)
    requires k < |lines|
    ensures exists at: nat :: OccursAt(lines[k], JoinLines(lines), at)
  {
    if |lines| == 1 {
      assert OccursAt(lines[0], JoinLines(lines), 0);
    } else if k == 0 {
      var j := JoinLines(lines);
      assert j == lines[0] + ("\n" + JoinLines(lines[1..]));
      assert j[0..|lines[0]|] == lines[0];
      assert OccursAt(lines[0], j, 0);
    } else {
      JoinLinesContains(lines[1..], k - 1);
      var at: nat :| OccursAt(lines[1..][k - 1], JoinLines(lines[1..]), at);
      var head := lines[0] + "\n";
      var rest := JoinLines(lines[1..]);
      assert JoinLines(lines) == head + rest;
      var shift := |head| + at;
      assert (head + rest)[shift..shift + |lines[k]|] == rest[at..at + |lines[k]|];
      assert OccursAt(lines[k], JoinLines(lines), shift);
    }
  }
}
