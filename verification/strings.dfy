/**
  Character classes and the string operations the engine applies to handles.
  `toLowerCase` is modelled on ASCII letters only.
 */
module Strings {

  predicate IsDigit(c: char) {
    '0' <= c <= '9'
  }

  predicate IsAsciiUpper(c: char) {
    'A' <= c <= 'Z'
  }

  /** `toLowerCase` of one character. */
  function LowerChar(c: char): char {
    if IsAsciiUpper(c) then (c as int + 32) as char else c
  }

  /** `s.toLowerCase()`. */
  function Lower(s: string): (r: string)
    ensures |r| == |s|
    ensures forall i :: 0 <= i < |s| ==> r[i] == LowerChar(s[i])
  {
    seq(|s|, i requires 0 <= i < |s| => LowerChar(s[i]))
  }

  /** Index of the first occurrence of `c` in `s`, or `|s|` when there is none. */
  function IndexOf(s: string, c: char): (k: nat)
    ensures k <= |s|
    ensures c !in s[..k]
    ensures k < |s| ==> s[k] == c
  {
    if |s| == 0 then 0
    else if s[0] == c then 0
    else
      var k := 1 + IndexOf(s[1..], c);
      assert s[..k] == [s[0]] + s[1..][..k - 1];
      k
  }

  /**
    `s.replace(c, "")` with a one-character string pattern: only the first
    occurrence, wherever it is, is removed.
   */
  function RemoveFirst(s: string, c: char): (r: string)
    ensures c !in s ==> r == s
    ensures c in s ==> |r| == |s| - 1
    ensures c in s ==>
      exists k :: 0 <= k < |s| && s[k] == c && c !in s[..k] && r == s[..k] + s[k + 1..]
  {
    var k := IndexOf(s, c);
    if k == |s| then
      assert s[..k] == s;
      s
    else
      s[..k] + s[k + 1..]
  }

  /** The handle a subject is compared by: `usuario.replace("@", "").toLowerCase()`. */
  function NormalizeHandle(u: string): (r: string)
    ensures '@' !in u ==> r == Lower(u)
    ensures '@' in u ==> |r| == |u| - 1
    ensures '@' in u ==>
      exists k :: 0 <= k < |u| && u[k] == '@' && '@' !in u[..k] && r == Lower(u[..k] + u[k + 1..])
  {
    Lower(RemoveFirst(u, '@'))
  }

  /** A leading "@" does not change the handle a subject is compared by. */
  lemma {:induction false} LeadingAtIgnored(u: string)
    requires '@' !in u
    ensures NormalizeHandle("@" + u) == NormalizeHandle(u)
  {
    assert IndexOf("@" + u, '@') == 0;
    assert ("@" + u)[1..] == u;
  }

  /** Lower-casing keeps the position of every "@". */
  lemma {:induction false} IndexOfAtUnderLower(s: string)
    ensures IndexOf(Lower(s), '@') == IndexOf(s, '@')
  {
  }

  /** Removing the first "@" commutes with lower-casing. */
  lemma {:induction false} RemoveFirstAtCommutesWithLower(s: string)
    ensures RemoveFirst(Lower(s), '@') == Lower(RemoveFirst(s, '@'))
  {
    IndexOfAtUnderLower(s);
    var k := IndexOf(s, '@');
    if k < |s| {
      assert Lower(s)[..k] + Lower(s)[k + 1..] == Lower(s[..k] + s[k + 1..]);
    } else {
      assert s[..k] == s;
      assert Lower(s)[..k] == Lower(s);
    }
  }

  /** Handles differing only in letter case are compared identically. */
  lemma {:induction false} CaseIgnored(u: string, v: string)
    requires Lower(u) == Lower(v)
    ensures NormalizeHandle(u) == NormalizeHandle(v)
  {
    RemoveFirstAtCommutesWithLower(u);
    RemoveFirstAtCommutesWithLower(v);
  }
}
