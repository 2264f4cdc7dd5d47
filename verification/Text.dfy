/** The part of Go's `strings` package that decides what is stored as a message body. */
module Text {

  /** `unicode.IsSpace`: the White_Space code points. */
  predicate IsSpace(c: char) {
    var n := c as int;
    || 9 <= n <= 13 || n == 32 || n == 0x85 || n == 0xA0
    || n == 0x1680 || 0x2000 <= n <= 0x200A
    || n == 0x2028 || n == 0x2029 || n == 0x202F || n == 0x205F || n == 0x3000
  }

  /** The white space code points, one by one. */
  const WHITE_SPACE: set<char> := {
    '\t', '\n', '\U{0B}', '\U{0C}', '\r', ' ', '\U{85}', '\U{A0}', '\U{1680}',
    '\U{2000}', '\U{2001}', '\U{2002}', '\U{2003}', '\U{2004}', '\U{2005}', '\U{2006}', '\U{2007}',
    '\U{2008}', '\U{2009}', '\U{200A}', '\U{2028}', '\U{2029}', '\U{202F}', '\U{205F}', '\U{3000}'
  }

  lemma WhiteSpaceIs(c: char)
    ensures IsSpace(c) <==> c in WHITE_SPACE
  {
  }

  /** Where the trimmed text sits inside the original one. */
  ghost predicate IsTrimOf(t: string, s: string, lead: nat) {
    && lead + |t| <= |s|
    && t == s[lead..lead + |t|]
    && (forall i :: 0 <= i < lead ==> IsSpace(s[i]))
    && (forall i :: lead + |t| <= i < |s| ==> IsSpace(s[i]))
    && (t != [] ==> !IsSpace(t[0]) && !IsSpace(t[|t| - 1]))
  }

  function TrimLeft(s: string): string {
    if s != [] && IsSpace(s[0]) then TrimLeft(s[1..]) else s
  }

  function TrimRight(s: string): string {
    if s != [] && IsSpace(s[|s| - 1]) then TrimRight(s[..|s| - 1]) else s
  }

  /** `strings.TrimSpace`. */
  function TrimSpace(s: string): string {
    TrimRight(TrimLeft(s))
  }

  lemma {:induction false} TrimLeftTrims(s: string)
    ensures var t := TrimLeft(s);
      && |t| <= |s| && t == s[|s| - |t|..]
      && (forall i :: 0 <= i < |s| - |t| ==> IsSpace(s[i]))
      && (t != [] ==> !IsSpace(t[0]))
  {
    if s != [] && IsSpace(s[0]) {
      TrimLeftTrims(s[1..]);
      assert forall i :: 0 < i < |s| ==> s[i] == s[1..][i - 1];
    }
  }

  lemma {:induction false} TrimRightTrims(s: string)
    ensures var t := TrimRight(s);
      && |t| <= |s| && t == s[..|t|]
      && (forall i :: |t| <= i < |s| ==> IsSpace(s[i]))
      && (t != [] ==> !IsSpace(t[|t| - 1]))
  {
    if s != [] && IsSpace(s[|s| - 1]) { TrimRightTrims(s[..|s| - 1]); }
  }

  /** Only white space is cut off, and none is left at either end. */
  lemma TrimSpaceTrims(s: string)
    ensures exists lead: nat :: IsTrimOf(TrimSpace(s), s, lead)
  {
    TrimLeftTrims(s);
    TrimRightTrims(TrimLeft(s));
    var lead: nat := |s| - |TrimLeft(s)|;
    assert IsTrimOf(TrimSpace(s), s, lead);
  }

  /** There is only one way to trim a text. */
  lemma TrimIsUnique(s: string, t: string, lead: nat)
    requires IsTrimOf(t, s, lead)
    ensures t == TrimSpace(s)
  {
    var u := TrimSpace(s);
    TrimSpaceTrims(s);
    var other: nat :| IsTrimOf(u, s, other);
    TrimsAgree(s, t, lead, u, other);
  }

  lemma TrimsAgree(s: string, t: string, lead: nat, u: string, other: nat)
    requires IsTrimOf(t, s, lead) && IsTrimOf(u, s, other)
    ensures t == u
  {
    assert t != [] ==> !IsSpace(s[lead]) && !IsSpace(s[lead + |t| - 1]);
    assert u != [] ==> !IsSpace(s[other]) && !IsSpace(s[other + |u| - 1]);
  }
}
