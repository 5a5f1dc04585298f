/**
 * The few Python string operations the Django side relies on:
 * `str.strip()` (used by every `get_full_name`) and `str.split('@')[0]`
 * (the username derived from an applicant's email).
 */
module Text {

  /**
   * The characters Python's `str.isspace()` accepts, which `strip()` removes: the ASCII
   * whitespace and separators, NEL, no-break space, Ogham space mark, the spaces U+2000 to
   * U+200A, the line and paragraph separators, the narrow no-break and medium mathematical
   * spaces, and the ideographic space.
   */
  predicate IsSpace(c: char) {
    || c == ' ' || c == '\t' || c == '\n' || c == '\r' || c == '\U{000B}' || c == '\U{000C}'
    || ('\U{001C}' <= c <= '\U{001F}')
    || c == '\U{0085}' || c == '\U{00A0}' || c == '\U{1680}'
    || ('\U{2000}' <= c <= '\U{200A}')
    || c == '\U{2028}' || c == '\U{2029}' || c == '\U{202F}' || c == '\U{205F}' || c == '\U{3000}'
  }

  /** `s.lstrip()`: the longest suffix of `s` that does not start with whitespace. */
  function StripLeft(s: string): (r: string)
    ensures |r| <= |s| && r == s[|s| - |r|..]
    ensures forall i :: 0 <= i < |s| - |r| ==> IsSpace(s[i])
    ensures r == [] || !IsSpace(r[0])
  {
    if s == [] || !IsSpace(s[0]) then s else StripLeft(s[1..])
  }

  /** `s.rstrip()`: the longest prefix of `s` that does not end with whitespace. */
  function StripRight(s: string): (r: string)
    ensures |r| <= |s| && r == s[..|r|]
    ensures forall i :: |r| <= i < |s| ==> IsSpace(s[i])
    ensures r == [] || !IsSpace(r[|r| - 1])
  {
    if s == [] || !IsSpace(s[|s| - 1]) then s else StripRight(s[..|s| - 1])
  }

  /**
   * `s.strip()`: the slice of `s` left once the leading and the trailing whitespace runs are
   * removed. Everything cut off is whitespace, and the slice neither starts nor ends with it.
   */
  function Strip(s: string): (r: string)
    ensures var lead := |s| - |StripLeft(s)|;
      && lead + |r| <= |s| && r == s[lead..lead + |r|]
      && (forall k :: 0 <= k < lead ==> IsSpace(s[k]))
      && (forall k :: lead + |r| <= k < |s| ==> IsSpace(s[k]))
    ensures r == [] || (!IsSpace(r[0]) && !IsSpace(r[|r| - 1]))
  {
    var t := StripLeft(s);
    var r := StripRight(t);
    SliceOfSuffix(s, t, r);
    TailOfSuffix(s, t, r);
    r
  }

  /** A prefix `r` of a suffix `t` of `s` is the slice of `s` where `t` starts. */
  lemma SliceOfSuffix(s: string, t: string, r: string)
    requires |t| <= |s| && t == s[|s| - |t|..] && |r| <= |t| && r == t[..|r|]
    ensures r == s[|s| - |t|..|s| - |t| + |r|]
  {
  }

  /** Whitespace ending a suffix `t` of `s` ends `s` too. */
  lemma TailOfSuffix(s: string, t: string, r: string)
    requires |t| <= |s| && t == s[|s| - |t|..] && |r| <= |t| && r == t[..|r|]
    requires forall i :: |r| <= i < |t| ==> IsSpace(t[i])
    ensures forall k :: |s| - |t| + |r| <= k < |s| ==> IsSpace(s[k])
  {
    forall k | |s| - |t| + |r| <= k < |s|
      ensures IsSpace(s[k])
    {
      assert s[k] == t[k - (|s| - |t|)];
    }
  }

  /** A string that `strip()` leaves alone: non-empty, no whitespace at either end. */
  predicate Trimmed(s: string) {
    s != [] && !IsSpace(s[0]) && !IsSpace(s[|s| - 1])
  }

  /**
   * `f"{first} {last}".strip()`, the full name of users and applicants: with both parts
   * present and trimmed it is the two joined by one space, and with both empty it is empty.
   */
  lemma {:induction false} JoinedNameStrip(first: string, last: string)
    ensures Trimmed(first) && Trimmed(last) ==> Strip(first + " " + last) == first + " " + last
    ensures first == [] && last == [] ==> Strip(first + " " + last) == []
    ensures Trimmed(first) && last == [] ==> Strip(first + " " + last) == first
  {
    var s := first + " " + last;
    if Trimmed(first) {
      assert s[0] == first[0];
      assert StripLeft(s) == s;
      if Trimmed(last) {
        assert s[|s| - 1] == last[|last| - 1];
      } else if last == [] {
        assert s == first + [' '];
        assert StripRight(s) == StripRight(first);
      }
    } else if first == [] && last == [] {
      assert s == [' '];
      assert StripLeft(s) == StripLeft(s[1..]);
      assert s[1..] == [];
    }
  }

  /**
   * `s.split(c)[0]`: the text before the first `c`, or all of `s` when it has none.
   * The result is a prefix of `s`, holds no `c`, and is followed in `s` by `c` when shorter.
   */
  function PrefixBefore(s: string, c: char): (r: string)
    ensures |r| <= |s| && r == s[..|r|]
    ensures c !in r
    ensures |r| < |s| ==> s[|r|] == c
  {
    if s == [] || s[0] == c then [] else [s[0]] + PrefixBefore(s[1..], c)
  }
}
