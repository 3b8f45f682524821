/**
 * The regular expressions of the extractors, written as scanners.
 * Every pattern here is deterministic once quantifiers are greedy: a digit
 * run must be followed by a character that is not a digit, so backtracking
 * never finds a second way to match at the same position. `\d` and `\s` are
 * taken as ASCII digits and Python whitespace.
 */
module Patterns {
  import opened Wrappers
  import opened Text

  /** Length of the leading run of ASCII digits. */
  function DigitRun(s: string): (n: nat)
    ensures n <= |s|
    decreases |s|
  {
    if |s| > 0 && IsDigit(s[0]) then 1 + DigitRun(s[1..]) else 0
  }

  /** Length of the leading run of digits and dots (`[\d\.]+`). */
  function DigitDotRun(s: string): (n: nat)
    ensures n <= |s|
    decreases |s|
  {
    if |s| > 0 && (IsDigit(s[0]) || s[0] == '.') then 1 + DigitDotRun(s[1..]) else 0
  }

  /** Length of the leading run of whitespace (`\s+` taken greedily). */
  function SpaceRun(s: string): (n: nat)
    ensures n <= |s| && (n == |s| || !IsSpace(s[n]))
    decreases |s|
  {
    if |s| > 0 && IsSpace(s[0]) then 1 + SpaceRun(s[1..]) else 0
  }

  /** Length of the text `\d+(\.\d+){dots}` matches at the start of `s`, if it matches. */
  function DottedDigits(s: string, dots: nat): (r: Option<nat>)
    ensures r.Some? ==> 0 < r.value <= |s|
    decreases dots
  {
    var n := DigitRun(s);
    if n == 0 then None
    else if dots == 0 then Some(n)
    else if n < |s| && s[n] == '.' then
      match DottedDigits(s[n + 1..], dots - 1)
      case None => None
      case Some(m) => Some(n + 1 + m)
    else None
  }

  /** `re.match(r'^\d+\.\d+\.\d+\.\d+', s)` succeeds: `s` opens with a dotted quad. */
  predicate StartsWithQuad(s: string) {
    DottedDigits(s, 3).Some?
  }

  /** Length of the text `\d+\.\d+\.\d+\.\d+/\d+` matches at the start of `s`, if it matches. */
  function CidrAt(s: string): (r: Option<nat>)
    ensures r.Some? ==> 0 < r.value <= |s|
  {
    match DottedDigits(s, 3)
    case None => None
    case Some(n) =>
      if n < |s| && s[n] == '/' && DigitRun(s[n + 1..]) > 0 then Some(n + 1 + DigitRun(s[n + 1..]))
      else None
  }

  /** `re.search(r'(\d+\.\d+\.\d+\.\d+/\d+)', s).group(1)`, or `None` when nothing matches. */
  function FirstCidr(s: string): Option<string>
    decreases |s|
  {
    if s == [] then None
    else
      match CidrAt(s)
      case Some(n) => Some(s[..n])
      case None => FirstCidr(s[1..])
  }

  /** A position of `s` where the CIDR pattern matches. */
  predicate CidrStartsAt(s: string, i: int) {
    0 <= i < |s| && CidrAt(s[i..]).Some?
  }

  /**
   * The search fails exactly when no position matches, and otherwise returns
   * the text matched at the leftmost matching position.
   */
  lemma {:induction false} FirstCidrLeftmost(s: string)
    ensures FirstCidr(s).None? <==> forall i :: 0 <= i < |s| ==> !CidrStartsAt(s, i)
    ensures FirstCidr(s).Some? ==>
      exists i :: CidrStartsAt(s, i) && FirstCidr(s).value == s[i..][..CidrAt(s[i..]).value]
              && forall j :: 0 <= j < i ==> !CidrStartsAt(s, j)
    decreases |s|
  {
    if s != [] {
      assert s[0..] == s;
      if CidrAt(s).None? {
        FirstCidrLeftmost(s[1..]);
        forall i | 1 <= i < |s|
          ensures s[i..] == s[1..][i - 1..]
        {
        }
        if FirstCidr(s[1..]).Some? {
          var i :| CidrStartsAt(s[1..], i) && FirstCidr(s[1..]).value == s[1..][i..][..CidrAt(s[1..][i..]).value]
                   && forall j :: 0 <= j < i ==> !CidrStartsAt(s[1..], j);
          assert CidrStartsAt(s, i + 1);
          forall j | 0 <= j < i + 1
            ensures !CidrStartsAt(s, j)
          {
            if j > 0 {
              assert !CidrStartsAt(s[1..], j - 1);
            }
          }
        } else {
          forall i | 0 <= i < |s|
            ensures !CidrStartsAt(s, i)
          {
            if i > 0 {
              assert !CidrStartsAt(s[1..], i - 1);
            }
          }
        }
      } else {
        assert CidrStartsAt(s, 0);
      }
    }
  }

  /** Group 1 of `VRF\s+(\S+)` when the pattern matches at the start of `s`. */
  function VrfWordAt(s: string): (r: Option<string>)
    ensures r.Some? ==> r.value != [] && NoSpace(r.value)
  {
    if StartsWith(s, "VRF") then
      var t := s[3..];
      var n := SpaceRun(t);
      if 0 < n < |t| then Some(t[n..][..TokenLen(t[n..])]) else None
    else None
  }

  /** `re.search(r'VRF\s+(\S+)', s).group(1)`: a non-empty name without spaces, or `None`. */
  function VrfWord(s: string): (r: Option<string>)
    ensures r.Some? ==> r.value != [] && NoSpace(r.value)
    decreases |s|
  {
    if s == [] then None
    else
      match VrfWordAt(s)
      case Some(w) => Some(w)
      case None => VrfWord(s[1..])
  }

  /** A position of `s` where `VRF\s+(\S+)` matches. */
  predicate VrfWordStartsAt(s: string, i: int) {
    0 <= i < |s| && VrfWordAt(s[i..]).Some?
  }

  /**
   * The search fails exactly when no position matches, and otherwise returns
   * group 1 of the match at the leftmost matching position.
   */
  lemma {:induction false} VrfWordLeftmost(s: string)
    ensures VrfWord(s).None? <==> forall i :: 0 <= i < |s| ==> !VrfWordStartsAt(s, i)
    ensures VrfWord(s).Some? ==>
      exists i :: VrfWordStartsAt(s, i) && VrfWord(s) == VrfWordAt(s[i..])
              && forall j :: 0 <= j < i ==> !VrfWordStartsAt(s, j)
    decreases |s|
  {
    if s != [] {
      assert s[0..] == s;
      if VrfWordAt(s).None? {
        VrfWordShift(s);
        VrfWordLeftmost(s[1..]);
        if VrfWord(s[1..]).Some? {
          var i :| VrfWordStartsAt(s[1..], i) && VrfWord(s[1..]) == VrfWordAt(s[1..][i..])
                   && forall j :: 0 <= j < i ==> !VrfWordStartsAt(s[1..], j);
          assert VrfWordStartsAt(s, i + 1);
        }
      } else {
        assert VrfWordStartsAt(s, 0);
      }
    }
  }

  /** When no match starts at position 0, the matches of `s` are those of `s[1..]`, one position later. */
  lemma VrfWordShift(s: string)
    requires s != [] && VrfWordAt(s).None?
    ensures forall i :: 1 <= i < |s| ==> VrfWordAt(s[i..]) == VrfWordAt(s[1..][i - 1..])
    ensures forall i :: 0 <= i < |s| ==> (VrfWordStartsAt(s, i) <==> 1 <= i && VrfWordStartsAt(s[1..], i - 1))
  {
    assert s[0..] == s;
    forall i | 1 <= i < |s|
      ensures s[i..] == s[1..][i - 1..]
    {
    }
  }

  /** Group 1 of `version\s+([\d\.]+\(\d+\))` (ignoring case) when it matches at the start of `s`. */
  function VersionAt(s: string): Option<string> {
    if |s| >= 7 && Lower(s[..7]) == "version" then
      var t := s[7..];
      var sp := SpaceRun(t);
      var u := t[sp..];
      var a := DigitDotRun(u);
      if sp == 0 || a == 0 || a >= |u| || u[a] != '(' then None
      else
        var d := DigitRun(u[a + 1..]);
        if d == 0 || a + 1 + d >= |u| || u[a + 1 + d] != ')' then None
        else Some(u[..a + 2 + d])
    else None
  }

  /** `re.search(r'version\s+([\d\.]+\(\d+\))', s, re.IGNORECASE).group(1)`, or `None`. */
  function FirstVersion(s: string): Option<string>
    decreases |s|
  {
    if s == [] then None
    else
      match VersionAt(s)
      case Some(v) => Some(v)
      case None => FirstVersion(s[1..])
  }
}
