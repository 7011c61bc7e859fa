/** Turning a login name such as "jane.doe" into the display name "Jane Doe", as the
    form page and the dashboard both do with their own copy of formatUsernameToName. */
module Usernames {
  import opened Strings

  /** A part with its first character upper-cased and the rest lower-cased. */
  function Capitalize(part: string): (r: string)
    ensures |r| == |part|
  {
    if part == [] then [] else [Upper(part[0])] + ToLower(part[1..])
  }

  function CapitalizeAll(parts: seq<string>): (r: seq<string>)
    ensures |r| == |parts|
    ensures forall k :: 0 <= k < |parts| ==> r[k] == Capitalize(parts[k])
  {
    seq(|parts|, k requires 0 <= k < |parts| => Capitalize(parts[k]))
  }

  /** The '.'-separated parts, each capitalised, joined with single spaces. The result
      has one character per character of the username: each '.' becomes a space, the
      first character of each part is upper-cased and the others lower-cased; an empty
      username gives the empty name. */
  function FormatUsernameToName(username: string): (r: string)
    ensures |r| == |username|
    ensures forall i :: 0 <= i < |username| ==> r[i] == NameCharAt(username, i, true)
  {
    NameCharsPointwise(username, true);
    if username == [] then []
    else
      CapitalizedSplitIsNameChars(username, true);
      Join(CapitalizeAll(Split(username, '.')), " ")
  }

  /** The same text character by character: a '.' becomes a space, a character that
      starts a part (the first one, or one after a '.') is upper-cased, every other
      character is lower-cased. atStart says whether s begins a part. */
  function NameChars(s: string, atStart: bool): string {
    if s == [] then []
    else if s[0] == '.' then " " + NameChars(s[1..], true)
    else [if atStart then Upper(s[0]) else Lower(s[0])] + NameChars(s[1..], false)
  }

  /** The character a position of the username turns into. */
  function NameCharAt(s: string, i: int, atStart: bool): char
    requires 0 <= i < |s|
  {
    if s[i] == '.' then ' '
    else if (if i == 0 then atStart else s[i - 1] == '.') then Upper(s[i])
    else Lower(s[i])
  }

  /** The capitalised parts of s joined, and the same with the first part only
      lower-cased (the rest of a part whose first character has been dealt with). */
  function Joined(parts: seq<string>, atStart: bool): string
    requires |parts| >= 1
  {
    if atStart then Join(CapitalizeAll(parts), " ")
    else Join([ToLower(parts[0])] + CapitalizeAll(parts[1..]), " ")
  }

  lemma {:induction false} CapitalizedSplitIsNameChars(s: string, atStart: bool)
    ensures Joined(Split(s, '.'), atStart) == NameChars(s, atStart)
  {
    if s != [] {
      var rest := Split(s[1..], '.');
      if s[0] == '.' {
        CapitalizedSplitIsNameChars(s[1..], true);
        DotStep(rest, atStart);
      } else {
        CapitalizedSplitIsNameChars(s[1..], false);
        CharStep(s[0], rest, atStart);
      }
    }
  }

  /** A '.' ends a part: an empty part, then a space, then the remaining parts. */
  lemma DotStep(rest: seq<string>, atStart: bool)
    requires |rest| >= 1
    ensures Joined([[]] + rest, atStart) == " " + Joined(rest, true)
  {
    var capRest := CapitalizeAll(rest);
    assert CapitalizeAll([[]] + rest) == [[]] + capRest;
    assert ([[]] + capRest)[1..] == capRest;
    assert ([[]] + rest)[1..] == rest;
    assert ToLower([]) == [];
  }

  /** Any other character extends the current part. */
  lemma CharStep(c: char, rest: seq<string>, atStart: bool)
    requires |rest| >= 1 && c != '.'
    ensures Joined([[c] + rest[0]] + rest[1..], atStart)
      == [if atStart then Upper(c) else Lower(c)] + Joined(rest, false)
  {
    var parts := [[c] + rest[0]] + rest[1..];
    var lowRest := ToLower(rest[0]);
    var tail := CapitalizeAll(rest[1..]);
    assert parts[0] == [c] + rest[0] && parts[1..] == rest[1..];
    assert Joined(rest, false) == Join([lowRest] + tail, " ");
    if atStart {
      assert Capitalize(parts[0]) == [Upper(c)] + lowRest by {
        assert parts[0][1..] == rest[0];
      }
      assert CapitalizeAll(parts) == [[Upper(c)] + lowRest] + tail;
      JoinConsHead([Upper(c)], lowRest, tail, " ");
    } else {
      ToLowerAppend([c], rest[0]);
      assert ToLower(parts[0]) == [Lower(c)] + lowRest;
      JoinConsHead([Lower(c)], lowRest, tail, " ");
    }
  }

  lemma {:induction false} NameCharsPointwise(s: string, atStart: bool)
    ensures |NameChars(s, atStart)| == |s|
    ensures forall i :: 0 <= i < |s| ==> NameChars(s, atStart)[i] == NameCharAt(s, i, atStart)
  {
    if s != [] {
      var next := s[0] == '.';
      NameCharsPointwise(s[1..], next);
      forall i | 1 <= i < |s|
        ensures NameChars(s, atStart)[i] == NameCharAt(s, i, atStart)
      {
        assert NameChars(s, atStart)[i] == NameChars(s[1..], next)[i - 1];
        assert NameCharAt(s[1..], i - 1, next) == NameCharAt(s, i, atStart);
      }
    }
  }

  /** A username without a '.' is one capitalised word. */
  lemma SinglePartName(username: string)
    requires username != [] && '.' !in username
    ensures FormatUsernameToName(username) == [Upper(username[0])] + ToLower(username[1..])
  {
    SplitWithoutSeparator(username, '.');
  }

  /** An example: "JANE.DOE" becomes "Jane Doe". */
  lemma FormatExample()
    ensures FormatUsernameToName("JANE.DOE") == "Jane Doe"
  {
    assert NameCharAt("JANE.DOE", 4, true) == ' ';
  }
}
