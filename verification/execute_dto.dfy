/**
 * Validation of the execute request body: every field must be non-empty and
 * the destination must match `0x` followed by exactly forty hex digits, with
 * the pattern anchored at both ends.
 */
module ExecuteDto {
  import opened Domain

  predicate IsHexDigit(c: char) {
    '0' <= c <= '9' || 'a' <= c <= 'f' || 'A' <= c <= 'F'
  }

  /** The accepted shape, stated declaratively: a literal `0x` prefix and forty hex digits. */
  ghost predicate AddressShape(s: string) {
    && |s| == 42
    && s[..2] == "0x"
    && forall c :: c in s[2..] ==> IsHexDigit(c)
  }

  /** Whether every character of `s` from position `i` on is a hex digit. */
  function HexFrom(s: string, i: nat): (ok: bool)
    requires i <= |s|
    ensures ok <==> forall j :: i <= j < |s| ==> IsHexDigit(s[j])
    decreases |s| - i
  {
    i == |s| || (IsHexDigit(s[i]) && HexFrom(s, i + 1))
  }

  /** The address pattern as an executable matcher. */
  function MatchesAddressPattern(s: string): (ok: bool)
    ensures ok <==> AddressShape(s)
  {
    var ok := |s| == 42 && s[0] == '0' && s[1] == 'x' && HexFrom(s, 2);
    assert ok ==> s[..2] == "0x";
    assert |s| >= 2 && s[..2] == "0x" ==> s[0] == '0' && s[1] == 'x';
    assert |s| >= 2 ==> forall c :: c in s[2..] <==> exists j :: 2 <= j < |s| && s[j] == c;
    ok
  }

  /** The violations the body validator reports; it collects all of them, not just the first. */
  function Violations(userId: string, to: string, amount: string): (v: set<Violation>)
    ensures EmptyUserId in v <==> userId == ""
    ensures EmptyTo in v <==> to == ""
    ensures MalformedTo in v <==> !AddressShape(to)
    ensures EmptyAmount in v <==> amount == ""
    ensures v == {} <==> userId != "" && amount != "" && AddressShape(to)
  {
    (if userId == "" then {EmptyUserId} else {})
    + (if to == "" then {EmptyTo} else {})
    + (if MatchesAddressPattern(to) then {} else {MalformedTo})
    + (if amount == "" then {EmptyAmount} else {})
  }

  /** Swaps the case of an ASCII letter; leaves every other character alone. */
  function ToggleCase(c: char): char {
    if 'a' <= c <= 'z' then (c as int - 32) as char
    else if 'A' <= c <= 'Z' then (c as int + 32) as char
    else c
  }

  lemma ToggleCasePreservesHex(c: char)
    ensures IsHexDigit(ToggleCase(c)) <==> IsHexDigit(c)
  {
  }

  /** Changing the case of one digit of the hex part never changes acceptance. */
  lemma HexCaseInsensitive(s: string, i: nat)
    requires 2 <= i < |s|
    ensures MatchesAddressPattern(s[i := ToggleCase(s[i])]) == MatchesAddressPattern(s)
  {
    var t := s[i := ToggleCase(s[i])];
    ToggleCasePreservesHex(s[i]);
    assert HexFrom(t, 2) == HexFrom(s, 2) by {
      assert forall j :: 2 <= j < |s| ==> (IsHexDigit(t[j]) <==> IsHexDigit(s[j]));
    }
  }

  /** Toggles the case of every character from position `i` on. */
  function ToggleFrom(s: string, i: nat): (t: string)
    requires i <= |s|
    ensures |t| == |s|
    ensures t[..i] == s[..i]
    ensures forall j :: i <= j < |s| ==> t[j] == ToggleCase(s[j])
  {
    s[..i] + seq(|s| - i, k requires 0 <= k < |s| - i => ToggleCase(s[i + k]))
  }

  /** Changing the case of the whole hex part at once never changes acceptance. */
  lemma WholeHexCaseInsensitive(s: string)
    requires |s| >= 2
    ensures MatchesAddressPattern(ToggleFrom(s, 2)) == MatchesAddressPattern(s)
  {
  }

  /** The `0x` prefix is case-sensitive: an upper-case `X` is rejected. */
  lemma UpperCasePrefixRejected(s: string)
    requires |s| >= 2 && s[1] == 'X'
    ensures !MatchesAddressPattern(s)
  {
  }

  /** An empty destination violates both the non-empty check and the pattern. */
  lemma EmptyDestinationDoublyRejected(userId: string, amount: string)
    ensures EmptyTo in Violations(userId, "", amount)
    ensures MalformedTo in Violations(userId, "", amount)
  {
  }
}
