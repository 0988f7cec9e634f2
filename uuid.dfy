/** The dual-key identifier policy shared by the three `...ByIdOrName`
    handlers: an identifier shaped like a UUID is looked up by id, anything
    else by exact name. The shape is the anchored, case-insensitive pattern
    of five runs of hexadecimal digits, of lengths 8, 4, 4, 4 and 12,
    separated by hyphens. */
module Uuid {

  /** The run lengths of the pattern, in order. */
  const Groups: seq<nat> := [8, 4, 4, 4, 12]

  /** `[0-9a-f]` under the case-insensitive flag. */
  predicate IsHexDigit(c: char) {
    '0' <= c <= '9' || 'a' <= c <= 'f' || 'A' <= c <= 'F'
  }

  predicate HexRun(s: string) {
    forall i :: 0 <= i < |s| ==> IsHexDigit(s[i])
  }

  /** The whole of `s` is hexadecimal runs of the given lengths joined by
      single hyphens, read left to right as the pattern is. */
  predicate MatchesGroups(s: string, groups: seq<nat>)
    requires groups != []
    decreases |groups|
  {
    var n := groups[0];
    n <= |s| && HexRun(s[..n]) &&
    if |groups| == 1 then |s| == n
    else n < |s| && s[n] == '-' && MatchesGroups(s[n + 1..], groups[1..])
  }

  /** The regular-expression test the handlers run on the identifier. */
  predicate IsUuid(s: string) {
    MatchesGroups(s, Groups)
  }

  /** Which column a lookup compares the identifier with. */
  datatype Key = ById(id: string) | ByName(name: string)

  function Classify(identifier: string): (k: Key)
    ensures k == ById(identifier) <==> IsUuid(identifier)
    ensures k == ByName(identifier) <==> !IsUuid(identifier)
  {
    if IsUuid(identifier) then ById(identifier) else ByName(identifier)
  }

  /** The positions at which a UUID carries its hyphens. */
  predicate HyphenPosition(i: int) {
    i == 8 || i == 13 || i == 18 || i == 23
  }

  /** The pattern, unrolled into its five runs and four separators. */
  lemma Unrolled(s: string)
    ensures IsUuid(s) <==>
      && |s| == 36
      && HexRun(s[..8]) && s[8] == '-'
      && HexRun(s[9..13]) && s[13] == '-'
      && HexRun(s[14..18]) && s[18] == '-'
      && HexRun(s[19..23]) && s[23] == '-'
      && HexRun(s[24..])
  {
    assert Groups[1..] == [4, 4, 4, 12];
    assert Groups[1..][1..] == [4, 4, 12];
    assert Groups[1..][1..][1..] == [4, 12];
    assert Groups[1..][1..][1..][1..] == [12];
    if 24 <= |s| {
      assert s[9..][..4] == s[9..13];
      assert s[9..][5..] == s[14..];
      assert s[14..][..4] == s[14..18];
      assert s[14..][5..] == s[19..];
      assert s[19..][..4] == s[19..23];
      assert s[19..][5..] == s[24..];
    }
  }

  /** An identifier is classified as an id exactly when it has 36
      characters, a hyphen at positions 8, 13, 18 and 23, and a hexadecimal
      digit of either case everywhere else. */
  lemma UuidShape(s: string)
    ensures IsUuid(s) <==>
      |s| == 36 &&
      forall i :: 0 <= i < 36 ==> if HyphenPosition(i) then s[i] == '-' else IsHexDigit(s[i])
  {
    Unrolled(s);
    if |s| == 36 {
      if forall i :: 0 <= i < 36 ==> if HyphenPosition(i) then s[i] == '-' else IsHexDigit(s[i]) {
        assert HexRun(s[..8]) by {
          forall k | 0 <= k < 8 ensures IsHexDigit(s[..8][k]) { assert !HyphenPosition(k); }
        }
        assert HexRun(s[9..13]) by {
          forall k | 0 <= k < 4 ensures IsHexDigit(s[9..13][k]) { assert !HyphenPosition(9 + k); }
        }
        assert HexRun(s[14..18]) by {
          forall k | 0 <= k < 4 ensures IsHexDigit(s[14..18][k]) { assert !HyphenPosition(14 + k); }
        }
        assert HexRun(s[19..23]) by {
          forall k | 0 <= k < 4 ensures IsHexDigit(s[19..23][k]) { assert !HyphenPosition(19 + k); }
        }
        assert HexRun(s[24..]) by {
          forall k | 0 <= k < 12 ensures IsHexDigit(s[24..][k]) { assert !HyphenPosition(24 + k); }
        }
      }
      if IsUuid(s) {
        forall i | 0 <= i < 36
          ensures if HyphenPosition(i) then s[i] == '-' else IsHexDigit(s[i])
        {
          if i < 8 { assert s[..8][i] == s[i]; }
          else if 9 <= i < 13 { assert s[9..13][i - 9] == s[i]; }
          else if 14 <= i < 18 { assert s[14..18][i - 14] == s[i]; }
          else if 19 <= i < 23 { assert s[19..23][i - 19] == s[i]; }
          else if 24 <= i { assert s[24..][i - 24] == s[i]; }
        }
      }
    }
  }

  /** A name of any length other than 36, such as a typical menu name, is
      always looked up by name. */
  lemma ShortNamesAreNames(s: string)
    requires |s| != 36
    ensures Classify(s) == ByName(s)
  {
    Unrolled(s);
  }
}
