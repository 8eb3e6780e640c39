/** The few string operations the services use, over ASCII. */
module Text {

  predicate IsSpace(c: char) { c == ' ' || c == '\t' || c == '\n' || c == '\r' }

  predicate Blank(s: string) { forall c | c in s :: IsSpace(c) }

  /** Without white space at both ends. */
  function Strip(s: string): string {
    if s == [] then s
    else if IsSpace(s[0]) then Strip(s[1..])
    else if IsSpace(s[|s| - 1]) then Strip(s[..|s| - 1])
    else s
  }

  /** In upper case. */
  function Upper(s: string): (r: string)
    ensures |r| == |s|
  {
    if s == [] then []
    else [if 'a' <= s[0] <= 'z' then s[0] - 'a' + 'A' else s[0]] + Upper(s[1..])
  }

  /** In lower case. */
  function Lower(s: string): (r: string)
    ensures |r| == |s|
  {
    if s == [] then []
    else [if 'A' <= s[0] <= 'Z' then s[0] - 'A' + 'a' else s[0]] + Lower(s[1..])
  }

  /** Stripping takes exactly the white space at both ends. */
  lemma {:induction false} StripIs(s: string) returns (i: nat, j: nat)
    ensures i <= j <= |s| && Strip(s) == s[i..j] && Blank(s[..i]) && Blank(s[j..])
    ensures i < j ==> !IsSpace(s[i]) && !IsSpace(s[j - 1])
    decreases |s|
  {
    if s == [] {
      i, j := 0, 0;
    } else if IsSpace(s[0]) {
      var k, l := StripIs(s[1..]);
      i, j := k + 1, l + 1;
      assert s[1..][k..l] == s[i..j] && s[..i] == [s[0]] + s[1..][..k] && s[j..] == s[1..][l..];
    } else if IsSpace(s[|s| - 1]) {
      var n := |s| - 1;
      i, j := StripIs(s[..n]);
      assert s[..n][i..j] == s[i..j] && s[..n][..i] == s[..i] && s[j..] == s[..n][j..] + [s[n]];
    } else {
      i, j := 0, |s|;
      assert s[0..|s|] == s;
    }
  }

  /** Letters change case one by one; other characters stay. */
  lemma {:induction false} CaseIs(s: string, i: nat)
    requires i < |s|
    ensures Upper(s)[i] == if 'a' <= s[i] <= 'z' then s[i] - 'a' + 'A' else s[i]
    ensures Lower(s)[i] == if 'A' <= s[i] <= 'Z' then s[i] - 'A' + 'a' else s[i]
    decreases i
  {
    if i > 0 { CaseIs(s[1..], i - 1); }
  }
}
