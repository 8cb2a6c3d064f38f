/** The format gate of the amount input field: the regular expression
    `^\d*\.?\d*$` (no `u` and no `m` flag), applied to the whole text.
    `\d` is exactly the ASCII digits and `$` matches only at the end of
    the input, so a trailing newline is not accepted. */
module AmountGate {

  predicate IsDigit(c: char) {
    '0' <= c <= '9'
  }

  /** Reference reading of `\d*`: every character is an ASCII digit. */
  ghost predicate AllDigits(s: string) {
    forall k :: 0 <= k < |s| ==> IsDigit(s[k])
  }

  /** Reference reading of the whole pattern: the text splits as
      digits, then an optional single `.`, then digits. */
  ghost predicate AmountGrammar(s: string) {
    exists i, j :: 0 <= i <= j <= |s| && IsSplit(s, i, j)
  }

  ghost predicate IsSplit(s: string, i: int, j: int)
    requires 0 <= i <= j <= |s|
  {
    AllDigits(s[..i]) && (j == i || (j == i + 1 && s[i] == '.')) && AllDigits(s[j..])
  }

  /** `\d*` at the tail of the pattern, matched left to right. */
  function DigitsToEnd(s: string): (ok: bool)
    ensures ok <==> AllDigits(s)
  {
    if s == [] then true
    else IsDigit(s[0]) && DigitsToEnd(s[1..])
  }

  /** The regular expression test, as a left-to-right scan: digits of the
      integer part, then either the end of the text or one `.` followed by
      digits only. */
  function MatchesAmount(s: string): bool
  {
    if s == [] then true
    else if IsDigit(s[0]) then MatchesAmount(s[1..])
    else if s[0] == '.' then DigitsToEnd(s[1..])
    else false
  }

  /** The scan accepts exactly the texts of the grammar. */
  lemma {:induction false} MatchesAmountCorrect(s: string)
    ensures MatchesAmount(s) <==> AmountGrammar(s)
  {
    if MatchesAmount(s) {
      MatchesAmountSound(s);
    }
    if AmountGrammar(s) {
      var i, j :| 0 <= i <= j <= |s| && IsSplit(s, i, j);
      MatchesAmountComplete(s, i, j);
    }
  }

  lemma {:induction false} MatchesAmountSound(s: string)
    requires MatchesAmount(s)
    ensures AmountGrammar(s)
  {
    if s == [] {
      assert IsSplit(s, 0, 0);
    } else if IsDigit(s[0]) {
      MatchesAmountSound(s[1..]);
      var i, j :| 0 <= i <= j <= |s[1..]| && IsSplit(s[1..], i, j);
      assert s[1..][..i] == s[1..i + 1];
      assert s[1..][j..] == s[j + 1..];
      assert IsSplit(s, i + 1, j + 1);
    } else {
      assert s[0] == '.';
      assert s[1..] == s[1..][..];
      assert IsSplit(s, 0, 1);
    }
  }

  lemma {:induction false} MatchesAmountComplete(s: string, i: int, j: int)
    requires 0 <= i <= j <= |s| && IsSplit(s, i, j)
    ensures MatchesAmount(s)
  {
    if s != [] {
      if i > 0 {
        assert IsDigit(s[..i][0]);
        assert s[1..][..i - 1] == s[1..i];
        assert s[1..][j - 1..] == s[j..];
        assert IsSplit(s[1..], i - 1, j - 1);
        MatchesAmountComplete(s[1..], i - 1, j - 1);
      } else if j == 0 {
        assert IsDigit(s[j..][0]);
        assert s[1..][..0] == [];
        assert s[1..][0..] == s[1..];
        assert IsSplit(s[1..], 0, 0);
        MatchesAmountComplete(s[1..], 0, 0);
      } else {
        assert s[0] == '.' && s[1..] == s[j..];
      }
    }
  }

  /** Every accepted text is made only of digits and dots, and holds at
      most one dot: a letter, a minus sign, whitespace or a second `.`
      anywhere makes the gate reject; conversely such texts are accepted. */
  lemma {:induction false} MatchesAmountCharacters(s: string)
    ensures MatchesAmount(s) <==>
      (forall k :: 0 <= k < |s| ==> IsDigit(s[k]) || s[k] == '.') &&
      (forall a, b :: 0 <= a < b < |s| ==> !(s[a] == '.' && s[b] == '.'))
  {
    if s != [] {
      MatchesAmountCharacters(s[1..]);
      assert forall k :: 1 <= k < |s| ==> s[k] == s[1..][k - 1];
      if !IsDigit(s[0]) && s[0] == '.' {
        assert DigitsToEnd(s[1..]) <==> AllDigits(s[1..]);
      }
    }
  }

  /** Sample inputs of the input field and the gate's verdict on each. */
  lemma AmountExamples()
    ensures MatchesAmount("") && MatchesAmount("0") && MatchesAmount("12")
    ensures MatchesAmount("12.5") && MatchesAmount("0.001")
    ensures MatchesAmount(".") && MatchesAmount("5.") && MatchesAmount(".5")
    ensures !MatchesAmount("1.2.3") && !MatchesAmount("-1") && !MatchesAmount("1e5")
    ensures !MatchesAmount("abc") && !MatchesAmount(" 1") && !MatchesAmount("5\n")
  {
  }
}
