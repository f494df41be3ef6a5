/** The flood scanners of the spam check (internal/moderation/spam.go). */
module Spam {
  import opened Redis
  import opened TextFields

  const CHAR_THRESHOLD := 5
  const WORD_THRESHOLD := 3

  ghost predicate EqualFrom<T>(s: seq<T>, i: nat, k: nat)
    requires i + k <= |s|
  {
    forall j, l :: i <= j < l < i + k ==> s[j] == s[l]
  }

  /** k equal elements in a row. */
  ghost predicate HasRun<T>(s: seq<T>, k: nat) {
    exists i: nat :: i + k <= |s| && EqualFrom(s, i, k)
  }

  /** The length of the run of equal elements that ends just before position n. */
  ghost function RunBefore<T>(s: seq<T>, n: nat): (r: nat)
    requires n <= |s|
    ensures r <= n
    ensures n > 0 ==> r > 0 && forall j :: n - r <= j < n ==> s[j] == s[n - 1]
    ensures 0 < r < n ==> s[n - r - 1] != s[n - 1]
  {
    if n == 0 then 0
    else if n >= 2 && s[n - 1] == s[n - 2] then RunBefore(s, n - 1) + 1
    else 1
  }

  lemma RunFound<T>(s: seq<T>, n: nat, k: nat)
    requires 0 < n <= |s| && RunBefore(s, n) >= k
    ensures HasRun(s, k)
  {
    assert EqualFrom(s, n - k, k);
  }

  lemma NoRun<T>(s: seq<T>, k: nat)
    requires k > 0 && forall n :: 0 < n <= |s| ==> RunBefore(s, n) < k
    ensures !HasRun(s, k)
  {
    forall i: nat | i + k <= |s| ensures !EqualFrom(s, i, k) {
      var r := RunBefore(s, i + k);
      assert s[i + k - r - 1] != s[i + k - 1];
    }
  }

  method HasCharFlood(text: string) returns (flood: bool)
    ensures flood <==> HasRun(text, 5)
  {
    var count := 1;
    var prev: Option<char> := None;
    for i := 0 to |text|
      invariant i == 0 ==> prev == None
      invariant i > 0 ==> prev == Some(text[i - 1]) && count == RunBefore(text, i)
      invariant forall n :: 0 < n <= i ==> RunBefore(text, n) < CHAR_THRESHOLD
    {
      if Some(text[i]) == prev {
        count := count + 1;
        if count >= CHAR_THRESHOLD {
          RunFound(text, i + 1, CHAR_THRESHOLD);
          return true;
        }
      } else {
        count := 1;
        prev := Some(text[i]);
      }
    }
    NoRun(text, CHAR_THRESHOLD);
    return false;
  }

  function Lower(w: string, lowerChar: char -> char): (r: string)
    ensures |r| == |w| && forall i :: 0 <= i < |w| ==> r[i] == lowerChar(w[i])
  {
    seq(|w|, i requires 0 <= i < |w| => lowerChar(w[i]))
  }

  /** The whitespace-delimited words of a text, ignoring case. */
  function LowerWords(text: string, isSpace: CharClass, lowerChar: char -> char): seq<string> {
    var words := Fields(text, isSpace);
    seq(|words|, i requires 0 <= i < |words| => Lower(words[i], lowerChar))
  }

  ghost predicate SameIgnoringCase(u: string, v: string, lowerChar: char -> char) {
    |u| == |v| && forall k :: 0 <= k < |u| ==> lowerChar(u[k]) == lowerChar(v[k])
  }

  /** Three words in a row that differ in nothing but case. */
  ghost predicate ThriceFrom(words: seq<string>, lowerChar: char -> char, i: nat)
    requires i + 3 <= |words|
  {
    SameIgnoringCase(words[i], words[i + 1], lowerChar) && SameIgnoringCase(words[i + 1], words[i + 2], lowerChar)
  }

  ghost predicate Thrice(words: seq<string>, lowerChar: char -> char) {
    exists i: nat :: i + 3 <= |words| && ThriceFrom(words, lowerChar, i)
  }

  lemma SameLowered(u: string, v: string, lowerChar: char -> char)
    ensures Lower(u, lowerChar) == Lower(v, lowerChar) <==> SameIgnoringCase(u, v, lowerChar)
  {
    var a, b := Lower(u, lowerChar), Lower(v, lowerChar);
    if a == b {
      forall k | 0 <= k < |u| ensures lowerChar(u[k]) == lowerChar(v[k]) {
        assert a[k] == b[k];
      }
    }
  }

  lemma RunOfThree(text: string, isSpace: CharClass, lowerChar: char -> char)
    ensures HasRun(LowerWords(text, isSpace, lowerChar), 3) <==> Thrice(Fields(text, isSpace), lowerChar)
  {
    var words, lowered := Fields(text, isSpace), LowerWords(text, isSpace, lowerChar);
    hide Fields;
    forall i: nat | i + 3 <= |words| ensures EqualFrom(lowered, i, 3) <==> ThriceFrom(words, lowerChar, i) {
      SameLowered(words[i], words[i + 1], lowerChar);
      SameLowered(words[i + 1], words[i + 2], lowerChar);
      assert lowered[i] == Lower(words[i], lowerChar) && lowered[i + 1] == Lower(words[i + 1], lowerChar);
      assert lowered[i + 2] == Lower(words[i + 2], lowerChar);
    }
  }

  /** The scan of the words, lowered one by one. */
  method ScanWords(words: seq<string>, lowerChar: char -> char, ghost lowered: seq<string>) returns (flood: bool)
    requires |lowered| == |words| && forall i :: 0 <= i < |words| ==> lowered[i] == Lower(words[i], lowerChar) != ""
    ensures flood <==> HasRun(lowered, 3)
  {
    hide Lower;
    var count := 1;
    var prev := "";
    for i := 0 to |words|
      invariant i == 0 ==> prev == ""
      invariant i > 0 ==> prev == lowered[i - 1] && count == RunBefore(lowered, i)
      invariant forall n :: 0 < n <= i ==> RunBefore(lowered, n) < WORD_THRESHOLD
    {
      var lower := Lower(words[i], lowerChar);
      if lower == prev {
        count := count + 1;
        if count >= WORD_THRESHOLD {
          RunFound(lowered, i + 1, WORD_THRESHOLD);
          return true;
        }
      } else {
        count := 1;
        prev := lower;
      }
    }
    NoRun(lowered, WORD_THRESHOLD);
    return false;
  }

  method HasWordFlood(text: string, isSpace: CharClass, lowerChar: char -> char) returns (flood: bool)
    ensures flood <==> Thrice(Fields(text, isSpace), lowerChar)
  {
    hide Fields;
    var words := Fields(text, isSpace);
    if |words| < WORD_THRESHOLD {
      return false;
    }
    RunOfThree(text, isSpace, lowerChar);
    assert forall i :: 0 <= i < |words| ==> words[i] in words;
    flood := ScanWords(words, lowerChar, LowerWords(text, isSpace, lowerChar));
  }
}
