/** Character classes of Python 2 byte-string regular expressions, and the
    greedy runs of word characters that `\w+` consumes. */
module Words {

  /** `\w` on a Python 2 byte string compiled without LOCALE or UNICODE:
      exactly `[A-Za-z0-9_]`. */
  predicate IsWordChar(c: char) {
    ('a' <= c <= 'z') || ('A' <= c <= 'Z') || ('0' <= c <= '9') || c == '_'
  }

  /** Every character of `s` is a word character (what `\w*` can match). */
  predicate AllWordChars(s: string) {
    forall i :: 0 <= i < |s| ==> IsWordChar(s[i])
  }

  /** A text that `\w+` can match in full: non-empty word characters. */
  predicate IsIdent(s: string) {
    |s| > 0 && AllWordChars(s)
  }

  /** Length of the longest prefix of `s` made of word characters: how far a
      greedy `\w+` runs from the start of `s`. */
  function WordRunLength(s: string): (n: nat)
    ensures n <= |s|
    ensures forall i :: 0 <= i < n ==> IsWordChar(s[i])
    ensures n == |s| || !IsWordChar(s[n])
  {
    if |s| == 0 || !IsWordChar(s[0]) then 0 else 1 + WordRunLength(s[1..])
  }

  /** Length of the longest suffix of `s` made of word characters. */
  function TrailingWordRunLength(s: string): (n: nat)
    ensures n <= |s|
    ensures AllWordChars(s[|s| - n..])
    ensures n == |s| || !IsWordChar(s[|s| - n - 1])
  {
    if |s| == 0 || !IsWordChar(s[|s| - 1]) then 0
    else 1 + TrailingWordRunLength(s[..|s| - 1])
  }

  /** A word followed by a non-word character (or by nothing) is exactly the
      greedy run: `\w+` stops at the first character that is not `\w`. */
  lemma {:induction false} WordRunOfWordThen(w: string, t: string)
    requires AllWordChars(w)
    requires |t| == 0 || !IsWordChar(t[0])
    ensures WordRunLength(w + t) == |w|
  {
    var s := w + t;
    if |t| > 0 {
      assert s[|w|] == t[0];
    }
  }

  /** The trailing counterpart of `WordRunOfWordThen`. */
  lemma {:induction false} TrailingWordRunOfThenWord(t: string, w: string)
    requires AllWordChars(w)
    requires |t| == 0 || !IsWordChar(t[|t| - 1])
    ensures TrailingWordRunLength(t + w) == |w|
  {
    var s := t + w;
    if |t| > 0 {
      assert s[|t| - 1] == t[|t| - 1];
    }
  }
}
