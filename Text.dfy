/**
 * String helpers shared by the three parts of the browser shell: prefix and
 * suffix tests (`startsWith`, `endsWith`), trimming by a set of whitespace
 * characters (JavaScript `trim` and Python `str.strip` differ only in that
 * set), and the decimal rendering of a number used when JavaScript
 * concatenates a status code onto a message.
 */
module Text {

  predicate StartsWith(s: string, prefix: string) {
    |prefix| <= |s| && s[..|prefix|] == prefix
  }

  predicate EndsWith(s: string, suffix: string) {
    |suffix| <= |s| && s[|s| - |suffix|..] == suffix
  }

  /** A string that neither starts nor ends with a character of `ws`. */
  predicate Trimmed(s: string, ws: set<char>) {
    s == [] || (s[0] !in ws && s[|s| - 1] !in ws)
  }

  /** Removes the longest prefix of `s` made only of characters in `ws`. */
  function TrimStart(s: string, ws: set<char>): (r: string)
    ensures |r| <= |s| && r == s[|s| - |r|..]
    ensures forall k :: 0 <= k < |s| - |r| ==> s[k] in ws
    ensures r == [] || r[0] !in ws
  {
    if |s| > 0 && s[0] in ws then TrimStart(s[1..], ws) else s
  }

  /** Removes the longest suffix of `s` made only of characters in `ws`. */
  function TrimEnd(s: string, ws: set<char>): (r: string)
    ensures |r| <= |s| && r == s[..|r|]
    ensures forall k :: |r| <= k < |s| ==> s[k] in ws
    ensures r == [] || r[|r| - 1] !in ws
  {
    if |s| > 0 && s[|s| - 1] in ws then TrimEnd(s[..|s| - 1], ws) else s
  }

  /**
   * `r` is the slice of `s` starting at `i`, and everything of `s` before
   * and after that slice is a character of `ws`.
   */
  predicate TrimmedAt(s: string, ws: set<char>, r: string, i: int) {
    0 <= i <= |s| - |r| && r == s[i..i + |r|] &&
    (forall k :: 0 <= k < i ==> s[k] in ws) &&
    (forall k :: i + |r| <= k < |s| ==> s[k] in ws)
  }

  /** Removes whitespace (the characters of `ws`) from both ends of `s`, and nothing else. */
  function Trim(s: string, ws: set<char>): (r: string)
    ensures Trimmed(r, ws)
    ensures |r| <= |s|
    ensures exists i :: TrimmedAt(s, ws, r, i)
  {
    var front := TrimStart(s, ws);
    var r := TrimEnd(front, ws);
    TrimBothEnds(s, ws, front, r);
    r
  }

  /** Removing a whitespace prefix and then a whitespace suffix leaves a slice of `s` framed by whitespace. */
  lemma TrimBothEnds(s: string, ws: set<char>, front: string, r: string)
    requires |front| <= |s| && front == s[|s| - |front|..]
    requires forall k :: 0 <= k < |s| - |front| ==> s[k] in ws
    requires front == [] || front[0] !in ws
    requires |r| <= |front| && r == front[..|r|]
    requires forall k :: |r| <= k < |front| ==> front[k] in ws
    requires r == [] || r[|r| - 1] !in ws
    ensures Trimmed(r, ws) && TrimmedAt(s, ws, r, |s| - |front|)
  {
    var i := |s| - |front|;
    assert Trimmed(r, ws) by {
      assert r != [] ==> r[0] == front[0];
    }
    assert r == s[i..i + |r|] by {
      forall k | 0 <= k < |r|
        ensures r[k] == s[i + k]
      {
        assert r[k] == front[k];
      }
    }
    assert forall k :: i + |r| <= k < |s| ==> s[k] in ws by {
      forall k | i + |r| <= k < |s|
        ensures s[k] in ws
      {
        assert s[k] == front[k - i];
      }
    }
  }

  /** Trimming a string that has no whitespace at either end changes nothing. */
  lemma {:induction false} TrimOfTrimmed(s: string, ws: set<char>)
    requires Trimmed(s, ws)
    ensures Trim(s, ws) == s
  {
    assert TrimStart(s, ws) == s;
    assert TrimEnd(s, ws) == s;
  }

  /** Trimming twice is trimming once. */
  lemma TrimIdempotent(s: string, ws: set<char>)
    ensures Trim(Trim(s, ws), ws) == Trim(s, ws)
  {
    TrimOfTrimmed(Trim(s, ws), ws);
  }

  /** A trimmed string stays trimmed when a prefix that starts with a non-whitespace character is put in front of it. */
  lemma PrefixKeepsTrimmed(prefix: string, s: string, ws: set<char>)
    requires Trimmed(s, ws) && prefix != [] && prefix[0] !in ws
    requires s == [] ==> prefix[|prefix| - 1] !in ws
    ensures Trimmed(prefix + s, ws)
  {
  }

  function DigitChar(d: nat): (c: char)
    requires d < 10
    ensures '0' <= c <= '9'
  {
    (('0' as int) + d) as char
  }

  predicate AllDigits(s: string) {
    forall k :: 0 <= k < |s| ==> '0' <= s[k] <= '9'
  }

  /** The decimal text of `n`, as JavaScript writes a non-negative integer Number. */
  function DecimalString(n: nat): (r: string)
    ensures |r| >= 1 && AllDigits(r)
    ensures (r[0] == '0') == (n == 0)
  {
    if n < 10 then [DigitChar(n)] else DecimalString(n / 10) + [DigitChar(n % 10)]
  }

  /** The number a string of decimal digits denotes. */
  function DecimalValue(s: string): nat
    requires AllDigits(s)
  {
    if s == [] then 0 else DecimalValue(s[..|s| - 1]) * 10 + (s[|s| - 1] as int - '0' as int)
  }

  /** Reading back the decimal text of `n` gives `n`: no two status codes share a message. */
  lemma {:induction false} DecimalRoundTrip(n: nat)
    ensures DecimalValue(DecimalString(n)) == n
  {
    var r := DecimalString(n);
    if n >= 10 {
      DecimalRoundTrip(n / 10);
      assert r[..|r| - 1] == DecimalString(n / 10);
    }
  }
}
