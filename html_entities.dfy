/**
 * ApiClient.decodeHtmlEntities: nine literal String.replaceAll calls in a
 * fixed order.  None of the nine patterns or replacements contains a regular
 * expression metacharacter, so each call is a plain left-to-right,
 * non-overlapping replacement of every occurrence.
 */
module Entities {

  predicate StartsWith(s: string, prefix: string)
  {
    |prefix| <= |s| && s[..|prefix|] == prefix
  }

  /** The pattern occurs nowhere in s. */
  predicate Absent(s: string, pattern: string)
  {
    forall i :: 0 <= i <= |s| ==> !StartsWith(s[i..], pattern)
  }

  /**
   * String.replaceAll with a literal pattern: scanning from the left, each
   * occurrence is replaced and scanning resumes after it.
   */
  function ReplaceAll(s: string, pattern: string, replacement: string): (r: string)
    requires pattern != []
    decreases |s|
  {
    if s == [] then []
    else if StartsWith(s, pattern) then replacement + ReplaceAll(s[|pattern|..], pattern, replacement)
    else [s[0]] + ReplaceAll(s[1..], pattern, replacement)
  }

  /** The replacements of decodeHtmlEntities, in the order they are applied. */
  const Replacements: seq<(string, string)> := [
    ("&quot;", "\""),
    ("&amp;", "&"),
    ("&lt;", "<"),
    ("&gt;", ">"),
    ("&#039;", "'"),
    ("&rsquo;", "'"),
    ("&lsquo;", "'"),
    ("&rdquo;", "\""),
    ("&ldquo;", "\"")
  ]

  /** Applies the replacements from position k of the table on, one after the other. */
  function DecodeFrom(s: string, k: nat): (r: string)
    requires k <= |Replacements|
    decreases |Replacements| - k
  {
    if k == |Replacements| then s
    else DecodeFrom(ReplaceAll(s, Replacements[k].0, Replacements[k].1), k + 1)
  }

  /** Every entity is longer than the character it stands for, so decoding never lengthens the text. */
  function DecodeHtmlEntities(input: string): (decoded: string)
    ensures |decoded| <= |input|
  {
    DecodeFromLength(input, 0);
    DecodeFrom(input, 0)
  }

  /** Replacing a pattern by something no longer never lengthens the text. */
  lemma {:induction false} ReplaceAllLength(s: string, pattern: string, replacement: string)
    requires pattern != [] && |replacement| <= |pattern|
    ensures |ReplaceAll(s, pattern, replacement)| <= |s|
    decreases |s|
  {
    if s != [] {
      if StartsWith(s, pattern) {
        ReplaceAllLength(s[|pattern|..], pattern, replacement);
      } else {
        ReplaceAllLength(s[1..], pattern, replacement);
      }
    }
  }

  /** Every entity in the table is longer than what replaces it, so no pass lengthens the text. */
  lemma {:induction false} DecodeFromLength(s: string, k: nat)
    requires k <= |Replacements|
    ensures |DecodeFrom(s, k)| <= |s|
    decreases |Replacements| - k
  {
    if k < |Replacements| {
      assert |Replacements[k].1| <= |Replacements[k].0|;
      ReplaceAllLength(s, Replacements[k].0, Replacements[k].1);
      DecodeFromLength(ReplaceAll(s, Replacements[k].0, Replacements[k].1), k + 1);
    }
  }

  /** A pattern that does not occur leaves the string as it is. */
  lemma {:induction false} ReplaceAllAbsent(s: string, pattern: string, replacement: string)
    requires pattern != [] && Absent(s, pattern)
    ensures ReplaceAll(s, pattern, replacement) == s
    decreases |s|
  {
    if s != [] {
      assert s[0..] == s;
      assert Absent(s[1..], pattern) by {
        forall i | 0 <= i <= |s[1..]|
          ensures !StartsWith(s[1..][i..], pattern)
        {
          assert s[1..][i..] == s[i + 1..];
        }
      }
      ReplaceAllAbsent(s[1..], pattern, replacement);
    }
  }

  /** A pattern whose first character s does not contain cannot occur in s. */
  lemma AbsentByFirstChar(s: string, pattern: string)
    requires pattern != []
    requires forall i :: 0 <= i < |s| ==> s[i] != pattern[0]
    ensures Absent(s, pattern)
  {
    forall i | 0 <= i <= |s|
      ensures !StartsWith(s[i..], pattern)
    {
      if i < |s| {
        assert s[i..][0] == s[i];
      }
    }
  }

  /** A pattern that does not start s and whose first character is not in the rest of s cannot occur in s. */
  lemma AbsentAfterHead(s: string, pattern: string)
    requires pattern != [] && s != [] && !StartsWith(s, pattern)
    requires forall i :: 1 <= i < |s| ==> s[i] != pattern[0]
    ensures Absent(s, pattern)
  {
    AbsentByFirstChar(s[1..], pattern);
    forall i | 0 <= i <= |s|
      ensures !StartsWith(s[i..], pattern)
    {
      if i > 0 {
        assert s[i..] == s[1..][i - 1..];
      }
    }
  }

  lemma {:induction false} DecodeFromWithoutAmpersand(s: string, k: nat)
    requires k <= |Replacements|
    requires forall i :: 0 <= i < |s| ==> s[i] != '&'
    ensures DecodeFrom(s, k) == s
    decreases |Replacements| - k
  {
    if k < |Replacements| {
      assert Replacements[k].0[0] == '&';
      AbsentByFirstChar(s, Replacements[k].0);
      ReplaceAllAbsent(s, Replacements[k].0, Replacements[k].1);
      DecodeFromWithoutAmpersand(s, k + 1);
    }
  }

  /** Input without '&' is returned unchanged. */
  lemma DecodeWithoutAmpersand(s: string)
    requires forall i :: 0 <= i < |s| ==> s[i] != '&'
    ensures DecodeHtmlEntities(s) == s
  {
    DecodeFromWithoutAmpersand(s, 0);
  }

  /**
   * Because "&quot;" is replaced before "&amp;", an escaped entity is
   * unescaped only once: "&amp;quot;" becomes "&quot;", not a double quote.
   */
  lemma DecodeAmpQuot()
    ensures DecodeHtmlEntities("&amp;quot;") == "&quot;"
    ensures DecodeHtmlEntities("&amp;quot;") != "\""
  {
    DecodeFirstTwo("&amp;quot;");
    QuotSkipsAmpQuot();
    AmpOfAmpQuot();
    QuotSurvivesTheRest();
  }

  /** decodeHtmlEntities starts with "&quot;" and then "&amp;". */
  lemma DecodeFirstTwo(s: string)
    ensures DecodeHtmlEntities(s) == DecodeFrom(ReplaceAll(ReplaceAll(s, "&quot;", "\""), "&amp;", "&"), 2)
  {
    assert Replacements[0] == ("&quot;", "\"") && Replacements[1] == ("&amp;", "&");
  }

  lemma QuotSkipsAmpQuot()
    ensures ReplaceAll("&amp;quot;", "&quot;", "\"") == "&amp;quot;"
  {
    var s := "&amp;quot;";
    assert s[..6][1] != "&quot;"[1];
    AbsentAfterHead(s, "&quot;");
    ReplaceAllAbsent(s, "&quot;", "\"");
  }

  lemma AmpOfAmpQuot()
    ensures ReplaceAll("&amp;quot;", "&amp;", "&") == "&quot;"
  {
    var s := "&amp;quot;";
    assert StartsWith(s, "&amp;");
    assert s[5..] == "quot;";
    AbsentByFirstChar("quot;", "&amp;");
    ReplaceAllAbsent("quot;", "&amp;", "&");
  }

  /** None of the last seven patterns occurs in "&quot;". */
  lemma QuotSurvivesTheRest()
    ensures DecodeFrom("&quot;", 2) == "&quot;"
  {
    var s := "&quot;";
    forall k | 2 <= k < |Replacements|
      ensures Absent(s, Replacements[k].0)
    {
      var pattern := Replacements[k].0;
      assert pattern[1] != 'q';
      if |pattern| <= |s| {
        assert s[..|pattern|][1] == 'q';
      }
      AbsentAfterHead(s, pattern);
    }
    RemainingEntitiesAbsent(s, 2);
  }

  lemma {:induction false} RemainingEntitiesAbsent(s: string, k: nat)
    requires k <= |Replacements|
    requires forall j :: k <= j < |Replacements| ==> Absent(s, Replacements[j].0)
    ensures DecodeFrom(s, k) == s
    decreases |Replacements| - k
  {
    if k < |Replacements| {
      ReplaceAllAbsent(s, Replacements[k].0, Replacements[k].1);
      RemainingEntitiesAbsent(s, k + 1);
    }
  }
}
