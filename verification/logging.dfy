/** The log-field truncation used when the telemetry line is fitted to its
    length budget. */
module Logging {

  /** The prefix slice `s[:k]` with Python's rules: a non-negative `k` keeps at
      most `k` characters, a negative `k` drops `-k` characters from the end
      (everything when `-k` exceeds the length). */
  function PrefixSlice(s: string, k: int): (r: string)
    ensures r <= s
    ensures k >= 0 ==> |r| == (if k <= |s| then k else |s|)
    ensures k < 0 ==> |r| == (if |s| + k >= 0 then |s| + k else 0)
  {
    if k >= 0 then (if k <= |s| then s[..k] else s)
    else if |s| + k >= 0 then s[..|s| + k]
    else []
  }

  /** A string within the budget is kept; a longer one is cut and marked with
      an ellipsis. For a budget of at least three characters the result fills
      the budget exactly. */
  function Truncate(value: string, maxLength: int): (r: string)
    ensures |value| <= maxLength ==> r == value
    ensures |value| > maxLength ==> |r| >= 3 && r[|r| - 3..] == "..." && r[..|r| - 3] <= value
    ensures |value| > maxLength && maxLength >= 3 ==> |r| == maxLength && r == value[..maxLength - 3] + "..."
  {
    if |value| <= maxLength then value
    else PrefixSlice(value, maxLength - 3) + "..."
  }

  /** With a budget of at least three characters the result never exceeds it,
      so truncating twice is the same as truncating once. */
  lemma TruncateIdempotent(value: string, maxLength: int)
    requires maxLength >= 3
    ensures |Truncate(value, maxLength)| <= maxLength
    ensures Truncate(Truncate(value, maxLength), maxLength) == Truncate(value, maxLength)
  {
  }

  /** Below three characters the negative slice index makes the length
      irregular: a cut string is `max(3, |value| + maxLength)` long, which can
      exceed both the budget and the original string. */
  lemma TruncateShortBudget(value: string, maxLength: int)
    requires maxLength < 3 && |value| > maxLength
    ensures |Truncate(value, maxLength)| == (if |value| + maxLength >= 3 then |value| + maxLength else 3)
  {
  }

  /** Two cut strings, for example: "abc" with budget 2 becomes "ab...", longer
      than the original, and "abcdef" with budget 0 becomes "abc...". */
  lemma TruncateShortBudgetExamples()
    ensures Truncate("abc", 2) == "ab..."
    ensures Truncate("abcdef", 0) == "abc..."
  {
  }
}
