/**
 The pacing policy of the streamed-answer reader: whether the text buffered since
 the last update should be pushed into the visible answer now.
 */
module Pacing {
  import opened Text

  /** Minimum time between two updates, in milliseconds. */
  const UpdateInterval: int := 30

  /** A buffer longer than this (in UTF-16 code units) is flushed without a natural break. */
  const LengthCeiling: nat := 15

  /** The characters the sentence-end pattern `[.!?\n]` accepts. */
  predicate IsBreakChar(c: char) {
    c == '.' || c == '!' || c == '?' || c == '\n'
  }

  /** Position `k` holds a sentence-end character followed only by whitespace. */
  predicate BreakAt(b: string, k: int) {
    0 <= k < |b| && IsBreakChar(b[k]) && AllJsSpace(b[k + 1..])
  }

  /** `/[.!?\n]\s*$/.test(b)`, decided by scanning back over trailing whitespace. */
  function EndsWithSentenceBreak(b: string): (r: bool)
    ensures r <==> exists k :: BreakAt(b, k)
  {
    if b == [] then false
    else
      var last := |b| - 1;
      if IsBreakChar(b[last]) then
        assert BreakAt(b, last) by { assert b[last + 1..] == []; }
        true
      else if IsJsSpace(b[last]) then
        var r := EndsWithSentenceBreak(b[..last]);
        assert forall k :: BreakAt(b[..last], k) <==> BreakAt(b, k) by {
          forall k ensures BreakAt(b[..last], k) <==> BreakAt(b, k) {
            if 0 <= k < last {
              assert b[k + 1..] == b[..last][k + 1..] + [b[last]];
            }
          }
        }
        r
      else
        assert forall k :: !BreakAt(b, k) by {
          forall k ensures !BreakAt(b, k) {
            if 0 <= k < last {
              assert b[k + 1..][last - k - 1] == b[last];
            }
          }
        }
        false
  }

  /** `/\s$/.test(b)`: the buffer ends in whitespace. */
  predicate EndsWithSpace(b: string) {
    |b| > 0 && IsJsSpace(b[|b| - 1])
  }

  /**
   The flush decision: enough time has passed since the last update AND the buffer
   ends a sentence, ends a word that was in progress before this chunk, or has
   grown past the length ceiling.
   */
  function ShouldFlush(buffer: string, elapsed: int, inWord: bool): (r: bool)
    ensures r ==> elapsed >= UpdateInterval && |buffer| > 0
  {
    && elapsed >= UpdateInterval
    && (|| EndsWithSentenceBreak(buffer)
        || (EndsWithSpace(buffer) && inWord)
        || Utf16Length(buffer) > LengthCeiling)
  }
}
