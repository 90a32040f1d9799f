/** The one helper of cmd/project.go that the model keeps: `truncateString`. */
module ProjectCommand {
  import opened Disk

  /** The bytes of "...". */
  const Ellipsis: seq<Byte> := [46, 46, 46]

  /** `truncateString(s, maxLen)` on the bytes of s: a string that fits is
      returned as is; a longer one keeps its first maxLen - 3 bytes and ends
      in "...". Go panics on the slice when maxLen < 3, hence the requires. */
  function TruncateString(s: seq<Byte>, maxLen: int): (r: seq<Byte>)
    requires |s| <= maxLen || maxLen >= 3
    ensures |s| <= maxLen ==> r == s
    ensures |s| > maxLen ==> |r| == maxLen && r[..maxLen - 3] == s[..maxLen - 3] && r[maxLen - 3..] == Ellipsis
  {
    if |s| <= maxLen then s else s[..maxLen - 3] + Ellipsis
  }

  /** The result never exceeds maxLen, and is a prefix of s or s cut short and marked. */
  lemma TruncateFits(s: seq<Byte>, maxLen: int)
    requires |s| <= maxLen || maxLen >= 3
    ensures |TruncateString(s, maxLen)| <= maxLen
    ensures TruncateString(s, maxLen) == s || TruncateString(s, maxLen) == s[..maxLen - 3] + Ellipsis
  {
    if |s| > maxLen {
      assert TruncateString(s, maxLen) == s[..maxLen - 3] + Ellipsis;
    }
  }

  /** Truncating a truncated string again changes nothing. */
  lemma TruncateIdempotent(s: seq<Byte>, maxLen: int)
    requires |s| <= maxLen || maxLen >= 3
    ensures TruncateString(TruncateString(s, maxLen), maxLen) == TruncateString(s, maxLen)
  {
    TruncateFits(s, maxLen);
  }
}
