/**
 * Output truncation: a stream longer than the limit keeps its first `limit`
 * characters and gains a notice that names the limit.
 */
module Truncate {
  import opened Wrappers
  import Decimal

  const NoticeHead: string := "\n\n[Output truncated: exceeded "
  const NoticeTail: string := " character limit]"

  /** The notice appended to truncated text. */
  function Notice(limit: nat): (m: string)
    ensures |m| > |NoticeHead| + |NoticeTail|
    ensures m[..|NoticeHead|] == NoticeHead && m[|m| - |NoticeTail|..] == NoticeTail
    ensures Decimal.Canonical(m[|NoticeHead|..|m| - |NoticeTail|])
    ensures Decimal.ParseDecimal(m[|NoticeHead|..|m| - |NoticeTail|]) == limit
  {
    var digits := Decimal.NatToDecimal(limit);
    Decimal.ParseNatToDecimal(limit);
    var m := NoticeHead + digits + NoticeTail;
    assert m[|NoticeHead|..|m| - |NoticeTail|] == digits;
    m
  }

  /** The text a possibly absent stream stands for: absent reads as empty. */
  function Text(text: Option<string>): string {
    text.GetOr("")
  }

  function Min(a: nat, b: nat): nat {
    if a <= b then a else b
  }

  /** `truncateText`: absent or empty text is "", short text is kept, long text is cut and marked. */
  function TruncateText(text: Option<string>, limit: nat): (r: string)
    ensures |r| <= limit <==> |Text(text)| <= limit
    ensures |r| <= limit ==> r == Text(text)
    ensures |r| <= limit + |Notice(limit)|
    ensures |r| >= Min(|Text(text)|, limit)
    ensures r[..Min(|Text(text)|, limit)] == Text(text)[..Min(|Text(text)|, limit)]
  {
    match text
    case None => ""
    case Some(t) =>
      if t == "" then ""
      else if |t| <= limit then t
      else t[..limit] + Notice(limit)
  }

  /** Reads the limit back out of a notice; None for anything that is not one. */
  function ParseNotice(s: string): Option<nat> {
    if |s| > |NoticeHead| + |NoticeTail|
       && s[..|NoticeHead|] == NoticeHead
       && s[|s| - |NoticeTail|..] == NoticeTail
       && Decimal.AllDigits(s[|NoticeHead|..|s| - |NoticeTail|])
    then Some(Decimal.ParseDecimal(s[|NoticeHead|..|s| - |NoticeTail|]))
    else None
  }

  /** The notice names its limit: parsing it gives the limit back. */
  lemma ParseNoticeOfNotice(limit: nat)
    ensures ParseNotice(Notice(limit)) == Some(limit)
  {
    var s := Notice(limit);
    assert Decimal.AllDigits(s[|NoticeHead|..|s| - |NoticeTail|]);
  }

  /** Text longer than the limit becomes exactly its first `limit` characters and the notice naming `limit`. */
  lemma TruncatedText(t: string, limit: nat)
    requires |t| > limit
    ensures TruncateText(Some(t), limit) == t[..limit] + Notice(limit)
    ensures |TruncateText(Some(t), limit)| == limit + |Notice(limit)|
    ensures ParseNotice(TruncateText(Some(t), limit)[limit..]) == Some(limit)
  {
    var r := TruncateText(Some(t), limit);
    assert r[limit..] == Notice(limit);
    ParseNoticeOfNotice(limit);
  }

  /** Absent or empty text truncates to "", and text within the limit is returned as it is. */
  lemma ShortTextUnchanged(text: Option<string>, limit: nat)
    ensures text == None || text == Some("") ==> TruncateText(text, limit) == ""
    ensures text.Some? && |text.value| <= limit ==> TruncateText(text, limit) == text.value
  {
  }

  /** Truncating an already truncated stream changes nothing. */
  lemma TruncateIdempotent(text: Option<string>, limit: nat)
    ensures TruncateText(Some(TruncateText(text, limit)), limit) == TruncateText(text, limit)
  {
    var t := Text(text);
    var r := TruncateText(text, limit);
    if |t| > limit {
      assert r == t[..limit] + Notice(limit);
      assert r[..limit] == t[..limit];
    }
  }

  /** The caller cannot confuse two limits: distinct limits give distinct notices. */
  lemma NoticeInjective(a: nat, b: nat)
    requires Notice(a) == Notice(b)
    ensures a == b
  {
    ParseNoticeOfNotice(a);
    ParseNoticeOfNotice(b);
  }
}
