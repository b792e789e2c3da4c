/**
  The two predicates of the URL checker. The checker collects a run of
  URL-constituent characters starting at a position and then validates the
  whole run once. Which characters are web-site characters and which strings
  are URLs are decided by library code outside this model, so both are
  parameters here; so is the maximum URL length.
*/
module WordCheckUrl {

  /** The maximum length of a URL run, as the class comment of the checker gives it. */
  const DefaultMaxWebSiteLen: nat := 70

  /** The shortest buffer that can be a URL ("a.cn"). */
  const MinUrlLen: nat := 4

  /** The type code this checker reports for its matches. */
  const UrlTypeCode: string := "URL"

  /** The type code of every match of this checker. */
  function GetType(): (code: string)
    ensures code == UrlTypeCode
  {
    UrlTypeCode
  }

  /** May the (normalised) character c belong to a URL run? */
  function IsCharCondition(isWebSiteChar: char -> bool, c: char): (ok: bool)
    ensures c == ':' || c == '/' ==> ok
    ensures isWebSiteChar(c) ==> ok
    ensures ok ==> isWebSiteChar(c) || c in {':', '/'}
  {
    isWebSiteChar(c) || c == ':' || c == '/'
  }

  /** Is a collected buffer accepted as a URL? Too short or too long buffers are refused before the URL test. */
  function IsStringCondition(isUrl: string -> bool, maxWebSiteLen: nat, buffer: string): (ok: bool)
    ensures |buffer| < MinUrlLen ==> !ok
    ensures |buffer| > maxWebSiteLen ==> !ok
    ensures ok <==> MinUrlLen <= |buffer| <= maxWebSiteLen && isUrl(buffer)
  {
    var bufferLen := |buffer|;
    if bufferLen < MinUrlLen then false
    else if bufferLen > maxWebSiteLen then false
    else isUrl(buffer)
  }

  /** With a maximum below 4 no buffer is ever a URL; with the default 70, "a.cn" passes the length gate. */
  lemma LengthGateExamples(isUrl: string -> bool, buffer: string)
    ensures forall m: nat :: m < MinUrlLen ==> !IsStringCondition(isUrl, m, buffer)
    ensures IsStringCondition(isUrl, DefaultMaxWebSiteLen, "a.cn") == isUrl("a.cn")
    ensures !IsStringCondition(isUrl, DefaultMaxWebSiteLen, "a.c")
  {
  }
}
