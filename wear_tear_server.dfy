/**
 * backend/train_wear_tear_model.py: the parts of this server that app.py
 * does not share (the rest is module `AnalysisServer`): the eBay
 * notification endpoint, which answers eBay's verification challenge on
 * GET and acknowledges every POST.
 */
module WearTearServer {
  import opened Wrappers

  /** The two methods the route accepts; Flask answers any other itself. */
  datatype Method = Get | Post

  /** A reply: status code and plain-text body. */
  datatype Reply = Reply(status: int, body: string)

  /**
   * `ebay_notify()`. `challengeCode` is the `challenge_code` query
   * argument; `payloadReadable` says whether reading the POST body
   * succeeds, which cannot change the answer since every path acknowledges.
   */
  function EbayNotify(verb: Method, challengeCode: Option<string>, payloadReadable: bool): (r: Reply)
    ensures verb == Get && challengeCode.Some? && challengeCode.value != "" ==> r == Reply(200, challengeCode.value)
    ensures verb == Get && (challengeCode.None? || challengeCode == Some("")) ==> r == Reply(400, "Challenge code required")
    ensures verb == Post ==> r == Reply(200, "")
  {
    match verb
    case Get =>
      (match challengeCode
       case Some(challenge) => if challenge != "" then Reply(200, challenge) else Reply(400, "Challenge code required")
       case None => Reply(400, "Challenge code required"))
    case Post => Reply(200, "")
  }

  /** A GET succeeds exactly when it echoes a non-empty challenge, and echoes it verbatim. */
  lemma ChallengeEcho(challengeCode: Option<string>)
    ensures EbayNotify(Get, challengeCode, true).status == 200
        <==> challengeCode.Some? && challengeCode.value != ""
    ensures EbayNotify(Get, challengeCode, true).status == 200 ==>
        EbayNotify(Get, challengeCode, true).body == challengeCode.value
  {
  }

  /** eBay never sees a POST fail, so it never retries one. */
  lemma PostAlwaysAcknowledged(challengeCode: Option<string>, payloadReadable: bool)
    ensures EbayNotify(Post, challengeCode, payloadReadable).status == 200
    ensures EbayNotify(Post, challengeCode, payloadReadable) == EbayNotify(Post, None, true)
  {
  }
}
