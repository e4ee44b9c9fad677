/**
 * app.py: the part of this server that backend/train_wear_tear_model.py
 * does not share (the rest is module `AnalysisServer`): its POST-only eBay
 * notification endpoint, which reports a body it cannot decode.
 */
module RootApp {

  /** A reply: status code and the one key and value of its JSON body. */
  datatype Reply = Reply(status: int, key: string, value: string)

  /** `ebay_notify()`: `payloadDecodes` says whether `request.get_json()` returns instead of raising. */
  function EbayNotify(payloadDecodes: bool): (r: Reply)
    ensures payloadDecodes ==> r == Reply(200, "status", "received")
    ensures !payloadDecodes ==> r == Reply(500, "error", "Notification error")
  {
    if payloadDecodes then Reply(200, "status", "received")
    else Reply(500, "error", "Notification error")
  }

  /** The endpoint succeeds exactly when the body decodes. */
  lemma NotifyStatus(payloadDecodes: bool)
    ensures EbayNotify(payloadDecodes).status == 200 <==> payloadDecodes
    ensures EbayNotify(payloadDecodes).status in {200, 500}
  {
  }
}
