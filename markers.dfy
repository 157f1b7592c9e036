/**
 * The literal marker strings through which `chat` reports failures, and the classification
 * of a reply by those markers that model negotiation applies to each probe (app.py:127-141).
 */
module Markers {
  import opened Text

  /** U+26A0 WARNING SIGN followed by U+FE0F VARIATION SELECTOR-16. */
  const Warning := "\U{26A0}\U{FE0F}"
  const InvalidPayment := "INVALID_PAYMENT_INSTRUMENT"
  const AwsError := "AWS Error"
  const ErrorColon := "Error:"

  /** The reply for a ClientError whose message mentions an invalid payment instrument. */
  const PaymentPendingReply := Warning + " Payment method verification pending (wait 5-15 min)"

  /** The verdict on one probe reply; the first two are the two rejecting branches. */
  datatype ProbeVerdict = PaymentPending | NotAccessible | Usable

  function Classify(reply: string): (v: ProbeVerdict)
    ensures v == Usable <==>
              && !Contains(reply, Warning) && !Contains(reply, InvalidPayment)
              && !Contains(reply, AwsError) && !Contains(reply, ErrorColon)
    ensures v == PaymentPending <==> Contains(reply, Warning) || Contains(reply, InvalidPayment)
  {
    if Contains(reply, Warning) || Contains(reply, InvalidPayment) then PaymentPending
    else if Contains(reply, AwsError) || Contains(reply, ErrorColon) then NotAccessible
    else Usable
  }
}
