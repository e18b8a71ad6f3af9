/** OTP request statuses, and delivery messages with their events. */
module Messages {
  import opened Prelude

  datatype OtpStatus = Created | Queued | Sent | Delivered | Verified | Expired | Failed | Blocked

  /** The values shared by `messages.status` and `message_events.event_type`. */
  datatype DeliveryState = MsgQueued | MsgSent | MsgDelivered | MsgRead | MsgFailed | MsgDeleted

  /** A row of `messages` with its event rows, oldest first. */
  datatype Message = Message(request: string, wamid: Option<string>, status: DeliveryState, events: seq<DeliveryState>)
}
