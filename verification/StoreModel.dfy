/** The run store's vocabulary: statuses, manifests, pending transitions and logged events. */
module StoreModel {
  import opened Base

  datatype Status =
    | Queued | Preflight | R1Running | R1Gate | R2Packet | R2Running | R2Gate | R3Cc
    | WaitingPrimaryArbiter | Merging | Completed | Degraded | Failed | FailedPolicy | Cancelling | Cancelled

  predicate Terminal(s: Status)
  {
    s.Completed? || s.Degraded? || s.Failed? || s.FailedPolicy? || s.Cancelled?
  }

  predicate TransitionAllowed(from: Status, to: Status)
  {
    if from == to then true
    else if to.Failed? || to.FailedPolicy? || to.Cancelling? || to.Cancelled? then !Terminal(from)
    else match from
      case Queued => to.Preflight?
      case Preflight => to.R1Running?
      case R1Running => to.R1Gate?
      case R1Gate => to.R2Packet? || to.R2Running? || to.R2Gate?
      case R2Packet => to.R2Running? || to.R2Gate?
      case R2Running => to.R2Gate?
      case R2Gate => to.R3Cc? || to.WaitingPrimaryArbiter?
      case R3Cc => to.WaitingPrimaryArbiter? || to.Merging?
      case WaitingPrimaryArbiter => to.Merging?
      case Merging => to.Completed? || to.Degraded?
      case _ => false
  }

  /** The fields a transition sets, and one value standing for all others. */
  datatype Manifest = Manifest(status: Status, phase: Option<string>, cancelled: bool, rest: string)

  /** The write-ahead record of one status change. */
  datatype Change = Change(
    id: string, timestamp: string, from: Status, to: Status, requested: Status,
    phase: Option<string>, detail: string)

  datatype Body = Moved(change: Change) | Noted(kind: string)

  datatype Event = Event(sequence: nat, body: Body)

  /** The event serializer and parser, and the schemas that gate what is written. */
  datatype Codec = Codec(
    encode: Event -> string,
    decode: string -> Option<Event>,
    eventOk: Event -> bool,
    manifestOk: Manifest -> bool)
  {
    /** An event prints as one nonempty line that parses back to it. */
    ghost predicate Prints(e: Event)
    {
      encode(e) != "" && '\n' !in encode(e) && decode(encode(e)) == Some(e)
    }

    /** No proper piece of a printed event parses. */
    ghost predicate RefusesPiece(e: Event, k: nat)
    {
      k < |encode(e)| ==> decode(encode(e)[..k]) == None
    }

    ghost predicate Valid()
    {
      (forall e :: Prints(e)) && (forall e, k: nat :: RefusesPiece(e, k))
    }
  }
}
